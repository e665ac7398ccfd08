/** One authoritative snapshot per operation, the phase guards over it, and the exact
    workspace checks the operations share. */
module Snapshots {
  import opened Wrappers
  import opened CommitDag
  import opened Protocol
  import opened World

  /** `other` stands for the guards that are not identity arithmetic: profile, labels,
      blockers and Project Status. */
  datatype Snapshot = Snapshot(resolved: bool, other: bool, remote: Option<Commit>, local: Option<Commit>,
                               onTask: bool, clean: bool, main: Commit, pr: Option<Pr>, body: Hash)

  predicate Consistent(remote: Option<Commit>, local: Option<Commit>, pr: Option<Pr>) {
    pr.Some? ==> (remote.Some? || local.Some?) && (remote.Some? ==> remote.value == pr.value.head)
  }

  function OpenPr(pr: Option<Pr>): Option<Pr> {
    if pr.Some? && pr.value.open then pr else None
  }

  /** Before anything has been read. */
  const UNSEEN := Snapshot(false, false, None, None, false, false, UNBORN, None, 0)

  /** What an undisturbed acquisition sees. */
  function Sees(s: State, local: bool): Snapshot {
    var branch := if local then s.work.branch else None;
    Snapshot(Consistent(s.remote, branch, OpenPr(s.pr)), true, s.remote, branch, local && s.work.head.OnTask?,
             local && s.work.Clean(), s.main, OpenPr(s.pr), s.body)
  }

  /** Each fact of `x` was true at some moment of the run from `since` on. */
  ghost predicate Observed(t: seq<Event>, since: nat, x: Snapshot) {
    && (exists k: nat :: since <= k < |t| && t[k].s.main == x.main && t[k].s.body == x.body)
    && (exists k: nat :: since <= k < |t| && t[k].s.remote == x.remote)
    && (exists k: nat :: since <= k < |t| && OpenPr(t[k].s.pr) == x.pr)
  }

  lemma {:induction false} StillObserved(t: seq<Event>, u: seq<Event>, since: nat, x: Snapshot)
    requires Observed(t, since, x) && t <= u
    ensures Observed(u, since, x)
  {
    var facts: nat :| since <= facts < |t| && t[facts].s.main == x.main && t[facts].s.body == x.body;
    var ref: nat :| since <= ref < |t| && t[ref].s.remote == x.remote;
    var pr: nat :| since <= pr < |t| && OpenPr(t[pr].s.pr) == x.pr;
    assert u[facts] == t[facts] && u[ref] == t[ref] && u[pr] == t[pr];
  }

  /** Facts are read one after the other while other writers move. */
  method Acquire(w: Repo, local: bool) returns (x: Snapshot)
    requires w.Sound()
    modifies w
    ensures w.Sound() && old(w.trace) <= w.trace && Rely(old(w.s), w.s)
    ensures x.local == (if local then w.s.work.branch else None)
    ensures x.onTask == (local && w.s.work.head.OnTask?) && x.clean == (local && w.s.work.Clean())
    ensures x.resolved ==> Consistent(x.remote, x.local, x.pr) && w.failures == old(w.failures)
    ensures x.pr.Some? ==> x.pr.value.open
    ensures Observed(w.trace, |old(w.trace)| - 1, x) && x.pr == OpenPr(w.s.pr)
    // No writer came in between if the head still owes its Review.
    ensures Tracked(w.s.origin) ==> x.remote == w.s.remote
    ensures w.calm ==> x == Sees(w.s, local).(other := x.other) && w.s == old(w.s) && w.trace == old(w.trace)
    ensures w.quiet ==> x.other
  {
    var factsRead := w.Query();
    var main, body := w.s.main, w.s.body;
    ghost var facts := |w.trace| - 1;
    var branch := if local then w.s.work.branch else None;
    var onTask, clean := local && w.s.work.head.OnTask?, local && w.s.work.Clean();
    var remoteRead, remote := w.ReadRemote();
    ghost var ref := |w.trace| - 1;
    var prRead := w.Query();
    var pr := OpenPr(w.s.pr);
    assert w.trace[facts].s.main == main && w.trace[facts].s.body == body;
    assert w.trace[ref].s.remote == remote && OpenPr(w.trace[|w.trace| - 1].s.pr) == pr;
    var other: bool := *;
    x := Snapshot(factsRead && remoteRead && prRead && Consistent(remote, branch, pr), other || w.quiet,
                  remote, branch, onTask, clean, main, pr, body);
  }

  // ---- phase guards ----------------------------------------------------------

  predicate RefreshEligible(x: Snapshot) {
    && x.resolved && x.other && x.pr.Some?
    && var pr := x.pr.value;
       && !pr.draft && pr.base == x.main && pr.sameBranch && pr.sameRepo
       && x.remote == Some(pr.head) && x.local == Some(pr.head) && x.onTask && x.clean
  }

  datatype RepairPhase = Prepare | NoChange | Complete

  predicate RemediationEligible(x: Snapshot, phase: RepairPhase, owned: bool) {
    && x.resolved && x.other && x.pr.Some?
    && var pr := x.pr.value;
       && !pr.draft && pr.base == x.main && x.remote == Some(pr.head)
       && (x.local.Some? ==> x.local == Some(pr.head) || (phase.Complete? && owned))
       && (phase.Prepare? || (x.local.Some? && x.onTask))
  }

  predicate DeliveryEligible(x: Snapshot) {
    && x.resolved && x.other && x.local.Some? && x.onTask
    && (x.pr.Some? ==> !x.pr.value.draft)
  }

  predicate ReviewEligible(x: Snapshot) {
    x.resolved && x.other && x.pr.Some? && !x.pr.value.draft
  }

  /** Nothing goes on from a snapshot that is unresolved or fails a guard of its own. */
  lemma {:induction false} EligibleIsResolved(x: Snapshot, phase: RepairPhase, owned: bool)
    requires RefreshEligible(x) || RemediationEligible(x, phase, owned) || DeliveryEligible(x) || ReviewEligible(x)
    ensures x.resolved && x.other
  {
  }

  /** Refresh starts on an OPEN, non-draft PR of this branch and repository on current main, with
      remote ref, branch and clean worktree all at its head; on nothing else. */
  lemma {:induction false} RefreshStartsOn(s: State)
    ensures RefreshEligible(Sees(s, true)) <==>
      && s.pr.Some? && s.pr.value.open && !s.pr.value.draft && s.pr.value.base == s.main
      && s.pr.value.sameBranch && s.pr.value.sameRepo
      && s.remote == Some(s.pr.value.head) && s.work.branch == Some(s.pr.value.head)
      && s.work.head == OnTask && s.work.files == s.work.index == s.pr.value.head.tree
  {
  }

  /** Remediation works on an OPEN, non-draft PR on current main whose head is the remote one.  A local
      branch is at that head, unless Complete recovers its own candidate; only Prepare can do without
      one, or without having it checked out. */
  lemma {:induction false} RemediationWorksOn(s: State, phase: RepairPhase, owned: bool)
    ensures RemediationEligible(Sees(s, true), phase, owned) <==>
      && s.pr.Some? && s.pr.value.open && !s.pr.value.draft && s.pr.value.base == s.main
      && s.remote == Some(s.pr.value.head)
      && (s.work.branch == None || s.work.branch == Some(s.pr.value.head) || (phase == Complete && owned))
      && (phase == Prepare || (s.work.branch != None && s.work.head == OnTask))
  {
  }

  /** Delivery works on the checked out Task branch; an OPEN PR must not be a draft, nor show another
      head than the remote ref. */
  lemma {:induction false} DeliveryWorksOn(s: State)
    ensures DeliveryEligible(Sees(s, true)) <==>
      && s.work.branch != None && s.work.head == OnTask
      && (s.pr.Some? && s.pr.value.open ==>
            !s.pr.value.draft && (s.remote == None || s.remote == Some(s.pr.value.head)))
  {
  }

  /** Review needs an OPEN, non-draft PR whose head is the remote one, and looks at no local branch. */
  lemma {:induction false} ReviewWorksOn(s: State)
    ensures ReviewEligible(Sees(s, false)) <==>
      s.pr.Some? && s.pr.value.open && !s.pr.value.draft && s.remote == Some(s.pr.value.head)
  {
  }

  // ---- exact workspace checks -------------------------------------------------

  method CurrentHead(w: Repo) returns (r: Outcome, head: Commit)
    requires w.Sound()
    modifies w
    ensures w.Sound() && old(w.trace) <= w.trace && Rely(old(w.s), w.s) && head == w.s.work.HeadCommit()
    ensures r.Done? ==> w.failures == old(w.failures)
    ensures r.Done? ==> !w.s.work.Unborn()
    ensures w.calm ==> r.Done? == !w.s.work.Unborn() && w.s == old(w.s) && w.trace == old(w.trace)
  {
    var ok := w.Query();
    head := w.s.work.HeadCommit();
    r := if ok && !w.s.work.Unborn() then Done else Stop;
  }

  method RequireCleanBranch(w: Repo, head: Commit) returns (r: Outcome)
    requires w.Sound()
    modifies w
    ensures w.Sound() && old(w.trace) <= w.trace && Rely(old(w.s), w.s)
    ensures r.Done? ==> w.failures == old(w.failures)
    ensures r.Done? ==> w.s.work.CleanAt(head)
    ensures w.calm ==> r.Done? == w.s.work.CleanAt(head) && w.s == old(w.s) && w.trace == old(w.trace)
  {
    var branchRead := w.Query();
    var headRead, current := CurrentHead(w);
    var statusRead := w.Query();
    r := if branchRead && w.s.work.head.OnTask? && headRead.Done? && current == head
            && statusRead && w.s.work.Clean()
         then Done else Stop;
  }

  /** Worktree equals index, index equals the validated tree, HEAD has not moved. */
  predicate TreeHeld(w: Work, tree: Tree, head: Commit) {
    w.files == w.index == tree && w.HeadCommit() == head && !w.Unborn()
  }

  method VerifyTreeUnchanged(w: Repo, tree: Tree, head: Commit) returns (r: Outcome)
    requires w.Sound()
    modifies w
    ensures w.Sound() && old(w.trace) <= w.trace && Rely(old(w.s), w.s)
    ensures r.Done? ==> w.failures == old(w.failures)
    ensures r.Done? ==> TreeHeld(w.s.work, tree, head)
    ensures w.calm ==> r.Done? == TreeHeld(w.s.work, tree, head) && w.s == old(w.s) && w.trace == old(w.trace)
  {
    var diffRead := w.Query();
    var statusRead := w.Query();
    var treeRead := w.Query();
    var headRead, current := CurrentHead(w);
    r := if diffRead && statusRead && w.s.work.files == w.s.work.index
            && treeRead && w.s.work.index == tree && headRead.Done? && current == head
         then Done else Stop;
  }
}
