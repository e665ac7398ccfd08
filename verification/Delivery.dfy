/** Delivery effects: commit exactly the validated tree, record it, push it without force. */
module Delivery {
  import opened Wrappers
  import opened CommitDag
  import opened Protocol
  import opened World
  import opened Snapshots

  /** The head an undisturbed completion delivers: the clean local head, or one new commit of
      the current files on top of it. */
  function DeliveredHead(s: State): Commit {
    if s.work.Clean() then s.work.HeadCommit()
    else Repo.Committed(s.(work := s.work.(index := s.work.files))).HeadCommit()
  }

  /** The store with the candidate bound to its prepared session, if there is one. */
  function WithCandidate(st: Store, h: Commit): Store {
    if st.session.None? then st else
      var ses := st.session.value;
      st.(session := Some(ses.(candidate := Some(Candidate(ses.op, ses.start, h, h.tree)))))
  }

  /** From position `from` on, the run only stops over at these durable states. */
  ghost predicate Visits(t: seq<Event>, from: nat, stops: set<State>) {
    from <= |t| && forall i: nat | from <= i < |t| :: Durable(t[i].s) in stops
  }

  /** The candidate tree staged, and the head built from it. */
  function Staged(s: State): State {
    if s.work.Clean() then s else s.(work := s.work.(index := s.work.files))
  }

  function Built(s: State): State {
    var h := DeliveredHead(s);
    s.(work := s.work.(branch := Some(h), index := h.tree))
  }

  /** Since then the remote Task ref has been seen at `h`. */
  ghost predicate RemoteSeen(t: seq<Event>, since: nat, h: Commit) {
    exists k: nat :: since <= k < |t| && t[k].s.remote == Some(h)
  }

  /** Since then an OPEN PR has been seen at `h` on the main of `x`: in a repair the non-draft one that `x`
      shows. */
  ghost predicate PrSeen(t: seq<Event>, since: nat, repair: bool, x: Snapshot, h: Commit) {
    exists k: nat :: since <= k < |t| && PrAt(t[k].s.pr, repair, x, h)
  }

  predicate PrAt(pr: Option<Pr>, repair: bool, x: Snapshot, h: Commit) {
    && pr.Some? && pr.value.open && pr.value.head == h && pr.value.base == x.main
    && (repair ==>
          x.pr.Some? && pr.value.number == x.pr.value.number && !pr.value.draft && pr.value.sameBranch)
  }

  /** What the handoff has proved about the remote side. */
  ghost predicate Shown(t: seq<Event>, since: nat, repair: bool, x: Snapshot, h: Commit) {
    RemoteSeen(t, since, h) && PrSeen(t, since, repair, x, h)
  }

  lemma {:induction false} StillSeen(t: seq<Event>, u: seq<Event>, from: nat, since: nat, repair: bool, x: Snapshot,
                                     h: Commit)
    requires t <= u && from <= since
    ensures RemoteSeen(t, since, h) ==> RemoteSeen(u, from, h)
    ensures PrSeen(t, since, repair, x, h) ==> PrSeen(u, from, repair, x, h)
  {
    if RemoteSeen(t, since, h) {
      var k: nat :| since <= k < |t| && t[k].s.remote == Some(h);
      assert u[k] == t[k];
    }
    if PrSeen(t, since, repair, x, h) {
      var k: nat :| since <= k < |t| && PrAt(t[k].s.pr, repair, x, h);
      assert u[k] == t[k];
    }
  }

  /** The session is `a`'s, with exactly this candidate bound to it. */
  predicate Bound(a: Store, b: Store, h: Commit) {
    a.session.Some? && Recordable(a.session.value, h) && b == WithCandidate(a, h)
  }

  predicate Recordable(ses: Session, h: Commit) {
    ses.candidate.None? || ses.candidate.value == Candidate(ses.op, ses.start, h, h.tree)
  }

  predicate Pushable(s: State, h: Commit) {
    s.work.head.OnTask? && s.work.branch == Some(h) && (s.remote.Some? ==> IsAncestor(s.remote.value, h))
  }

  function Synced(s: State, h: Commit): State {
    if s.remote == Some(h) then s else Repo.Pushed(s, h, PushOrigin(s.store, h), true)
  }

  predicate RepairedPr(pr: Option<Pr>, number: nat, main: Commit, h: Commit) {
    && pr.Some? && pr.value.number == number && pr.value.open && !pr.value.draft
    && pr.value.head == h && pr.value.base == main && pr.value.sameBranch
  }

  predicate Publishable(s: State, x: Snapshot, h: Commit) {
    && (s.store.session.Some? ==> Recordable(s.store.session.value, h)) && Pushable(s, h)
    && x.pr.Some? && RepairedPr(Synced(s, h).pr, x.pr.value.number, x.main, h)
  }

  /** A clean head differs from main, a dirty workspace from its head. */
  predicate HasDiff(s: State, differs: (Commit, Commit) -> bool) {
    if s.work.Clean() then differs(s.main, s.work.HeadCommit()) else s.work.files != s.work.HeadCommit().tree
  }

  /** When an undisturbed repair gets to its handoff: an OPEN, non-draft PR of this branch on current main
      with the remote ref at its head, and the local head at it or `owned`; a Task diff, a candidate that
      is or becomes that of the session, if there is one, and a fast-forward. */
  predicate Deliverable(s: State, owned: bool, differs: (Commit, Commit) -> bool) {
    && s.pr.Some? && s.pr.value.open && !s.pr.value.draft && s.pr.value.sameBranch && s.pr.value.base == s.main
    && s.remote == Some(s.pr.value.head) && s.work.head == OnTask && s.work.branch.Some?
    && (s.work.branch == s.remote || owned) && HasDiff(s, differs)
    && (s.store.session.Some? ==> Recordable(s.store.session.value, DeliveredHead(s)))
    && IsAncestor(s.remote.value, DeliveredHead(s))
  }

  /** When an undisturbed Delivery Complete gets to its handoff: the Task branch is checked out, an OPEN
      PR is no draft and shows the remote head, the remote Task ref is an ancestor of the delivered head,
      and the PR follows it on current main. */
  predicate DeliverableTask(s: State, differs: (Commit, Commit) -> bool) {
    && s.work.head == OnTask && s.work.branch.Some? && HasDiff(s, differs)
    && (s.pr.Some? && s.pr.value.open ==>
          !s.pr.value.draft && (s.remote == None || s.remote == Some(s.pr.value.head)))
    && (s.remote.Some? ==> IsAncestor(s.remote.value, DeliveredHead(s)))
    && PrFits(Synced(s, DeliveredHead(s)).pr, s.main, s.main, DeliveredHead(s))
  }

  /** No OPEN PR yet, or one already on this head and base. */
  predicate PrFits(pr: Option<Pr>, main: Commit, base: Commit, h: Commit) {
    if Repo.OpenPrMissing(pr) then main == base else pr.value.head == h && pr.value.base == base
  }

  predicate DeliveredPr(pr: Option<Pr>, main: Commit, h: Commit) {
    pr.Some? && pr.value.open && pr.value.head == h && pr.value.base == main
  }

  function Recorded(s: State): State {
    Built(s).(store := WithCandidate(s.store, DeliveredHead(s)))
  }

  function Delivered(s: State): State {
    Durable(Synced(Recorded(s), DeliveredHead(s)))
  }

  /** Every durable state such a completion passes through. */
  function Waypoints(s: State): set<State> {
    {Durable(s), Durable(Staged(s)), Durable(Built(s)), Durable(Recorded(s)), Delivered(s)}
  }

  /** What a delivery needs besides its eligibility. */
  lemma {:induction false} DeliverableParts(s: State, x: Snapshot, differs: (Commit, Commit) -> bool)
    requires x == Sees(s, true) && x.local.Some? && x.onTask && x.pr.Some? && x.resolved && !x.pr.value.draft
    requires x.pr.value.base == x.main && x.remote == Some(x.pr.value.head) && x.pr.value.sameBranch
    ensures Deliverable(s, true, differs) <==> HasDiff(s, differs) && Publishable(Built(s), x, DeliveredHead(s))
  {
  }

  class DeliveryCompleter {
    const w: Repo
    // Set when Remediation Complete drives this Delivery.
    const repair: bool
    // The prepared session whose candidate this run must record before pushing.
    const recordFor: Option<Session>

    constructor (w: Repo, repair: bool, recordFor: Option<Session>)
      ensures this.w == w && this.repair == repair && this.recordFor == recordFor
    {
      this.w, this.repair, this.recordFor := w, repair, recordFor;
    }

    /** Stage everything; the index must differ from HEAD. */
    method StageCandidateTree() returns (r: Outcome, tree: Tree)
      requires w.Sound() && !w.s.work.Clean()
      modifies w
      ensures w.Sound() && old(w.trace) <= w.trace && Rely(old(w.s).(work := w.s.work), w.s)
      ensures r.Done? ==> w.failures == old(w.failures)
      ensures r.Done? ==> w.s.work == old(w.s.work).(index := old(w.s.work.files)) && tree == w.s.work.files
      ensures r.Done? ==> !old(w.s.work.Unborn()) && tree != old(w.s.work.HeadCommit()).tree
      ensures w.quiet && !old(w.s.work.Unborn()) ==>
        (r.Done? <==> old(w.s.work.files) != old(w.s.work.HeadCommit().tree))
      ensures w.quiet ==> w.s == Staged(old(w.s)) && w.trace == old(w.trace) + [Event(Lck, w.s)]
    {
      tree := w.s.work.files;
      var staged := w.SetWork(w.s.work.(index := w.s.work.files));
      if !staged { return Stop, tree; }
      var cached := w.Query();
      if !cached || w.s.work.Unborn() || w.s.work.index == w.s.work.HeadCommit().tree { return Stop, tree; }
      var check := w.Query();
      r := if check then Done else Stop;
    }

    /** Commit the index, then prove that parent, tree and cleanliness are as validated. */
    method CommitCurrentTree(tree: Tree, parent: Commit) returns (r: Outcome, head: Commit)
      requires w.Sound()
      modifies w
      ensures w.Sound() && old(w.trace) <= w.trace && Rely(old(w.s).(work := w.s.work), w.s)
      ensures r.Done? ==> w.failures == old(w.failures)
      ensures r.Done? ==> head.tree == tree && FirstParent(head, parent) && head == w.s.work.HeadCommit()
      // Nothing is committed on another head, or of another index.
      ensures old(w.s.work.index) != tree || old(w.s.work.HeadCommit()) != parent ==>
        r.Stop? && w.s.work == old(w.s.work)
      ensures r.Done? ==> w.s.work.Clean() && !Repo.SessionStart(w.s.store, head)
      ensures w.quiet && old(w.s.work.head.OnTask?) && TreeHeld(old(w.s.work), tree, parent) ==>
        r.Done? && w.s == old(w.s).(work := Repo.Committed(old(w.s))) && w.trace == old(w.trace) + [Event(Lck, w.s)]
    {
      head := parent;
      var treeRead := w.Query();
      if !treeRead || w.s.work.index != tree { return Stop, head; }
      r, head := CurrentHead(w);
      if r.Stop? || head != parent { return Stop, head; }
      var committed := w.CommitIndex();
      if !committed { return Stop, head; }
      r, head := CurrentHead(w);
      if r.Stop? { return; }
      var proved := w.Query();
      r := if proved && FirstParent(head, parent) && head.tree == tree && w.s.work.Clean() then Done else Stop;
    }

    /** Gates and formal validation, after which the workspace must still hold `tree` on `head`. */
    method ValidateTree(tree: Tree, head: Commit) returns (r: Outcome)
      requires w.Sound() && w.s.work.files == tree && Ordinary(w.s.proc)
      modifies w
      ensures w.Sound() && old(w.trace) <= w.trace && Rely(old(w.s).(work := w.s.work, proc := w.s.proc), w.s)
      ensures r.Done? ==> w.failures == old(w.failures)
      ensures w.s.proc.basis == old(w.s.proc.basis) && Ordinary(w.s.proc)
      ensures r.Done? ==>
        w.s.proc.gated == Some(tree) && w.s.proc.formal.Some? && w.s.proc.formal == w.s.proc.gateLeft
      ensures r.Done? ==> TreeHeld(w.s.work, tree, head)
      ensures w.quiet ==> w.s == old(w.s).(proc := w.s.proc) && r.Done? == TreeHeld(w.s.work, tree, head)
      ensures w.quiet ==> old(w.trace) <= w.trace && Visits(w.trace, |old(w.trace)|, {Durable(old(w.s))})
    {
      var gates := w.RunGates();
      if !gates { return Stop; }
      var formal := w.RunFormal();
      if !formal { return Stop; }
      r := VerifyTreeUnchanged(w, tree, head);
    }

    /** Stage, validate and commit the uncommitted repair on top of `parent`. */
    method CommitValidated(parent: Commit) returns (r: Outcome, head: Commit)
      requires w.Sound() && !w.s.work.Clean() && w.s.work.head.OnTask? && w.s.work.branch == Some(parent)
      requires Ordinary(w.s.proc)
      modifies w
      ensures w.Sound() && old(w.trace) <= w.trace && Rely(old(w.s).(work := w.s.work, proc := w.s.proc), w.s)
      ensures r.Done? ==> w.failures == old(w.failures)
      ensures w.s.proc.basis == old(w.s.proc.basis) && Ordinary(w.s.proc)
      ensures r.Done? ==> Validated(w.s.proc, head) && FirstParent(head, parent) && !Repo.SessionStart(w.s.store, head)
      ensures w.quiet ==> (r.Done? <==> old(w.s.work.files) != parent.tree)
      ensures w.quiet && r.Done? ==> head == DeliveredHead(old(w.s)) && w.s == Built(old(w.s)).(proc := w.s.proc)
      ensures w.quiet && r.Done? ==>
        && old(w.trace) <= w.trace
        && Visits(w.trace, |old(w.trace)|, {Durable(Staged(old(w.s))), Durable(Built(old(w.s)))})
    {
      head := parent;
      var tree;
      r, tree := StageCandidateTree();
      if r.Stop? { return; }
      r := ValidateTree(tree, parent);
      if r.Stop? { return; }
      r, head := CommitCurrentTree(tree, parent);
    }

    /** The clean path revalidates the existing head; the dirty path commits what it validated. */
    method BuildHead(x: Snapshot) returns (r: Outcome, head: Commit)
      requires w.Sound() && x.local.Some? && x.onTask
      requires x.local == w.s.work.branch && w.s.work.head.OnTask? && x.clean == w.s.work.Clean()
      requires w.s.proc == IDLE
      modifies w
      ensures w.Sound() && old(w.trace) <= w.trace && Rely(old(w.s).(work := w.s.work, proc := w.s.proc), w.s)
      ensures r.Done? ==> w.failures == old(w.failures)
      ensures w.s.proc.basis == x.local && Ordinary(w.s.proc)
      ensures r.Done? ==> Validated(w.s.proc, head)
      ensures r.Done? && x.clean ==> head == x.local.value && w.differs(x.main, head)
      ensures r.Done? && !x.clean ==> FirstParent(head, x.local.value) && !Repo.SessionStart(w.s.store, head)
      ensures w.quiet ==>
        (r.Done? <==>
           if x.clean then w.differs(x.main, x.local.value) else old(w.s.work.files) != x.local.value.tree)
      ensures w.quiet && r.Done? ==> head == DeliveredHead(old(w.s)) && w.s == Built(old(w.s)).(proc := w.s.proc)
      ensures w.quiet && r.Done? ==>
        && old(w.trace) <= w.trace
        && Visits(w.trace, |old(w.trace)|, {Durable(old(w.s)), Durable(Staged(old(w.s))), Durable(Built(old(w.s)))})
    {
      head := x.local.value;
      w.Note(w.s.proc.(basis := x.local));
      if x.clean {
        var diff := w.Query();
        if !diff || !w.differs(x.main, w.s.work.HeadCommit()) { return Stop, head; }
        var current;
        r, current := CurrentHead(w);
        if r.Stop? { return; }
        r := ValidateTree(current.tree, head);
        return;
      }
      r, head := CommitValidated(head);
    }

    /** Bind the exact candidate to its prepared session; another candidate stays bound. */
    method RecordCandidate(head: Commit, tree: Tree) returns (r: Outcome)
      requires w.Sound() && head.tree == tree
      modifies w
      ensures w.Sound() && Rely(old(w.s).(store := w.s.store), w.s)
      ensures r.Done? ==> w.failures == old(w.failures)
      ensures old(w.trace) <= w.trace
      ensures w.s.store == old(w.s.store) || (r.Done? && recordFor.Some? && Bound(old(w.s.store), w.s.store, head))
      ensures r.Done? && recordFor.Some? ==> Bound(old(w.s.store), w.s.store, head)
      // It is still the session of the same Review, prepared on the same head.
      ensures r.Done? && recordFor.Some? ==>
        && old(w.s.store.session).value.review == recordFor.value.review
        && old(w.s.store.session).value.start == recordFor.value.start
      ensures recordFor.None? ==> r.Done? && w.s == old(w.s) && w.trace == old(w.trace)
      ensures w.quiet && recordFor.Some? && old(w.s.store.session) == recordFor ==>
        (r.Done? <==> Recordable(recordFor.value, head))
      ensures w.quiet && recordFor.Some? && r.Done? ==>
        && w.s == old(w.s).(store := WithCandidate(old(w.s.store), head)) && w.trace == old(w.trace) + [Event(Lck, w.s)]
    {
      if recordFor.None? { return Done; }
      if w.s.store.session.None? { return Stop; }
      var ses := w.s.store.session.value;
      if ses.review != recordFor.value.review || ses.start != recordFor.value.start { return Stop; }
      var candidate := Candidate(ses.op, ses.start, head, tree);
      if ses.candidate.Some? && ses.candidate.value != candidate { return Stop; }
      r := w.Save(w.s.store.(session := Some(ses.(candidate := Some(candidate)))));
    }

    /** Task branch selected with HEAD on the candidate, and the remote ref as read. */
    method PushIdentity(head: Commit) returns (r: Outcome, remote: Option<Commit>)
      requires w.Sound()
      modifies w
      ensures w.Sound() && old(w.trace) <= w.trace && Rely(old(w.s), w.s) && remote == w.s.remote
      ensures r.Done? ==> w.failures == old(w.failures)
      ensures r.Done? ==> w.s.work.head.OnTask? && w.s.work.branch == Some(head)
      ensures w.quiet ==> w.s == old(w.s) && w.trace == old(w.trace)
      ensures w.quiet ==> r.Done? == (w.s.work.head.OnTask? && w.s.work.branch == Some(head))
    {
      var branchRead := w.Query();
      var headRead, current := CurrentHead(w);
      var read;
      read, remote := w.ReadRemote();
      r := if branchRead && w.s.work.head.OnTask? && headRead.Done? && current == head && read then Done else Stop;
    }

    /** The observed remote object at hand, and the candidate a descendant of it. */
    method FastForwardCheck(remote: Option<Commit>, head: Commit) returns (r: Outcome)
      requires w.Sound()
      modifies w
      ensures w.Sound() && old(w.trace) <= w.trace && Rely(old(w.s), w.s)
      ensures r.Done? ==> w.failures == old(w.failures)
      ensures r.Done? && remote.Some? ==> IsAncestor(remote.value, head)
      ensures w.quiet ==> w.s == old(w.s) && w.trace == old(w.trace)
      ensures w.quiet ==> (r.Done? <==> remote.Some? ==> IsAncestor(remote.value, head))
    {
      if remote.None? { return Done; }
      var materialized := w.Query();
      var compared := w.Query();
      r := if materialized && compared && IsAncestor(remote.value, head) then Done else Stop;
    }

    /** The push itself; its zero exit is not enough, the identity is read again. */
    method PushAndProve(head: Commit) returns (r: Outcome)
      requires w.Sound() && w.s.proc.basis.Some? && Ordinary(w.s.proc) && Validated(w.s.proc, head)
      requires head == w.s.proc.basis.value || FirstParent(head, w.s.proc.basis.value)
      requires recordFor.Some? ==> OwnedCandidate(w.s.store, head)
      modifies w
      ensures w.Sound() && old(w.trace) <= w.trace
      ensures r.Done? ==> w.failures == old(w.failures)
      ensures r.Done? ==>
        w.s.work.head.OnTask? && w.s.work.branch == Some(head) && RemoteSeen(w.trace, |old(w.trace)| - 1, head)
      ensures w.s.store == old(w.s.store) && w.s.proc == old(w.s.proc) && w.s.work == old(w.s.work)
      ensures w.quiet && old(w.s.remote) != Some(head) && Pushable(old(w.s), head) ==>
        r.Done? && w.s == Synced(old(w.s), head) && w.trace == old(w.trace) + [Event(Lck, w.s)]
    {
      var zero, m := w.PushPlain(head);
      if !zero { return Stop; }
      var remote;
      r, remote := PushIdentity(head);
      if r.Stop? || remote != Some(head) { return Stop; }
      assert w.trace[|w.trace| - 1].s.remote == Some(head);
      var upstream := w.Query();
      r := if upstream then Done else Stop;
    }

    /** Make the remote Task ref the validated head, without ever forcing it. */
    method EnsureRemoteBranch(head: Commit) returns (r: Outcome)
      requires w.Sound() && w.s.proc.basis.Some? && Ordinary(w.s.proc) && Validated(w.s.proc, head)
      requires head == w.s.proc.basis.value || FirstParent(head, w.s.proc.basis.value)
      requires recordFor.Some? ==> OwnedCandidate(w.s.store, head)
      modifies w
      ensures w.Sound() && old(w.trace) <= w.trace
      ensures r.Done? ==> w.failures == old(w.failures)
      ensures r.Done? ==>
        w.s.work.head.OnTask? && w.s.work.branch == Some(head) && RemoteSeen(w.trace, |old(w.trace)| - 1, head)
      ensures w.s.store == old(w.s.store) && w.s.proc == old(w.s.proc) && w.s.work == old(w.s.work)
      ensures w.quiet ==> (r.Done? <==> Pushable(old(w.s), head))
      ensures w.quiet && r.Done? ==> w.s == Synced(old(w.s), head)
      ensures w.quiet && r.Done? ==> old(w.trace) <= w.trace && Visits(w.trace, |old(w.trace)|, {Durable(w.s)})
    {
      var remote;
      r, remote := PushIdentity(head);
      if r.Stop? { return; }
      if remote == Some(head) {
        assert w.trace[|w.trace| - 1].s.remote == Some(head);
        var upstream := w.Query();
        return if upstream then Done else Stop;
      }
      r := FastForwardCheck(remote, head);
      if r.Stop? { return; }
      ghost var since := |w.trace| - 1;
      r := PushAndProve(head);
      assert RemoteSeen(w.trace, since, head) ==> RemoteSeen(w.trace, |old(w.trace)| - 1, head);
    }

    /** Resolve or create the PR, or prove the pushed repair is on the snapshot's own PR. */
    method PrOnHead(x: Snapshot, head: Commit) returns (r: Outcome)
      requires w.Sound() && (repair ==> x.pr.Some?)
      modifies w
      ensures w.Sound() && old(w.trace) <= w.trace && Rely(old(w.s).(pr := w.s.pr), w.s)
      ensures r.Done? ==> w.failures == old(w.failures)
      ensures r.Done? ==> PrAt(w.s.pr, repair, x, head)
      ensures w.quiet && repair ==> w.s == old(w.s) && w.trace == old(w.trace)
      ensures w.quiet && repair ==> r.Done? == RepairedPr(w.s.pr, x.pr.value.number, x.main, head)
      ensures w.quiet && !repair ==> r.Done? == PrFits(old(w.s.pr), w.s.main, x.main, head)
      ensures w.quiet && !repair ==> w.s == old(w.s).(pr := w.s.pr)
      ensures w.quiet && r.Done? && !repair ==> DeliveredPr(w.s.pr, x.main, head)
    {
      if repair {
        var viewed := w.Query();
        return if viewed && RepairedPr(w.s.pr, x.pr.value.number, x.main, head) then Done else Stop;
      }
      var resolved := w.EnsurePr(head);
      r := if resolved && w.s.pr.value.head == head && w.s.pr.value.base == x.main then Done else Stop;
    }

    /** PR, checks, Project Status and the local postcondition, once the head is on the remote. */
    method HandOff(x: Snapshot, head: Commit) returns (r: Outcome)
      requires w.Sound() && (repair ==> x.pr.Some?)
      modifies w
      ensures w.Sound() && old(w.trace) <= w.trace && Rely(old(w.s).(pr := w.s.pr), w.s)
      ensures r.Done? ==> w.failures == old(w.failures)
      ensures r.Done? ==> w.s.work.CleanAt(head) && PrSeen(w.trace, |old(w.trace)| - 1, repair, x, head)
      ensures w.quiet && repair ==> w.s == old(w.s) && w.trace == old(w.trace)
      ensures w.quiet && repair ==>
        r.Done? == (RepairedPr(w.s.pr, x.pr.value.number, x.main, head) && w.s.work.CleanAt(head))
      ensures w.quiet && !repair ==>
        r.Done? == (PrFits(old(w.s.pr), w.s.main, x.main, head) && w.s.work.CleanAt(head))
      ensures w.quiet && !repair ==> w.s == old(w.s).(pr := w.s.pr)
      ensures w.quiet && !repair && r.Done? ==> DeliveredPr(w.s.pr, x.main, head)
    {
      r := PrOnHead(x, head);
      if r.Stop? { return; }
      assert w.trace[|w.trace| - 1].s == w.s;
      var checks := w.Query();
      if !checks { return Stop; }
      var status := w.Query();
      if !status { return Stop; }
      r := RequireCleanBranch(w, head);
    }

    /** A Remediation push needs the PR it repairs. */
    predicate RepairsOpenPr(x: Snapshot) {
      x.pr.Some? && !x.pr.value.draft && x.pr.value.base == x.main && x.pr.value.sameBranch
    }

    predicate Eligible(x: Snapshot, owned: bool) {
      if repair then RemediationEligible(x, Complete, owned) && RepairsOpenPr(x) else DeliveryEligible(x)
    }

    /** Push, then hand off what is on the remote. */
    method PushAndHandOff(x: Snapshot, head: Commit) returns (r: Outcome)
      requires w.Sound() && w.s.proc.basis.Some? && Ordinary(w.s.proc) && Validated(w.s.proc, head)
      requires head == w.s.proc.basis.value || FirstParent(head, w.s.proc.basis.value)
      requires (repair ==> x.pr.Some?) && (recordFor.Some? ==> OwnedCandidate(w.s.store, head))
      modifies w
      ensures w.Sound() && old(w.trace) <= w.trace && w.s.proc == old(w.s.proc) && w.s.store == old(w.s.store)
      ensures r.Done? ==> w.failures == old(w.failures)
      ensures r.Done? ==> w.s.work.CleanAt(head)
      ensures r.Done? ==> Shown(w.trace, |old(w.trace)| - 1, repair, x, head)
      ensures w.quiet && repair && old(w.s.work).CleanAt(head) ==>
        (r.Done? <==>
           Pushable(old(w.s), head) && RepairedPr(Synced(old(w.s), head).pr, x.pr.value.number, x.main, head))
      ensures w.quiet && repair && r.Done? ==>
        w.s == Synced(old(w.s), head) && Visits(w.trace, |old(w.trace)|, {Durable(w.s)})
      ensures w.quiet && !repair && old(w.s.work).CleanAt(head) ==>
        (r.Done? <==>
           Pushable(old(w.s), head) && PrFits(Synced(old(w.s), head).pr, old(w.s.main), x.main, head))
      ensures w.quiet && !repair && r.Done? ==> w.s.remote == Some(head) && DeliveredPr(w.s.pr, x.main, head)
    {
      ghost var from := |w.trace| - 1;
      r := EnsureRemoteBranch(head);
      if r.Stop? { return; }
      ghost var pushed := w.trace;
      r := HandOff(x, head);
      StillSeen(pushed, w.trace, from, from, repair, x, head);
      StillSeen(w.trace, w.trace, from, |pushed| - 1, repair, x, head);
    }

    /** Record, push, hand off; each step only after the one before it. */
    method Publish(x: Snapshot, head: Commit) returns (r: Outcome)
      requires w.Sound() && w.s.proc.basis.Some? && Ordinary(w.s.proc) && Validated(w.s.proc, head)
      requires repair ==> x.pr.Some?
      requires head == w.s.proc.basis.value || FirstParent(head, w.s.proc.basis.value)
      requires recordFor.Some? ==> repair && w.s.store.session == recordFor && recordFor.value.start != head
      modifies w
      ensures w.Sound() && old(w.trace) <= w.trace && w.s.proc == old(w.s.proc)
      ensures r.Done? ==> w.failures == old(w.failures)
      ensures r.Done? ==> Shown(w.trace, |old(w.trace)| - 1, repair, x, head)
      ensures w.s.store == old(w.s.store) || (recordFor.Some? && Bound(old(w.s.store), w.s.store, head))
      ensures r.Done? ==> w.s.work.CleanAt(head)
      ensures r.Done? && recordFor.Some? ==> OwnedCandidate(w.s.store, head) && Recordable(recordFor.value, head)
      ensures w.quiet && repair && old(w.s.store.session) == recordFor && old(w.s.work).CleanAt(head) ==>
        (r.Done? <==> Publishable(old(w.s), x, head))
      ensures w.quiet && repair && old(w.s.store.session) == recordFor && r.Done? ==>
        var recorded := old(w.s).(store := WithCandidate(old(w.s.store), head));
        && w.s == Synced(recorded, head)
        && Visits(w.trace, |old(w.trace)|, {Durable(recorded), Durable(w.s)})
      ensures w.quiet && !repair && recordFor.None? && old(w.s.work).CleanAt(head) ==>
        (r.Done? <==>
           && Pushable(old(w.s), head)
           && PrFits(Synced(old(w.s), head).pr, old(w.s.main), x.main, head))
      ensures w.quiet && !repair && r.Done? ==> w.s.remote == Some(head) && DeliveredPr(w.s.pr, x.main, head)
    {
      ghost var from := |w.trace| - 1;
      r := RecordCandidate(head, head.tree);
      if r.Stop? { return; }
      ghost var since := |w.trace| - 1;
      r := PushAndHandOff(x, head);
      StillSeen(w.trace, w.trace, from, since, repair, x, head);
    }

    /** Validate and commit first; only then is anything published. */
    method BuildAndPublish(x: Snapshot) returns (r: Outcome, head: Commit)
      requires w.Sound() && x.local.Some? && x.onTask && w.s.proc == IDLE
      requires x.local == w.s.work.branch && w.s.work.head.OnTask? && x.clean == w.s.work.Clean()
      requires (repair ==> x.pr.Some?) && (recordFor.Some? ==> repair && w.s.store.session == recordFor)
      requires recordFor.Some? ==> !(x.clean && x.local == Some(recordFor.value.start))
      modifies w
      ensures w.Sound() && old(w.trace) <= w.trace && Ordinary(w.s.proc)
      ensures r.Done? ==> w.failures == old(w.failures)
      ensures w.s.store == old(w.s.store) || (recordFor.Some? && Bound(old(w.s.store), w.s.store, head))
      ensures r.Done? ==>
        && w.s.work.CleanAt(head) && Validated(w.s.proc, head)
        && (if x.clean then x.local == Some(head) else FirstParent(head, x.local.value))
      ensures r.Done? && recordFor.Some? ==> OwnedCandidate(w.s.store, head) && Recordable(recordFor.value, head)
      ensures r.Done? ==> Shown(w.trace, |old(w.trace)| - 1, repair, x, head)
      ensures w.quiet && x.main == old(w.s.main) && repair && old(w.s.store.session) == recordFor ==>
        (r.Done? <==>
           HasDiff(old(w.s), w.differs) && Publishable(Built(old(w.s)), x, DeliveredHead(old(w.s))))
      ensures w.quiet && repair && old(w.s.store.session) == recordFor && r.Done? ==>
        && head == DeliveredHead(old(w.s)) && Durable(w.s) == Delivered(old(w.s))
        && Visits(w.trace, |old(w.trace)|, Waypoints(old(w.s)))
      ensures w.quiet && x.main == old(w.s.main) && !repair ==>
        (r.Done? <==>
           && HasDiff(old(w.s), w.differs) && Pushable(Built(old(w.s)), DeliveredHead(old(w.s)))
           && PrFits(Synced(old(w.s), DeliveredHead(old(w.s))).pr, x.main, x.main, DeliveredHead(old(w.s))))
      ensures w.quiet && !repair && r.Done? ==>
        head == DeliveredHead(old(w.s)) && w.s.remote == Some(head) && DeliveredPr(w.s.pr, x.main, head)
    {
      r, head := BuildHead(x);
      if r.Stop? { return; }
      assert w.quiet ==> w.s.work.CleanAt(head);
      ghost var since := |w.trace| - 1;
      r := Publish(x, head);
      StillSeen(w.trace, w.trace, |old(w.trace)| - 1, since, repair, x, head);
    }

    /** Guards first, then validation and commit, and only then is anything published. */
    method CompleteFromSnapshot(x: Snapshot, owned: bool) returns (r: Outcome, head: Commit)
      requires w.Sound() && w.s.proc == IDLE
      requires x.local == w.s.work.branch && x.onTask == w.s.work.head.OnTask? && x.clean == w.s.work.Clean()
      requires recordFor.Some? ==> repair && w.s.store.session == recordFor
      requires recordFor.Some? ==> !(x.clean && x.local == Some(recordFor.value.start))
      modifies w
      ensures w.Sound() && old(w.trace) <= w.trace && Ordinary(w.s.proc)
      ensures r.Done? ==> w.failures == old(w.failures)
      ensures w.s.store == old(w.s.store) || (recordFor.Some? && Bound(old(w.s.store), w.s.store, head))
      ensures r.Done? ==>
        && w.s.work.CleanAt(head) && Validated(w.s.proc, head) && x.local.Some?
        && (if x.clean then x.local == Some(head) else FirstParent(head, x.local.value))
      ensures r.Done? && recordFor.Some? ==> OwnedCandidate(w.s.store, head) && Recordable(recordFor.value, head)
      // No draft PR is delivered to, and a repair goes to the PR on whose head the remote ref already is.
      ensures r.Done? ==> x.resolved && x.other && x.onTask && (x.pr.Some? ==> !x.pr.value.draft)
      ensures r.Done? && repair ==>
        && x.pr.Some? && x.pr.value.base == x.main && x.pr.value.sameBranch && x.remote == Some(x.pr.value.head)
        && (x.local == x.remote || owned)
      ensures r.Done? ==> Shown(w.trace, |old(w.trace)| - 1, repair, x, head)
      ensures w.quiet && x == Sees(old(w.s), true) && repair && old(w.s.store.session) == recordFor ==>
        (r.Done? <==> Deliverable(old(w.s), owned, w.differs))
      ensures w.quiet && x == Sees(old(w.s), true) && repair && old(w.s.store.session) == recordFor && r.Done? ==>
        && head == DeliveredHead(old(w.s)) && Durable(w.s) == Delivered(old(w.s))
        && Visits(w.trace, |old(w.trace)|, Waypoints(old(w.s)))
      ensures w.quiet && x == Sees(old(w.s), true) && !repair ==> (r.Done? <==> DeliverableTask(old(w.s), w.differs))
      ensures w.quiet && x == Sees(old(w.s), true) && !repair && r.Done? ==>
        && head == DeliveredHead(old(w.s)) && w.s.remote == Some(head) && DeliveredPr(w.s.pr, x.main, head)
    {
      head := w.s.work.HeadCommit();
      if !Eligible(x, owned) { return Stop, head; }
      if repair && x == Sees(w.s, true) {
        DeliverableParts(w.s, x, w.differs);
      }
      r, head := BuildAndPublish(x);
    }
  }
}
