/** Remediation: prepare a repair session, close it without a change, or deliver the repair. */
module Remediation {
  import opened Wrappers
  import opened CommitDag
  import opened Protocol
  import opened World
  import opened Snapshots
  import opened Delivery

  /** The latest completed Review is this one, and it failed. */
  predicate LatestFailed(rv: Reviews, review: Id) {
    && review in rv.records && rv.records[review].verdict == FAIL
    && rv.latest == Some(Latest(review, FAIL))
  }

  /** A local record must be the latest failed Review; without one a findings file is needed. */
  predicate FindingsAvailable(rv: Reviews, review: Id, portable: bool) {
    if review in rv.records then LatestFailed(rv, review) else portable
  }

  predicate SameSession(existing: Option<Session>, review: Id, start: Commit) {
    existing.Some? ==> existing.value.review == review && existing.value.start == start
  }

  // ---- prepare -----------------------------------------------------------------

  /** When an undisturbed Remediation Prepare succeeds. */
  predicate Preparable(s: State, review: Id, portable: bool) {
    && s.store.boundary == None
    && (if review in s.store.reviews.records then
          s.store.reviews.records[review].verdict == FAIL && s.store.reviews.latest == Some(Latest(review, FAIL))
        else portable)
    && s.pr.Some? && s.pr.value.open && !s.pr.value.draft && s.pr.value.base == s.main
    && s.remote == Some(s.pr.value.head)
    && (s.work.branch == None || s.work.branch == Some(s.pr.value.head))
    && (s.work.Clean() || (s.work.branch != None && s.work.head == OnTask))
    && (s.store.session.Some? ==>
          s.store.session.value.review == review && s.store.session.value.start == s.pr.value.head)
  }

  class RemediationPreparer {
    const w: Repo

    constructor (w: Repo)
      ensures this.w == w
    {
      this.w := w;
    }

    /** Restore or select the Task branch; a dirty Task branch is resumed as it is. */
    method SelectTaskBranch(x: Snapshot) returns (r: Outcome)
      requires w.Sound() && x.remote.Some?
      requires x.local == w.s.work.branch && x.onTask == w.s.work.head.OnTask? && x.clean == w.s.work.Clean()
      modifies w
      ensures w.Sound() && Rely(old(w.s).(work := w.s.work), w.s)
      ensures r.Done? ==> w.failures == old(w.failures)
      ensures r.Done? ==> w.s.work.head.OnTask? && (x.local.Some? ==> w.s.work.branch == x.local)
      ensures x.local.Some? && x.onTask ==> r.Done? && w.s.work == old(w.s.work)
      ensures w.quiet ==> (r.Done? <==> (x.local.Some? && x.onTask) || x.clean)
      ensures w.quiet && r.Done? ==>
        w.s == old(w.s).(work := w.s.work) && w.s.work.branch == (if x.local.Some? then x.local else x.remote)
    {
      if x.local.None? {
        if !x.clean { return Stop; }
        // The remote-tracking ref may lag behind the remote.
        var tracked: Commit := *;
        var c := if w.quiet then x.remote.value else tracked;
        var restored := w.SetWork(w.s.work.(branch := Some(c), head := OnTask, index := c.tree, files := c.tree));
        return if restored then Done else Stop;
      }
      if !x.onTask {
        if !x.clean { return Stop; }
        var c := x.local.value;
        var selected := w.SetWork(w.s.work.(head := OnTask, index := c.tree, files := c.tree));
        return if selected then Done else Stop;
      }
      r := Done;
    }

    method VerifyLocalHead(head: Commit) returns (r: Outcome)
      requires w.Sound()
      modifies w
      ensures w.Sound() && Rely(old(w.s), w.s)
      ensures r.Done? ==> w.failures == old(w.failures)
      ensures r.Done? ==> w.s.work.head.OnTask? && w.s.work.branch == Some(head)
      ensures w.quiet ==> w.s == old(w.s) && r.Done? == (w.s.work.head.OnTask? && w.s.work.branch == Some(head))
    {
      var branchRead := w.Query();
      var headRead, current := CurrentHead(w);
      r := if branchRead && w.s.work.head.OnTask? && headRead.Done? && current == head then Done else Stop;
    }

    /** A session of the same Review and start head is replaced; any other one stays. */
    method WriteSession(review: Id, pr: Pr) returns (r: Outcome)
      requires w.Sound()
      modifies w
      ensures w.Sound() && Rely(old(w.s).(store := w.s.store), w.s)
      ensures r.Done? ==> w.failures == old(w.failures)
      ensures r.Stop? ==> w.s.store == Repo.NextId(old(w.s.store))
      ensures r.Done? ==>
        && (old(w.s.store.session).Some? ==>
              old(w.s.store.session).value.review == review && old(w.s.store.session).value.start == pr.head)
        && w.s.store == Repo.NextId(old(w.s.store)).(
             session := Some(Session(review, old(w.s.store.reviews.nextId), pr.head, pr.number, pr.base, None)))
      ensures w.quiet ==>
        r.Done? == SameSession(old(w.s.store.session), review, pr.head) && w.s == old(w.s).(store := w.s.store)
    {
      var op := w.NewId();
      var existing := w.s.store.session;
      if !SameSession(existing, review, pr.head) { return Stop; }
      r := w.Save(w.s.store.(session := Some(Session(review, op, pr.head, pr.number, pr.base, None))));
    }

    /** Nothing but the session and the selected branch changes, and only behind a failed
        latest Review (or portable findings) with no fresh Review outstanding. */
    method Prepare(review: Id, portable: bool) returns (r: Outcome, x: Snapshot)
      requires w.Sound()
      modifies w
      ensures w.Sound() && Rely(old(w.s).(work := w.s.work, store := w.s.store), w.s)
      ensures r.Done? ==> w.failures == old(w.failures)
      ensures r.Stop? ==> w.s.store == old(w.s.store) || w.s.store == Repo.NextId(old(w.s.store))
      ensures r.Done? ==>
        && old(w.s.store.boundary).None? && x.resolved && x.other && x.pr.Some? && !x.pr.value.draft
        && x.pr.value.base == x.main && x.remote == Some(x.pr.value.head)
        && w.s.work.head.OnTask? && w.s.work.branch == x.remote
        && w.s.store == Repo.NextId(old(w.s.store)).(session := w.s.store.session)
        && w.s.store.session.Some? && var ses := w.s.store.session.value;
           && ses.review == review && Some(ses.start) == x.remote && ses.candidate.None?
           && ses.pr == x.pr.value.number && ses.base == x.main
      // A Review on record here must be the latest one, and have failed.
      ensures r.Done? && review in old(w.s.store.reviews.records) ==>
        && old(w.s.store.reviews.records)[review].verdict == FAIL && old(w.s.store.reviews.latest).Some?
        && old(w.s.store.reviews.latest).value.review == review && old(w.s.store.reviews.latest).value.verdict == FAIL
      ensures r.Done? && review !in old(w.s.store.reviews.records) ==> portable
      ensures w.quiet ==> (r.Done? <==> Preparable(old(w.s), review, portable))
      ensures w.quiet && r.Done? ==> x == Sees(old(w.s), true)
    {
      x := UNSEEN;
      if w.s.store.boundary.Some? { return Stop, x; }
      if !FindingsAvailable(w.s.store.reviews, review, portable) { return Stop, x; }
      x := Acquire(w, true);
      if !RemediationEligible(x, RepairPhase.Prepare, false) { return Stop, x; }
      r := SelectTaskBranch(x);
      if r.Stop? { return; }
      r := VerifyLocalHead(x.pr.value.head);
      if r.Stop? { return; }
      r := WriteSession(review, x.pr.value);
    }
  }

  /** Once a PASS has been accepted, no Review on record can be prepared for repair. */
  lemma {:induction false} NothingToRepairAfterPass(s: State, review: Id, portable: bool)
    requires s.store.reviews.latest.Some? && s.store.reviews.latest.value.verdict == PASS
    requires review in s.store.reviews.records
    ensures !Preparable(s, review, portable) && !FindingsAvailable(s.store.reviews, review, portable)
  {
  }

  // ---- no change -----------------------------------------------------------------

  /** PR, local and remote head are all still the prepared start head, and the worktree is clean. */
  predicate Unchanged(x: Snapshot, start: Commit, pr: nat, base: Commit) {
    && x.pr.Some? && x.pr.value.number == pr && x.pr.value.head == start && x.pr.value.base == base
    && x.local == Some(start) && x.remote == Some(start) && x.clean
  }

  function NoChangeReceipt(ses: Session, summary: Hash): Receipt {
    Receipt(ses.review, ses.start, ses.pr, ses.base, summary)
  }

  /** When an undisturbed no-change close succeeds: everything is at the head that session or receipt
      froze, and a receipt that exists is the one it would write. */
  predicate Closable(s: State, review: Id, summary: Hash) {
    && s.store.boundary == None
    && if s.store.session.Some? then
         var ses := s.store.session.value;
         && ses.review == review && AllAt(s, ses.start, ses.pr, ses.base)
         && (review in s.store.receipts ==>
               s.store.receipts[review] == Receipt(review, ses.start, ses.pr, ses.base, summary))
       else
         && review in s.store.receipts
         && AllAt(s, s.store.receipts[review].start, s.store.receipts[review].pr, s.store.receipts[review].base)
  }

  /** The OPEN, non-draft PR of this number, on current main, remote ref, branch and clean worktree are
      all at `head`. */
  predicate AllAt(s: State, head: Commit, number: nat, base: Commit) {
    && s.pr.Some? && s.pr.value.open && !s.pr.value.draft && s.pr.value.number == number
    && s.pr.value.head == head && s.pr.value.base == base == s.main
    && s.remote == Some(head) && s.work.CleanAt(head)
  }

  function Receipted(st: Store, review: Id, summary: Hash): Store {
    if st.session.None? then st else st.(receipts := st.receipts[review := NoChangeReceipt(st.session.value, summary)])
  }

  function Closed(st: Store, review: Id, summary: Hash): Store {
    Receipted(st, review, summary).(session := None)
  }

  class NoChangeCompleter {
    const w: Repo

    constructor (w: Repo)
      ensures this.w == w
    {
      this.w := w;
    }

    /** Fresh snapshot, eligible, and the target still the prepared one. */
    method VerifyTarget(start: Commit, pr: nat, base: Commit) returns (r: Outcome)
      requires w.Sound()
      modifies w
      ensures w.Sound() && Rely(old(w.s), w.s)
      ensures r.Done? ==> w.failures == old(w.failures)
      // A head that owes a Review and is not the start head cannot pass.
      ensures r.Done? ==> w.s.work.CleanAt(start) && (Tracked(w.s.origin) ==> w.s.remote == Some(start))
      ensures w.quiet ==> w.s == old(w.s) && w.trace == old(w.trace)
      ensures w.quiet ==>
        r.Done? == AllAt(w.s, start, pr, base)
    {
      var x := Acquire(w, true);
      if !RemediationEligible(x, NoChange, false) { return Stop; }
      r := if Unchanged(x, start, pr, base) then Done else Stop;
    }

    /** An existing receipt is kept, and must be the one this completion would write. */
    method WriteReceipt(ses: Session, summary: Hash) returns (r: Outcome)
      requires w.Sound() && w.s.store.session == Some(ses)
      modifies w
      ensures w.Sound() && Rely(old(w.s).(store := w.s.store), w.s)
      ensures r.Done? ==> w.failures == old(w.failures)
      ensures r.Done? ==> w.s.store == Receipted(old(w.s.store), ses.review, summary)
      ensures r.Stop? ==> w.s.store == old(w.s.store)
      ensures w.quiet ==> w.s == old(w.s).(store := w.s.store)
      ensures w.quiet ==> (r.Done? <==> ses.review in old(w.s.store.receipts) ==>
        old(w.s.store.receipts)[ses.review] == NoChangeReceipt(ses, summary))
      ensures w.quiet ==> old(w.trace) <= w.trace && Visits(w.trace, |old(w.trace)|, {Durable(w.s)})
    {
      var receipt, receipts := NoChangeReceipt(ses, summary), w.s.store.receipts;
      if ses.review in receipts {
        assert receipts[ses.review := receipts[ses.review]] == receipts;
        return if receipts[ses.review] == receipt then Done else Stop;
      }
      r := w.Save(w.s.store.(receipts := receipts[ses.review := receipt]));
    }

    /** Closing a session changes no ref and no head; replayed, it changes nothing at all. */
    method Complete(review: Id, summary: Hash) returns (r: Outcome)
      requires w.Sound()
      modifies w
      ensures w.Sound() && Rely(old(w.s).(store := w.s.store), w.s)
      ensures r.Done? ==> w.failures == old(w.failures)
      ensures w.s.store in
        {old(w.s.store), Receipted(old(w.s.store), review, summary), Closed(old(w.s.store), review, summary)}
      ensures r.Done? ==>
        && w.s.store == Closed(old(w.s.store), review, summary) && review in w.s.store.receipts
        && w.s.work.CleanAt(w.s.store.receipts[review].start)
        // A head that owes a Review has had it.
        && !Owes(w.s.origin)
        && (old(w.s.store.session).Some? ==>
              var ses := old(w.s.store.session).value;
              && ses.review == review
              && w.s.store.receipts[review] == Receipt(review, ses.start, ses.pr, ses.base, summary))
      ensures w.quiet ==> (r.Done? <==> Closable(old(w.s), review, summary))
      ensures w.quiet && r.Done? ==>
        && w.s == old(w.s).(store := w.s.store) && old(w.trace) <= w.trace
        && Visits(w.trace, |old(w.trace)|,
             {Durable(old(w.s).(store := Receipted(old(w.s.store), review, summary))), Durable(w.s)})
    {
      if w.s.store.boundary.Some? { return Stop; }
      if w.s.store.session.None? {
        if review !in w.s.store.receipts { return Stop; }
        var prior := w.s.store.receipts[review];
        r := VerifyTarget(prior.start, prior.pr, prior.base);
        return;
      }
      var ses := w.s.store.session.value;
      if ses.review != review { return Stop; }
      r := VerifyTarget(ses.start, ses.pr, ses.base);
      if r.Stop? { return; }
      r := WriteReceipt(ses, summary);
      if r.Stop? { return; }
      r := w.Save(w.s.store.(session := None));
    }
  }

  // ---- complete ------------------------------------------------------------------

  /** The local head is the very commit the session owns, on top of its start head, while PR and
      remote still are the prepared target. */
  predicate OwnsLocalHead(x: Snapshot, ses: Session) {
    && x.pr.Some? && x.local.Some? && x.onTask && x.clean && ses.candidate.Some?
    && var pr, c, h := x.pr.value, ses.candidate.value, x.local.value;
       && c.op == ses.op && c.start == ses.start && c.head == h && c.tree == h.tree
       && pr.number == ses.pr && pr.base == ses.base && pr.head == ses.start && x.remote == Some(ses.start)
       && IsAncestor(ses.start, h)
  }

  /** PR and remote ref are as the session froze them. */
  predicate SessionCurrent(x: Snapshot, ses: Session) {
    && x.pr.Some? && x.pr.value.number == ses.pr && x.pr.value.base == ses.base && x.pr.value.head == ses.start
    && x.remote == Some(ses.start)
  }

  /** A recorded candidate that the PR does not show yet has to be recovered. */
  predicate NeedsRecovery(x: Snapshot, ses: Session) {
    ses.candidate.Some? && x.local != (if x.pr.Some? then Some(x.pr.value.head) else None)
  }

  /** Exactly when an undisturbed Remediation Complete with passing gates succeeds: a repair of the open
      session, whose PR head or own candidate the branch is at, or else, without a session, of the head
      that the latest and failed Review saw. */
  predicate Completable(s: State, review: Id, differs: (Commit, Commit) -> bool) {
    && s.store.boundary.None? && s.pr.Some? && s.work.branch.Some? && Deliverable(s, true, differs)
    && (if s.store.session.Some? then
          var ses := s.store.session.value;
          && ses.review == review && !(s.work.Clean() && s.work.branch.value == ses.start)
          && (s.work.branch.value == s.pr.value.head || OwnsLocalHead(Sees(s, true), ses))
        else
          && review in s.store.reviews.records && s.store.reviews.records[review].verdict == FAIL
          && s.store.reviews.latest == Some(Latest(review, FAIL))
          && DeliveredHead(s) != s.store.reviews.records[review].identity.head
          && s.work.branch.value == s.pr.value.head)
  }

  function Bounded(s: State, review: Id): State {
    var d := Delivered(s);
    d.(store := d.store.(boundary := Some(Boundary(review, DeliveredHead(s)))))
  }

  /** Its result: repaired head on both sides, boundary set, session closed. */
  function Finish(s: State, review: Id): State {
    var b := Bounded(s, review);
    b.(store := b.store.(session := None))
  }

  function CompletionStops(s: State, review: Id): set<State> {
    Waypoints(s) + {Bounded(s, review), Finish(s, review)}
  }

  /** Nothing about a completion depends on what the process knows. */
  lemma {:induction false} ForgettingKeeps(s: State, p: Proc, review: Id, differs: (Commit, Commit) -> bool)
    ensures var t := s.(proc := p);
      && Completable(t, review, differs) == Completable(s, review, differs) && Finish(t, review) == Finish(s, review)
      && CompletionStops(t, review) == CompletionStops(s, review) && DeliveredHead(t) == DeliveredHead(s)
  {
  }

  class RemediationCompleter {
    const w: Repo

    constructor (w: Repo)
      ensures this.w == w
    {
      this.w := w;
    }

    method RecoverOwned(x: Snapshot, ses: Session) returns (r: Outcome)
      requires w.Sound() && ses.candidate.Some? && x.local == w.s.work.branch && x.onTask == w.s.work.head.OnTask?
      modifies w
      ensures w.Sound() && old(w.trace) <= w.trace && Rely(old(w.s), w.s)
      ensures r.Done? ==> w.failures == old(w.failures)
      ensures r.Done? ==> OwnsLocalHead(x, ses)
      ensures w.quiet ==> r.Done? == OwnsLocalHead(x, ses) && w.s == old(w.s) && w.trace == old(w.trace)
    {
      var candidate := ses.candidate.value;
      if !(candidate.op == ses.op && candidate.start == ses.start && SessionCurrent(x, ses)
           && x.local == Some(candidate.head) && x.onTask && x.clean) {
        return Stop;
      }
      var treeRead := w.Query();
      if !treeRead || w.s.work.HeadCommit().tree != candidate.tree { return Stop; }
      var compared := w.Query();
      r := if compared && IsAncestor(ses.start, candidate.head) then Done else Stop;
    }

    /** The head a repair has to leave behind: the session's, or the one the latest failed
        Review saw when the workspace was prepared before sessions existed. */
    method StartHead(review: Id) returns (r: Outcome, start: Commit)
      requires w.Sound()
      ensures r.Done? ==> w.s.store.boundary.None?
      ensures r.Done? && w.s.store.session.Some? ==>
        w.s.store.session.value.review == review && start == w.s.store.session.value.start
      ensures r.Done? && w.s.store.session.None? ==>
        && review in w.s.store.reviews.records && w.s.store.reviews.records[review].verdict == FAIL
        && w.s.store.reviews.latest == Some(Latest(review, FAIL))
        && start == w.s.store.reviews.records[review].identity.head
      ensures r.Done? <==>
        && w.s.store.boundary.None?
        && if w.s.store.session.Some? then w.s.store.session.value.review == review else
             && review in w.s.store.reviews.records && w.s.store.reviews.records[review].verdict == FAIL
             && w.s.store.reviews.latest == Some(Latest(review, FAIL))
    {
      start := UNBORN;
      if w.s.store.boundary.Some? { return Stop, start; }
      if w.s.store.session.Some? {
        var ses := w.s.store.session.value;
        return if ses.review == review then Done else Stop, ses.start;
      }
      if !LatestFailed(w.s.store.reviews, review) { return Stop, start; }
      r, start := Done, w.s.store.reviews.records[review].identity.head;
    }

    /** The repair of this Review starts from `start`. */
    static predicate Begun(s: State, review: Id, start: Commit) {
      if s.store.session.Some? then
        s.store.session.value.start == start && s.store.session.value.review == review
      else
        && review in s.store.reviews.records && s.store.reviews.records[review].verdict == FAIL
        && s.store.reviews.latest == Some(Latest(review, FAIL))
        && start == s.store.reviews.records[review].identity.head
    }

    /** Boundary before the session goes: at no moment is the repaired head uncovered. */
    method CloseSession(review: Id, head: Commit) returns (r: Outcome)
      requires w.Sound() && Ordinary(w.s.proc)
      modifies w
      ensures w.Sound() && old(w.trace) <= w.trace && Rely(old(w.s).(store := w.s.store), w.s)
      ensures r.Done? ==> w.failures == old(w.failures)
      ensures r.Done? ==> w.s.store == old(w.s.store).(boundary := Some(Boundary(review, head)), session := None)
      ensures w.quiet ==> r.Done? && w.s == old(w.s).(store := w.s.store) && old(w.trace) <= w.trace
      ensures w.quiet ==> Visits(w.trace, |old(w.trace)|,
        {Durable(old(w.s).(store := old(w.s.store).(boundary := Some(Boundary(review, head))))), Durable(w.s)})
    {
      r := w.Save(w.s.store.(boundary := Some(Boundary(review, head))));
      if r.Stop? { return; }
      r := w.Save(w.s.store.(session := None));
    }

    /** The guards on the snapshot of a Complete: recovery of the session's own candidate, eligibility,
        and something that was repaired. */
    method AdmitRepair(review: Id, x: Snapshot, session: Option<Session>, start: Commit)
      returns (r: Outcome, owned: bool)
      requires w.Sound() && x.local == w.s.work.branch && x.onTask == w.s.work.head.OnTask?
      modifies w
      ensures w.Sound() && old(w.trace) <= w.trace && Rely(old(w.s).(proc := IDLE), w.s)
      ensures r.Done? ==> w.failures == old(w.failures)
      ensures r.Done? ==>
        && x.resolved && x.other && x.pr.Some? && !x.pr.value.draft && x.pr.value.base == x.main
        && x.remote == Some(x.pr.value.head) && x.local.Some? && x.onTask && !(x.clean && x.local == Some(start))
      // A local head ahead of the PR is accepted only as the session's own candidate.
      ensures r.Done? ==>
        x.local == Some(x.pr.value.head) || (session.Some? && OwnsLocalHead(x, session.value))
      ensures w.quiet && x == Sees(w.s, true) && session == w.s.store.session && w.s.store.boundary.None?
              && Begun(w.s, review, start) ==>
        Completable(w.s, review, w.differs) ==
          (r.Done? && Deliverable(w.s, owned, w.differs) && DeliveredHead(w.s) != start)
      ensures w.quiet ==> w.s == old(w.s).(proc := IDLE) && Visits(w.trace, |old(w.trace)|, {Durable(w.s)})
    {
      w.Note(IDLE);
      owned := session.Some? && NeedsRecovery(x, session.value);
      r := Done;
      if owned {
        r := RecoverOwned(x, session.value);
        if r.Stop? { return; }
      }
      if !RemediationEligible(x, RepairPhase.Complete, owned) { return Stop, owned; }
      if x.clean && x.local == Some(start) { return Stop, owned; }
    }

    /** Deliver the repair, then put the boundary in place of the session. */
    method DeliverAndClose(review: Id, x: Snapshot, start: Commit, owned: bool) returns (r: Outcome, head: Commit)
      requires w.Sound() && w.s.proc == IDLE && w.s.store.boundary.None?
      requires x.local == w.s.work.branch && x.onTask == w.s.work.head.OnTask? && x.clean == w.s.work.Clean()
      requires w.s.store.session.Some? ==> w.s.store.session.value.start == start
      requires !(x.clean && x.local == Some(start))
      modifies w
      ensures w.Sound() && old(w.trace) <= w.trace
      ensures r.Done? ==> w.failures == old(w.failures)
      ensures r.Done? ==> Shown(w.trace, |old(w.trace)| - 1, true, x, head)
      ensures r.Done? ==>
        && w.s.work.CleanAt(head) && Validated(w.s.proc, head) && head != start
        && w.s.store.boundary == Some(Boundary(review, head)) && w.s.store.session.None?
        && x.local.Some? && (head == x.local.value || FirstParent(head, x.local.value))
      ensures r.Done? && old(w.s.store.session).Some? ==> Recordable(old(w.s.store.session).value, head)
      ensures w.quiet && x == Sees(old(w.s), true) ==>
        (r.Done? <==> Deliverable(old(w.s), owned, w.differs) && DeliveredHead(old(w.s)) != start)
      ensures w.quiet && x == Sees(old(w.s), true) && r.Done? ==>
        && head == DeliveredHead(old(w.s)) && Durable(w.s) == Finish(old(w.s), review)
        && Visits(w.trace, |old(w.trace)|, CompletionStops(old(w.s), review))
    {
      var delivery := new DeliveryCompleter(w, true, w.s.store.session);
      r, head := delivery.CompleteFromSnapshot(x, owned);
      if r.Stop? { return; }
      if head == start { return Stop, head; }
      ghost var seen := w.trace;
      r := CloseSession(review, head);
      StillSeen(seen, w.trace, |old(w.trace)| - 1, |old(w.trace)| - 1, true, x, head);
    }

    /** Nothing is delivered that has not been admitted. */
    method Repair(review: Id, x: Snapshot, start: Commit) returns (r: Outcome, head: Commit)
      requires w.Sound() && w.s.store.boundary.None?
      requires x.local == w.s.work.branch && x.onTask == w.s.work.head.OnTask? && x.clean == w.s.work.Clean()
      requires Begun(w.s, review, start)
      modifies w
      ensures w.Sound() && old(w.trace) <= w.trace
      ensures r.Done? ==> w.failures == old(w.failures)
      ensures r.Done? ==>
        && x.resolved && x.other && x.pr.Some? && !x.pr.value.draft && x.pr.value.base == x.main
        && x.remote == Some(x.pr.value.head) && Shown(w.trace, |old(w.trace)| - 1, true, x, head)
      ensures r.Done? ==>
        && w.s.work.CleanAt(head) && Validated(w.s.proc, head) && head != start
        && w.s.store.boundary == Some(Boundary(review, head)) && w.s.store.session.None?
        && x.local.Some? && (head == x.local.value || FirstParent(head, x.local.value))
      ensures r.Done? && old(w.s.store.session).Some? ==>
        var ses := old(w.s.store.session).value;
        Recordable(ses, head) && (OwnsLocalHead(x, ses) || x.local == x.remote)
      ensures w.quiet && x == Sees(old(w.s), true) ==> (r.Done? <==> Completable(old(w.s), review, w.differs))
      ensures w.quiet && x == Sees(old(w.s), true) && r.Done? ==>
        && head == DeliveredHead(old(w.s)) && Durable(w.s) == Finish(old(w.s), review)
        && old(w.trace) <= w.trace && Visits(w.trace, |old(w.trace)|, CompletionStops(old(w.s), review))
    {
      head := w.s.work.HeadCommit();
      ForgettingKeeps(w.s, IDLE, review, w.differs);
      var owned;
      r, owned := AdmitRepair(review, x, w.s.store.session, start);
      if r.Stop? { return; }
      ghost var since := |w.trace| - 1;
      r, head := DeliverAndClose(review, x, start, owned);
      StillSeen(w.trace, w.trace, |old(w.trace)| - 1, since, true, x, head);
    }

    /** One repaired head, delivered, behind a boundary that only a fresh Review lifts. */
    method Complete(review: Id) returns (r: Outcome, head: Commit, x: Snapshot)
      requires w.Sound()
      modifies w
      ensures w.Sound() && old(w.trace) <= w.trace
      ensures r.Done? ==> w.failures == old(w.failures)
      // The repair is on the remote ref and on the PR of the snapshot.
      ensures r.Done? ==>
        && x.resolved && x.other && x.pr.Some? && !x.pr.value.draft && x.pr.value.base == x.main
        && x.remote == Some(x.pr.value.head) && Shown(w.trace, |old(w.trace)| - 1, true, x, head)
      ensures r.Done? ==>
        && old(w.s.store.boundary).None? && w.s.work.CleanAt(head) && Validated(w.s.proc, head)
        && w.s.store.boundary == Some(Boundary(review, head)) && w.s.store.session.None?
        && x.local.Some? && (head == x.local.value || FirstParent(head, x.local.value))
      ensures r.Done? && old(w.s.store.session).Some? ==>
        var ses := old(w.s.store.session).value;
        && ses.review == review && head != ses.start
        // A session that owns a candidate delivers that one and no other.
        && Recordable(ses, head) && (OwnsLocalHead(x, ses) || x.local == x.remote)
      ensures r.Done? && old(w.s.store.session).None? ==>
        && review in old(w.s.store.reviews.records) && old(w.s.store.reviews.records)[review].verdict == FAIL
        && old(w.s.store.reviews.latest) == Some(Latest(review, FAIL))
        && head != old(w.s.store.reviews.records)[review].identity.head
      ensures w.quiet ==> (r.Done? <==> Completable(old(w.s), review, w.differs))
      ensures w.quiet && r.Done? ==>
        && head == DeliveredHead(old(w.s)) && Durable(w.s) == Finish(old(w.s), review)
        && old(w.trace) <= w.trace && Visits(w.trace, |old(w.trace)|, CompletionStops(old(w.s), review))
    {
      head, x := w.s.work.HeadCommit(), UNSEEN;
      var start;
      r, start := StartHead(review);
      if r.Stop? { return; }
      x := Acquire(w, true);
      ghost var since := |w.trace| - 1;
      r, head := Repair(review, x, start);
      StillSeen(w.trace, w.trace, |old(w.trace)| - 1, since, true, x, head);
    }
  }
}
