/** Crash recovery of Remediation Complete: where re-running it converges, and where it stops. */
module Recovery {
  import opened Wrappers
  import opened CommitDag
  import opened Protocol
  import opened World
  import opened Snapshots
  import opened Delivery
  import opened Remediation

  /** PR and remote ref still are what the session froze when it was prepared. */
  predicate PreparedTarget(s: State) {
    && s.store.session.Some? && s.pr.Some? && s.pr.value.open
    && var ses, pr := s.store.session.value, s.pr.value;
       && pr.number == ses.pr && pr.base == ses.base && pr.head == ses.start && s.remote == Some(ses.start)
  }

  lemma {:induction false} ResumeStaged(s: State, review: Id, differs: (Commit, Commit) -> bool)
    requires Completable(s, review, differs)
    ensures Completable(Staged(s), review, differs) && Finish(Staged(s), review) == Finish(s, review)
  {
  }

  /** Committed but not recorded: the commit is not the session's yet. */
  lemma {:induction false} ResumeBuilt(s: State, review: Id, differs: (Commit, Commit) -> bool)
    requires Completable(s, review, differs)
    ensures Completable(Built(s), review, differs) <==>
      || s.work.Clean()
      || (differs(s.main, DeliveredHead(s)) && PreparedTarget(s) && s.store.session.value.candidate.Some?)
    ensures Finish(Built(s), review) == Finish(s, review)
  {
  }

  /** Recorded but not pushed: resumed exactly when nothing was committed on top of the PR head,
      or the PR and the remote ref are still the prepared ones; and there must be a Task diff, which
      the uninterrupted run never asks of a head it has just committed. */
  lemma {:induction false} ResumeRecorded(s: State, review: Id, differs: (Commit, Commit) -> bool)
    requires Completable(s, review, differs)
    ensures Completable(Recorded(s), review, differs) <==>
      differs(s.main, DeliveredHead(s)) && (s.work.Clean() || PreparedTarget(s))
    ensures Finish(Recorded(s), review) == Finish(s, review)
  {
  }

  /** Pushed but not closed: resumed exactly when the repair leaves anything of the Task. */
  lemma {:induction false} ResumeDelivered(s: State, review: Id, differs: (Commit, Commit) -> bool)
    requires Completable(s, review, differs)
    ensures Completable(Delivered(s), review, differs) <==> differs(s.main, DeliveredHead(s))
    ensures Finish(Delivered(s), review) == Finish(s, review)
  {
  }

  /** Once the boundary is written, only a fresh Review moves on. */
  lemma {:induction false} StopsBounded(s: State, review: Id, other: Id, differs: (Commit, Commit) -> bool)
    ensures !Completable(Bounded(s, review), other, differs) && !Completable(Finish(s, review), other, differs)
  {
  }

  lemma {:induction false} DurableSame(s: State, review: Id, differs: (Commit, Commit) -> bool)
    ensures Completable(Durable(s), review, differs) == Completable(s, review, differs)
    ensures Finish(Durable(s), review) == Finish(s, review)
  {
  }

  /** Where a crash of an undisturbed Remediation Complete can be resumed. */
  predicate Resumable(s: State, c: State, differs: (Commit, Commit) -> bool) {
    || c == Durable(s) || c == Durable(Staged(s))
    || (differs(s.main, DeliveredHead(s)) && ResumableCommit(s, c))
  }

  /** A crash after the commit, whose head still has a Task diff. */
  predicate ResumableCommit(s: State, c: State) {
    || c == Delivered(s)
    || (c == Durable(Recorded(s)) && (s.work.Clean() || PreparedTarget(s)))
    || (c == Durable(Built(s)) && PreparedTarget(s) && s.store.session.value.candidate.Some?)
  }

  /** Re-running it from the crash point reaches the state of the uninterrupted run, or stops;
      the crash points it reaches it from are exactly these. */
  lemma {:induction false} CrashRecovery(s: State, review: Id, c: State, differs: (Commit, Commit) -> bool)
    requires Completable(s, review, differs) && c in CompletionStops(s, review)
    ensures Completable(c, review, differs) <==> Resumable(s, c, differs)
    ensures Completable(c, review, differs) ==> Finish(c, review) == Finish(s, review)
  {
    DurableSame(s, review, differs);
    ResumeStaged(s, review, differs); DurableSame(Staged(s), review, differs);
    ResumeBuilt(s, review, differs); DurableSame(Built(s), review, differs);
    ResumeRecorded(s, review, differs); DurableSame(Recorded(s), review, differs);
    ResumeDelivered(s, review, differs);
    StopsBounded(s, review, review, differs);
  }

  /** The delivered head is the local head or its child. */
  lemma {:induction false} AncestorOfChild(s: State)
    requires s.work.head.OnTask? && s.work.branch.Some?
    ensures IsAncestor(s.work.branch.value, DeliveredHead(s))
    ensures !s.work.Clean() ==> DeliveredHead(s) != s.work.branch.value
  {
    var p := s.work.branch.value;
    if !s.work.Clean() {
      assert p in DeliveredHead(s).parents && IsAncestor(p, p);
    }
  }

  /** Main moved between prepare and complete: the uninterrupted run succeeds, yet after a crash
      between record and push the same call stops. */
  lemma {:induction false} RecoveryRefusedAfterMainMoved(differs: (Commit, Commit) -> bool) returns (s: State)
    ensures Completable(s, 7, differs) && !Completable(Recorded(s), 7, differs)
  {
    var start, main, oldMain := Commit([], 1, 0), Commit([], 2, 0), Commit([], 3, 0);
    s := Repairing(start, main, oldMain, 5);
    AncestorOfChild(s);
    ResumeRecorded(s, 7, differs);
  }

  /** The repair takes everything back: committed, pushed and recorded by the uninterrupted run, yet
      after a crash the same call finds no Task diff, even with the head on the remote already. */
  lemma {:induction false} RecoveryRefusedWithoutDiff(differs: (Commit, Commit) -> bool) returns (s: State)
    requires forall a: Commit, b: Commit | a.tree == b.tree :: !differs(a, b)
    ensures Completable(s, 7, differs) && PreparedTarget(s)
    ensures !Completable(Recorded(s), 7, differs) && !Completable(Delivered(s), 7, differs)
  {
    var main := Commit([], 2, 0);
    s := Repairing(Commit([main], 1, 0), main, main, main.tree);
    AncestorOfChild(s);
    ResumeRecorded(s, 7, differs);
    ResumeDelivered(s, 7, differs);
  }

  /** A prepared session of Review 7 with uncommitted repairs. */
  function Repairing(start: Commit, main: Commit, prepared: Commit, files: Tree): State {
    var store := Store(None, Some(Session(7, 1, start, 9, prepared, None)), map[], None,
                       Reviews(None, map[], map[], map[], 8));
    State(Some(start), Other, main, Some(Pr(9, start, main, true, false, true, true, None, false)), 0,
          Work(Some(start), OnTask, start.tree, files, NoGitOp), store, IDLE)
  }

  /** One Remediation Complete with no other writer and no failing command. */
  method CompleteAlone(initial: State, review: Id, differs: (Commit, Commit) -> bool)
    returns (r: Outcome, end: State, trace: seq<Event>)
    requires Inv(initial)
    ensures r.Done? <==> Completable(initial, review, differs)
    ensures r.Done? ==> Durable(end) == Finish(initial, review)
    ensures r.Done? ==> Visits(trace, 1, CompletionStops(initial, review))
    ensures forall i: nat | i < |trace| :: InvAt(trace, i)
  {
    InvAfterCrash(initial);
    DurableSame(initial, review, differs);
    var w := new Repo(Durable(initial), true, true, differs);
    var repair := new RemediationCompleter(w);
    var head, x;
    r, head, x := repair.Complete(review);
    end, trace := w.s, w.trace;
  }

  /** Run it, crash it after any of its writes, run it again on what is left. */
  method CrashAndRerun(initial: State, review: Id, at: nat, differs: (Commit, Commit) -> bool)
    returns (full: State, crash: State, again: Outcome, end: State)
    requires Inv(initial) && Completable(initial, review, differs)
    ensures Durable(full) == Finish(initial, review)
    ensures crash == initial || crash in CompletionStops(initial, review)
    ensures crash != initial ==> (again.Done? <==> Resumable(initial, crash, differs))
    ensures again.Done? ==> Durable(end) == Durable(full)
  {
    var r, trace;
    r, full, trace := CompleteAlone(initial, review, differs);
    crash := initial;
    if 0 < at < |trace| {
      assert InvAt(trace, at);
      InvAfterCrash(trace[at].s);
      crash := Durable(trace[at].s);
      CrashRecovery(initial, review, crash, differs);
    }
    again, end, trace := CompleteAlone(crash, review, differs);
  }
}
