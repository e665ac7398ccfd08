/** Candidate Refresh: rebase, push with an exact lease, compensate or roll back. */
module Refresh {
  import opened Wrappers
  import opened CommitDag
  import opened Protocol
  import opened World
  import opened Snapshots

  datatype PushOutcome = NotAttempted | Unknown | NotUpdated | NotUpdatedDrift | Updated
  datatype Compensated = Restored | ExternalDrift | Unproven
  datatype Exit = AlreadyCurrent | ReadyForFreshReview | Stopped | RollbackFailed

  datatype Effect =
    | ForceWithExactLease
    | UpdatedAfterCommandFailure
    | OutcomeUnknown
    | NotUpdatedAfterCommandFailure
    | NotCurrentOnRemote(observed: Option<Commit>)
    | CompensatedToOriginal
    | CompensationUnproven(observed: Option<Commit>)
    | CompensationBlocked(observed: Option<Commit>)

  /** Outcomes proving that the refreshed candidate is not on the remote. */
  predicate NotOnRemote(o: PushOutcome) {
    o in {NotAttempted, NotUpdated, NotUpdatedDrift}
  }

  predicate Landed(e: Effect) { e.ForceWithExactLease? || e.UpdatedAfterCommandFailure? }

  predicate Undone(e: Effect, c: Compensated) {
    match c
    case Restored => e.CompensatedToOriginal?
    case ExternalDrift => e.CompensationBlocked?
    case Unproven => e.CompensationUnproven?
  }

  /** The effect receipts tell exactly the story the push outcome sums up. */
  predicate ReceiptsTell(effects: seq<Effect>, o: PushOutcome) {
    match o
    case NotAttempted => effects == []
    case Unknown => effects == [OutcomeUnknown]
    case Updated => |effects| in {1, 2} && Landed(effects[0]) && (|effects| == 2 ==> Undone(effects[1], Unproven))
    case NotUpdated =>
      || effects == [NotUpdatedAfterCommandFailure]
      || (|effects| == 2 && Landed(effects[0]) && Undone(effects[1], Restored))
    case NotUpdatedDrift =>
      || (|effects| == 1 && effects[0].NotCurrentOnRemote?)
      || (|effects| == 2 && Landed(effects[0]) && Undone(effects[1], ExternalDrift))
  }

  /** Putting the prior boundary back leaves no head that owes a Review uncovered, whether the
      remote holds what it held before or this run's candidate on top of it. */
  ghost predicate RestoreSafe(s: State, op: Id, prior: Option<Boundary>) {
    Owes(if Mine(s.origin, op) then s.origin.prior else s.origin) ==> prior.Some?
  }

  /** This run has stored its boundary and validated its candidate. */
  ghost predicate Armed(s: State, run: RefreshRun) {
    && s.proc.refresh == Some(run) && s.store.boundary == Some(Boundary(run.op, run.new_))
    && run.op < s.store.reviews.nextId && run.start != run.new_ && s.proc.verdict.None?
  }

  /** With this run's boundary stored, the PR was seen open on its candidate, based on its main. */
  ghost predicate PrShown(t: seq<Event>, run: RefreshRun) {
    exists k: nat :: k < |t| && PrShows(t[k].s, run)
  }

  predicate PrShows(s: State, run: RefreshRun) {
    && s.store.boundary == Some(Boundary(run.op, run.new_)) && s.pr.Some?
    && s.pr.value.open && !s.pr.value.draft && s.pr.value.head == run.new_ && s.pr.value.base == run.main
  }

  /** Clean on the Task branch at any commit, or stopped in a rebase that started from `start`. */
  predicate Restorable(work: Work, start: Commit) {
    work.Settled() || (work.gitop == Rebasing && work.branch == Some(start))
  }

  class CandidateRefresher {
    const w: Repo
    var lastPushOutcome: PushOutcome
    var lastFreshReviewRequired: bool
    var lastEffects: seq<Effect>
    // What the guarded block has done so far, for the rollback after it.
    var candidateActive: bool
    var boundaryWritten: bool
    var priorBoundary: Option<Boundary>
    var startHead: Option<Commit>

    constructor (w: Repo)
      ensures this.w == w
    {
      this.w := w;
      lastPushOutcome, lastFreshReviewRequired, lastEffects := NotAttempted, false, [];
      candidateActive, boundaryWritten, priorBoundary, startHead := false, false, None, None;
    }

    /** Detach at the start head, force the branch there, switch back. */
    method SwitchBack(start: Commit) returns (r: Outcome)
      requires w.Sound()
      modifies w
      ensures w.Sound() && Rely(old(w.s).(work := w.s.work), w.s) && w.s.work.gitop == old(w.s.work.gitop)
      ensures r.Done? ==> w.failures == old(w.failures)
      // A changed workspace is not overwritten.
      ensures !old(w.s.work).Clean() ==> r.Stop? && w.s.work == old(w.s.work)
      ensures w.calm && old(w.s.work).Settled() ==>
        r.Done? && w.s == old(w.s).(work := Work(Some(start), OnTask, start.tree, start.tree, NoGitOp))
    {
      var status := w.Query();
      if !status || !w.s.work.Clean() { return Stop; }
      var detached := w.SetWork(w.s.work.(head := At(start), index := start.tree, files := start.tree));
      if !detached { return Stop; }
      var forced := w.SetWork(w.s.work.(branch := Some(start)));
      if !forced { return Stop; }
      var switched := w.SetWork(w.s.work.(head := OnTask));
      r := if switched then Done else Stop;
    }

    /** Abort a rebase of ours, put branch and HEAD back, and prove the exact start workspace. */
    method RestoreOriginal(start: Commit) returns (r: Outcome)
      requires w.Sound()
      modifies w
      ensures w.Sound() && Rely(old(w.s).(work := w.s.work), w.s)
      ensures r.Done? ==> w.failures == old(w.failures)
      ensures r.Done? ==> w.s.work.CleanAt(start) && w.s.work.gitop == NoGitOp
      // Neither a foreign Git operation nor a changed candidate is touched.
      ensures old(w.s.work.gitop) == OtherGitOp ==> r.Stop? && w.s.work == old(w.s.work)
      ensures old(w.s.work.gitop) == NoGitOp && !old(w.s.work).Clean() ==> r.Stop? && w.s.work == old(w.s.work)
      ensures w.calm && Restorable(old(w.s.work), start) ==>
        r.Done? && w.s == old(w.s).(work := Work(Some(start), OnTask, start.tree, start.tree, NoGitOp))
    {
      var active := w.Query();
      if !active { return Stop; }
      if w.s.work.gitop != NoGitOp {
        if w.s.work.gitop != Rebasing { return Stop; }
        var aborted := w.AbortRebase();
        if !aborted { return Stop; }
      }
      var head;
      r, head := CurrentHead(w);
      if r.Stop? { return; }
      if head != start {
        r := SwitchBack(start);
        if r.Stop? { return; }
      }
      r := RequireCleanBranch(w, start);
    }

    /** The only candidate push: exact lease on the start head, outcome read back on failure. */
    method PushExactLease(run: RefreshRun) returns (r: Outcome)
      requires w.Sound() && Armed(w.s, run) && OriginOk(w.s.origin, w.s.remote, run.op)
      requires IsAncestor(run.main, run.new_) && Validated(w.s.proc, run.new_)
      requires RestoreSafe(w.s, run.op, priorBoundary) && lastPushOutcome == NotAttempted && lastEffects == []
      modifies w, this`lastPushOutcome, this`lastEffects
      ensures w.Sound() && Armed(w.s, run) && RestoreSafe(w.s, run.op, priorBoundary)
      ensures r.Done? ==> w.failures == old(w.failures) + if lastEffects == [ForceWithExactLease] then 0 else 1
      ensures w.s.work == old(w.s.work) && w.s.store == old(w.s.store) && w.s.proc == old(w.s.proc)
      ensures r.Done? <==> lastPushOutcome == Updated
      ensures ReceiptsTell(lastEffects, lastPushOutcome) && |lastEffects| <= 1
      ensures NotOnRemote(lastPushOutcome) ==> !Mine(w.s.origin, run.op)
      // A ref that is elsewhere already is not pushed to at all.
      ensures w.calm && old(w.s.remote) != Some(run.start) ==>
        r.Stop? && lastPushOutcome == NotAttempted && lastEffects == [] && w.s == old(w.s) && w.trace == old(w.trace)
      ensures w.quiet && old(w.s.remote) == Some(run.start) ==>
        var o := Refreshed(run.op, run.start, run.new_, old(w.s.origin), false);
        r.Done? && w.s == Repo.Pushed(old(w.s), run.new_, o, true)
    {
      var read, before := w.ReadRemote();
      if !read || before != Some(run.start) { return Stop; }
      lastPushOutcome := Unknown;
      var zero, m := w.PushCandidate(run);
      if !zero {
        r := ObserveFailedPush(run);
        return;
      }
      lastPushOutcome := Updated;
      lastEffects := lastEffects + [ForceWithExactLease];
      r := Done;
    }

    /** A failed push command says nothing: the remote ref decides what happened. */
    method ObserveFailedPush(run: RefreshRun) returns (r: Outcome)
      requires w.Sound() && Armed(w.s, run) && lastPushOutcome == Unknown && lastEffects == []
      modifies w, this`lastPushOutcome, this`lastEffects
      ensures w.Sound() && Rely(old(w.s), w.s)
      ensures r.Done? ==> w.failures == old(w.failures)
      ensures ReceiptsTell(lastEffects, lastPushOutcome) && |lastEffects| == 1
      ensures r.Done? <==> lastPushOutcome == Updated
      ensures r.Done? ==> lastEffects == [UpdatedAfterCommandFailure]
      ensures NotOnRemote(lastPushOutcome) ==> !Mine(w.s.origin, run.op)
    {
      var read, observed := w.ReadRemote();
      if !read {
        lastEffects := lastEffects + [OutcomeUnknown];
        return Stop;
      }
      if observed == Some(run.new_) {
        lastPushOutcome := Updated;
        lastEffects := lastEffects + [UpdatedAfterCommandFailure];
        return Done;
      }
      if observed == Some(run.start) {
        lastPushOutcome := NotUpdated;
        lastEffects := lastEffects + [NotUpdatedAfterCommandFailure];
      } else {
        lastPushOutcome := NotUpdatedDrift;
        lastEffects := lastEffects + [NotCurrentOnRemote(observed)];
      }
      r := Stop;
    }

    /** Undo one candidate push with a lease on the candidate itself. */
    method CompensatePostPushFailure(run: RefreshRun) returns (c: Compensated)
      requires w.Sound() && Armed(w.s, run) && RestoreSafe(w.s, run.op, priorBoundary)
      modifies w, this`lastEffects
      ensures w.Sound() && Armed(w.s, run) && RestoreSafe(w.s, run.op, priorBoundary)
      ensures w.s.work == old(w.s.work) && w.s.store == old(w.s.store) && w.s.proc == old(w.s.proc)
      ensures |lastEffects| == |old(lastEffects)| + 1 && lastEffects[..|old(lastEffects)|] == old(lastEffects)
      ensures Undone(lastEffects[|old(lastEffects)|], c)
      // Reported undone only when this run's candidate is not the last write any more.
      ensures c != Unproven ==> !Mine(w.s.origin, run.op)
    {
      var read, observed := w.ReadRemote();
      if !read {
        lastEffects := lastEffects + [CompensationUnproven(None)];
        return Unproven;
      }
      if observed != Some(run.new_) {
        lastEffects := lastEffects + [CompensationBlocked(observed)];
        return ExternalDrift;
      }
      var zero, m := w.PushBack(run);
      if zero {
        lastEffects := lastEffects + [CompensatedToOriginal];
        return Restored;
      }
      c := ObserveFailedCompensation(run);
    }

    method ObserveFailedCompensation(run: RefreshRun) returns (c: Compensated)
      requires w.Sound() && Armed(w.s, run)
      modifies w, this`lastEffects
      ensures w.Sound() && Rely(old(w.s), w.s)
      ensures |lastEffects| == |old(lastEffects)| + 1 && lastEffects[..|old(lastEffects)|] == old(lastEffects)
      ensures Undone(lastEffects[|old(lastEffects)|], c)
      ensures c != Unproven ==> !Mine(w.s.origin, run.op)
    {
      var read, after := w.ReadRemote();
      if read && after == Some(run.start) {
        lastEffects := lastEffects + [CompensatedToOriginal];
        return Restored;
      }
      // A failed read and a deleted ref both come back as None.
      if !read || after == None || after == Some(run.new_) {
        lastEffects := lastEffects + [CompensationUnproven(if read then after else None)];
        return Unproven;
      }
      lastEffects := lastEffects + [CompensationBlocked(after)];
      c := ExternalDrift;
    }

    /** No handoff, eligible, exact clean start, readable main and merge base; nothing written. */
    method Admit(op: Id) returns (r: Outcome, x: Snapshot)
      requires w.Sound() && OriginOk(w.s.origin, w.s.remote, op)
      modifies w, this`startHead, this`priorBoundary, this`lastFreshReviewRequired
      ensures w.Sound() && old(w.trace) <= w.trace && Rely(old(w.s), w.s) && OriginOk(w.s.origin, w.s.remote, op)
      ensures r.Done? ==> w.failures == old(w.failures)
      ensures r.Done? ==> RefreshEligible(x) && startHead == x.local && priorBoundary == w.s.store.boundary
      ensures lastFreshReviewRequired == if r.Done? then priorBoundary.Some? else old(lastFreshReviewRequired)
      ensures r.Done? ==> w.s.work.CleanAt(x.local.value) && w.s.work.gitop == NoGitOp
      ensures r.Done? ==> RestoreSafe(w.s, op, priorBoundary)
      ensures r.Done? ==> Observed(w.trace, |old(w.trace)| - 1, x)
      ensures w.quiet ==> w.s == old(w.s) && (r.Done? ==> x == Sees(w.s, true))
      ensures r.Done? ==> old(w.s.store.session).None? && old(w.s.store.marker).None?
      ensures w.quiet ==> (r.Done? <==> Refreshable(old(w.s)))
    {
      x := UNSEEN;
      if w.s.store.session.Some? || w.s.store.marker.Some? { return Stop, x; }
      x := Acquire(w, true);
      if !RefreshEligible(x) { return Stop, x; }
      startHead := x.local;
      ghost var seen := w.trace;
      r := Preflight(x.local.value);
      if r.Stop? { return; }
      StillObserved(seen, w.trace, |old(w.trace)| - 1, x);
      priorBoundary := w.s.store.boundary;
      lastFreshReviewRequired := priorBoundary.Some?;
    }

    /** Exact clean branch, no Git operation in progress, main and merge base at hand. */
    method Preflight(start: Commit) returns (r: Outcome)
      requires w.Sound()
      modifies w
      ensures w.Sound() && old(w.trace) <= w.trace && Rely(old(w.s), w.s)
      ensures r.Done? ==> w.failures == old(w.failures)
      ensures r.Done? ==> w.s.work.CleanAt(start) && w.s.work.gitop == NoGitOp
      ensures w.calm ==> w.s == old(w.s) && r.Done? == (w.s.work.CleanAt(start) && w.s.work.gitop == NoGitOp)
    {
      r := RequireCleanBranch(w, start);
      if r.Stop? { return; }
      var active := w.Query();
      var mainObject := w.Query();
      var mergeBase := w.Query();
      r := if active && w.s.work.gitop == NoGitOp && mainObject && mergeBase then Done else Stop;
    }

    /** Rebase onto the frozen main; a rebase that does not complete is undone on the spot. */
    method Rebase(start: Commit, main: Commit) returns (r: Outcome, candidate: Commit)
      requires w.Sound() && w.s.work.CleanAt(start) && w.s.work.gitop == NoGitOp
      modifies w, this`candidateActive
      ensures w.Sound() && Rely(old(w.s).(work := w.s.work), w.s)
      ensures r.Done? ==> w.failures == old(w.failures)
      ensures !candidateActive ==> r.Stop? && w.s.work == old(w.s.work)
      ensures r.Done? ==> w.s.work.CleanAt(candidate) && candidate != start
      ensures r.Done? ==> IsAncestor(main, candidate) && candidate.tree != main.tree
      ensures w.calm ==> w.s == old(w.s).(work := w.s.work) && w.s.work.Settled()
      ensures w.quiet && !IsAncestor(main, start) ==> r.Done?
      // In a calm world only the rebase itself can fail; then everything is as before, for good.
      ensures w.calm && w.failures > old(w.failures) ==> r.Stop? && !candidateActive && w.s.work == old(w.s.work)
    {
      candidate := start;
      var rebased := w.RebaseOnto(main);
      candidateActive := true;
      if !rebased {
        var conflictsRead := w.Query();
        r := RestoreOriginal(start);
        if r.Stop? { return; }
        candidateActive := false;
        return Stop, start;
      }
      r, candidate := CurrentHead(w);
      if r.Stop? { return; }
      assert w.quiet ==> main in candidate.parents && IsAncestor(main, main);
      if candidate == start { return Stop, candidate; }
      r := RequireCleanBranch(w, candidate);
      if r.Stop? { return; }
      var compared := w.Query();
      if !compared || !IsAncestor(main, candidate) || candidate.tree == main.tree { return Stop, candidate; }
    }

    /** Gates and formal validation on the rebased tree, which must come out unchanged. */
    method Validate(candidate: Commit) returns (r: Outcome)
      requires w.Sound() && w.s.work.CleanAt(candidate) && Ordinary(w.s.proc)
      modifies w
      ensures w.Sound() && Rely(old(w.s).(work := w.s.work, proc := w.s.proc), w.s) && Ordinary(w.s.proc)
      ensures r.Done? ==> w.failures == old(w.failures)
      ensures r.Done? ==> Validated(w.s.proc, candidate) && TreeHeld(w.s.work, candidate.tree, candidate)
      ensures w.calm ==> w.s == old(w.s).(proc := w.s.proc)
      ensures w.quiet ==> r.Done?
    {
      var gates := w.RunGates();
      if !gates { return Stop; }
      var formal := w.RunFormal();
      if !formal { return Stop; }
      r := VerifyTreeUnchanged(w, candidate.tree, candidate);
    }

    /** The Task, PR and refs this run froze, seen again with the remote at `remote`. */
    predicate SameAuthority(x: Snapshot, y: Snapshot, local: Commit, remote: Commit)
      requires x.pr.Some?
    {
      && y.body == x.body && y.main == x.main && y.onTask && y.local == Some(local) && y.remote == Some(remote)
      && y.pr.Some?
      && var pr := y.pr.value;
         && pr.number == x.pr.value.number && !pr.draft && pr.base == x.main && pr.sameBranch && pr.sameRepo
         && pr.head == remote
    }

    /** The frozen PR, open on `head`. */
    predicate PrStands(pr: Option<Pr>, x: Snapshot, head: Commit)
      requires x.pr.Some?
    {
      && pr.Some? && pr.value.number == x.pr.value.number && pr.value.open && !pr.value.draft
      && pr.value.base == x.main && pr.value.sameBranch && pr.value.head == head && pr.value.sameRepo
    }

    /** Before the push every authority is read again, judged as if the local branch still were at the
        start head. */
    method ReacquireForPush(x: Snapshot, start: Commit, candidate: Commit) returns (r: Outcome, y: Snapshot)
      requires w.Sound() && RefreshEligible(x)
      modifies w
      ensures w.Sound() && old(w.trace) <= w.trace && Rely(old(w.s), w.s)
      ensures r.Done? ==> w.failures == old(w.failures)
      ensures r.Done? ==> w.s.work.CleanAt(candidate)
      ensures r.Done? ==> y.resolved && y.other && SameAuthority(x, y, candidate, start)
      ensures r.Done? ==> Observed(w.trace, |old(w.trace)| - 1, y)
      ensures w.quiet ==> w.s == old(w.s) && y == Sees(w.s, true)
      ensures w.quiet ==> (r.Done? <==> w.s.work.CleanAt(candidate) && StillOpen(w.s, x, start))
    {
      y := Acquire(w, true);
      ghost var seen := w.trace;
      if !RefreshEligible(y.(local := Some(start))) || y.body != x.body || y.main != x.main
         || y.local != Some(candidate) || y.remote != Some(start) || y.pr.value.number != x.pr.value.number {
        return Stop, y;
      }
      r := RequireCleanBranch(w, candidate);
      if r.Stop? { return; }
      r := VerifyTreeUnchanged(w, candidate.tree, candidate);
      StillObserved(seen, w.trace, |old(w.trace)| - 1, y);
    }

    /** Main and the PR once more, on their own. */
    method VerifyMainAndPr(x: Snapshot, start: Commit) returns (r: Outcome)
      requires w.Sound() && x.pr.Some?
      modifies w
      ensures w.Sound() && old(w.trace) <= w.trace && Rely(old(w.s), w.s)
      ensures r.Done? ==> w.failures == old(w.failures)
      ensures r.Done? ==> PrStands(w.s.pr, x, start)
      ensures r.Done? ==> exists k: nat :: |old(w.trace)| - 1 <= k < |w.trace| && w.trace[k].s.main == x.main
      ensures w.quiet ==> w.s == old(w.s)
      ensures w.quiet ==> (r.Done? <==> w.s.main == x.main && PrStands(w.s.pr, x, start))
    {
      var mainRead := w.Query();
      if !mainRead || w.s.main != x.main { return Stop; }
      assert w.trace[|w.trace| - 1].s.main == x.main;
      var prRead := w.Query();
      if !prRead || w.s.pr.None? { return Stop; }
      var pr := w.s.pr.value;
      r := if pr.number == x.pr.value.number && pr.open && !pr.draft && pr.base == x.main && pr.sameBranch
              && pr.head == start && pr.sameRepo
           then Done else Stop;
    }

    method VerifyPrePush(x: Snapshot, start: Commit, candidate: Commit) returns (r: Outcome, y: Snapshot)
      requires w.Sound() && RefreshEligible(x)
      modifies w
      ensures w.Sound() && old(w.trace) <= w.trace && Rely(old(w.s), w.s)
      ensures r.Done? ==> w.failures == old(w.failures)
      ensures r.Done? ==> w.s.work.CleanAt(candidate) && PrStands(w.s.pr, x, start)
      // Task, main, PR and refs were all seen again as they were frozen, local branch at the candidate.
      ensures r.Done? ==>
        y.resolved && y.other && SameAuthority(x, y, candidate, start) && Observed(w.trace, |old(w.trace)| - 1, y)
      ensures w.quiet ==> w.s == old(w.s)
      ensures w.quiet ==> (r.Done? <==> w.s.work.CleanAt(candidate) && StillOpen(w.s, x, start))
    {
      r, y := ReacquireForPush(x, start, candidate);
      if r.Stop? { return; }
      ghost var seen := w.trace;
      r := VerifyMainAndPr(x, start);
      StillObserved(seen, w.trace, |old(w.trace)| - 1, y);
    }

    method VerifyFinal(x: Snapshot, run: RefreshRun) returns (r: Outcome, y: Snapshot)
      requires w.Sound() && RefreshEligible(x) && run.main == x.main
      requires w.s.store.boundary == Some(Boundary(run.op, run.new_))
      modifies w
      ensures w.Sound() && old(w.trace) <= w.trace && Rely(old(w.s), w.s)
      ensures r.Done? ==> w.failures == old(w.failures)
      ensures r.Done? ==> w.s.work.CleanAt(run.new_) && PrShown(w.trace, run)
      ensures r.Done? ==>
        y.resolved && y.other && SameAuthority(x, y, run.new_, run.new_) && Observed(w.trace, |old(w.trace)| - 1, y)
      ensures w.quiet ==> w.s == old(w.s)
      ensures w.quiet ==> (r.Done? <==> w.s.work.CleanAt(run.new_) && StillOpen(w.s, x, run.new_))
    {
      y := Acquire(w, true);
      if !RefreshEligible(y) || y.body != x.body || y.main != x.main || y.local != Some(run.new_)
         || y.remote != Some(run.new_) || y.pr.value.number != x.pr.value.number {
        return Stop, y;
      }
      ghost var seen := w.trace;
      assert PrShows(w.trace[|seen| - 1].s, run);
      r := RequireCleanBranch(w, run.new_);
      if r.Stop? { return; }
      r := VerifyTreeUnchanged(w, run.new_.tree, run.new_);
      assert PrShows(w.trace[|seen| - 1].s, run);
      StillObserved(seen, w.trace, |old(w.trace)| - 1, y);
    }

    /** The fresh-Review boundary of the candidate, before it is anywhere but here. */
    method Arm(run: RefreshRun) returns (r: Outcome)
      requires w.Sound() && Ordinary(w.s.proc) && run.start != run.new_
      requires OriginOk(w.s.origin, w.s.remote, run.op) && run.op < w.s.store.reviews.nextId
      requires priorBoundary == w.s.store.boundary && RestoreSafe(w.s, run.op, priorBoundary) && !boundaryWritten
      modifies w, this`boundaryWritten, this`lastFreshReviewRequired
      ensures w.Sound() && OriginOk(w.s.origin, w.s.remote, run.op) && RestoreSafe(w.s, run.op, priorBoundary)
      ensures r.Done? ==> w.failures == old(w.failures)
      ensures Rely(old(w.s).(store := w.s.store, proc := w.s.proc), w.s)
      ensures r.Done? == boundaryWritten
      ensures r.Stop? ==> w.s.store == old(w.s.store) && lastFreshReviewRequired == old(lastFreshReviewRequired)
      ensures r.Done? ==>
        && Armed(w.s, run) && lastFreshReviewRequired && w.s.proc == old(w.s.proc).(refresh := Some(run))
        && w.s.store == old(w.s.store).(boundary := Some(Boundary(run.op, run.new_)))
      ensures w.quiet ==> r.Done? && w.s == old(w.s).(store := w.s.store, proc := w.s.proc)
    {
      r := w.Save(w.s.store.(boundary := Some(Boundary(run.op, run.new_))));
      if r.Stop? { return; }
      w.Note(w.s.proc.(refresh := Some(run)));
      boundaryWritten, lastFreshReviewRequired := true, true;
    }

    /** Boundary first, then the push, then proof of the final identity or compensation. */
    method Publish(op: Id, x: Snapshot, start: Commit, candidate: Commit) returns (r: Outcome)
      requires w.Sound() && RefreshEligible(x) && x.local == Some(start) && start != candidate
      requires PrStands(w.s.pr, x, start)
      requires OriginOk(w.s.origin, w.s.remote, op) && op < w.s.store.reviews.nextId
      requires Ordinary(w.s.proc) && Validated(w.s.proc, candidate) && IsAncestor(x.main, candidate)
      requires w.s.work.CleanAt(candidate) && candidateActive && !boundaryWritten && lastPushOutcome == NotAttempted
      requires lastEffects == []
      requires priorBoundary == w.s.store.boundary && RestoreSafe(w.s, op, priorBoundary)
      modifies w, this`boundaryWritten, this`lastFreshReviewRequired, this`lastPushOutcome, this`lastEffects
      modifies this`candidateActive
      ensures w.Sound() && w.s.work == old(w.s.work)
      ensures r.Done? ==> w.failures == old(w.failures) + if lastEffects == [ForceWithExactLease] then 0 else 1
      ensures !boundaryWritten ==> candidateActive && lastPushOutcome == NotAttempted && w.s.store == old(w.s.store)
      ensures boundaryWritten ==>
        && Armed(w.s, RefreshRun(op, start, candidate, x.main)) && RestoreSafe(w.s, op, priorBoundary)
        && w.s.store == old(w.s.store).(boundary := Some(Boundary(op, candidate)))
      ensures NotOnRemote(lastPushOutcome) ==> candidateActive && !Mine(w.s.origin, op)
      ensures r.Done? ==> boundaryWritten && lastPushOutcome == Updated && lastFreshReviewRequired
      ensures r.Done? ==> PrShown(w.trace, RefreshRun(op, start, candidate, x.main)) && Validated(w.s.proc, candidate)
      ensures lastFreshReviewRequired == (boundaryWritten || old(lastFreshReviewRequired))
      ensures ReceiptsTell(lastEffects, lastPushOutcome) && (r.Done? ==> |lastEffects| == 1)
      ensures w.quiet && StillOpen(old(w.s), x, start) ==> r.Done? && w.s.remote == Some(candidate)
    {
      var run := RefreshRun(op, start, candidate, x.main);
      r := Arm(run);
      if r.Stop? { return; }
      r := PushExactLease(run);
      if r.Stop? { return; }
      r := ConfirmOrCompensate(x, run);
    }

    /** After a landed push: prove the final identity, or try to undo the push. */
    method ConfirmOrCompensate(x: Snapshot, run: RefreshRun) returns (r: Outcome)
      requires w.Sound() && RefreshEligible(x) && Armed(w.s, run) && RestoreSafe(w.s, run.op, priorBoundary)
      requires lastPushOutcome == Updated && ReceiptsTell(lastEffects, Updated) && |lastEffects| == 1
      requires run.main == x.main
      modifies w, this`lastPushOutcome, this`lastEffects, this`candidateActive
      ensures w.Sound() && Armed(w.s, run) && RestoreSafe(w.s, run.op, priorBoundary)
      ensures r.Done? ==> w.failures == old(w.failures)
      ensures w.s.work == old(w.s.work) && w.s.store == old(w.s.store) && w.s.proc == old(w.s.proc)
      ensures NotOnRemote(lastPushOutcome) ==> candidateActive && !Mine(w.s.origin, run.op)
      ensures lastPushOutcome != Unknown && (r.Done? ==> lastPushOutcome == Updated && PrShown(w.trace, run))
      ensures ReceiptsTell(lastEffects, lastPushOutcome)
      ensures r.Done? ==> lastEffects == old(lastEffects) && !candidateActive
      ensures w.quiet && w.s.work.CleanAt(run.new_) && StillOpen(old(w.s), x, run.new_) ==> r.Done? && w.s == old(w.s)
    {
      candidateActive := false;
      var y;
      r, y := VerifyFinal(x, run);
      if r.Done? { return; }
      var compensated := CompensatePostPushFailure(run);
      // The local branch must never keep a candidate the remote does not hold.
      candidateActive := compensated != Unproven;
      lastPushOutcome := match compensated
                         case Restored => NotUpdated
                         case ExternalDrift => NotUpdatedDrift
                         case Unproven => Updated;
    }

    /** Rebase, validate and re-read every authority: a candidate ready to be published. */
    method BuildCandidate(x: Snapshot, start: Commit) returns (r: Outcome, candidate: Commit)
      requires w.Sound() && RefreshEligible(x) && w.s.work.CleanAt(start) && w.s.work.gitop == NoGitOp
      requires Ordinary(w.s.proc)
      modifies w, this`candidateActive
      ensures w.Sound() && Rely(old(w.s).(work := w.s.work, proc := w.s.proc), w.s) && Ordinary(w.s.proc)
      ensures r.Done? ==> w.failures == old(w.failures)
      ensures !candidateActive ==> r.Stop? && w.s.work == old(w.s.work)
      ensures w.calm ==> w.s.work.Settled()
      ensures r.Done? ==> w.s.work.CleanAt(candidate) && candidate != start
      ensures r.Done? ==> IsAncestor(x.main, candidate) && Validated(w.s.proc, candidate) && PrStands(w.s.pr, x, start)
      ensures w.quiet && !IsAncestor(x.main, start) && StillOpen(old(w.s), x, start) ==>
        r.Done? && StillOpen(w.s, x, start)
    {
      r, candidate := Rebase(start, x.main);
      if r.Stop? { return; }
      r := Validate(candidate);
      if r.Stop? { return; }
      var y;
      r, y := VerifyPrePush(x, start, candidate);
    }

    /** Whether the start head contains main already; then its tree is read for the receipt. */
    method AlreadyCurrentHead(main: Commit, start: Commit) returns (r: Outcome, current: bool)
      requires w.Sound()
      modifies w
      ensures w.Sound() && old(w.trace) <= w.trace && Rely(old(w.s), w.s) && current == IsAncestor(main, start)
      ensures r.Done? ==> w.failures == old(w.failures)
      ensures w.quiet ==> r.Done? && w.s == old(w.s)
    {
      current := IsAncestor(main, start);
      var compared := w.Query();
      if !compared || !current { return if compared then Done else Stop, current; }
      var treeRead := w.Query();
      r := if treeRead then Done else Stop;
    }

    /** What the guarded block tells the rollback after it: what it may have touched since `before`,
        and that "not on the remote" is true. */
    ghost predicate Handed(before: State, op: Id)
      reads this, w
    {
      && (candidateActive ==>
            && startHead.Some? && before.work.CleanAt(startHead.value) && before.work.gitop == NoGitOp
            && (w.calm ==> w.s.work.Settled()))
      && (!candidateActive && NotOnRemote(lastPushOutcome) ==> w.s.work == before.work)
      && (!boundaryWritten ==> w.s.store == before.store && NotOnRemote(lastPushOutcome))
      && (NotOnRemote(lastPushOutcome) ==> !Mine(w.s.origin, op))
      && (boundaryWritten ==>
            && w.s.proc.refresh.Some? && var run := w.s.proc.refresh.value;
               && run.op == op && Armed(w.s, run) && RestoreSafe(w.s, op, priorBoundary)
               && priorBoundary == before.store.boundary
               && w.s.store == before.store.(boundary := w.s.store.boundary)
               && (!NotOnRemote(lastPushOutcome) ==> w.s.work.CleanAt(run.new_)))
    }

    /** The candidate of this run, validated, is published behind its boundary, and the PR was seen on it. */
    ghost predicate Published()
      reads this, w
    {
      && boundaryWritten && lastPushOutcome == Updated && lastFreshReviewRequired && |lastEffects| == 1
      && w.s.proc.refresh.Some? && var run := w.s.proc.refresh.value;
         PrShown(w.trace, run) && IsAncestor(run.main, run.new_) && Validated(w.s.proc, run.new_)
    }

    /** Build the candidate and publish it. */
    method Propose(op: Id, x: Snapshot, start: Commit) returns (r: Outcome)
      requires w.Sound() && OriginOk(w.s.origin, w.s.remote, op) && op < w.s.store.reviews.nextId && w.s.proc == IDLE
      requires !candidateActive && !boundaryWritten && lastPushOutcome == NotAttempted && lastEffects == []
      requires RefreshEligible(x) && x.local == Some(start) && startHead == Some(start)
      requires w.s.work.CleanAt(start) && w.s.work.gitop == NoGitOp
      requires lastFreshReviewRequired == w.s.store.boundary.Some?
      requires priorBoundary == w.s.store.boundary && RestoreSafe(w.s, op, priorBoundary)
      modifies w, this`boundaryWritten, this`lastFreshReviewRequired, this`lastPushOutcome, this`lastEffects
      modifies this`candidateActive
      ensures w.Sound() && ReceiptsTell(lastEffects, lastPushOutcome) && Handed(old(w.s), op)
      ensures r.Done? ==> w.failures == old(w.failures) + if lastEffects == [ForceWithExactLease] then 0 else 1
      ensures r.Done? ==> Published()
      ensures lastFreshReviewRequired == w.s.store.boundary.Some?
      ensures w.quiet && !IsAncestor(x.main, start) && StillOpen(old(w.s), x, start) ==>
        r.Done? && w.s.remote == w.s.work.branch
    {
      var candidate;
      r, candidate := BuildCandidate(x, start);
      if r.Stop? { return; }
      r := Publish(op, x, start, candidate);
    }

    /** The guarded block of a Refresh. */
    method Attempt(op: Id) returns (exit: Exit)
      requires w.Sound() && OriginOk(w.s.origin, w.s.remote, op) && op < w.s.store.reviews.nextId && w.s.proc == IDLE
      requires !candidateActive && !boundaryWritten && lastPushOutcome == NotAttempted && startHead.None?
      requires lastEffects == [] && !lastFreshReviewRequired
      modifies w, this
      ensures w.Sound() && exit != RollbackFailed
      ensures ReceiptsTell(lastEffects, lastPushOutcome) && Handed(old(w.s), op)
      ensures exit == AlreadyCurrent ==>
        && !candidateActive && !boundaryWritten && lastPushOutcome == NotAttempted
        && lastFreshReviewRequired == old(w.s.store.boundary).Some? && w.s.work == old(w.s.work)
        && Contained(w.trace, |old(w.trace)| - 1, w.s.work.HeadCommit())
      ensures lastFreshReviewRequired ==> w.s.store.boundary.Some?
      ensures exit == AlreadyCurrent ==> w.failures == old(w.failures)
      ensures exit == ReadyForFreshReview ==>
        w.failures == old(w.failures) + if lastEffects == [ForceWithExactLease] then 0 else 1
      ensures exit == ReadyForFreshReview ==> Published()
      ensures w.quiet && Refreshable(old(w.s)) ==>
        if IsAncestor(old(w.s.main), old(w.s.remote).value) then exit == AlreadyCurrent && w.s == old(w.s)
        else exit == ReadyForFreshReview && w.s.remote == w.s.work.branch
    {
      exit := Stopped;
      var r, x := Admit(op);
      if r.Stop? { return; }
      var start := x.local.value;
      var current;
      ghost var seen := w.trace;
      r, current := AlreadyCurrentHead(x.main, start);
      if r.Stop? { return; }
      StillObserved(seen, w.trace, |old(w.trace)| - 1, x);
      if current { return AlreadyCurrent; }
      r := Propose(op, x, start);
      if r.Done? {
        exit := ReadyForFreshReview;
      }
    }

    /** Boundary, branch and HEAD go back only when the candidate is provably not on the remote. */
    method RollBack(op: Id) returns (r: Outcome)
      requires w.Sound() && (NotOnRemote(lastPushOutcome) ==> !Mine(w.s.origin, op))
      requires boundaryWritten ==> w.s.proc.refresh.Some? && w.s.proc.refresh.value.op == op
      requires boundaryWritten ==> Armed(w.s, w.s.proc.refresh.value) && RestoreSafe(w.s, op, priorBoundary)
      modifies w, this`lastFreshReviewRequired
      ensures w.Sound() && Rely(old(w.s).(work := w.s.work, store := w.s.store), w.s)
      ensures r.Done? ==> w.failures == old(w.failures)
      ensures r.Stop? ==> NotOnRemote(lastPushOutcome)
      ensures r.Done? && boundaryWritten && NotOnRemote(lastPushOutcome) ==>
        lastFreshReviewRequired == priorBoundary.Some?
      ensures !boundaryWritten || !NotOnRemote(lastPushOutcome) ==>
        lastFreshReviewRequired == old(lastFreshReviewRequired)
      // It works whenever its own commands do.
      ensures w.calm && (candidateActive ==> old(w.s.work).Settled()) ==> r.Done?
      ensures w.s.store == old(w.s.store) || w.s.store == old(w.s.store).(boundary := priorBoundary)
      ensures if lastPushOutcome in {NotAttempted, NotUpdated, NotUpdatedDrift} then
          r.Done? ==>
            && (boundaryWritten ==> w.s.store == old(w.s.store).(boundary := priorBoundary))
            && (!boundaryWritten ==> w.s.store == old(w.s.store))
            && (if candidateActive && startHead.Some?
                then w.s.work.CleanAt(startHead.value) && w.s.work.gitop == NoGitOp
                else w.s.work == old(w.s.work))
        else w.s == old(w.s)
    {
      var notOnRemote := NotOnRemote(lastPushOutcome);
      if boundaryWritten && notOnRemote {
        r := w.Save(w.s.store.(boundary := priorBoundary));
        if r.Stop? { return; }
        lastFreshReviewRequired := priorBoundary.Some?;
      }
      if candidateActive && notOnRemote && startHead.Some? {
        r := RestoreOriginal(startHead.value);
        return;
      }
      r := Done;
    }

    /** A fresh operation id, and nothing known or done yet. */
    method Begin() returns (op: Id)
      requires w.Sound()
      modifies w, this
      ensures w.Sound() && old(w.trace) <= w.trace
      ensures w.s == old(w.s).(proc := IDLE, store := Repo.NextId(old(w.s.store)))
      ensures op == old(w.s.store.reviews.nextId) && OriginOk(w.s.origin, w.s.remote, op)
      ensures lastPushOutcome == NotAttempted && lastEffects == [] && w.failures == old(w.failures)
      ensures !lastFreshReviewRequired && !candidateActive && !boundaryWritten && startHead.None?
    {
      lastPushOutcome, lastFreshReviewRequired, lastEffects := NotAttempted, false, [];
      candidateActive, boundaryWritten, priorBoundary, startHead := false, false, None, None;
      w.Note(IDLE);
      op := w.NewId();
    }

    /** A failing Refresh whose rollback succeeds either left everything as it found it, or
        keeps its candidate together with the fresh-Review boundary for exactly that head. */
    method Refresh() returns (exit: Exit, op: Id)
      requires w.Sound()
      modifies w, this
      ensures w.Sound()
      ensures ReceiptsTell(lastEffects, lastPushOutcome)
      ensures exit == Stopped ==>
        if lastPushOutcome in {NotAttempted, NotUpdated, NotUpdatedDrift} then
          && !Mine(w.s.origin, op) && w.s.work == old(w.s.work) && w.s.store == Repo.NextId(old(w.s.store))
        else Retained(w.s, op)
      // A stop never reports a fresh Review as required that nothing requires.
      ensures exit == Stopped && lastFreshReviewRequired ==> w.s.store.boundary.Some?
      ensures exit == RollbackFailed ==>
        lastPushOutcome in {NotAttempted, NotUpdated, NotUpdatedDrift} && !Mine(w.s.origin, op)
      // A conflict, a failing validation, a rejected push or a lagging PR never ends in a failed rollback.
      ensures w.calm ==> exit != RollbackFailed
      ensures exit == AlreadyCurrent ==>
        && w.s.work == old(w.s.work) && w.s.store == Repo.NextId(old(w.s.store)) && lastPushOutcome == NotAttempted
        && lastFreshReviewRequired == w.s.store.boundary.Some?
        && Contained(w.trace, |old(w.trace)| - 1, w.s.work.HeadCommit())
      ensures exit == ReadyForFreshReview ==> lastPushOutcome == Updated && |lastEffects| == 1 && Retained(w.s, op)
      // No command has failed, except that the push may have landed behind a failing exit.
      ensures exit == AlreadyCurrent ==> w.failures == old(w.failures)
      ensures exit == ReadyForFreshReview ==>
        w.failures == old(w.failures) + if lastEffects == [ForceWithExactLease] then 0 else 1
      // The PR has been seen on that head since, based on the main it was rebased onto.
      ensures exit == ReadyForFreshReview ==>
        && w.s.proc.refresh.Some? && var run := w.s.proc.refresh.value;
           && w.s.store.boundary == Some(Boundary(run.op, run.new_)) && IsAncestor(run.main, run.new_)
           && PrShown(w.trace, run) && Validated(w.s.proc, run.new_)
      // With no other writer and no failing command it does what it is for.
      ensures w.quiet && Refreshable(old(w.s)) ==>
        if IsAncestor(old(w.s.main), old(w.s.remote).value) then exit == AlreadyCurrent
        else exit == ReadyForFreshReview && w.s.remote == w.s.work.branch
    {
      op := Begin();
      exit := Attempt(op);
      if exit != Stopped { return; }
      var r := RollBack(op);
      if r.Stop? { exit := RollbackFailed; }
    }
  }

  /** Since then main has been seen at a commit that `head` contains. */
  ghost predicate Contained(t: seq<Event>, since: nat, head: Commit) {
    exists k: nat :: since <= k < |t| && IsAncestor(t[k].s.main, head)
  }

  /** The candidate of `op` is kept locally, with its fresh-Review boundary. */
  predicate Retained(s: State, op: Id) {
    && s.store.boundary.Some? && s.store.boundary.value.source == op
    && s.work.CleanAt(s.store.boundary.value.head)
  }

  /** The remote side still is what `x` froze, with the Task ref and PR head at `remote`. */
  predicate StillOpen(s: State, x: Snapshot, remote: Commit)
    requires x.pr.Some?
  {
    && s.body == x.body && s.main == x.main && s.remote == Some(remote)
    && s.pr.Some? && s.pr.value.number == x.pr.value.number && s.pr.value.head == remote
    && s.pr.value.open && !s.pr.value.draft && s.pr.value.base == x.main
    && s.pr.value.sameBranch && s.pr.value.sameRepo
  }

  /** A Task that Refresh may start on. */
  predicate Refreshable(s: State) {
    && s.store.session.None? && s.store.marker.None? && s.work.gitop == NoGitOp && !s.work.Unborn()
    && RefreshEligible(Sees(s, true))
  }
}
