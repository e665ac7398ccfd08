/** Whole runs: any operations in any order, agent edits, other writers, and crashes anywhere. */
module Lifecycle {
  import opened Wrappers
  import opened CommitDag
  import opened Protocol
  import opened World
  import opened Snapshots
  import Refresh
  import Delivery
  import Remediation
  import Review

  // ---- what every history keeps ------------------------------------------------

  /** Between `i` and `j` no other writer touched the remote Task ref. */
  ghost predicate Undisturbed(t: seq<Event>, i: nat, j: nat) {
    i <= j < |t| && forall k: nat | i < k <= j :: OursAt(t, k)
  }

  ghost predicate OursAt(t: seq<Event>, k: nat) {
    0 < k < |t| && (t[k].actor == External ==> RemoteKept(t[k - 1].s, t[k].s))
  }

  /** A Refresh exchange of exactly its start head and its candidate, one way or the other. */
  ghost predicate ExchangeAt(t: seq<Event>, k: nat) {
    0 < k < |t| && t[k].actor == Lck && (LeasePush(t[k - 1].s, t[k].s) || Compensation(t[k - 1].s, t[k].s))
  }

  lemma {:induction false} UndisturbedPrefix(t: seq<Event>, i: nat, j: nat)
    requires Undisturbed(t, i, j) && i < j
    ensures Undisturbed(t, i, j - 1) && OursAt(t, j)
  {
  }

  /** Every LCK write of the remote Task ref moves it to a descendant, but for the exact
      exchanges of a Refresh; those never touch a head other than its start and its candidate. */
  lemma {:induction false} RemoteOnlyAdvances(t: seq<Event>, i: nat, j: nat)
    requires History(t) && Undisturbed(t, i, j) && t[i].s.remote.Some?
    requires forall k: nat | i < k <= j :: !ExchangeAt(t, k)
    ensures t[j].s.remote.Some? && IsAncestor(t[i].s.remote.value, t[j].s.remote.value)
    decreases j
  {
    if i < j {
      UndisturbedPrefix(t, i, j);
      RemoteOnlyAdvances(t, i, j - 1);
      assert StepAt(t, j) && !ExchangeAt(t, j);
      var a, b := t[j - 1].s, t[j].s;
      if t[j].actor == Lck && FastForward(a, b) {
        AncestorTransitive(t[i].s.remote.value, a.remote.value, b.remote.value);
      }
    }
  }

  /** While a Refresh has a candidate, LCK writes the remote Task ref only from its start head to
      the candidate or back, and only with the boundary for that very candidate stored. */
  lemma {:induction false} RefreshWritesExactly(t: seq<Event>, k: nat)
    requires History(t) && 0 < k < |t| && t[k].actor == Lck
    requires t[k - 1].s.proc.refresh.Some? && t[k].s.remote != t[k - 1].s.remote
    ensures var run := t[k - 1].s.proc.refresh.value;
      && (t[k - 1].s.remote, t[k].s.remote) in {(Some(run.start), Some(run.new_)), (Some(run.new_), Some(run.start))}
      && t[k - 1].s.store.boundary == Some(Boundary(run.op, run.new_))
      && (t[k].s.remote == Some(run.new_) ==>
            IsAncestor(run.main, run.new_) && Validated(t[k - 1].s.proc, run.new_) && Owes(t[k].s.origin))
  {
    assert StepAt(t, k);
  }

  /** Outside a Refresh, LCK moves the remote Task ref only forward, to the snapshot head or its
      child, carrying the validated tree. */
  lemma {:induction false} DeliveryWritesExactly(t: seq<Event>, k: nat)
    requires History(t) && 0 < k < |t| && t[k].actor == Lck
    requires t[k - 1].s.proc.refresh.None? && t[k].s.remote != t[k - 1].s.remote
    ensures t[k].s.remote.Some? && t[k - 1].s.proc.basis.Some?
    ensures var a, head := t[k - 1].s, t[k].s.remote.value;
      && (a.remote.Some? ==> IsAncestor(a.remote.value, head))
      && (head == a.proc.basis.value || FirstParent(head, a.proc.basis.value))
      && Validated(a.proc, head)
      && (OwnedCandidate(a.store, head) ==> Owes(t[k].s.origin))
  {
    assert StepAt(t, k);
  }

  // ---- what was validated --------------------------------------------------------

  /** At step `g` the profile gates ran, on these files, and passed. */
  ghost predicate GatesAt(t: seq<Event>, g: nat, files: Tree) {
    0 < g < |t| && t[g].actor == GatesPassed && t[g - 1].s.work.files == files
  }

  ghost predicate FormalAt(t: seq<Event>, f: nat, files: Tree) {
    0 < f < |t| && t[f].actor == FormalPassed && t[f - 1].s.work.files == files
  }

  lemma {:induction false} GatesBefore(t: seq<Event>, k: nat) returns (g: nat)
    requires History(t) && k < |t| && t[k].s.proc.gated.Some? && t[k].s.proc.gateLeft.Some?
    ensures g <= k && GatesAt(t, g, t[k].s.proc.gated.value) && t[g].s.work.files == t[k].s.proc.gateLeft.value
    decreases k
  {
    assert k > 0 && StepAt(t, k);
    if t[k].actor == GatesPassed {
      g := k;
    } else {
      g := GatesBefore(t, k - 1);
    }
  }

  lemma {:induction false} FormalBefore(t: seq<Event>, k: nat) returns (f: nat)
    requires History(t) && k < |t| && t[k].s.proc.formal.Some?
    ensures f <= k && FormalAt(t, f, t[k].s.proc.formal.value)
    ensures t[k].s.proc.gated.Some? ==> t[f - 1].s.proc.gated == t[k].s.proc.gated
    ensures t[k].s.proc.gateLeft.Some? ==> t[f - 1].s.proc.gateLeft == t[k].s.proc.gateLeft
    decreases k
  {
    assert k > 0 && StepAt(t, k);
    if t[k].actor == FormalPassed {
      f := k;
    } else {
      f := FormalBefore(t, k - 1);
    }
  }

  /** Every head that LCK pushes forward carries exactly the tree that the gates ran on, and formal
      validation ran after them on what they had left behind: on the pushed tree exactly when that is
      what they had left. */
  lemma {:induction false} PushedTreeValidated(t: seq<Event>, k: nat) returns (g: nat, f: nat)
    requires History(t) && 0 < k < |t| && t[k].actor == Lck && t[k].s.remote != t[k - 1].s.remote
    requires !Compensation(t[k - 1].s, t[k].s)
    ensures t[k].s.remote.Some? && g < f < k && GatesAt(t, g, t[k].s.remote.value.tree)
    ensures FormalAt(t, f, t[g].s.work.files)
    ensures FormalAt(t, f, t[k].s.remote.value.tree) <==> t[g].s.work.files == t[k].s.remote.value.tree
  {
    assert StepAt(t, k);
    f := FormalBefore(t, k - 1);
    g := GatesBefore(t, f - 1);
  }

  /** Passing gates leave `left`, passing formal validation puts the files back. */
  lemma {:induction false} LeftAndPutBack(s: State, left: Tree) returns (t: seq<Event>)
    requires Inv(s) && s.proc == IDLE && s.work.branch.Some?
    ensures History(t) && |t| == 4 && t[1].s.work == t[3].s.work == s.work
    ensures GatesAt(t, 2, s.work.files) && t[2].s.work.files == left && FormalAt(t, 3, left)
    ensures t[3].s == s.(proc := IDLE.(basis := s.work.branch, gated := Some(s.work.files), gateLeft := Some(left),
                                       formal := Some(left)))
  {
    var noted := s.(proc := IDLE.(basis := s.work.branch));
    var gated := noted.(work := s.work.(files := left),
                        proc := noted.proc.(gated := Some(s.work.files), gateLeft := Some(left)));
    var formal := gated.(work := s.work, proc := gated.proc.(formal := Some(left)));
    t := [Event(External, s)];
    HistoryAppend(t, Event(Lck, noted));
    t := t + [Event(Lck, noted)];
    HistoryAppend(t, Event(GatesPassed, gated));
    t := t + [Event(GatesPassed, gated)];
    HistoryAppend(t, Event(FormalPassed, formal));
    t := t + [Event(FormalPassed, formal)];
  }

  /** The gates change the files, formal validation sees only those and changes them back: the check
      after it finds index, files and head as they were, and the commit of a tree that no formal
      validation saw is pushed. */
  lemma {:induction false} UnseenTreePushed() returns (t: seq<Event>, g: nat, f: nat, k: nat)
    ensures History(t) && g < f < k < |t| && t[k].actor == Lck && t[k].s.remote.Some?
    ensures FastForward(t[k - 1].s, t[k].s)
    ensures var pushed := t[k].s.remote.value;
      && TreeHeld(t[f].s.work, pushed.tree, t[k - 1].s.proc.basis.value)
      && GatesAt(t, g, pushed.tree) && FormalAt(t, f, t[g].s.work.files) && !FormalAt(t, f, pushed.tree)
  {
    var start := Commit([], 1, 0);
    var head := Commit([start], 2, 0);
    var store := Store(None, None, map[], None, Reviews(None, map[], map[], map[], 0));
    var staged := Work(Some(start), OnTask, 2, 2, NoGitOp);
    assert IsAncestor(start, start) && start in head.parents && IsAncestor(start, head);
    var validated := LeftAndPutBack(State(Some(start), Other, start, None, 0, staged, store, IDLE), 3);
    var committed := validated[3].s.(work := staged.(branch := Some(head)));
    var pushed := Repo.Pushed(committed, head, Other, true);
    HistoryAppend(validated, Event(Lck, committed));
    HistoryAppend(validated + [Event(Lck, committed)], Event(Lck, pushed));
    t, g, f, k := validated + [Event(Lck, committed)] + [Event(Lck, pushed)], 2, 3, 5;
  }

  // ---- heads that owe a Review -----------------------------------------------------

  /** At step `v` Review Complete wrote a verdict on this head, from the guard of the Review. */
  ghost predicate VerdictAt(t: seq<Event>, v: nat, head: Commit) {
    && 0 < v < |t| && t[v].actor.VerdictWritten?
    && var id := t[v].actor.review;
       && id in t[v - 1].s.store.reviews.guards && id in t[v].s.store.reviews.records
       && t[v].s.store.reviews.records[id].identity.head == head
       && SameTarget(t[v - 1].s.store.reviews.guards[id].identity, t[v].s.store.reviews.records[id].identity)
  }

  /** While it stays on the remote a head goes on owing its Review until a verdict on it is written. */
  lemma {:induction false} OwesUntilJudged(t: seq<Event>, i: nat, j: nat) returns (v: nat)
    requires History(t) && Undisturbed(t, i, j) && Owes(t[i].s.origin)
    requires forall k: nat | i <= k <= j :: t[k].s.remote == t[i].s.remote
    ensures t[i].s.remote.Some?
    ensures t[j].s.origin == t[i].s.origin ||
      (t[j].s.origin == WithJudgment(t[i].s.origin) && i < v <= j && VerdictAt(t, v, t[i].s.remote.value))
    decreases j
  {
    assert InvAt(t, i);
    v := j;
    if i < j {
      UndisturbedPrefix(t, i, j);
      var u := OwesUntilJudged(t, i, j - 1);
      assert StepAt(t, j);
      if t[j - 1].s.origin != t[i].s.origin {
        v := u;
      }
    }
  }

  /** From its push on, through any crash, and until a verdict on that very head is written after the
      push: a fresh-Review boundary or an open session with another start head stands in the way. */
  lemma {:induction false} OwedHeadCovered(t: seq<Event>, i: nat, j: nat) returns (v: nat)
    requires History(t) && Undisturbed(t, i, j) && Owes(t[i].s.origin)
    requires forall k: nat | i <= k <= j :: t[k].s.remote == t[i].s.remote
    ensures t[i].s.remote.Some?
    ensures CoveredHead(t[j].s.store, t[i].s.remote.value) || (i < v <= j && VerdictAt(t, v, t[i].s.remote.value))
  {
    v := OwesUntilJudged(t, i, j);
    assert InvAt(t, j);
  }

  // ---- verdicts ------------------------------------------------------------------

  /** At step `k` Review Prepare sealed this guard. */
  ghost predicate SealedAt(t: seq<Event>, k: nat, id: Id, guard: Guard) {
    && 0 < k < |t| && t[k].actor == Lck
    && id !in t[k - 1].s.store.reviews.sealed
    && id in t[k].s.store.reviews.sealed && t[k].s.store.reviews.sealed[id] == guard
  }

  /** At step `v` Review validation passed on a clone of this target, and at step `p` the PR was open
      on it. */
  ghost predicate ValidatedAt(t: seq<Event>, v: nat, p: nat, base: Commit, head: Commit) {
    && p < v < |t| && t[v].actor == ReviewPassed && t[v].s.proc.reviewed == Some((base, head))
    && t[p].s.pr.Some? && t[p].s.pr.value.open && t[p].s.pr.value.base == base && t[p].s.pr.value.head == head
  }

  lemma {:induction false} TargetBefore(t: seq<Event>, k: nat) returns (p: nat)
    requires History(t) && k < |t| && t[k].s.proc.target.Some?
    ensures p < k && t[p].s.pr.Some? && ShowsTarget(t[p].s.pr.value, t[k].s.proc.target)
    decreases k
  {
    assert k > 0 && StepAt(t, k);
    if t[k - 1].s.proc.target == t[k].s.proc.target {
      p := TargetBefore(t, k - 1);
    } else {
      p := k - 1;
    }
  }

  /** What a process knows to be validated was validated by that very process: it has not forgotten
      it since. */
  lemma {:induction false} ReviewBefore(t: seq<Event>, k: nat) returns (v: nat, p: nat)
    requires History(t) && k < |t| && t[k].s.proc.reviewed.Some?
    ensures var target := t[k].s.proc.reviewed.value; v <= k && ValidatedAt(t, v, p, target.0, target.1)
    ensures forall m: nat | v <= m <= k :: t[m].s.proc.reviewed == t[k].s.proc.reviewed
    decreases k
  {
    assert k > 0 && StepAt(t, k);
    if t[k].actor == ReviewPassed {
      v := k;
      p := TargetBefore(t, k - 1);
    } else {
      v, p := ReviewBefore(t, k - 1);
    }
  }

  lemma {:induction false} SealedOnce(t: seq<Event>, j: nat, id: Id) returns (k: nat)
    requires History(t) && j < |t|
    requires id !in t[0].s.store.reviews.sealed && id in t[j].s.store.reviews.sealed
    ensures k <= j && SealedAt(t, k, id, t[j].s.store.reviews.sealed[id])
    ensures var identity := t[j].s.store.reviews.sealed[id].identity;
      t[k - 1].s.proc.reviewed == Some((identity.base, identity.head))
    decreases j
  {
    assert StepAt(t, j);
    var a, b := t[j - 1].s, t[j].s;
    if t[j].actor == Lck {
      assert SealStep(a.store.reviews, b.store.reviews, a.proc.reviewed, id);
    }
    if id in a.store.reviews.sealed {
      k := SealedOnce(t, j - 1, id);
    } else {
      k := j;
    }
  }

  /** A sealed target was validated before, by the process that sealed it, after it had seen the PR open
      on it. */
  lemma {:induction false} SealedValidated(t: seq<Event>, j: nat, id: Id) returns (k: nat, v: nat, p: nat)
    requires History(t) && j < |t|
    requires id !in t[0].s.store.reviews.sealed && id in t[j].s.store.reviews.sealed
    ensures var guard := t[j].s.store.reviews.sealed[id];
      && v < k <= j && SealedAt(t, k, id, guard) && ValidatedAt(t, v, p, guard.identity.base, guard.identity.head)
    ensures forall m: nat | v <= m < k :: t[m].s.proc.reviewed == t[v].s.proc.reviewed
  {
    k := SealedOnce(t, j, id);
    v, p := ReviewBefore(t, k - 1);
  }

  /** A record of this run is about a target that an earlier step sealed after validating it. */
  lemma {:induction false} RecordBacked(t: seq<Event>, j: nat, id: Id) returns (k: nat, v: nat, p: nat, guard: Guard)
    requires History(t) && j < |t|
    requires id !in t[0].s.store.reviews.sealed && id in t[j].s.store.reviews.records
    ensures v < k <= j && SealedAt(t, k, id, guard)
    ensures ValidatedAt(t, v, p, guard.identity.base, guard.identity.head)
    ensures SameTarget(guard.identity, t[j].s.store.reviews.records[id].identity)
  {
    assert InvAt(t, j) && RecordOk(t[j].s.store.reviews, id);
    k, v, p := SealedValidated(t, j, id);
    guard := t[j].s.store.reviews.sealed[id];
  }

  // ---- the boundary ----------------------------------------------------------------

  /** At step `k` an operation took the fresh-Review boundary away. */
  ghost predicate LiftedAt(t: seq<Event>, k: nat) {
    && 0 < k < |t| && t[k].actor == Lck
    && t[k - 1].s.store.boundary.Some? && t[k].s.store.boundary.None?
  }

  /** The boundary of step `k` was put there by step `i`. */
  ghost predicate BoundarySetAt(t: seq<Event>, i: nat) {
    0 < i < |t| && t[i].s.store.boundary.Some? && t[i].s.store.boundary != t[i - 1].s.store.boundary
  }

  /** What a process knows to have judged it has judged, and the boundary has not changed since. */
  lemma {:induction false} VerdictBefore(t: seq<Event>, k: nat) returns (v: nat)
    requires History(t) && k < |t| && t[k].s.proc.verdict.Some? && t[k].s.store.boundary.Some?
    ensures v <= k && VerdictAt(t, v, t[k].s.proc.verdict.value.1)
    ensures t[v].actor == VerdictWritten(t[k].s.proc.verdict.value.0)
    ensures forall m: nat | v - 1 <= m <= k :: t[m].s.store.boundary == t[k].s.store.boundary
    decreases k
  {
    assert k > 0 && StepAt(t, k);
    if t[k].actor.VerdictWritten? {
      v := k;
    } else {
      assert t[k - 1].s.proc.verdict == t[k].s.proc.verdict;
      assert t[k - 1].s.store.boundary == t[k].s.store.boundary;
      v := VerdictBefore(t, k - 1);
    }
  }

  /** Where a boundary goes, Refresh undoes its own, or the verdict that has just become the latest was
      written while that boundary stood, and nothing on the remote owes a Review any more. */
  lemma {:induction false} LiftedBehindVerdict(t: seq<Event>, k: nat) returns (v: nat)
    requires History(t) && LiftedAt(t, k) && !UndoesOwn(t[k - 1].s)
    ensures !Owes(t[k - 1].s.origin) && t[k - 1].s.store.reviews.latest.Some? && t[k - 1].s.proc.verdict.Some?
    ensures v < k && VerdictAt(t, v, t[k - 1].s.proc.verdict.value.1)
    ensures t[v].actor == VerdictWritten(t[k - 1].s.store.reviews.latest.value.review)
    ensures forall m: nat | v - 1 <= m < k :: t[m].s.store.boundary == t[k - 1].s.store.boundary
  {
    assert StepAt(t, k);
    v := VerdictBefore(t, k - 1);
  }

  lemma {:induction false} LiftedBetween(t: seq<Event>, i: nat, j: nat) returns (k: nat)
    requires History(t) && i <= j < |t|
    requires t[i].s.store.boundary.Some? && t[j].s.store.boundary.None?
    ensures i < k <= j && LiftedAt(t, k) && forall m: nat | i <= m < k :: t[m].s.store.boundary.Some?
    decreases j
  {
    assert StepAt(t, j);
    if t[j - 1].s.store.boundary.Some? {
      if m: nat :| i <= m < j && t[m].s.store.boundary.None? {
        k := LiftedBetween(t, i, m);
      } else {
        k := j;
      }
    } else {
      k := LiftedBetween(t, i, j - 1);
    }
  }

  /** A boundary that was set at step `i` and is gone at `j`: a Refresh undid its own, or a verdict was
      written after `i`. */
  lemma {:induction false} BoundaryLifted(t: seq<Event>, i: nat, j: nat) returns (k: nat, v: nat)
    requires History(t) && i <= j < |t| && BoundarySetAt(t, i) && t[j].s.store.boundary.None?
    ensures i < k <= j && LiftedAt(t, k)
    ensures UndoesOwn(t[k - 1].s) ||
      (&& t[k - 1].s.proc.verdict.Some? && i < v < k && VerdictAt(t, v, t[k - 1].s.proc.verdict.value.1)
       && t[k - 1].s.store.reviews.latest.Some?
       && t[v].actor == VerdictWritten(t[k - 1].s.store.reviews.latest.value.review))
  {
    k := LiftedBetween(t, i, j);
    v := 0;
    if !UndoesOwn(t[k - 1].s) {
      v := LiftedBehindVerdict(t, k);
      assert t[i - 1].s.store.boundary != t[i].s.store.boundary;
    }
  }

  // ---- runs ----------------------------------------------------------------------

  datatype Operation =
    | RefreshCandidate
    | CompleteDelivery
    | PrepareRemediation(review: Id, portable: bool)
    | CloseNoChange(review: Id, summary: Hash)
    | CompleteRemediation(review: Id)
    | PrepareReview
    | CompleteReview(review: Id, verdict: Verdict, findings: bool, bound: Option<Hash>)
    | CheckMerge
    | Edit(work: Work)
    | Die(at: nat)

  method DeliveryComplete(w: Repo) returns (r: Outcome)
    requires w.Sound()
    modifies w
    ensures w.Sound()
    ensures w.quiet ==> (r.Done? <==> Delivery.DeliverableTask(old(w.s), w.differs))
    ensures w.quiet && r.Done? ==>
      w.s.remote == Some(Delivery.DeliveredHead(old(w.s))) && w.s.work.CleanAt(Delivery.DeliveredHead(old(w.s)))
  {
    w.Note(IDLE);
    var x := Acquire(w, true);
    var delivery := new Delivery.DeliveryCompleter(w, false, None);
    var head;
    r, head := delivery.CompleteFromSnapshot(x, false);
  }

  method Perform(w: Repo, target: Review.Target, gate: Review.Gate, op: Operation) returns (ready: bool, x: Snapshot)
    requires w.Sound()
    modifies w
    ensures w.Sound()
    ensures ready ==> x.resolved && Review.PassApplies(w.s.store.reviews, x) && x.remote == Some(x.pr.value.head)
    ensures ready ==> gate.Green(x.pr.value) && x.pr.value.mergeable && old(w.trace) <= w.trace
    ensures ready ==> op.CheckMerge? && w.s.store == old(w.s.store) && Observed(w.trace, |old(w.trace)| - 1, x)
  {
    ready, x := false, UNSEEN;
    match op {
      case RefreshCandidate =>
        var refresher := new Refresh.CandidateRefresher(w);
        var exit, id := refresher.Refresh();
      case CompleteDelivery =>
        var r := DeliveryComplete(w);
      case PrepareRemediation(review, portable) =>
        var preparer := new Remediation.RemediationPreparer(w);
        var r, seen := preparer.Prepare(review, portable);
      case CloseNoChange(review, summary) =>
        var closer := new Remediation.NoChangeCompleter(w);
        var r := closer.Complete(review, summary);
      case CompleteRemediation(review) =>
        var completer := new Remediation.RemediationCompleter(w);
        var r, head, seen := completer.Complete(review);
      case PrepareReview =>
        var cloneThere: bool := *;
        var preparer := new Review.ReviewPreparer(w, target, cloneThere);
        var r, id, seen := preparer.Prepare();
      case CompleteReview(review, verdict, findings, bound) =>
        var completer := new Review.ReviewCompleter(w, target, gate);
        var r, a, seen := completer.Complete(review, verdict, findings, bound);
      case CheckMerge =>
        var preflight := new Review.MergePreflight(w, target, gate);
        var r;
        r, x := preflight.Run();
        ready := r.Done?;
      case Edit(work) =>
        w.AgentEdits(work);
      case Die(at) =>
        if at < |w.trace| { w.Crash(at); }
    }
  }

  /** Any run from any sound beginning.  READY_FOR_HUMAN_MERGE, wherever it comes, is about PR, head,
      base, body and checks as they were since the last operation began; the verdict behind it, still
      the latest, is PASS on a target that was sealed in this very run, after its validation had passed
      and the PR had been seen open on it. */
  method Run(initial: State, target: Review.Target, gate: Review.Gate, differs: (Commit, Commit) -> bool,
             ops: seq<Operation>)
    returns (end: State, trace: seq<Event>, ready: bool, x: Snapshot, ghost since: nat)
    requires Inv(initial) && initial.store.reviews.sealed == map[]
    ensures Inv(end) && History(trace) && |trace| > 0 && trace[0].s == Durable(initial) && trace[|trace| - 1].s == end
    ensures Owes(end.origin) ==> end.remote.Some? && CoveredHead(end.store, end.remote.value)
    ensures ready ==> since < |trace| && trace[since].s.store == end.store && Observed(trace, since, x)
    ensures ready ==>
      && x.resolved && x.pr.Some? && x.remote == Some(x.pr.value.head) && gate.Green(x.pr.value) && x.pr.value.mergeable
    // The latest Review is a PASS on exactly the PR, head, base and body shown.
    ensures ready ==>
      && end.store.reviews.latest.Some? && end.store.reviews.latest.value.verdict == PASS
      && end.store.reviews.latest.value.review in end.store.reviews.records
      && var rec, pr := end.store.reviews.records[end.store.reviews.latest.value.review], x.pr.value;
         && rec.verdict == PASS && rec.identity.pr == pr.number && rec.identity.head == pr.head
         && rec.identity.base == pr.base && rec.identity.body == x.body
    ensures ready ==>
      var rec := end.store.reviews.records[end.store.reviews.latest.value.review];
      exists k: nat, v: nat, p: nat :: PassBacked(trace, k, v, p, rec)
  {
    InvAfterCrash(initial);
    var w := new Repo(Durable(initial), false, false, differs);
    ready, x, since := false, UNSEEN, 0;
    for i := 0 to |ops|
      invariant w.Sound() && w.start == Durable(initial) && fresh(w)
      invariant ready ==>
        x.resolved && Review.PassApplies(w.s.store.reviews, x) && x.remote == Some(x.pr.value.head)
      invariant ready ==> gate.Green(x.pr.value) && x.pr.value.mergeable
      invariant ready ==> since < |w.trace| && w.trace[since].s.store == w.s.store && Observed(w.trace, since, x)
    {
      ghost var before := w.trace;
      since := |before| - 1;
      ready, x := Perform(w, target, gate, ops[i]);
      assert ready ==> w.trace[since] == before[since];
    }
    end, trace := w.s, w.trace;
    if ready {
      ghost var k, v, p, guard := RecordBacked(trace, |trace| - 1, end.store.reviews.latest.value.review);
      assert RecordOk(end.store.reviews, end.store.reviews.latest.value.review);
      assert PassBacked(trace, k, v, p, end.store.reviews.records[end.store.reviews.latest.value.review]);
    }
  }

  /** The target of this record was sealed at `k`, validated at `v` by the same process, and the PR was
      open on it at `p`. */
  ghost predicate PassBacked(t: seq<Event>, k: nat, v: nat, p: nat, rec: Record) {
    && v < k < |t| && rec.review in t[k].s.store.reviews.sealed
    && var guard := t[k].s.store.reviews.sealed[rec.review];
       && SealedAt(t, k, rec.review, guard) && SameTarget(guard.identity, rec.identity)
       && ValidatedAt(t, v, p, rec.identity.base, rec.identity.head)
  }
}
