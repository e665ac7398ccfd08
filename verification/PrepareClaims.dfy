/** Review Prepare claims as a protocol between processes that may die at any step: a file lock that
    dies with its holder, and a durable marker that does not. */
module PrepareClaims {
  import opened Wrappers

  type Pid = nat
  type Id = nat

  /** The in-flight file: owner process, operation (and its clone), review once handed off. */
  datatype Marker = Marker(pid: Pid, op: Id, review: Option<Id>)

  datatype Phase =
    | Idle
    | Locked                                        // has the lock, has read nothing yet
    | Suspect(seen: Marker, guarded: bool)          // found a handed-off marker of a dead process
    | Cleared(stale: Option<Marker>)                // may write its own marker
    | Claimed(op: Id, stale: Option<Marker>, sealed: Option<Id>)
    | Failing(op: Id)
    | HandedOff
    | Releasing(review: Id)

  /** `live` holds the living processes; guards remember the clone they were sealed on. */
  datatype State = State(lock_: Option<Pid>, live: map<Pid, Phase>, marker: Option<Marker>,
                         guards: map<Id, Id>, clones: set<Id>, nextId: Id)

  datatype Step =
    | Spawn(p: Pid) | Die(p: Pid)
    | TryLock(p: Pid) | ReadMarker(p: Pid) | LookForGuard(p: Pid) | LookForClone(p: Pid) | WriteMarker(p: Pid)
    | DropStale(p: Pid) | CreateClone(p: Pid) | WriteGuard(p: Pid) | MarkHandedOff(p: Pid) | Unlock(p: Pid)
    | RemoveClone(p: Pid) | Finish(p: Pid)
    | RemoveReviewed(p: Pid, review: Id) | DeleteGuard(p: Pid, review: Id)
    | LockToRelease(p: Pid, review: Id) | Release(p: Pid)

  predicate At(s: State, p: Pid, ph: Phase) { p in s.live && s.live[p] == ph }

  function Enter(s: State, p: Pid, ph: Phase): State { s.(live := s.live[p := ph]) }

  function Leave(s: State, p: Pid): State { s.(lock_ := None, live := s.live[p := Idle]) }

  predicate Enabled(s: State, step: Step) {
    match step
    case Spawn(p) => p !in s.live
    case Die(p) => p in s.live
    case TryLock(p) => At(s, p, Idle)
    case ReadMarker(p) => At(s, p, Locked)
    case LookForGuard(p) => p in s.live && s.live[p].Suspect? && !s.live[p].guarded
    case LookForClone(p) => p in s.live && s.live[p].Suspect? && s.live[p].guarded
    case WriteMarker(p) => p in s.live && s.live[p].Cleared?
    case DropStale(p) => p in s.live && s.live[p].Claimed? && s.live[p].stale.Some?
    case CreateClone(p) => p in s.live && s.live[p].Claimed?
    case WriteGuard(p) => p in s.live && s.live[p].Claimed? && s.live[p].sealed.None?
    case MarkHandedOff(p) => p in s.live && s.live[p].Claimed? && s.live[p].sealed.Some?
    case Unlock(p) => At(s, p, HandedOff)
    case RemoveClone(p) => p in s.live && s.live[p].Claimed?
    case Finish(p) => p in s.live && s.live[p].Failing?
    case RemoveReviewed(p, review) => At(s, p, Idle) && review in s.guards
    case DeleteGuard(p, review) => At(s, p, Idle)
    case LockToRelease(p, review) => At(s, p, Idle) && s.lock_.None?
    case Release(p) => p in s.live && s.live[p].Releasing?
  }

  function Next(s: State, step: Step): State
    requires Enabled(s, step)
  {
    match step
    case Spawn(p) => Enter(s, p, Idle)
    case Die(p) => s.(live := s.live - {p}, lock_ := if s.lock_ == Some(p) then None else s.lock_)
    case TryLock(p) => if s.lock_.None? then Enter(s, p, Locked).(lock_ := Some(p)) else s
    case ReadMarker(p) =>
      if s.marker.None? then Enter(s, p, Cleared(None))
      else if s.marker.value.pid in s.live then Leave(s, p)
      else if s.marker.value.review.Some? then Enter(s, p, Suspect(s.marker.value, false))
      else Enter(s, p, Cleared(s.marker))
    case LookForGuard(p) =>
      var seen := s.live[p].seen;
      if seen.review.Some? && seen.review.value in s.guards then Enter(s, p, Suspect(seen, true))
      else Enter(s, p, Cleared(Some(seen)))
    case LookForClone(p) =>
      var seen := s.live[p].seen;
      if seen.op in s.clones then Leave(s, p) else Enter(s, p, Cleared(Some(seen)))
    case WriteMarker(p) =>
      Enter(s, p, Claimed(s.nextId, s.live[p].stale, None)).(
        marker := Some(Marker(p, s.nextId, None)), nextId := s.nextId + 1)
    case DropStale(p) =>
      var stale := s.live[p].stale.value;
      Enter(s, p, s.live[p].(stale := None)).(
        clones := s.clones - {stale.op},
        guards := if stale.review.Some? then s.guards - {stale.review.value} else s.guards)
    case CreateClone(p) => s.(clones := s.clones + {s.live[p].op})
    case WriteGuard(p) =>
      Enter(s, p, s.live[p].(sealed := Some(s.nextId))).(
        guards := s.guards[s.nextId := s.live[p].op], nextId := s.nextId + 1)
    case MarkHandedOff(p) => Enter(s, p, HandedOff).(marker := Some(Marker(p, s.live[p].op, s.live[p].sealed)))
    case Unlock(p) => Leave(s, p)
    case RemoveClone(p) => Enter(s, p, Failing(s.live[p].op)).(clones := s.clones - {s.live[p].op})
    case Finish(p) => Leave(s, p).(marker := None)
    case RemoveReviewed(p, review) => s.(clones := s.clones - {s.guards[review]})
    case DeleteGuard(p, review) => s.(guards := s.guards - {review})
    case LockToRelease(p, review) => Enter(s, p, Releasing(review)).(lock_ := Some(p))
    case Release(p) =>
      if s.marker.Some? && s.marker.value.review == Some(s.live[p].review) then Leave(s, p).(marker := None)
      else Leave(s, p)
  }

  // ---- invariant -------------------------------------------------------------------

  /** Handed off, and its guard and clone are both still there. */
  predicate Owned(s: State, m: Marker) {
    m.review.Some? && m.review.value in s.guards && m.op in s.clones
  }

  /** What a process in this phase knows about marker, guard and clone. */
  predicate PhaseOk(s: State, p: Pid, ph: Phase) {
    match ph
    case Idle => true
    case Locked => true
    case Suspect(seen, _) => s.marker == Some(seen) && seen.review.Some?
    case Cleared(stale) => s.marker == stale && (stale.Some? ==> !Owned(s, stale.value))
    case Claimed(op, stale, sealed) =>
      && s.marker == Some(Marker(p, op, None)) && op < s.nextId
      && (sealed.Some? ==> sealed.value < s.nextId)
      && (sealed.Some? && sealed.value in s.guards ==> s.guards[sealed.value] == op)
    case Failing(op) => s.marker == Some(Marker(p, op, None))
    case HandedOff => s.marker.Some? && s.marker.value.pid == p && s.marker.value.review.Some?
    case Releasing(_) => true
  }

  ghost predicate ProcOk(s: State, p: Pid) {
    p in s.live ==> (s.live[p] != Idle <==> s.lock_ == Some(p)) && PhaseOk(s, p, s.live[p])
  }

  /** Ids on disk have been issued. */
  predicate Issued(s: State) {
    && (s.marker.Some? ==>
          && s.marker.value.op < s.nextId
          && (s.marker.value.review.Some? ==> s.marker.value.review.value < s.nextId))
    && (forall id | id in s.guards :: id < s.nextId && s.guards[id] < s.nextId)
    && (forall c | c in s.clones :: c < s.nextId)
  }

  ghost predicate Inv(s: State) {
    && (forall p: Pid {:trigger ProcOk(s, p)} :: ProcOk(s, p))
    && (s.lock_.Some? ==> s.lock_.value in s.live)
    && Issued(s)
  }

  lemma {:induction false} InvStep(s: State, step: Step)
    requires Inv(s) && Enabled(s, step)
    ensures Inv(Next(s, step))
  {
    var t := Next(s, step);
    assert ProcOk(s, step.p);
    forall p: Pid ensures ProcOk(t, p) {
      assert ProcOk(s, p);
    }
  }

  // ---- runs ------------------------------------------------------------------------

  /** A run of the protocol: each state follows from the one before by an enabled step. */
  ghost predicate Run(states: seq<State>, steps: seq<Step>) {
    && |states| == |steps| + 1
    && Inv(states[0])
    && forall i: nat | i < |steps| :: Follows(states, steps, i)
  }

  ghost predicate Follows(states: seq<State>, steps: seq<Step>, i: nat)
    requires |states| == |steps| + 1 && i < |steps|
  {
    Enabled(states[i], steps[i]) && states[i + 1] == Next(states[i], steps[i])
  }

  lemma {:induction false} InvThroughout(states: seq<State>, steps: seq<Step>, i: nat)
    requires Run(states, steps) && i <= |steps|
    ensures Inv(states[i])
  {
    if i > 0 {
      InvThroughout(states, steps, i - 1);
      assert Follows(states, steps, i - 1);
      InvStep(states[i - 1], steps[i - 1]);
    }
  }

  /** At most one living process is anywhere between taking the lock and giving it back; while it
      prepares, the marker is its own. */
  lemma {:induction false} OneClaimant(states: seq<State>, steps: seq<Step>, i: nat, p: Pid, q: Pid)
    requires Run(states, steps) && i <= |steps|
    requires p in states[i].live && q in states[i].live && states[i].live[p] != Idle && states[i].live[q] != Idle
    ensures p == q
    ensures states[i].live[p].Claimed? ==> states[i].marker == Some(Marker(p, states[i].live[p].op, None))
  {
    InvThroughout(states, steps, i);
    assert ProcOk(states[i], p) && ProcOk(states[i], q);
  }

  /** One step leaves an owned handoff alone, unless it is the release of that very review. */
  lemma {:induction false} HandoffKept(s: State, step: Step)
    requires Inv(s) && Enabled(s, step) && s.marker.Some? && Owned(s, s.marker.value)
    ensures
      || Next(s, step).marker == s.marker
      || (step.Release? && s.live[step.p] == Releasing(s.marker.value.review.value))
  {
    assert ProcOk(s, step.p);
  }

  /** No later Prepare, crash or release of another review takes a handed-off review over while its
      guard and its clone exist. */
  lemma {:induction false} NeverReclaimed(states: seq<State>, steps: seq<Step>, i: nat, j: nat, m: Marker)
    requires Run(states, steps) && i <= j <= |steps| && states[i].marker == Some(m) && m.review.Some?
    requires forall k | i <= k <= j :: Owned(states[k], m)
    requires forall k | i <= k < j :: !(steps[k].Release? && At(states[k], steps[k].p, Releasing(m.review.value)))
    ensures states[j].marker == Some(m)
    decreases j
  {
    if i < j {
      NeverReclaimed(states, steps, i, j - 1, m);
      InvThroughout(states, steps, j - 1);
      assert Follows(states, steps, j - 1);
      assert Owned(states[j - 1], m);
      HandoffKept(states[j - 1], steps[j - 1]);
    }
  }

  /** An undisturbed attempt to claim: lock, read the marker, look for guard and clone. */
  function Attempt(s: State, p: Pid): (t: State)
    requires At(s, p, Idle) && s.lock_.None?
  {
    var read := Next(Next(s, TryLock(p)), ReadMarker(p));
    if !read.live[p].Suspect? then read
    else
      var looked := Next(read, LookForGuard(p));
      if looked.live[p].Suspect? then Next(looked, LookForClone(p)) else looked
  }

  /** It gets to write its marker exactly when there is none, or the owner is dead and the review,
      if handed off, has lost its guard or its clone; otherwise it leaves everything as it was. */
  lemma {:induction false} ClaimExactly(s: State, p: Pid)
    requires At(s, p, Idle) && s.lock_.None?
    ensures Attempt(s, p) == if s.marker.None? || (s.marker.value.pid !in s.live && !Owned(s, s.marker.value))
      then Enter(s, p, Cleared(s.marker)).(lock_ := Some(p)) else s
  {
    var t := Attempt(s, p);
    assert t.live[p := Idle] == s.live;
    if t.live[p] == Idle {
      assert t.live == s.live;
    } else {
      assert t.live == s.live[p := Cleared(s.marker)];
    }
  }
}
