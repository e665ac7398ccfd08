/** Independent Review: seal a target, accept a verdict on exactly that target, and let only the
    latest accepted PASS through to a human merge. */
module Review {
  import opened Wrappers
  import opened CommitDag
  import opened Protocol
  import opened World
  import opened Snapshots
  import Checks

  /** Facts computed from the exact commits of a target, the artifact its profile builds, and whether the
      profile accepts it for Review, or with a verdict. */
  datatype Target = Target(diff: (Commit, Commit) -> Hash, artifact: (Commit, Commit, Hash) -> Hash,
                           accepts: (Option<Verdict>, Identity) -> bool) {
    function Identity(x: Snapshot): Identity
      requires x.pr.Some?
    {
      var pr := x.pr.value;
      Protocol.Identity(pr.number, pr.base, pr.head, x.body, diff(pr.base, pr.head), artifact(pr.base, pr.head, x.body))
    }
  }

  /** What the strict check gate reads besides the PR: the CI workflow at a commit, the policy hash,
      and how texts are folded. */
  datatype Gate = Gate(workflowAt: Commit -> seq<Checks.Job>, sha: seq<string> -> nat, strings: Checks.Strings) {
    /** Every entry of the rollup succeeds, and every job of the workflow at the base is among them. */
    ghost predicate Green(pr: Pr) { Checks.Green(workflowAt(pr.base), pr.rollup, strings) }
  }

  /** PR, head, base and Task body of the live snapshot are the reviewed ones. */
  predicate FactsApplicable(reviewed: Identity, x: Snapshot) {
    && x.pr.Some? && x.pr.value.number == reviewed.pr && x.pr.value.head == reviewed.head
    && x.pr.value.base == reviewed.base && x.body == reviewed.body
  }

  // ---- store steps ---------------------------------------------------------------

  function WithGuard(rv: Reviews, g: Guard): Reviews {
    rv.(guards := rv.guards[g.review := g], sealed := rv.sealed[g.review := g])
  }

  function WithoutGuard(rv: Reviews, id: Id): Reviews {
    rv.(guards := rv.guards - {id})
  }

  /** A freshly issued id has never named a guard or a record. */
  lemma {:induction false} FreshGuard(rv: Reviews, g: Guard)
    requires Provenance(rv) && g.review == rv.nextId
    ensures g.review !in rv.sealed && g.review !in rv.records && g.review !in rv.guards
  {
    assert GuardOk(rv, g.review) && RecordOk(rv, g.review);
  }

  lemma {:induction false} GuardWritten(rv: Reviews, g: Guard, reviewed: Option<(Commit, Commit)>)
    requires Provenance(rv) && g.review < rv.nextId && g.review !in rv.sealed && g.review !in rv.records
    requires reviewed == Some((g.identity.base, g.identity.head))
    ensures Provenance(WithGuard(rv, g)) && ReviewsGrow(rv, WithGuard(rv, g), reviewed)
  {
    var b := WithGuard(rv, g);
    forall id: Id ensures RecordOk(b, id) && GuardOk(b, id) && SealStep(rv, b, reviewed, id) {
      assert RecordOk(rv, id) && GuardOk(rv, id);
    }
  }

  lemma {:induction false} GuardDeleted(rv: Reviews, gone: Id, reviewed: Option<(Commit, Commit)>)
    requires Provenance(rv)
    ensures Provenance(WithoutGuard(rv, gone)) && ReviewsGrow(rv, WithoutGuard(rv, gone), reviewed)
  {
    var b := WithoutGuard(rv, gone);
    forall id: Id ensures RecordOk(b, id) && GuardOk(b, id) && SealStep(rv, b, reviewed, id) {
      assert RecordOk(rv, id) && GuardOk(rv, id);
    }
  }

  /** Writing a record for the guarded target, even over an earlier one, keeps every record backed. */
  lemma {:induction false} RecordWritten(rv: Reviews, rec: Record)
    requires Provenance(rv) && rec.review in rv.guards
    requires SameTarget(rv.guards[rec.review].identity, rec.identity)
    ensures Provenance(rv.(records := rv.records[rec.review := rec]))
  {
    var b := rv.(records := rv.records[rec.review := rec]);
    forall id: Id ensures RecordOk(b, id) && GuardOk(b, id) {
      assert RecordOk(rv, id) && GuardOk(rv, id);
    }
  }

  lemma {:induction false} LatestWritten(rv: Reviews, latest: Latest, reviewed: Option<(Commit, Commit)>)
    requires Provenance(rv) && latest.review in rv.records
    ensures var b := rv.(latest := Some(latest)); Provenance(b) && ReviewsGrow(rv, b, reviewed)
  {
    var b := rv.(latest := Some(latest));
    forall id: Id ensures RecordOk(b, id) && GuardOk(b, id) && SealStep(rv, b, reviewed, id) {
      assert RecordOk(rv, id) && GuardOk(rv, id);
    }
  }

  // ---- prepare -------------------------------------------------------------------

  /** A handed-off Review that still has its guard and its clone keeps its claim; anything else a dead
      process left behind may be taken over. */
  predicate Claimable(st: Store, cloneThere: bool) {
    !(cloneThere && st.marker.Some? && st.marker.value.HandedOff? && st.marker.value.review in st.reviews.guards)
  }

  /** The store without the guard of the Review this claim handed off, if it did. */
  function Dropped(st: Store, claim: Option<Marker>): Store {
    if claim.Some? && claim.value.HandedOff? then st.(reviews := WithoutGuard(st.reviews, claim.value.review)) else st
  }

  predicate Reviewable(s: State, cloneThere: bool, target: Target) {
    && s.store.session == None && Claimable(s.store, cloneThere)
    && s.pr.Some? && s.pr.value.open && !s.pr.value.draft && s.remote == Some(s.pr.value.head)
    && target.accepts(None, target.Identity(Sees(s, false)))
  }

  /** The store with a sealed target handed off under a fresh id. */
  function Sealed(st: Store, target: Identity): Store {
    var id := st.reviews.nextId;
    Repo.NextId(st).(reviews := WithGuard(Repo.NextId(st).reviews, Guard(id, target)), marker := Some(HandedOff(id)))
  }

  class ReviewPreparer {
    const w: Repo
    const target: Target
    // Whether the clone of the Review that was handed off last still exists.
    const cloneThere: bool
    // Whether the clone and the claim of a failed Prepare could be removed.
    var lastReleased: bool

    constructor (w: Repo, target: Target, cloneThere: bool)
      ensures this.w == w && this.target == target && this.cloneThere == cloneThere
    {
      this.w, this.target, this.cloneThere, lastReleased := w, target, cloneThere, true;
    }

    /** One claim per Task, before any side effect. */
    method Claim() returns (r: Outcome, stale: Option<Marker>)
      requires w.Sound()
      modifies w
      ensures w.Sound() && Rely(old(w.s).(store := w.s.store), w.s)
      ensures r.Done? ==> w.failures == old(w.failures)
      ensures stale == old(w.s.store.marker)
      ensures w.s.store == if r.Done? then old(w.s.store).(marker := Some(InFlight)) else old(w.s.store)
      ensures r.Done? ==> Claimable(old(w.s.store), cloneThere)
      ensures w.calm ==> r.Done? == Claimable(old(w.s.store), cloneThere) && w.s == old(w.s).(store := w.s.store)
    {
      stale := w.s.store.marker;
      if stale.Some? {
        var ownerDead := w.Query();
        if !ownerDead { return Stop, stale; }
        if stale.value.HandedOff? && stale.value.review in w.s.store.reviews.guards && cloneThere {
          return Stop, stale;
        }
      }
      r := w.Save(w.s.store.(marker := Some(InFlight)));
    }

    /** Drop the clone and the guard of the operation whose claim was taken over. */
    method DropStale(stale: Option<Marker>) returns (r: Outcome)
      requires w.Sound()
      modifies w
      ensures w.Sound() && Rely(old(w.s).(store := w.s.store), w.s)
      ensures r.Done? ==> w.failures == old(w.failures)
      ensures w.s.store in {old(w.s.store), Dropped(old(w.s.store), stale)}
      ensures r.Done? ==> w.s.store == Dropped(old(w.s.store), stale)
      ensures w.calm ==> r.Done? && w.s == old(w.s).(store := w.s.store)
    {
      var removed := w.Query();
      if !removed { return Stop; }
      if stale.Some? && stale.value.HandedOff? {
        var rv := w.s.store.reviews;
        GuardDeleted(rv, stale.value.review, w.s.proc.reviewed);
        r := w.Save(w.s.store.(reviews := WithoutGuard(rv, stale.value.review)));
        return;
      }
      r := Done;
    }

    /** Clone, observe checks, derive the identity, and run the Review validation on it. */
    method ValidateTarget() returns (r: Outcome, x: Snapshot)
      requires w.Sound() && Ordinary(w.s.proc)
      modifies w
      ensures w.Sound() && Rely(old(w.s).(proc := w.s.proc), w.s)
      ensures r.Done? ==> w.failures == old(w.failures)
      ensures r.Done? ==>
        && ReviewEligible(x) && x.pr.value.open && target.accepts(None, target.Identity(x))
        && w.s.proc == old(w.s.proc).(target := w.s.proc.target, reviewed := Some((x.pr.value.base, x.pr.value.head)))
      ensures w.calm ==> w.s == old(w.s).(proc := w.s.proc)
      ensures w.quiet ==> x == Sees(old(w.s), false)
      ensures w.quiet ==> (r.Done? <==> ReviewEligible(x) && target.accepts(None, target.Identity(x)))
    {
      x := Acquire(w, false);
      if !ReviewEligible(x) { return Stop, x; }
      w.Note(w.s.proc.(target := Some((x.pr.value.base, x.pr.value.head))));
      var cloned := w.Query();
      if !cloned { return Stop, x; }
      var checks := w.Query();
      if !checks { return Stop, x; }
      var derived := w.Query();
      if !derived { return Stop, x; }
      if !target.accepts(None, target.Identity(x)) { return Stop, x; }
      var validation := w.RunReview();
      r := if validation then Done else Stop;
    }

    /** Seal the validated target under a fresh id, then hand it off. */
    method Seal(sealed: Identity) returns (r: Outcome, id: Id)
      requires w.Sound() && w.s.proc.reviewed == Some((sealed.base, sealed.head))
      modifies w
      ensures w.Sound() && Rely(old(w.s).(store := w.s.store), w.s)
      ensures r.Done? ==> w.failures == old(w.failures)
      ensures w.s.store.(reviews := old(w.s.store.reviews), marker := None) == old(w.s.store).(marker := None)
      ensures w.s.store.reviews.records == old(w.s.store.reviews.records)
      ensures w.s.store.reviews.latest == old(w.s.store.reviews.latest)
      ensures r.Done? ==> id == old(w.s.store.reviews.nextId) && w.s.store == Sealed(old(w.s.store), sealed)
      ensures r.Stop? ==> w.s.store.marker == old(w.s.store.marker)
      ensures w.calm ==> r.Done? && w.s == old(w.s).(store := w.s.store)
    {
      var clone := w.Query();
      FreshGuard(w.s.store.reviews, Guard(w.s.store.reviews.nextId, sealed));
      id := w.NewId();
      if !clone { return Stop, id; }
      var rv, guard := w.s.store.reviews, Guard(id, sealed);
      GuardWritten(rv, guard, w.s.proc.reviewed);
      r := w.Save(w.s.store.(reviews := WithGuard(rv, guard)));
      if r.Stop? { return; }
      r := w.Save(w.s.store.(marker := Some(HandedOff(id))));
    }

    /** After a failure the claim is given back, unless the clone or the claim cannot be removed. */
    method Abandon()
      requires w.Sound()
      modifies w, this`lastReleased
      ensures w.Sound() && Rely(old(w.s).(store := w.s.store), w.s)
      ensures w.s.store == if lastReleased then old(w.s.store).(marker := None) else old(w.s.store)
      ensures w.calm ==> lastReleased && w.s == old(w.s).(store := w.s.store)
    {
      lastReleased := false;
      var removed := w.Query();
      if removed {
        var r := w.Save(w.s.store.(marker := None));
        lastReleased := r.Done?;
      }
    }

    /** Once the claim is taken: drop what was there, validate the target, seal it. */
    method PrepareClaimed(stale: Option<Marker>) returns (r: Outcome, id: Id, x: Snapshot)
      requires w.Sound() && w.s.proc == IDLE
      modifies w
      ensures w.Sound() && Rely(old(w.s).(store := w.s.store, proc := w.s.proc), w.s)
      ensures r.Done? ==> w.failures == old(w.failures)
      ensures w.s.store.(reviews := old(w.s.store.reviews), marker := None) == old(w.s.store).(marker := None)
      ensures w.s.store.reviews.records == old(w.s.store.reviews.records)
      ensures w.s.store.reviews.latest == old(w.s.store.reviews.latest)
      ensures r.Done? ==>
        && w.s.store.marker == Some(HandedOff(id)) && id == old(w.s.store.reviews.nextId)
        && id in w.s.store.reviews.guards && id in w.s.store.reviews.sealed
        && w.s.store.reviews.guards[id] == w.s.store.reviews.sealed[id]
        && ReviewEligible(x) && x.pr.value.open && w.s.store.reviews.guards[id].identity == target.Identity(x)
        && target.accepts(None, target.Identity(x))
        && w.s.proc.reviewed == Some((x.pr.value.base, x.pr.value.head))
      ensures r.Stop? ==> w.s.store.marker == old(w.s.store.marker)
      // The guard that was taken over is gone.
      ensures r.Done? && stale.Some? && stale.value.HandedOff? ==>
        stale.value.review == id || stale.value.review !in w.s.store.reviews.guards
      ensures w.calm ==> w.s == old(w.s).(store := w.s.store, proc := w.s.proc)
      ensures w.quiet ==> x == Sees(old(w.s), false)
      ensures w.quiet ==> (r.Done? <==> ReviewEligible(x) && target.accepts(None, target.Identity(x)))
    {
      id, x := 0, UNSEEN;
      r := DropStale(stale);
      if r.Stop? { return; }
      r, x := ValidateTarget();
      if r.Stop? { return; }
      r, id := Seal(target.Identity(x));
    }

    /** Hands off exactly the target that passed validation, or leaves no claim of its own. */
    method Prepare() returns (r: Outcome, id: Id, x: Snapshot)
      requires w.Sound()
      modifies w, this`lastReleased
      ensures w.Sound()
      ensures r.Done? ==> w.failures == old(w.failures)
      ensures w.s.work == old(w.s.work) && w.s.store.boundary == old(w.s.store.boundary)
      ensures w.s.store.session == old(w.s.store.session) && w.s.store.receipts == old(w.s.store.receipts)
      ensures w.s.store.reviews.records == old(w.s.store.reviews.records)
      ensures w.s.store.reviews.latest == old(w.s.store.reviews.latest)
      ensures r.Done? ==>
        && old(w.s.store.session).None? && w.s.store.marker == Some(HandedOff(id))
        && id == old(w.s.store.reviews.nextId) && id in w.s.store.reviews.guards && id in w.s.store.reviews.sealed
        && w.s.store.reviews.guards[id] == w.s.store.reviews.sealed[id]
      // The sealed identity is the OPEN PR of the snapshot, on which validation passed.
      ensures r.Done? ==>
        && x.resolved && x.other && x.pr.Some? && x.pr.value.open && !x.pr.value.draft
        && var pr, sealed := x.pr.value, w.s.store.reviews.guards[id].identity;
           && sealed.pr == pr.number && sealed.base == pr.base && sealed.head == pr.head && sealed.body == x.body
           && sealed.derived == target.diff(pr.base, pr.head)
           && sealed.artifact == target.artifact(pr.base, pr.head, x.body) && target.accepts(None, sealed)
           && w.s.proc.reviewed == Some((pr.base, pr.head))
      // A handed-off Review that has its guard and its clone is never taken over.
      ensures !Claimable(old(w.s.store), cloneThere) ==> r.Stop? && w.s.store == old(w.s.store)
      // A claim that was never taken changes nothing; one that was is given back if that can be done.
      ensures r.Stop? ==>
        || w.s.store == old(w.s.store)
        || w.s.store.marker == None
        || (w.s.store.marker == Some(InFlight) && !lastReleased)
      ensures r.Done? || w.calm ==> lastReleased
      ensures w.calm && r.Stop? ==>
        if old(w.s.store.session).None? && Claimable(old(w.s.store), cloneThere) then w.s.store.marker == None
        else w.s.store == old(w.s.store)
      ensures w.quiet ==> (r.Done? <==> Reviewable(old(w.s), cloneThere, target))
      ensures w.quiet && r.Done? ==>
        x == Sees(old(w.s), false) && w.s == old(w.s).(store := w.s.store, proc := w.s.proc)
    {
      id, x, lastReleased := 0, UNSEEN, true;
      if w.s.store.session.Some? { return Stop, id, x; }
      var stale;
      r, stale := Claim();
      if r.Stop? { return; }
      w.Note(IDLE);
      r, id, x := PrepareClaimed(stale);
      if r.Stop? {
        Abandon();
      }
    }
  }

  // ---- complete ------------------------------------------------------------------

  datatype Applicability = Applies | Stale | Refused

  /** Live facts still are the sealed target (`applies`), or the target is gone for good. */
  function Applicable(s: State, sealed: Identity, target: Target): Applicability {
    var x := Sees(s, false);
    if !ReviewEligible(x) then Refused
    else if target.Identity(x) == sealed then Applies
    else Stale
  }

  predicate Releasable(st: Store, review: Id) {
    st.marker.None? || st.marker.value == HandedOff(review)
  }

  /** When an undisturbed Review Complete accepts the verdict: the guard names exactly the OPEN,
      non-draft PR, its base and head and the body as they are, with the facts derived from them. */
  ghost predicate Acceptable(s: State, review: Id, verdict: Verdict, findings: bool, target: Target, gate: Gate) {
    && review in s.store.reviews.guards && (verdict == FAIL ==> findings)
    && target.accepts(Some(verdict), s.store.reviews.guards[review].identity)
    && (s.store.marker == None || s.store.marker == Some(HandedOff(review)))
    && s.pr.Some? && s.pr.value.open && !s.pr.value.draft && s.remote == Some(s.pr.value.head)
    && var pr, sealed := s.pr.value, s.store.reviews.guards[review].identity;
       && sealed.pr == pr.number && sealed.base == pr.base && sealed.head == pr.head && sealed.body == s.body
       && sealed.derived == target.diff(pr.base, pr.head)
       && sealed.artifact == target.artifact(pr.base, pr.head, s.body)
       && (verdict == PASS ==> gate.Green(pr))
  }

  /** The invocation is over: no guard, no claim. */
  function Ended(st: Store, review: Id): Store {
    st.(reviews := WithoutGuard(st.reviews, review), marker := None)
  }

  /** The sealed identity with the verdict, and with the outcome the profile binds. */
  function VerdictRecord(rv: Reviews, review: Id, verdict: Verdict, bound: Option<Hash>): Record
    requires review in rv.guards
  {
    var identity := rv.guards[review].identity;
    Record(review, verdict, if bound.Some? then identity.(artifact := bound.value) else identity)
  }

  /** It is this verdict on the sealed target; the artifact is the bound one, or else as sealed. */
  lemma {:induction false} RecordSays(rv: Reviews, review: Id, verdict: Verdict, bound: Option<Hash>)
    requires review in rv.guards
    ensures var rec, sealed := VerdictRecord(rv, review, verdict, bound), rv.guards[review].identity;
      && rec.review == review && rec.verdict == verdict
      && rec.identity.pr == sealed.pr && rec.identity.head == sealed.head && rec.identity.base == sealed.base
      && rec.identity.body == sealed.body && rec.identity.derived == sealed.derived
      && (bound == None ==> rec.identity.artifact == sealed.artifact)
      && (bound != None ==> Some(rec.identity.artifact) == bound)
  {
  }

  function Accepted(st: Store, rec: Record): Store {
    var recorded := Repo.WithRecord(st, rec);
    recorded.(reviews := recorded.reviews.(latest := Some(Latest(rec.review, rec.verdict))), boundary := None)
  }

  /** `a` with the store and process of `b`, and its remote head judged. */
  function AfterVerdict(a: State, b: State): State {
    a.(store := b.store, proc := b.proc, origin := WithJudgment(a.origin))
  }

  /** The strict gate on the policy that is bound to the base of this PR. */
  method Evaluate(gate: Gate, pr: Pr) returns (green: bool)
    ensures green <==> gate.Green(pr)
  {
    green := Checks.StrictGate(Checks.Snapshot(pr.base, pr.head, pr.rollup, None), gate.workflowAt, gate.sha,
                               gate.strings);
  }

  class ReviewCompleter {
    const w: Repo
    const target: Target
    const gate: Gate

    constructor (w: Repo, target: Target, gate: Gate)
      ensures this.w == w && this.target == target && this.gate == gate
    {
      this.w, this.target, this.gate := w, target, gate;
    }

    /** One fresh snapshot against the sealed target: cheap facts, then the whole identity. */
    method Compare(sealed: Identity) returns (a: Applicability, x: Snapshot)
      requires w.Sound()
      modifies w
      ensures w.Sound() && old(w.trace) <= w.trace && Rely(old(w.s), w.s)
      ensures !a.Refused? ==> w.failures == old(w.failures)
      ensures a.Applies? ==> ReviewEligible(x) && FactsApplicable(sealed, x)
      ensures a.Applies? ==> Observed(w.trace, |old(w.trace)| - 1, x)
      ensures a.Applies? && Tracked(w.s.origin) ==> w.s.remote == Some(sealed.head)
      ensures w.quiet ==> x == Sees(old(w.s), false) && a == Applicable(old(w.s), sealed, target)
      ensures w.quiet ==> w.s == old(w.s)
    {
      x := Acquire(w, false);
      ghost var seen := w.trace;
      if !ReviewEligible(x) { return Refused, x; }
      if !FactsApplicable(sealed, x) { return Stale, x; }
      var clone := w.Query();
      if !clone { return Refused, x; }
      var derived := w.Query();
      if !derived { return Refused, x; }
      StillObserved(seen, w.trace, |old(w.trace)| - 1, x);
      a := if target.Identity(x) == sealed then Applies else Stale;
    }

    ghost predicate Admissible(sealed: Identity, verdict: Verdict, pr: Pr) {
      target.accepts(Some(verdict), sealed) && (verdict == PASS ==> gate.Green(pr))
    }

    /** The profile accepts the verdict; PASS needs the strict check gate, FAIL an observation. */
    method Judge(sealed: Identity, verdict: Verdict, pr: Pr) returns (r: Outcome)
      requires w.Sound()
      modifies w
      ensures w.Sound() && old(w.trace) <= w.trace && Rely(old(w.s), w.s)
      ensures r.Done? ==> w.failures == old(w.failures)
      ensures r.Done? ==> Admissible(sealed, verdict, pr)
      ensures w.quiet ==> (r.Done? <==> Admissible(sealed, verdict, pr)) && w.s == old(w.s)
    {
      if !target.accepts(Some(verdict), sealed) { return Stop; }
      var read := w.Query();
      if !read { return Stop; }
      if verdict.PASS? {
        var green := Evaluate(gate, pr);
        return if green then Done else Stop;
      }
      r := Done;
    }

    /** Is the sealed target the live one, and may this verdict be given on it? */
    method Decide(sealed: Identity, verdict: Verdict) returns (r: Outcome, a: Applicability, x: Snapshot)
      requires w.Sound()
      modifies w
      ensures w.Sound() && old(w.trace) <= w.trace && Rely(old(w.s), w.s)
      ensures r.Done? ==> w.failures == old(w.failures)
      ensures a.Applies? ==> FactsApplicable(sealed, x) && Observed(w.trace, |old(w.trace)| - 1, x)
      ensures a.Applies? && Tracked(w.s.origin) ==> w.s.remote == Some(sealed.head)
      ensures r.Done? ==> a.Applies? && Admissible(sealed, verdict, x.pr.value)
      ensures w.quiet ==> w.s == old(w.s) && x == Sees(w.s, false) && a == Applicable(w.s, sealed, target)
      ensures w.quiet ==> (r.Done? <==> a.Applies? && Admissible(sealed, verdict, x.pr.value))
    {
      a, x := Compare(sealed);
      if !a.Applies? { return Stop, a, x; }
      ghost var seen := w.trace;
      r := Judge(sealed, verdict, x.pr.value);
      StillObserved(seen, w.trace, |old(w.trace)| - 1, x);
    }

    /** The record, then the pointer to it. */
    method WriteRecord(rec: Record) returns (r: Outcome)
      requires w.Sound() && w.s.proc.refresh.None?
      requires rec.review in w.s.store.reviews.guards
      requires SameTarget(w.s.store.reviews.guards[rec.review].identity, rec.identity)
      requires Tracked(w.s.origin) ==> w.s.remote == Some(rec.identity.head)
      modifies w
      ensures w.Sound() && old(w.trace) <= w.trace && OnlyVerdict(old(w.s), w.s)
      ensures r.Done? ==> w.failures == old(w.failures)
      ensures r.Done? ==> w.s.store == Accepted(old(w.s.store), rec).(boundary := old(w.s.store.boundary))
      ensures r.Done? ==> w.s.proc == old(w.s.proc).(verdict := Some((rec.review, rec.identity.head)))
      ensures r.Done? ==> !Owes(w.s.origin)
      ensures r.Stop? ==> w.s.store in {old(w.s.store), Repo.WithRecord(old(w.s.store), rec)}
      ensures w.quiet ==> r.Done? && w.s == AfterVerdict(old(w.s), w.s)
    {
      RecordWritten(w.s.store.reviews, rec);
      r := w.SaveRecord(rec);
      if r.Stop? { return; }
      var rv := w.s.store.reviews;
      LatestWritten(rv, Latest(rec.review, rec.verdict), w.s.proc.reviewed);
      r := w.Save(w.s.store.(reviews := rv.(latest := Some(Latest(rec.review, rec.verdict)))));
    }

    /** Record, then latest pointer, then the boundary: a crash in between keeps the boundary. */
    method WriteVerdict(rec: Record) returns (r: Outcome)
      requires w.Sound() && w.s.proc.refresh.None?
      requires rec.review in w.s.store.reviews.guards
      requires SameTarget(w.s.store.reviews.guards[rec.review].identity, rec.identity)
      requires Tracked(w.s.origin) ==> w.s.remote == Some(rec.identity.head)
      modifies w
      ensures w.Sound() && old(w.trace) <= w.trace && OnlyVerdict(old(w.s), w.s)
      ensures r.Done? ==> w.failures == old(w.failures)
      ensures r.Done? ==> w.s.store == Accepted(old(w.s.store), rec) && !Owes(w.s.origin)
      ensures PartWritten(old(w.s.store), w.s.store, rec)
      ensures w.quiet ==> r.Done? && w.s == AfterVerdict(old(w.s), w.s)
    {
      r := WriteRecord(rec);
      if r.Stop? { return; }
      r := w.Save(w.s.store.(boundary := None));
    }

    /** Clone, then guard, then claim; only the claim of this very Review. */
    method EndInvocation(review: Id) returns (r: Outcome)
      requires w.Sound()
      modifies w
      ensures w.Sound() && old(w.trace) <= w.trace && Rely(old(w.s).(store := w.s.store), w.s)
      ensures r.Done? ==> w.failures == old(w.failures)
      ensures w.s.store.(marker := None) in
        {old(w.s.store).(marker := None), Ended(old(w.s.store), review)}
      ensures SameVerdicts(old(w.s.store), w.s.store)
      ensures r.Done? ==> w.s.store == Ended(old(w.s.store), review) && Releasable(old(w.s.store), review)
      ensures w.quiet ==> r.Done? == Releasable(old(w.s.store), review) && w.s == old(w.s).(store := w.s.store)
    {
      var removed := w.Query();
      if !removed { return Stop; }
      GuardDeleted(w.s.store.reviews, review, w.s.proc.reviewed);
      r := w.Save(w.s.store.(reviews := WithoutGuard(w.s.store.reviews, review)));
      if r.Stop? || w.s.store.marker.None? { return; }
      if w.s.store.marker.value != HandedOff(review) { return Stop; }
      r := w.Save(w.s.store.(marker := None));
    }

    /** Write and end: what follows once the verdict is accepted on the sealed target. */
    method Accept(review: Id, verdict: Verdict, bound: Option<Hash>, x: Snapshot) returns (r: Outcome)
      requires w.Sound() && w.s.proc == IDLE && review in w.s.store.reviews.guards
      requires FactsApplicable(w.s.store.reviews.guards[review].identity, x)
      requires Tracked(w.s.origin) ==> w.s.remote == Some(w.s.store.reviews.guards[review].identity.head)
      modifies w
      ensures w.Sound() && old(w.trace) <= w.trace && OnlyVerdict(old(w.s), w.s)
      ensures r.Done? ==> w.failures == old(w.failures)
      ensures Halfway(old(w.s.store), w.s.store, review, verdict, x)
      ensures r.Done? ==>
        var rec := VerdictRecord(old(w.s.store.reviews), review, verdict, bound);
        w.s.store == Ended(Accepted(old(w.s.store), rec), review) && !Owes(w.s.origin)
      ensures w.quiet ==> r.Done? == Releasable(old(w.s.store), review)
      ensures w.quiet && r.Done? ==> w.s == AfterVerdict(old(w.s), w.s)
    {
      var rec := VerdictRecord(w.s.store.reviews, review, verdict, bound);
      r := WriteVerdict(rec);
      PartHalfway(old(w.s.store), w.s.store, rec, x);
      if r.Stop? { return; }
      r := EndInvocation(review);
    }

    /** Compare the sealed target with the live one, and accept the verdict or end the invocation. */
    method Conclude(review: Id, verdict: Verdict, bound: Option<Hash>)
      returns (r: Outcome, a: Applicability, x: Snapshot)
      requires w.Sound() && w.s.proc == IDLE && review in w.s.store.reviews.guards
      modifies w
      ensures w.Sound() && old(w.trace) <= w.trace
      ensures r.Done? ==> w.failures == old(w.failures)
      ensures Concluded(old(w.s), w.s, r, a, review, verdict, x, target, gate)
      ensures a.Applies? ==> Observed(w.trace, |old(w.trace)| - 1, x)
      ensures w.quiet ==>
        (r.Done? <==>
           && Applicable(old(w.s), old(w.s.store.reviews.guards)[review].identity, target).Applies?
           && Releasable(old(w.s.store), review)
           && Admissible(old(w.s.store.reviews.guards)[review].identity, verdict, old(w.s.pr).value))
      ensures w.quiet && r.Done? ==>
        var rec := VerdictRecord(old(w.s.store.reviews), review, verdict, bound);
        w.s.store == Ended(Accepted(old(w.s.store), rec), review) && w.s == AfterVerdict(old(w.s), w.s)
      ensures w.quiet && a.Stale? && Releasable(old(w.s.store), review) ==>
        w.s == old(w.s).(store := Ended(old(w.s.store), review))
    {
      r, a, x := Decide(w.s.store.reviews.guards[review].identity, verdict);
      if a.Stale? {
        var ended := EndInvocation(review);
        return Stop, a, x;
      }
      if r.Stop? { return; }
      ghost var seen := w.trace;
      r := Accept(review, verdict, bound, x);
      StillObserved(seen, w.trace, |old(w.trace)| - 1, x);
      AcceptedJudged(old(w.s.store), VerdictRecord(old(w.s.store.reviews), review, verdict, bound), x);
    }

    /** A verdict is recorded only for the sealed target, and only while that still is the live
        one; a stale target ends the invocation and decides nothing. */
    method Complete(review: Id, verdict: Verdict, findings: bool, bound: Option<Hash>)
      returns (r: Outcome, a: Applicability, x: Snapshot)
      requires w.Sound()
      modifies w
      ensures w.Sound() && old(w.trace) <= w.trace
      ensures r.Done? ==> w.failures == old(w.failures)
      // Whatever of it survives a failure half way, the verdict is about the live, sealed target.
      ensures Concluded(old(w.s), w.s, r, a, review, verdict, x, target, gate)
      ensures a.Applies? ==> Observed(w.trace, |old(w.trace)| - 1, x)
      ensures w.quiet ==> (r.Done? <==> Acceptable(old(w.s), review, verdict, findings, target, gate))
      ensures w.quiet && r.Done? ==>
        var rec := VerdictRecord(old(w.s.store.reviews), review, verdict, bound);
        w.s.store == Ended(Accepted(old(w.s.store), rec), review) && w.s == AfterVerdict(old(w.s), w.s)
      ensures w.quiet && a.Stale? && Releasable(old(w.s.store), review) ==>
        w.s == old(w.s).(store := Ended(old(w.s.store), review), proc := IDLE)
    {
      a, x := Refused, UNSEEN;
      if verdict.FAIL? && !findings { return Stop, a, x; }
      if review !in w.s.store.reviews.guards { return Stop, a, x; }
      w.Note(IDLE);
      r, a, x := Conclude(review, verdict, bound);
    }
  }

  /** What became of an invocation.  Done: record and latest pointer are this verdict on what `x` shows,
      a PASS only behind a green gate; boundary, guard and claim are gone and nothing owes a Review.
      Otherwise at most a prefix of that; a target that does not apply decides nothing. */
  ghost predicate Concluded(a: State, b: State, r: Outcome, app: Applicability, review: Id, verdict: Verdict,
                            x: Snapshot, target: Target, gate: Gate) {
    && b.work == a.work && Halfway(a.store, b.store, review, verdict, x)
    && (r.Done? ==>
          && app.Applies? && Judged(a.store.reviews, b.store.reviews, review, verdict, x)
          && target.accepts(Some(verdict), a.store.reviews.guards[review].identity)
          && (verdict == PASS ==> gate.Green(x.pr.value))
          && b.store.reviews.latest == Some(Latest(review, verdict)) && b.store.boundary == None
          && review !in b.store.reviews.guards && b.store.marker == None && !Owes(b.origin))
    && (!app.Applies? ==>
          && b.store.reviews.records == a.store.reviews.records && b.store.reviews.latest == a.store.reviews.latest
          && b.store.boundary == a.store.boundary)
  }

  lemma {:induction false} AcceptedJudged(st: Store, rec: Record, x: Snapshot)
    requires rec.review in st.reviews.guards && FactsApplicable(st.reviews.guards[rec.review].identity, x)
    requires SameTarget(st.reviews.guards[rec.review].identity, rec.identity)
    ensures Judged(st.reviews, Ended(Accepted(st, rec), rec.review).reviews, rec.review, rec.verdict, x)
  {
  }

  /** None, some or all of the verdict writes have been made, in their order. */
  predicate PartWritten(a: Store, b: Store, rec: Record) {
    b in {a, Repo.WithRecord(a, rec), Accepted(a, rec).(boundary := a.boundary), Accepted(a, rec)}
  }

  lemma {:induction false} PartHalfway(a: Store, b: Store, rec: Record, x: Snapshot)
    requires PartWritten(a, b, rec) && rec.review in a.reviews.guards
    requires SameTarget(a.reviews.guards[rec.review].identity, rec.identity) && FactsApplicable(rec.identity, x)
    ensures Halfway(a, b, rec.review, rec.verdict, x)
  {
  }

  /** Nothing but guards and the claim differs. */
  predicate SameVerdicts(a: Store, b: Store) {
    && a.session == b.session && a.receipts == b.receipts && a.boundary == b.boundary
    && a.reviews.records == b.reviews.records && a.reviews.latest == b.reviews.latest
    && a.reviews.sealed == b.reviews.sealed
  }

  /** Record, latest pointer and boundary change in this order, and only to this verdict on the
      sealed target that `x` still shows. */
  predicate Halfway(a: Store, b: Store, review: Id, verdict: Verdict, x: Snapshot) {
    var latest := b.reviews.latest == Some(Latest(review, verdict));
    && a.session == b.session && a.receipts == b.receipts && a.reviews.sealed == b.reviews.sealed
    && (b.reviews.records == a.reviews.records || Judged(a.reviews, b.reviews, review, verdict, x))
    && (b.reviews.latest == a.reviews.latest || (latest && Judged(a.reviews, b.reviews, review, verdict, x)))
    && (b.boundary == a.boundary || (b.boundary.None? && latest && Judged(a.reviews, b.reviews, review, verdict, x)))
  }

  /** A crash after any of the three verdict writes leaves an invocation that can be completed
      again with the same verdict and ends in the same store; at none of these points has the
      boundary gone before record and latest pointer are there. */
  lemma {:induction false} VerdictResumes(s: State, t: State, rec: Record, findings: bool, target: Target,
                                          gate: Gate)
    requires Acceptable(s, rec.review, rec.verdict, findings, target, gate)
    requires t == s.(store := t.store, proc := t.proc, origin := t.origin)
    requires t.store in {
      Repo.WithRecord(s.store, rec),
      Accepted(s.store, rec).(boundary := s.store.boundary),
      Accepted(s.store, rec)}
    ensures Acceptable(t, rec.review, rec.verdict, findings, target, gate)
    ensures Ended(Accepted(t.store, rec), rec.review) == Ended(Accepted(s.store, rec), rec.review)
    ensures t.store.boundary == s.store.boundary ||
      (t.store.reviews.latest == Some(Latest(rec.review, rec.verdict)) && rec.review in t.store.reviews.records)
  {
  }

  /** The record of `review` is this verdict on its sealed target, which `x` still shows. */
  predicate Judged(a: Reviews, b: Reviews, review: Id, verdict: Verdict, x: Snapshot) {
    && review in a.guards && review in b.records
    && b.records == a.records[review := b.records[review]]
    && b.records[review].review == review && b.records[review].verdict == verdict
    && SameTarget(a.guards[review].identity, b.records[review].identity)
    && x.pr.Some? && var identity := b.records[review].identity;
       && identity.pr == x.pr.value.number && identity.head == x.pr.value.head
       && identity.base == x.pr.value.base && identity.body == x.body
  }

  // ---- merge ---------------------------------------------------------------------

  /** Latest pointer and its record say PASS on exactly the PR, head, base and body that `x` shows. */
  predicate PassApplies(rv: Reviews, x: Snapshot) {
    && rv.latest.Some? && rv.latest.value.verdict == PASS && rv.latest.value.review in rv.records && x.pr.Some?
    && var rec := rv.records[rv.latest.value.review];
       && rec.verdict == PASS && rec.identity.pr == x.pr.value.number && rec.identity.head == x.pr.value.head
       && rec.identity.base == x.pr.value.base && rec.identity.body == x.body
  }

  /** When an undisturbed Merge Preflight says READY_FOR_HUMAN_MERGE. */
  ghost predicate Mergeable(s: State, target: Target, gate: Gate) {
    && s.pr.Some? && s.pr.value.open && !s.pr.value.draft && s.pr.value.sameBranch && s.pr.value.mergeable
    && s.remote == Some(s.pr.value.head) && gate.Green(s.pr.value)
    && s.store.reviews.latest.Some? && s.store.reviews.latest.value.review in s.store.reviews.records
    && var latest, pr := s.store.reviews.latest.value, s.pr.value;
       var rec := s.store.reviews.records[latest.review];
       && latest.verdict == PASS && rec.verdict == PASS
       && rec.identity.pr == pr.number && rec.identity.head == pr.head
       && rec.identity.base == pr.base && rec.identity.body == s.body && target.accepts(Some(PASS), rec.identity)
  }

  /** The PR shows another head than the latest record is about. */
  predicate OtherHead(s: State) {
    && s.pr.Some? && s.store.reviews.latest.Some?
    && var id := s.store.reviews.latest.value.review;
       id in s.store.reviews.records && s.store.reviews.records[id].identity.head != s.pr.value.head
  }

  class MergePreflight {
    const w: Repo
    const target: Target
    const gate: Gate

    constructor (w: Repo, target: Target, gate: Gate)
      ensures this.w == w && this.target == target && this.gate == gate
    {
      this.w, this.target, this.gate := w, target, gate;
    }

    /** The profile still accepts the latest record as a PASS. */
    predicate Admitted(rv: Reviews) {
      && rv.latest.Some? && rv.latest.value.review in rv.records
      && target.accepts(Some(PASS), rv.records[rv.latest.value.review].identity)
    }

    method PassGate(x: Snapshot) returns (r: Outcome)
      requires w.Sound()
      modifies w
      ensures w.Sound() && old(w.trace) <= w.trace && Rely(old(w.s), w.s)
      ensures r.Done? ==> w.failures == old(w.failures)
      ensures r.Done? ==> PassApplies(w.s.store.reviews, x) && Admitted(w.s.store.reviews)
      ensures w.calm ==> w.s == old(w.s)
      ensures w.quiet ==> r.Done? == (PassApplies(w.s.store.reviews, x) && Admitted(w.s.store.reviews))
    {
      var rv := w.s.store.reviews;
      if rv.latest.None? || rv.latest.value.verdict != PASS { return Stop; }
      if rv.latest.value.review !in rv.records { return Stop; }
      var rec := rv.records[rv.latest.value.review];
      if rec.review != rv.latest.value.review || rec.verdict != PASS {
        assert RecordOk(rv, rv.latest.value.review);
        return Stop;
      }
      if !FactsApplicable(rec.identity, x) { return Stop; }
      r := if target.accepts(Some(PASS), rec.identity) then Done else Stop;
    }

    /** READY_FOR_HUMAN_MERGE: latest pointer and record both say PASS on exactly the current
        PR, head, base and body, a target that an earlier Review Prepare sealed. */
    method Run() returns (r: Outcome, x: Snapshot)
      requires w.Sound()
      modifies w
      ensures w.Sound() && old(w.trace) <= w.trace && Rely(old(w.s), w.s)
      ensures r.Done? ==> w.failures == old(w.failures)
      ensures r.Done? ==>
        && x.resolved && x.other && PassApplies(w.s.store.reviews, x) && Admitted(w.s.store.reviews)
        && x.remote == Some(x.pr.value.head)
        && x.pr.value.open && !x.pr.value.draft && x.pr.value.sameBranch
        && Observed(w.trace, |old(w.trace)| - 1, x) && gate.Green(x.pr.value) && x.pr.value.mergeable
        && var id := w.s.store.reviews.latest.value.review;
           && id in w.s.store.reviews.sealed
           && SameTarget(w.s.store.reviews.sealed[id].identity, w.s.store.reviews.records[id].identity)
      // A head that the latest record is not about never gets there.
      ensures w.calm ==> w.s == old(w.s) && (OtherHead(w.s) ==> r.Stop?)
      ensures w.quiet ==> (r.Done? <==> Mergeable(w.s, target, gate))
    {
      x := Acquire(w, false);
      ghost var seen := w.trace;
      var policyRead := w.Query();
      if !policyRead { return Stop, x; }
      if !x.resolved || x.pr.None? || x.pr.value.draft || !x.pr.value.open || !x.pr.value.sameBranch { return Stop, x; }
      if x.remote != Some(x.pr.value.head) { return Stop, x; }
      if !x.other { return Stop, x; }
      r := PassGate(x);
      if r.Stop? { return; }
      var green := Evaluate(gate, x.pr.value);
      if !green || !x.pr.value.mergeable { return Stop, x; }
      StillObserved(seen, w.trace, |old(w.trace)| - 1, x);
      assert RecordOk(w.s.store.reviews, w.s.store.reviews.latest.value.review);
    }
  }
}
