/** Closeout: synchronise main, converge metadata, and delete the Task refs only behind proof that
    their content is merged. */
module Closeout {
  import opened Wrappers
  import opened CommitDag
  import opened Protocol

  /** The merged PR.  `proper` stands for its state, base and head branch names, merge time and
      its exact closing link to this Task. */
  datatype Merged = Merged(number: nat, head: Commit, base: Commit, merge: Option<Commit>, proper: bool)

  datatype Checkout = OnMain | OnTask | Elsewhere

  /** This clone, its tracking refs included. */
  datatype Clone = Clone(trackMain: Commit, main: Commit, task: Option<Commit>, checkout: Checkout, clean: bool,
                         otherWorktree: bool)

  /** What GitHub holds, and any other writer may change; `outcome` is the profile's Project field. */
  datatype Hub = Hub(main: Commit, task: Option<Commit>, merged: Option<Merged>, body: Hash,
                     closed: bool, done: bool, ready: bool, blocked: bool, outcome: Option<string>)

  /** What happened to the hub: another writer moved it, closeout looked, wrote metadata or deleted the
      Task ref; each with the hub after it. */
  datatype HubEvent = Moved(hub: Hub) | Looked(hub: Hub) | Wrote(hub: Hub) | Deleted(hub: Hub)

  /** From here on, only other writers have been at work. */
  ghost predicate OnlyOthers(events: seq<HubEvent>, from: nat) {
    from <= |events| && forall i: nat | from <= i < |events| :: events[i].Moved?
  }

  ghost predicate HubStep(events: seq<HubEvent>, i: nat) {
    && 0 < i < |events|
    && var a, b := events[i - 1].hub, events[i].hub;
       match events[i]
       case Moved(_) => true
       case Looked(_) => b == a
       case Wrote(_) => b.task == a.task
       case Deleted(_) => a.task.Some? && b == a.(task := None)
  }

  ghost predicate HubRun(events: seq<HubEvent>) {
    events != [] && forall i: nat | 0 < i < |events| :: HubStep(events, i)
  }

  /** A deleted Task ref: its tip, and what was known by then.  For a remote one, the events at which
      it was last looked at and deleted. */
  datatype Deletion = Deletion(remote: bool, tip: Commit, merge: Commit, main: Commit, looked: nat, at: nat)

  /** The remote deletion is one of these events, of the ref as it was by then. */
  ghost predicate Hit(events: seq<HubEvent>, d: Deletion) {
    && d.looked < d.at < |events| && events[d.looked].Looked? && events[d.at].Deleted?
    && events[d.at - 1].hub.task == Some(d.tip)
  }

  /** Nothing is lost: the tip is the merged head, whose tree is the merge commit's, and the merge
      commit is on main. */
  ghost predicate Lossless(d: Deletion, head: Commit) {
    d.tip == head && head.tree == d.merge.tree && IsAncestor(d.merge, d.main)
  }

  /** Nothing touches the Task ref between these events. */
  ghost predicate RefUntouched(events: seq<HubEvent>, i: nat, j: nat) {
    forall k: nat | i < k < j :: TaskKept(events, k)
  }

  ghost predicate TaskKept(events: seq<HubEvent>, k: nat) {
    0 < k < |events| && events[k].hub.task == events[k - 1].hub.task
  }

  lemma {:induction false} TaskStays(events: seq<HubEvent>, i: nat, j: nat)
    requires i < j <= |events| && RefUntouched(events, i, j)
    ensures events[j - 1].hub.task == events[i].hub.task
    decreases j
  {
    if i < j - 1 {
      assert TaskKept(events, j - 1);
      TaskStays(events, i, j - 1);
    }
  }

  /** A deletion that hit anything but what closeout had looked at was raced: in between the Task ref
      was moved, and not by a look or a metadata write. */
  lemma {:induction false} LossNeedsRace(events: seq<HubEvent>, d: Deletion) returns (i: nat)
    requires HubRun(events) && Hit(events, d) && events[d.looked].hub.task != Some(d.tip)
    ensures d.looked < i < d.at && (events[i].Moved? || events[i].Deleted?) && !TaskKept(events, i)
  {
    if RefUntouched(events, d.looked, d.at) {
      TaskStays(events, d.looked, d.at);
      assert false;
    }
    i :| d.looked < i < d.at && !TaskKept(events, i);
    assert HubStep(events, i);
  }

  /** Looked at with the merged head on it, then moved on by another writer, then deleted: that commit
      is nowhere any more. */
  lemma {:induction false} RacedDeletionLoses(head: Commit, merge: Commit) returns (events: seq<HubEvent>, d: Deletion)
    requires head.tree == merge.tree
    ensures HubRun(events) && Hit(events, d) && d.merge == merge && IsAncestor(d.merge, d.main)
    ensures events[d.looked].hub.task == Some(head) && !Lossless(d, head)
  {
    var later := Commit([head], head.tree + 1, 0);
    var seen := Hub(merge, Some(head), None, 0, true, true, true, false, None);
    events := [Looked(seen), Moved(seen.(task := Some(later))), Deleted(seen.(task := None))];
    d := Deletion(true, later, merge, merge, 0, 2);
    forall i: nat | 0 < i < |events| ensures HubStep(events, i) {
      assert i == 1 || i == 2;
    }
    assert later != head by { assert later.tree != head.tree; }
  }

  class Repository {
    var clone: Clone
    var hub: Hub
    var events: seq<HubEvent>
    var deletions: seq<Deletion>
    // How many commands have failed so far.
    var failures: nat
    // No other writer; commands may still fail.
    const alone: bool
    // No command fails.
    const reliable: bool

    ghost predicate Valid()
      reads this
    {
      && HubRun(events) && events[|events| - 1].hub == hub
      && forall i | 0 <= i < |deletions| :: deletions[i].remote ==> Hit(events, deletions[i])
    }

    constructor (clone: Clone, hub: Hub, alone: bool, reliable: bool)
      ensures Valid() && this.clone == clone && this.hub == hub && deletions == []
      ensures this.alone == alone && this.reliable == reliable
    {
      this.clone, this.hub, deletions, events, failures := clone, hub, [], [Looked(hub)], 0;
      this.alone, this.reliable := alone, reliable;
    }

    method Record(e: HubEvent)
      requires Valid() && HubStep(events + [e], |events|)
      modifies this`hub, this`events
      ensures Valid() && events == old(events) + [e] && hub == e.hub
    {
      ghost var before := events;
      events, hub := events + [e], e.hub;
      forall i: nat | 0 < i < |events| ensures HubStep(events, i) {
        assert i < |before| ==> HubStep(before, i);
      }
      forall i | 0 <= i < |deletions| && deletions[i].remote ensures Hit(events, deletions[i]) {
        assert Hit(before, deletions[i]);
      }
    }

    /** A command while which other writers may move the hub. */
    method Ask() returns (ok: bool)
      requires Valid()
      modifies this`hub, this`events, this`failures
      ensures failures == old(failures) + if ok then 0 else 1
      ensures Valid() && old(events) <= events && |events| <= |old(events)| + 1
      ensures events == old(events) || events[|old(events)|].Moved?
      ensures alone ==> hub == old(hub)
      ensures reliable ==> ok
    {
      ok := *;
      ok := ok || reliable;
      failures := failures + if ok then 0 else 1;
      if !alone {
        var moved: Hub := *;
        Record(Moved(moved));
      }
    }

    /** A command: only its success matters here. */
    method Query() returns (ok: bool)
      requires Valid()
      modifies this`hub, this`events, this`failures
      ensures failures == old(failures) + if ok then 0 else 1
      ensures Valid() && old(events) <= events
      ensures alone ==> hub == old(hub)
      ensures reliable ==> ok
    {
      ok := Ask();
    }

    /** A reading command, and the event at which it saw the hub. */
    method Look() returns (ok: bool, at: nat)
      requires Valid()
      modifies this`hub, this`events, this`failures
      ensures failures == old(failures) + if ok then 0 else 1
      ensures Valid() && old(events) <= events && at == |events| - 1 && events[at] == Looked(hub)
      ensures alone ==> hub == old(hub)
      ensures reliable ==> ok
    {
      ok := Query();
      at := |events|;
      Record(Looked(hub));
    }

    method SwitchToMain() returns (ok: bool)
      requires Valid()
      modifies this`clone, this`hub, this`events, this`failures
      ensures failures == old(failures) + if ok then 0 else 1
      ensures Valid() && clone == if ok then old(clone).(checkout := OnMain) else old(clone)
      ensures alone ==> hub == old(hub)
      ensures reliable ==> ok
    {
      ok := Query();
      if ok { clone := clone.(checkout := OnMain); }
    }

    method Fetch() returns (ok: bool)
      requires Valid()
      modifies this`clone, this`hub, this`events, this`failures
      ensures failures == old(failures) + if ok then 0 else 1
      ensures Valid() && clone == if ok then old(clone).(trackMain := hub.main) else old(clone)
      ensures alone ==> hub == old(hub)
      ensures reliable ==> ok
    {
      ok := Query();
      if ok { clone := clone.(trackMain := hub.main); }
    }

    /** `git merge --ff-only`: forward, or nothing to do, or refused. */
    method FastForwardMain() returns (ok: bool)
      requires Valid()
      modifies this`clone, this`hub, this`events, this`failures
      ensures failures == old(failures) + if ok then 0 else 1
      ensures Valid() && (clone == old(clone) || clone == old(clone).(main := old(clone.trackMain)))
      ensures IsAncestor(old(clone.main), clone.main)
      ensures ok ==> IsAncestor(clone.trackMain, clone.main)
      ensures alone ==> hub == old(hub)
      ensures reliable && IsAncestor(old(clone.main), old(clone.trackMain)) ==> ok && clone.main == clone.trackMain
    {
      var earlier := failures;
      ok := Query();
      if ok && IsAncestor(clone.main, clone.trackMain) {
        clone := clone.(main := clone.trackMain);
      } else {
        ok := ok && IsAncestor(clone.trackMain, clone.main);
      }
      failures := earlier + if ok then 0 else 1;
    }

    /** Mark the Issue Done in the Project. */
    method MarkDone() returns (ok: bool)
      requires Valid()
      modifies this`hub, this`events, this`failures
      ensures failures == old(failures) + if ok then 0 else 1
      ensures Valid() && (alone ==> hub == if ok then old(hub).(done := true) else old(hub))
      ensures reliable ==> ok
    {
      ok := Query();
      if ok { Record(Wrote(hub.(done := true))); }
    }

    method EditLabels() returns (ok: bool)
      requires Valid()
      modifies this`hub, this`events, this`failures
      ensures failures == old(failures) + if ok then 0 else 1
      ensures Valid() && (alone ==> hub == if ok then old(hub).(ready := true, blocked := false) else old(hub))
      ensures reliable ==> ok
    {
      ok := Query();
      if ok { Record(Wrote(hub.(ready := true, blocked := false))); }
    }

    method WriteOutcome(value: string) returns (ok: bool)
      requires Valid()
      modifies this`hub, this`events, this`failures
      ensures failures == old(failures) + if ok then 0 else 1
      ensures Valid() && (alone ==> hub == if ok then old(hub).(outcome := Some(value)) else old(hub))
      ensures reliable ==> ok
    {
      ok := Query();
      if ok { Record(Wrote(hub.(outcome := Some(value)))); }
    }

    method DeleteLocal(merge: Commit) returns (ok: bool)
      requires Valid() && clone.task.Some?
      modifies this
      ensures failures == old(failures) + if ok then 0 else 1
      ensures Valid() && clone == if ok then old(clone).(task := None) else old(clone)
      ensures deletions == if ok
        then old(deletions) + [Deletion(false, old(clone.task.value), merge, clone.trackMain, 0, 0)]
        else old(deletions)
      ensures alone ==> hub == old(hub)
      ensures reliable ==> ok
    {
      ok := Query();
      if ok {
        deletions := deletions + [Deletion(false, clone.task.value, merge, clone.trackMain, 0, 0)];
        clone := clone.(task := None);
      }
    }

    /** `git push --delete` carries no lease: it removes whatever is there by then, and a failing
        exit code does not mean that it did not. */
    method DeleteRemote(merge: Commit, looked: nat) returns (ok: bool)
      requires Valid() && looked < |events| && events[looked].Looked?
      modifies this`hub, this`events, this`failures, this`deletions
      ensures failures == old(failures) + if ok then 0 else 1
      ensures Valid() && old(events) <= events
      ensures deletions == old(deletions) || Removed(old(deletions), deletions, merge, clone.trackMain, looked)
      ensures alone ==> hub == old(hub).(task := hub.task)
      ensures alone && deletions == old(deletions) ==> hub == old(hub)
      ensures alone && deletions != old(deletions) ==> old(hub.task) == Some(deletions[|old(deletions)|].tip)
      ensures alone && reliable ==> ok && hub.task.None?
    {
      ok := Query();
      var lands: bool := *;
      if (ok || lands) && hub.task.Some? {
        var d := Deletion(true, hub.task.value, merge, clone.trackMain, looked, |events|);
        Record(Deleted(hub.(task := None)));
        deletions := deletions + [d];
      }
    }

    /** One remote deletion more, after this look. */
    static predicate Removed(a: seq<Deletion>, b: seq<Deletion>, merge: Commit, main: Commit, looked: nat) {
      && |b| == |a| + 1 && b[..|a|] == a
      && var d := b[|a|]; d.remote && d.merge == merge && d.main == main && d.looked == looked
    }
  }

  // ---- snapshot and identity -------------------------------------------------------

  /** `eligible` stands for a resolved snapshot and the guards that are not identity arithmetic. */
  datatype Facts = Facts(eligible: bool, clone: Clone, hub: Hub)

  method Acquire(w: Repository) returns (x: Facts)
    requires w.Valid()
    modifies w`hub, w`events, w`failures
    ensures w.Valid() && old(w.events) <= w.events && OnlyOthers(w.events, |old(w.events)|) && x.clone == w.clone
    ensures x.eligible ==> w.failures == old(w.failures)
    ensures w.alone ==> w.hub == old(w.hub) && x.hub == w.hub
    ensures w.reliable ==> x.eligible
  {
    var metadataRead := w.Ask();
    var hub := w.hub;
    var refsRead := w.Ask();
    var others: bool := *;
    x := Facts(metadataRead && refsRead && (others || w.reliable), w.clone, hub.(task := w.hub.task));
  }

  /** One merged PR with a complete identity, and no Task ref anywhere but at its head. */
  predicate MergedIdentity(x: Facts) {
    && x.hub.merged.Some? && x.hub.merged.value.proper && x.hub.merged.value.merge.Some?
    && AtHead(x, x.hub.merged.value.head)
  }

  /** The latest Review is a PASS on exactly the merged PR, head and base and the current body. */
  predicate ReviewedMerge(rv: Reviews, x: Facts)
    requires x.hub.merged.Some?
  {
    && rv.latest.Some? && rv.latest.value.verdict == PASS && rv.latest.value.review in rv.records
    && var rec, pr := rv.records[rv.latest.value.review], x.hub.merged.value;
       && rec.review == rv.latest.value.review && rec.verdict == PASS && rec.identity.body == x.hub.body
       && rec.identity.pr == pr.number && rec.identity.base == pr.base && rec.identity.head == pr.head
  }

  datatype Action = Synchronized | AlreadyConverged | Updated | Cleaned | AlreadyClean | AlreadySet | Pending

  /** What a COMPLETE closeout leaves, and finds when it is run again. */
  predicate Settled(clone: Clone, hub: Hub, completion: Option<string>) {
    && clone.checkout == OnMain && clone.main == clone.trackMain == hub.main && clone.task.None? && hub.task.None?
    && hub.closed && hub.done && hub.ready && !hub.blocked && (completion.Some? ==> hub.outcome == completion)
  }

  /** What every effect of a closeout stands behind, field by field: one proper merged PR with its merge
      commit, the Task refs at its head or gone, and the latest Review a PASS whose record names exactly
      that PR, head and base and the Task body. */
  predicate MergeProved(rv: Reviews, x: Facts) {
    && x.hub.merged.Some? && x.hub.merged.value.proper && x.hub.merged.value.merge.Some?
    && (x.clone.task == None || x.clone.task == Some(x.hub.merged.value.head))
    && (x.hub.task == None || x.hub.task == Some(x.hub.merged.value.head))
    && rv.latest.Some? && rv.latest.value.verdict == PASS && rv.latest.value.review in rv.records
    && var rec, pr := rv.records[rv.latest.value.review], x.hub.merged.value;
       && rec.review == rv.latest.value.review && rec.verdict == PASS
       && rec.identity.head == pr.head && rec.identity.base == pr.base && rec.identity.pr == pr.number
       && rec.identity.body == x.hub.body
  }

  /** Another head was merged than the latest Review is about. */
  predicate OtherHeadMerged(rv: Reviews, hub: Hub) {
    && hub.merged.Some? && rv.latest.Some?
    && var id := rv.latest.value.review; id in rv.records && rv.records[id].identity.head != hub.merged.value.head
  }

  /** When an undisturbed closeout gets main to the merge. */
  predicate Mergeable(clone: Clone, hub: Hub, rv: Reviews) {
    && MergeProved(rv, Facts(true, clone, hub)) && clone.clean
    && IsAncestor(clone.main, hub.main) && IsAncestor(hub.merged.value.merge.value, hub.main)
  }

  /** When it gets to COMPLETE. */
  predicate Finishable(clone: Clone, hub: Hub, rv: Reviews) {
    && Mergeable(clone, hub, rv) && hub.closed && !clone.otherWorktree
    && hub.merged.value.head.tree == hub.merged.value.merge.value.tree
  }

  /** No worktree is on the Task branch, the refs are at the merged head, and the trees agree. */
  predicate Deletable(x: Facts, clone: Clone, head: Commit, merge: Commit) {
    clone.checkout != Checkout.OnTask && !clone.otherWorktree && head.tree == merge.tree && AtHead(x, head)
  }

  predicate AtHead(x: Facts, head: Commit) {
    (x.clone.task.Some? ==> x.clone.task.value == head) && (x.hub.task.Some? ==> x.hub.task.value == head)
  }

  /** Every deletion since `a` is lossless, but for a remote one that did not find the merged head, which
      closeout had seen there before. */
  ghost predicate Justified(a: seq<Deletion>, b: seq<Deletion>, events: seq<HubEvent>, head: Commit) {
    |a| <= |b| && b[..|a|] == a && forall i | |a| <= i < |b| :: JustifiedOne(b[i], events, head)
  }

  /** Every deletion since `a` is lossless. */
  ghost predicate NothingLost(a: seq<Deletion>, b: seq<Deletion>, head: Commit) {
    |a| <= |b| && forall i | |a| <= i < |b| :: Lossless(b[i], head)
  }

  ghost predicate JustifiedOne(d: Deletion, events: seq<HubEvent>, head: Commit) {
    if d.remote then
      && Hit(events, d) && events[d.looked].hub.task == Some(head)
      && (Lossless(d, head) <==> events[d.at - 1].hub.task == Some(head))
    else Lossless(d, head)
  }

  lemma {:induction false} JustifiedRemote(a: seq<Deletion>, b: seq<Deletion>, events: seq<HubEvent>, head: Commit)
    requires |b| == |a| + 1 && b[..|a|] == a && b[|a|].remote && Hit(events, b[|a|])
    requires events[b[|a|].looked].hub.task == Some(head)
    requires head.tree == b[|a|].merge.tree && IsAncestor(b[|a|].merge, b[|a|].main)
    ensures Justified(a, b, events, head)
  {
  }

  lemma {:induction false} JustifiedLater(a: seq<Deletion>, b: seq<Deletion>, e: seq<HubEvent>, f: seq<HubEvent>,
                                          head: Commit)
    requires Justified(a, b, e, head) && e <= f
    ensures Justified(a, b, f, head)
  {
    forall i | |a| <= i < |b| ensures JustifiedOne(b[i], f, head) {
      assert JustifiedOne(b[i], e, head);
    }
  }

  /** A local deletion, then what is justified after it. */
  lemma {:induction false} JustifiedAfter(a: seq<Deletion>, d: Deletion, b: seq<Deletion>, events: seq<HubEvent>,
                                          head: Commit)
    requires Justified(a + [d], b, events, head) && !d.remote && Lossless(d, head)
    ensures Justified(a, b, events, head)
    ensures NothingLost(a + [d], b, head) ==> NothingLost(a, b, head)
  {
    assert b[|a|] == (a + [d])[|a|] == d;
    assert b[..|a|] == (a + [d])[..|a|] == a;
  }

  class Closer {
    const w: Repository
    const reviews: Reviews
    // The value of the profile's completion effect, validated against the reviewed artifact.
    const completion: Option<string>
    var lastEffects: seq<Action>

    constructor (w: Repository, reviews: Reviews, completion: Option<string>)
      ensures this.w == w && this.reviews == reviews && this.completion == completion && lastEffects == []
    {
      this.w, this.reviews, this.completion, lastEffects := w, reviews, completion, [];
    }

    /** Local main moves only forward, to a fetched origin/main that contains the merge commit. */
    method SynchronizeMain(x: Facts, merge: Commit) returns (a: Action)
      requires w.Valid() && x.clone == w.clone
      modifies w`clone, w`hub, w`events, w`failures
      ensures w.Valid() && a in {Synchronized, Pending} && (w.alone ==> w.hub == old(w.hub))
      ensures a == Synchronized ==> w.failures == old(w.failures)
      ensures !x.clone.clean ==> a == Pending && w.clone == old(w.clone) && w.events == old(w.events)
      ensures w.clone ==
        old(w.clone).(checkout := w.clone.checkout, trackMain := w.clone.trackMain, main := w.clone.main)
      ensures IsAncestor(old(w.clone.main), w.clone.main)
      ensures a == Synchronized ==>
        && w.clone.checkout == OnMain && w.clone.main == w.clone.trackMain && IsAncestor(merge, w.clone.trackMain)
      ensures w.alone && a == Synchronized ==> w.clone.trackMain == w.hub.main
      ensures w.alone && Settled(old(w.clone), old(w.hub), completion) ==> w.clone == old(w.clone)
      ensures w.alone && w.reliable ==>
        (a == Synchronized <==>
           && x.clone.clean && IsAncestor(old(w.clone.main), w.hub.main) && IsAncestor(merge, w.hub.main))
    {
      if !x.clone.clean { return Pending; }
      if x.clone.checkout != OnMain {
        var switched := w.SwitchToMain();
        if !switched { return Pending; }
      }
      var fetched := w.Fetch();
      if !fetched { return Pending; }
      var merged := w.FastForwardMain();
      if !merged { return Pending; }
      var read := w.Query();
      a := if read && w.clone.main == w.clone.trackMain && IsAncestor(merge, w.clone.trackMain)
           then Synchronized else Pending;
    }

    /** Done and the lifecycle labels, written only where the snapshot says they are missing. */
    method ConvergeMetadata(x: Facts) returns (a: Action)
      requires w.Valid()
      modifies w`hub, w`events, w`failures
      ensures w.Valid() && a in {AlreadyConverged, Updated, Pending}
      ensures a != Pending ==> w.failures == old(w.failures)
      // Nothing is written on a Task that is still open.
      ensures !x.hub.closed ==> a == Pending && w.hub == old(w.hub) && w.events == old(w.events)
      ensures w.alone ==> w.hub == old(w.hub).(done := w.hub.done, ready := w.hub.ready, blocked := w.hub.blocked)
      ensures a != Pending ==> w.hub.closed && w.hub.done && w.hub.ready && !w.hub.blocked
      ensures a == AlreadyConverged ==> x.hub.done && x.hub.ready && !x.hub.blocked
      ensures w.alone && x.hub.done && x.hub.ready && !x.hub.blocked ==> w.hub == old(w.hub) && a != Updated
      ensures w.alone && w.reliable && x.hub == old(w.hub) ==> (a != Pending <==> x.hub.closed)
    {
      if !x.hub.closed { return Pending; }
      var acted := false;
      if !x.hub.done {
        var moved := w.MarkDone();
        if !moved { return Pending; }
        acted := true;
      }
      if !x.hub.ready || x.hub.blocked {
        var edited := w.EditLabels();
        if !edited { return Pending; }
        acted := true;
      }
      var read, at := w.Look();
      if !read || !w.hub.closed || !w.hub.done || !w.hub.ready || w.hub.blocked { return Pending; }
      a := if acted then Updated else AlreadyConverged;
    }

    /** The profile's Project field, written once main has the merge, and read back. */
    method CompleteProfile(main: Action) returns (r: Outcome, a: Action)
      requires w.Valid() && completion.Some?
      modifies w`hub, w`events, w`failures
      ensures w.Valid() && a in {AlreadySet, Updated, Pending} && (r.Stop? ==> a == Pending)
      ensures r.Done? <==> w.failures == old(w.failures)
      ensures a != Pending ==> w.failures == old(w.failures)
      ensures w.alone ==> w.hub == old(w.hub) || w.hub == old(w.hub).(outcome := completion)
      ensures main != Synchronized ==> r.Done? && a == Pending && (w.alone ==> w.hub == old(w.hub))
      ensures a != Pending ==> w.hub.outcome == completion
      ensures w.alone && old(w.hub.outcome) == completion ==> w.hub == old(w.hub) && a != Updated
      ensures w.alone && w.reliable ==> r.Done? && (a != Pending <==> main == Synchronized)
    {
      if main != Synchronized { return Done, Pending; }
      var observed, at := w.Look();
      if !observed { return Stop, Pending; }
      if w.hub.outcome == completion { return Done, AlreadySet; }
      var written := w.WriteOutcome(completion.value);
      if !written { return Stop, Pending; }
      observed, at := w.Look();
      if !observed { return Stop, Pending; }
      r, a := Done, if w.hub.outcome == completion then Updated else Pending;
    }

    /** The local ref goes only at the merged head, with -d or else with -D. */
    method CleanLocal(head: Commit, merge: Commit) returns (r: Outcome, gone: bool)
      requires w.Valid() && w.clone.task.Some?
      modifies w
      ensures w.Valid() && w.clone == if gone then old(w.clone).(task := None) else old(w.clone)
      ensures old(w.clone.task) != Some(head) ==> r.Stop? && w.clone == old(w.clone)
      // Only after two failing attempts is the ref left there.
      ensures r.Done? && !gone ==> w.failures == old(w.failures) + 2
      ensures gone ==> w.failures <= old(w.failures) + 1
      ensures w.alone ==> w.hub == old(w.hub)
      ensures w.deletions == if gone then old(w.deletions) + [Deletion(false, head, merge, w.clone.trackMain, 0, 0)]
                             else old(w.deletions)
      ensures r.Stop? ==> !gone
      ensures w.reliable && old(w.clone.task) == Some(head) ==> r.Done? && gone
    {
      var tipRead := w.Query();
      if !tipRead || w.clone.task != Some(head) { return Stop, false; }
      gone := w.DeleteLocal(merge);
      if !gone {
        gone := w.DeleteLocal(merge);
      }
      r := Done;
    }

    /** Delete the remote ref that was seen at the merged head. */
    method RemoveSeen(head: Commit, merge: Commit, at: nat) returns (removed: bool)
      requires w.Valid() && head.tree == merge.tree && IsAncestor(merge, w.clone.trackMain)
      requires at == |w.events| - 1 && w.events[at] == Looked(w.hub) && w.hub.task == Some(head)
      modifies w`hub, w`events, w`failures, w`deletions
      ensures w.Valid() && old(w.events) <= w.events && (w.alone ==> w.hub == old(w.hub).(task := w.hub.task))
      ensures removed ==> w.failures == old(w.failures)
      ensures w.deletions == old(w.deletions) || |w.deletions| == |old(w.deletions)| + 1
      ensures Justified(old(w.deletions), w.deletions, w.events, head)
      ensures w.alone ==> NothingLost(old(w.deletions), w.deletions, head)
      ensures w.alone && w.reliable ==> removed && w.hub.task.None?
    {
      ghost var before := w.deletions;
      removed := w.DeleteRemote(merge, at);
      if w.deletions != before {
        JustifiedRemote(before, w.deletions, w.events, head);
      }
    }

    /** The remote ref goes only after it was seen at the merged head once more. */
    method CleanRemote(head: Commit, merge: Commit) returns (r: Outcome, a: Action)
      requires w.Valid() && head.tree == merge.tree && IsAncestor(merge, w.clone.trackMain)
      modifies w`hub, w`events, w`failures, w`deletions
      ensures w.Valid() && a in {Cleaned, AlreadyClean, Pending} && (r.Stop? ==> a == Pending)
      ensures r.Stop? ==> w.failures == old(w.failures) && w.deletions == old(w.deletions)
      ensures w.alone && w.reliable && old(w.hub.task).Some? && old(w.hub.task) != Some(head) ==> r.Stop?
      ensures a != Pending ==> w.failures == old(w.failures)
      ensures w.alone ==> w.hub == old(w.hub).(task := w.hub.task)
      ensures a != Pending ==> w.hub.task.None?
      ensures w.deletions == old(w.deletions) || |w.deletions| == |old(w.deletions)| + 1
      ensures Justified(old(w.deletions), w.deletions, w.events, head)
      ensures w.alone ==> NothingLost(old(w.deletions), w.deletions, head)
      ensures w.alone && w.reliable && (old(w.hub.task).Some? ==> old(w.hub.task) == Some(head)) ==>
        r.Done? && a != Pending
    {
      var read, at := w.Look();
      if !read { return Done, Pending; }
      if w.hub.task.None? { return Done, AlreadyClean; }
      if w.hub.task != Some(head) { return Stop, Pending; }
      ghost var before := w.deletions;
      var removed := RemoveSeen(head, merge, at);
      if !removed { return Done, Pending; }
      ghost var events := w.events;
      var verified, last := w.Look();
      JustifiedLater(before, w.deletions, events, w.events, head);
      if !verified || w.hub.task.Some? { return Done, Pending; }
      r, a := Done, Cleaned;
    }

    /** The local ref, then the remote one. */
    method DeleteRefs(x: Facts, head: Commit, merge: Commit) returns (r: Outcome, a: Action)
      requires w.Valid() && x.clone.task == w.clone.task && IsAncestor(merge, w.clone.trackMain)
      requires head.tree == merge.tree && (x.clone.task.Some? || x.hub.task.Some?)
      modifies w
      ensures w.Valid() && a in {Cleaned, AlreadyClean, Pending} && (r.Stop? ==> a == Pending)
      ensures a != Pending ==> w.failures <= old(w.failures) + 1
      // A remote ref that the snapshot has somewhere else is left alone.
      ensures w.alone && x.hub.task.Some? && x.hub.task != Some(head) ==> a == Pending && w.hub == old(w.hub)
      ensures x.clone.task.None? && x.hub.task != Some(head) ==> r.Stop? && w.deletions == old(w.deletions)
      ensures w.clone == old(w.clone).(task := w.clone.task) && (w.alone ==> w.hub == old(w.hub).(task := w.hub.task))
      ensures Justified(old(w.deletions), w.deletions, w.events, head)
      ensures w.alone ==> NothingLost(old(w.deletions), w.deletions, head)
      ensures w.alone && a != Pending && x.hub.task == old(w.hub.task) ==> w.clone.task.None? && w.hub.task.None?
      ensures w.alone && w.reliable && x.hub.task == old(w.hub.task) && AtHead(x, head) ==> r.Done? && a != Pending
    {
      a := Cleaned;
      if x.clone.task.None? {
        if x.hub.task != Some(head) { return Stop, Pending; }
        r, a := CleanRemote(head, merge);
        return;
      }
      ghost var before, d := w.deletions, Deletion(false, head, merge, w.clone.trackMain, 0, 0);
      var gone;
      r, gone := CleanLocal(head, merge);
      if r.Stop? || !gone { return r, Pending; }
      assert Lossless(d, head) && Justified(before, before + [d], w.events, head);
      if x.hub.task.None? { return Done, a; }
      if x.hub.task != Some(head) { return Stop, Pending; }
      r, a := CleanRemote(head, merge);
      JustifiedAfter(before, d, w.deletions, w.events, head);
    }

    /** No worktree is on the Task branch, and the merged head has the tree of the merge commit. */
    method RefsFree(head: Commit, merge: Commit) returns (r: Outcome, free: bool)
      requires w.Valid()
      modifies w`hub, w`events, w`failures
      ensures w.Valid() && (w.alone ==> w.hub == old(w.hub)) && (r.Stop? ==> !free)
      ensures w.reliable && w.clone.checkout != Checkout.OnTask && !w.clone.otherWorktree && head.tree != merge.tree ==>
        r.Stop?
      ensures free ==> w.failures == old(w.failures)
      ensures free ==> head.tree == merge.tree && w.clone.checkout != Checkout.OnTask && !w.clone.otherWorktree
      ensures w.reliable && head.tree == merge.tree ==>
        r.Done? && free == (w.clone.checkout != Checkout.OnTask && !w.clone.otherWorktree)
    {
      var worktrees := w.Query();
      if !worktrees || w.clone.checkout == Checkout.OnTask || w.clone.otherWorktree { return Done, false; }
      var compared := w.Query();
      if !compared || head.tree != merge.tree { return Stop, false; }
      r, free := Done, true;
    }

    /** No worktree on the Task branch, equal trees, then local and remote ref. */
    method CleanTaskRefs(x: Facts, head: Commit, merge: Commit) returns (r: Outcome, a: Action)
      requires w.Valid() && x.clone.task == w.clone.task && IsAncestor(merge, w.clone.trackMain)
      modifies w
      ensures w.Valid() && a in {Cleaned, AlreadyClean, Pending} && (r.Stop? ==> a == Pending)
      ensures a != Pending ==> w.failures <= old(w.failures) + 1
      ensures w.clone == old(w.clone).(task := w.clone.task) && (w.alone ==> w.hub == old(w.hub).(task := w.hub.task))
      ensures Justified(old(w.deletions), w.deletions, w.events, head)
      ensures w.alone ==> NothingLost(old(w.deletions), w.deletions, head)
      ensures w.deletions != old(w.deletions) ==>
        old(w.clone.checkout) != Checkout.OnTask && !old(w.clone.otherWorktree)
      ensures w.alone && a != Pending && x.hub.task == old(w.hub.task) ==> w.clone.task.None? && w.hub.task.None?
      ensures old(w.clone.task).None? && x.hub.task.None? ==> w.clone == old(w.clone) && w.deletions == old(w.deletions)
      ensures w.alone && old(w.clone.task).None? && x.hub.task.None? ==> w.hub == old(w.hub)
      ensures a != Pending ==> head.tree == merge.tree && !old(w.clone.otherWorktree)
      ensures w.alone && w.reliable && x.hub.task == old(w.hub.task) && Deletable(x, old(w.clone), head, merge) ==>
        r.Done? && a != Pending
    {
      var free;
      r, free := RefsFree(head, merge);
      if r.Stop? || !free { return r, Pending; }
      if x.clone.task.None? && x.hub.task.None? { return Done, AlreadyClean; }
      r, a := DeleteRefs(x, head, merge);
    }

    /** Everything before the refs: main, metadata, the profile's effect. */
    method Converge(x: Facts, merge: Commit) returns (r: Outcome, main: Action, metadata: Action, profile: Action)
      requires w.Valid() && x.clone == w.clone
      modifies w`clone, w`hub, w`events, w`failures, this`lastEffects
      ensures w.Valid() && IsAncestor(old(w.clone.main), w.clone.main)
      ensures r.Done? && main == Synchronized && metadata != Pending && profile != Pending ==>
        w.failures == old(w.failures)
      ensures lastEffects == old(lastEffects) + [main, metadata] +
        (if r.Done? && completion.Some? then [profile] else [])
      ensures r.Stop? ==> completion.Some?
      ensures main in {Synchronized, Pending} && (completion.None? ==> profile == AlreadySet)
      ensures w.clone ==
        old(w.clone).(checkout := w.clone.checkout, trackMain := w.clone.trackMain, main := w.clone.main)
      ensures main == Synchronized ==>
        && w.clone.checkout == OnMain && w.clone.main == w.clone.trackMain && IsAncestor(merge, w.clone.trackMain)
      ensures w.alone && main == Synchronized ==> w.clone.trackMain == w.hub.main
      ensures w.alone ==> w.hub == old(w.hub).(done := w.hub.done, ready := w.hub.ready, blocked := w.hub.blocked,
                                               outcome := w.hub.outcome)
      ensures w.alone && w.hub.outcome != old(w.hub.outcome) ==> w.hub.outcome == completion && main == Synchronized
      ensures w.alone && metadata != Pending ==> w.hub.closed && w.hub.done && w.hub.ready && !w.hub.blocked
      ensures profile != Pending && completion.Some? ==> w.hub.outcome == completion
      ensures w.alone && x.hub == old(w.hub) && Settled(old(w.clone), old(w.hub), completion) ==>
        w.clone == old(w.clone) && w.hub == old(w.hub)
      ensures w.alone && w.reliable && x.hub == old(w.hub) ==>
        && r.Done? && (metadata != Pending <==> x.hub.closed)
        && (profile != Pending <==> completion.None? || main == Synchronized)
        && (main == Synchronized <==>
              && x.clone.clean && IsAncestor(old(w.clone.main), w.hub.main) && IsAncestor(merge, w.hub.main))
    {
      main := SynchronizeMain(x, merge);
      lastEffects := lastEffects + [main];
      metadata := ConvergeMetadata(x);
      lastEffects := lastEffects + [metadata];
      r, profile := Done, AlreadySet;
      if completion.Some? {
        r, profile := CompleteProfile(main);
        if r.Stop? { return; }
        lastEffects := lastEffects + [profile];
      }
    }

    /** The refs, once main has the merge. */
    method CleanBehindMain(x: Facts, head: Commit, merge: Commit, main: Action) returns (r: Outcome, a: Action)
      requires w.Valid() && x.clone.task == w.clone.task && AtHead(x, head)
      requires main == Synchronized ==> IsAncestor(merge, w.clone.trackMain) && w.clone.checkout == OnMain
      modifies w, this`lastEffects
      ensures w.Valid() && (r.Stop? ==> a == Pending) && (main != Synchronized ==> a == Pending)
      ensures a != Pending ==> w.failures <= old(w.failures) + 1
      ensures lastEffects == old(lastEffects) + (if r.Done? then [a] else [])
      ensures w.clone == old(w.clone).(task := w.clone.task) && (w.alone ==> w.hub == old(w.hub).(task := w.hub.task))
      ensures Justified(old(w.deletions), w.deletions, w.events, head)
      ensures w.alone ==> NothingLost(old(w.deletions), w.deletions, head)
      ensures w.alone && a != Pending && x.hub.task == old(w.hub.task) ==> w.clone.task.None? && w.hub.task.None?
      ensures old(w.clone.task).None? && x.hub.task.None? ==> w.clone == old(w.clone) && w.deletions == old(w.deletions)
      ensures w.alone && old(w.clone.task).None? && x.hub.task.None? ==> w.hub == old(w.hub)
      ensures a != Pending ==> head.tree == merge.tree && !old(w.clone.otherWorktree)
      ensures w.alone && w.reliable && x.hub.task == old(w.hub.task) && main == Synchronized
              && head.tree == merge.tree && !old(w.clone.otherWorktree) ==>
        r.Done? && a != Pending
    {
      r, a := Done, Pending;
      if main == Synchronized {
        r, a := CleanTaskRefs(x, head, merge);
        if r.Stop? { return; }
      }
      lastEffects := lastEffects + [a];
    }

    /** The effects in their order: main, metadata, the profile's, the refs. */
    method RunEffects(x: Facts, head: Commit, merge: Commit) returns (r: Outcome, business: bool, complete: bool)
      requires w.Valid() && x.clone == w.clone && lastEffects == [] && AtHead(x, head)
      modifies w, this`lastEffects
      ensures w.Valid() && IsAncestor(old(w.clone.main), w.clone.main)
      ensures complete && business ==> w.failures <= old(w.failures) + 1
      ensures Justified(old(w.deletions), w.deletions, w.events, head)
      ensures w.alone ==> NothingLost(old(w.deletions), w.deletions, head)
      ensures w.alone && w.hub.outcome != old(w.hub.outcome) ==>
        w.hub.outcome == completion && IsAncestor(merge, w.clone.main)
      ensures r.Done? ==>
        && |lastEffects| == (if completion.Some? then 4 else 3)
        && business == (completion == None || lastEffects[2] != Pending)
        && complete == (lastEffects[0] == Synchronized && lastEffects[1] != Pending
                        && lastEffects[|lastEffects| - 1] != Pending)
      ensures complete || business ==> r.Done?
      ensures w.alone && x.hub == old(w.hub) && complete && business ==> Settled(w.clone, w.hub, completion)
      ensures w.alone && w.reliable && x.hub == old(w.hub) ==>
        (complete <==>
           && x.hub.closed && x.clone.clean && !x.clone.otherWorktree && head.tree == merge.tree
           && IsAncestor(x.clone.main, x.hub.main) && IsAncestor(merge, x.hub.main))
      ensures w.alone && w.reliable && x.hub == old(w.hub) && complete ==> business
      ensures w.alone && x.hub == old(w.hub) && Settled(old(w.clone), old(w.hub), completion) ==>
        w.clone == old(w.clone) && w.hub == old(w.hub) && w.deletions == old(w.deletions)
    {
      business, complete := false, false;
      var main, metadata, profile;
      r, main, metadata, profile := Converge(x, merge);
      if r.Stop? { return; }
      var cleanup;
      r, cleanup := CleanBehindMain(x, head, merge, main);
      if r.Stop? { return; }
      complete := main == Synchronized && metadata != Pending && cleanup != Pending;
      business := profile != Pending;
    }

    /** Main, then metadata, then the profile's effect, then the refs; nothing before merged and
        reviewed identity agree. */
    method Complete() returns (r: Outcome, business: bool, complete: bool, x: Facts)
      requires w.Valid()
      modifies w, this`lastEffects
      ensures w.Valid() && IsAncestor(old(w.clone.main), w.clone.main)
      // The one failure it gets over is that of `git branch -d`, after which it tries -D.
      ensures complete && business ==> w.failures <= old(w.failures) + 1
      // Without that proof nothing is written, moved or deleted, here or on the hub.
      ensures !x.eligible || !MergeProved(reviews, x) ==>
        && r.Stop? && !business && !complete && lastEffects == []
        && w.clone == old(w.clone) && w.deletions == old(w.deletions) && OnlyOthers(w.events, |old(w.events)|)
      // So a head that was merged and is not the one the latest Review is about stays as it is.
      ensures w.alone && OtherHeadMerged(reviews, old(w.hub)) ==>
        r.Stop? && w.clone == old(w.clone) && w.hub == old(w.hub) && w.deletions == old(w.deletions)
      ensures w.deletions != old(w.deletions) ==>
        && x.eligible && MergeProved(reviews, x)
        && Justified(old(w.deletions), w.deletions, w.events, x.hub.merged.value.head)
      ensures w.alone && w.deletions != old(w.deletions) ==>
        NothingLost(old(w.deletions), w.deletions, x.hub.merged.value.head)
      ensures w.alone && w.hub.outcome != old(w.hub.outcome) ==>
        && x.eligible && MergeProved(reviews, x) && w.hub.outcome == completion
        && IsAncestor(x.hub.merged.value.merge.value, w.clone.main)
      // The effects say what is complete: main, metadata, the profile's if it has one, and the refs.
      ensures r.Done? ==>
        && |lastEffects| == (if completion.Some? then 4 else 3)
        && business == (completion == None || lastEffects[2] != Pending)
        && complete == (lastEffects[0] == Synchronized && lastEffects[1] != Pending
                        && lastEffects[|lastEffects| - 1] != Pending)
      ensures complete || business ==> r.Done?
      ensures w.alone && complete && business ==> Settled(w.clone, w.hub, completion)
      ensures w.alone && w.reliable ==> (complete <==> Finishable(old(w.clone), old(w.hub), reviews))
      ensures w.alone && w.reliable && complete ==> business
      // A second run after COMPLETE deletes, relabels, writes and moves nothing, whatever fails in it.
      ensures w.alone && Settled(old(w.clone), old(w.hub), completion) ==>
        w.clone == old(w.clone) && w.hub == old(w.hub) && w.deletions == old(w.deletions)
    {
      lastEffects, business, complete := [], false, false;
      x := Acquire(w);
      if !x.eligible || !MergedIdentity(x) || !ReviewedMerge(reviews, x) { return Stop, business, complete, x; }
      r, business, complete := RunEffects(x, x.hub.merged.value.head, x.hub.merged.value.merge.value);
    }
  }
}
