/** Serialised live state: canonical fields next to their legacy projections, read back into one
    neutral model or refused. */
module LiveStates {
  import opened Wrappers

  /** Fields with a neutral issue_* or leaf_* name and a legacy task_* name. */
  datatype Pair = Number | LocalBranch | LocalHead | RemoteBranch | RemoteOid | Contract

  /** The other fields of a live state. */
  datatype Field =
    | Repository | Issue | IssueProfile | OpenPr | Merged | MergedPr
    | Relationships | Git | Checks | Cleanup
    | MergedNumbers | StopReasons | Warnings
    | TargetBranch | Status

  /** Keys of a serialised payload. */
  datatype Key =
    | SchemaVersion | Canonical(p: Pair) | Legacy(p: Pair) | Own(f: Field)
    | Operation | State | RequiredChecks | AcquisitionWarnings | FactProfile | AcquiredFacts
    | Other(name: string)

  datatype Value =
    | Null | Atom(n: int) | Text(s: string) | Enum(member: string)
    | List(items: seq<Value>) | Tuple(elements: seq<Value>) | Mapping(fields: map<Key, Value>)

  function Get(m: map<Key, Value>, k: Key): Value { if k in m then m[k] else Null }

  /** What json makes of a stored value: lists for tuples, strings for enum members. */
  function Jsonable(v: Value): Value {
    match v
    case Enum(member) => Text(member)
    case List(items) => List(seq(|items|, i requires 0 <= i < |items| => Jsonable(items[i])))
    case Tuple(elements) => List(seq(|elements|, i requires 0 <= i < |elements| => Jsonable(elements[i])))
    case Mapping(fields) => Mapping(map k | k in fields :: Jsonable(fields[k]))
    case _ => v
  }

  lemma {:induction false} JsonableTwice(v: Value)
    ensures Jsonable(Jsonable(v)) == Jsonable(v)
  {
    match v
    case List(items) =>
      forall i | 0 <= i < |items| ensures Jsonable(Jsonable(items[i])) == Jsonable(items[i]) {
        JsonableTwice(items[i]);
      }
      assert Jsonable(Jsonable(v)).items == Jsonable(v).items;
    case Tuple(elements) =>
      forall i | 0 <= i < |elements| ensures Jsonable(Jsonable(elements[i])) == Jsonable(elements[i]) {
        JsonableTwice(elements[i]);
      }
      assert Jsonable(Jsonable(v)).items == Jsonable(v).items;
    case Mapping(fields) =>
      forall k | k in fields ensures Jsonable(Jsonable(fields[k])) == Jsonable(fields[k]) {
        JsonableTwice(fields[k]);
      }
      assert Jsonable(Jsonable(v)).fields == Jsonable(v).fields;
    case _ =>
  }

  // ---- one field and its legacy projection -----------------------------------------

  /** Values that do not contradict each other: one is not given, mappings do not differ on a key
      they share, anything else is equal. */
  predicate Agree(v: Value, w: Value) {
    || v.Null? || w.Null?
    || (if v.Mapping? && w.Mapping? then forall k | k in v.fields && k in w.fields :: v.fields[k] == w.fields[k]
        else v == w)
  }

  /** The canonical value if there is one, else the legacy one; None reports a conflict. */
  function Coalesce(canonical: Value, legacy: Value): Option<Value> {
    if canonical.Null? then Some(legacy)
    else if legacy.Null? then Some(canonical)
    else if canonical.Mapping? && legacy.Mapping? then
      (if exists k | k in legacy.fields :: k in canonical.fields && canonical.fields[k] != legacy.fields[k] then None
       else Some(canonical))
    else if canonical != legacy then None
    else Some(canonical)
  }

  /** The contract keys that the bounded task_contract projection shows. */
  type Projected = set<Key>

  /** The legacy projection of a field: the contract is bounded, the others are shown as they are. */
  function Shown(p: Pair, v: Value, keys: Projected): Value {
    if !p.Contract? then v
    else if v.Mapping? then Mapping(map k | k in keys :: Get(v.fields, k))
    else Null
  }

  /** A field and its own projection never conflict, and the field wins. */
  lemma {:induction false} ShownAgrees(p: Pair, v: Value, keys: Projected)
    requires p.Contract? ==> v.Null? || v.Mapping?
    ensures Coalesce(Jsonable(v), Jsonable(Shown(p, v, keys))) == Some(Jsonable(v))
  {
  }

  // ---- live state --------------------------------------------------------------------

  datatype LiveState = LiveState(pairs: map<Pair, Value>, rest: map<Field, Value>)

  // All of them.
  const PAIRS: set<Pair> := set p: Pair | true
  const FIELDS: set<Field> := set f: Field | true

  predicate IsMapping(f: Field) { f.Relationships? || f.Git? || f.Checks? || f.Cleanup? }

  predicate IsSequence(f: Field) { f.MergedNumbers? || f.StopReasons? || f.Warnings? }

  predicate Falsy(v: Value) {
    v.Null? || v == Atom(0) || v == Text("") || v == Enum("") || v == List([]) || v == Tuple([]) || v == Mapping(map[])
  }

  predicate IsStatus(v: Value) { v == Enum("resolved") || v == Enum("stop") }

  predicate ValidPair(p: Pair, v: Value) {
    (p.Number? ==> v.Atom?) && (p.Contract? ==> v.Null? || v.Mapping?)
  }

  predicate ValidField(f: Field, v: Value) {
    (IsMapping(f) ==> v == Mapping(map[]) || !Falsy(v)) && (IsSequence(f) ==> v.Tuple?) && (f.Status? ==> IsStatus(v))
  }

  /** What the constructor establishes. */
  predicate ValidState(s: LiveState) {
    && s.pairs.Keys == PAIRS && s.rest.Keys == FIELDS
    && (forall p | p in PAIRS :: ValidPair(p, s.pairs[p]))
    && (forall f | f in FIELDS :: ValidField(f, s.rest[f]))
  }

  function Elements(v: Value): seq<Value> { if v.List? then v.items else if v.Tuple? then v.elements else [] }

  /** A field that has no legacy name, as the constructor stores it. */
  function ReadField(f: Field, given: bool, v: Value): Value {
    if IsMapping(f) then (if Falsy(v) then Mapping(map[]) else v)
    else if IsSequence(f) then Tuple(Elements(v))
    else if f.TargetBranch? then (if given then v else Text(""))
    else if f.Status? then (if !given then Enum("resolved") else if v.Text? then Enum(v.s) else v)
    else v
  }

  predicate Readable(f: Field, given: bool, v: Value) {
    (IsSequence(f) ==> !given || v.List? || v.Tuple?) && (f.Status? ==> IsStatus(ReadField(f, given, v)))
  }

  function KeysOf(): set<Key> {
    {SchemaVersion} + (set p | p in PAIRS :: Canonical(p)) + (set p | p in PAIRS :: Legacy(p))
    + (set f | f in FIELDS :: Own(f))
  }

  function Printed(s: LiveState, k: Key, keys: Projected): Value
    requires ValidState(s)
  {
    match k
    case Canonical(p) => if p in PAIRS then Jsonable(s.pairs[p]) else Null
    case Legacy(p) => if p in PAIRS then Jsonable(Shown(p, s.pairs[p], keys)) else Null
    case Own(f) => if f in FIELDS then Jsonable(s.rest[f]) else Null
    case _ => Atom(1)
  }

  function ToDict(s: LiveState, keys: Projected): map<Key, Value>
    requires ValidState(s)
  {
    map k | k in KeysOf() :: Printed(s, k, keys)
  }

  function Merge(m: map<Key, Value>, p: Pair): Option<Value> { Coalesce(Get(m, Canonical(p)), Get(m, Legacy(p))) }

  function FromDict(m: map<Key, Value>): Option<LiveState> {
    if exists p | p in PAIRS :: Merge(m, p).None? || !ValidPair(p, Merge(m, p).value) then None
    else if exists f | f in FIELDS :: !Readable(f, Own(f) in m, Get(m, Own(f))) then None
    else Some(LiveState(map p | p in PAIRS :: Merge(m, p).value,
                        map f | f in FIELDS :: ReadField(f, Own(f) in m, Get(m, Own(f)))))
  }

  /** The same state with its values as json leaves them. */
  function Neutral(s: LiveState): LiveState
    requires ValidState(s)
  {
    LiveState(map p | p in PAIRS :: Jsonable(s.pairs[p]),
              map f | f in FIELDS :: ReadField(f, true, Jsonable(s.rest[f])))
  }

  lemma {:induction false} FieldPrintsSame(f: Field, v: Value)
    requires ValidField(f, v)
    ensures Readable(f, true, Jsonable(v)) && Jsonable(ReadField(f, true, Jsonable(v))) == Jsonable(v)
  {
    JsonableTwice(v);
    if IsSequence(f) {
      assert Jsonable(Tuple(Jsonable(v).items)) == Jsonable(List(Jsonable(v).items));
    } else if IsMapping(f) && Falsy(Jsonable(v)) {
      assert Jsonable(v).fields == map[];
    }
  }

  lemma {:induction false} PrintedAt(s: LiveState, k: Key, keys: Projected)
    requires ValidState(s) && k in KeysOf()
    ensures k in ToDict(s, keys) && ToDict(s, keys)[k] == Printed(s, k, keys)
  {
  }

  lemma {:induction false} ReadGives(m: map<Key, Value>, s: LiveState)
    requires ValidState(s)
    requires forall p | p in PAIRS :: Merge(m, p) == Some(Jsonable(s.pairs[p])) && ValidPair(p, Jsonable(s.pairs[p]))
    requires forall f | f in FIELDS ::
      Own(f) in m && m[Own(f)] == Jsonable(s.rest[f]) && Readable(f, true, m[Own(f)])
    ensures FromDict(m) == Some(Neutral(s))
  {
    assert FromDict(m).value.pairs == Neutral(s).pairs;
    assert FromDict(m).value.rest == Neutral(s).rest;
  }

  lemma {:induction false} PairReads(s: LiveState, p: Pair, keys: Projected)
    requires ValidState(s) && p in PAIRS
    ensures Merge(ToDict(s, keys), p) == Some(Jsonable(s.pairs[p])) && ValidPair(p, Jsonable(s.pairs[p]))
  {
  }

  lemma {:induction false} NeutralReads(s: LiveState, keys: Projected)
    requires ValidState(s)
    ensures FromDict(ToDict(s, keys)) == Some(Neutral(s))
  {
    var m := ToDict(s, keys);
    forall p | p in PAIRS ensures Merge(m, p) == Some(Jsonable(s.pairs[p])) && ValidPair(p, Jsonable(s.pairs[p])) {
      PairReads(s, p, keys);
    }
    forall f | f in FIELDS ensures Own(f) in m && m[Own(f)] == Jsonable(s.rest[f]) && Readable(f, true, m[Own(f)]) {
      PrintedAt(s, Own(f), keys);
      FieldPrintsSame(f, s.rest[f]);
    }
    ReadGives(m, s);
  }

  lemma {:induction false} NeutralValid(s: LiveState)
    requires ValidState(s)
    ensures ValidState(Neutral(s))
  {
  }

  lemma {:induction false} NeutralPrints(s: LiveState, keys: Projected)
    requires ValidState(s)
    ensures ValidState(Neutral(s)) && ToDict(Neutral(s), keys) == ToDict(s, keys)
  {
    var t := Neutral(s);
    NeutralValid(s);
    forall k | k in KeysOf() ensures Printed(t, k, keys) == Printed(s, k, keys) {
      match k
      case Canonical(p) => JsonableTwice(s.pairs[p]);
      case Legacy(p) => ShownPrints(p, s.pairs[p], keys);
      case Own(f) => FieldPrintsSame(f, s.rest[f]);
      case _ =>
    }
  }

  lemma {:induction false} ShownPrints(p: Pair, v: Value, keys: Projected)
    requires ValidPair(p, v)
    ensures Jsonable(Shown(p, Jsonable(v), keys)) == Jsonable(Shown(p, v, keys))
  {
    JsonableTwice(v);
    if p.Contract? && v.Mapping? {
      var a, b := Jsonable(Shown(p, Jsonable(v), keys)).fields, Jsonable(Shown(p, v, keys)).fields;
      forall k | k in keys ensures a[k] == b[k] {
        JsonableTwice(Get(v.fields, k));
      }
      assert a == b;
    }
  }

  /** What a state serialises to is read back without a conflict, and serialises to the same again. */
  lemma {:induction false} StateRoundTrip(s: LiveState, keys: Projected)
    requires ValidState(s)
    ensures var back := FromDict(ToDict(s, keys));
      back.Some? && ValidState(back.value) && ToDict(back.value, keys) == ToDict(s, keys)
  {
    NeutralReads(s, keys);
    NeutralPrints(s, keys);
  }

  // ---- what was read ----------------------------------------------------------------

  /** The value a payload gives for a field: the canonical one if there is one. */
  function Given(m: map<Key, Value>, p: Pair): Value {
    if Get(m, Canonical(p)).Null? then Get(m, Legacy(p)) else Get(m, Canonical(p))
  }

  lemma {:induction false} ReadIsValid(m: map<Key, Value>)
    requires FromDict(m).Some?
    ensures ValidState(FromDict(m).value)
    ensures forall p | p in PAIRS :: FromDict(m).value.pairs[p] == Given(m, p)
  {
    var s := FromDict(m).value;
    forall p | p in PAIRS ensures ValidPair(p, s.pairs[p]) && s.pairs[p] == Given(m, p) {
      assert s.pairs[p] == Merge(m, p).value;
    }
    forall f | f in FIELDS ensures ValidField(f, s.rest[f]) {
      assert Readable(f, Own(f) in m, Get(m, Own(f)));
    }
  }

  /** A payload is read exactly when no field contradicts its legacy name, the Issue number is a number, a
      contract is a mapping, lists are lists and a given status is a known one. */
  lemma {:induction false} ReadableExactly(m: map<Key, Value>)
    ensures FromDict(m).Some? <==>
      && (forall p | p in PAIRS :: Agree(Get(m, Canonical(p)), Get(m, Legacy(p))))
      && Given(m, Number).Atom? && (Given(m, Contract) == Null || Given(m, Contract).Mapping?)
      && (forall f | f in {MergedNumbers, StopReasons, Warnings} ::
            Own(f) in m ==> m[Own(f)].List? || m[Own(f)].Tuple?)
      && (Own(Status) in m ==>
            m[Own(Status)] in {Text("resolved"), Text("stop"), Enum("resolved"), Enum("stop")})
  {
    forall p | p in PAIRS
      ensures Merge(m, p) == if Agree(Get(m, Canonical(p)), Get(m, Legacy(p))) then Some(Given(m, p)) else None
    {
    }
    assert Number in PAIRS && Contract in PAIRS && Status in FIELDS;
    assert MergedNumbers in FIELDS && StopReasons in FIELDS && Warnings in FIELDS;
  }

  lemma {:induction false} AgreeJson(v: Value, w: Value)
    requires Agree(v, w)
    ensures Agree(Jsonable(v), Jsonable(w))
  {
  }

  /** A key of the bounded contract that only the legacy contract of the payload fills in. */
  predicate Dropped(p: Pair, canonical: Value, legacy: Value, keys: Projected) {
    && p.Contract? && canonical.Mapping? && legacy.Mapping?
    && exists k | k in keys :: k in legacy.fields && k !in canonical.fields && !legacy.fields[k].Null?
  }

  lemma {:induction false} ProjectionAgrees(p: Pair, c: Value, l: Value, keys: Projected)
    requires Agree(c, l) && ValidPair(p, if c.Null? then l else c)
    ensures Agree(Jsonable(Shown(p, if c.Null? then l else c, keys)), Jsonable(l)) <==> !Dropped(p, c, l, keys)
  {
    var v := if c.Null? then l else c;
    AgreeJson(v, l);
    if p.Contract? && v.Mapping? && l.Mapping? {
      var shown, given := Jsonable(Shown(p, v, keys)).fields, Jsonable(l).fields;
      forall k | k in keys ensures shown[k] == Jsonable(Get(v.fields, k)) {}
      if Dropped(p, c, l, keys) {
        var k :| k in keys && k in l.fields && k !in c.fields && !l.fields[k].Null?;
        assert shown[k] == Null && given[k] == Jsonable(l.fields[k]) && !given[k].Null?;
      }
    }
  }

  /** A state printed right after it was read says what the payload said: the canonical value where
      there was one, nothing that contradicts the legacy one; only legacy contract keys that the
      canonical contract lacks are gone. */
  lemma {:induction false} ReadThenPrint(m: map<Key, Value>, p: Pair, keys: Projected)
    requires FromDict(m).Some?
    ensures ValidState(FromDict(m).value)
    ensures var d, legacy := ToDict(FromDict(m).value, keys), Get(m, Legacy(p));
      && Canonical(p) in d && d[Canonical(p)] == Jsonable(Given(m, p)) && Agree(d[Canonical(p)], Jsonable(legacy))
      && Legacy(p) in d
      && (Agree(d[Legacy(p)], Jsonable(legacy)) <==> !Dropped(p, Get(m, Canonical(p)), legacy, keys))
  {
    ReadIsValid(m);
    var s := FromDict(m).value;
    PrintedAt(s, Canonical(p), keys);
    PrintedAt(s, Legacy(p), keys);
    assert p in PAIRS && Merge(m, p).Some?;
    AgreeJson(Given(m, p), Get(m, Legacy(p)));
    ProjectionAgrees(p, Get(m, Canonical(p)), Get(m, Legacy(p)), keys);
  }

  /** The title is only in the legacy contract: accepted, and lost. */
  lemma {:induction false} LegacyFieldLost() returns (m: map<Key, Value>, keys: Projected)
    ensures FromDict(m).Some? && ValidState(FromDict(m).value)
    ensures var d := ToDict(FromDict(m).value, keys);
      Legacy(Contract) in d && Legacy(Contract) in m && !Agree(d[Legacy(Contract)], m[Legacy(Contract)])
  {
    var title := Other("title");
    keys := {title};
    m := map[Canonical(Number) := Atom(1), Canonical(Contract) := Mapping(map[]),
             Legacy(Contract) := Mapping(map[title := Text("t")])];
    forall p | p in PAIRS ensures Merge(m, p).Some? && ValidPair(p, Merge(m, p).value) {}
    forall f | f in FIELDS ensures Readable(f, Own(f) in m, Get(m, Own(f))) {}
    ReadThenPrint(m, Contract, keys);
    assert Dropped(Contract, m[Canonical(Contract)], m[Legacy(Contract)], keys) by {
      assert title in keys && title in m[Legacy(Contract)].fields;
    }
  }

  /** How the other fields of a payload are shown: as given, an empty mapping for nothing. */
  predicate FieldShown(f: Field, m: map<Key, Value>, v: Value) {
    if Own(f) !in m then v == Jsonable(ReadField(f, false, Null))
    else if IsMapping(f) && Falsy(m[Own(f)]) then v == Mapping(map[])
    else v == Jsonable(m[Own(f)])
  }

  /** Printing this state gives everything that the payload gives, and contradicts none of it. */
  ghost predicate Explains(s: LiveState, m: map<Key, Value>, keys: Projected)
    requires ValidState(s)
  {
    && (forall p | p in PAIRS :: PairShown(p, m, Printed(s, Canonical(p), keys)))
    && (forall f | f in FIELDS :: FieldShown(f, m, Printed(s, Own(f), keys)))
  }

  predicate PairShown(p: Pair, m: map<Key, Value>, v: Value) {
    v == Given(m, p) && Agree(v, Get(m, Legacy(p)))
  }

  /** A payload as json has it. */
  ghost predicate Plain(m: map<Key, Value>) {
    forall p | p in PAIRS :: Jsonable(Given(m, p)) == Given(m, p)
  }

  lemma {:induction false} ReadFieldShown(f: Field, m: map<Key, Value>)
    requires Readable(f, Own(f) in m, Get(m, Own(f)))
    ensures FieldShown(f, m, Jsonable(ReadField(f, Own(f) in m, Get(m, Own(f)))))
  {
    var v := Get(m, Own(f));
    if Own(f) in m && IsSequence(f) {
      assert Jsonable(Tuple(Elements(v))) == Jsonable(v);
    }
  }

  lemma {:induction false} ReadExplains(m: map<Key, Value>, keys: Projected)
    requires FromDict(m).Some? && Plain(m)
    ensures ValidState(FromDict(m).value) && Explains(FromDict(m).value, m, keys)
  {
    ReadIsValid(m);
    forall p | p in PAIRS ensures PairShown(p, m, Printed(FromDict(m).value, Canonical(p), keys)) {
      assert Merge(m, p).Some?;
    }
    forall f | f in FIELDS ensures FieldShown(f, m, Printed(FromDict(m).value, Own(f), keys)) {
      ReadFieldShown(f, m);
    }
  }

  lemma {:induction false} ExplainedIsRead(s: LiveState, m: map<Key, Value>, keys: Projected)
    requires ValidState(s) && Explains(s, m, keys)
    ensures FromDict(m).Some?
  {
    forall p | p in PAIRS ensures Merge(m, p).Some? && ValidPair(p, Merge(m, p).value) {
      assert PairShown(p, m, Jsonable(s.pairs[p])) && ValidPair(p, s.pairs[p]);
    }
    forall f | f in FIELDS ensures Readable(f, Own(f) in m, Get(m, Own(f))) {
      assert FieldShown(f, m, Jsonable(s.rest[f])) && ValidField(f, s.rest[f]);
    }
  }

  lemma {:induction false} ShownSame(p: Pair, v: Value, w: Value, keys: Projected)
    requires ValidPair(p, v) && ValidPair(p, w) && Jsonable(v) == Jsonable(w)
    ensures Jsonable(Shown(p, v, keys)) == Jsonable(Shown(p, w, keys))
  {
    ShownPrints(p, v, keys);
    ShownPrints(p, w, keys);
  }

  lemma {:induction false} ExplainedAlike(s: LiveState, u: LiveState, m: map<Key, Value>, k: Key, keys: Projected)
    requires ValidState(s) && ValidState(u) && Explains(s, m, keys) && Explains(u, m, keys)
    ensures Printed(s, k, keys) == Printed(u, k, keys)
  {
    match k
    case Canonical(p) =>
      assert PairShown(p, m, Printed(s, k, keys)) && PairShown(p, m, Printed(u, k, keys));
    case Legacy(p) =>
      assert PairShown(p, m, Printed(s, Canonical(p), keys)) && PairShown(p, m, Printed(u, Canonical(p), keys));
      ShownSame(p, s.pairs[p], u.pairs[p], keys);
    case Own(f) =>
      assert FieldShown(f, m, Printed(s, k, keys)) && FieldShown(f, m, Printed(u, k, keys));
    case _ =>
  }

  lemma {:induction false} ExplainedPrintsSame(s: LiveState, u: LiveState, m: map<Key, Value>, keys: Projected)
    requires ValidState(s) && ValidState(u) && Explains(s, m, keys) && Explains(u, m, keys)
    ensures ToDict(s, keys) == ToDict(u, keys)
  {
    forall k | k in KeysOf() ensures Printed(s, k, keys) == Printed(u, k, keys) {
      ExplainedAlike(s, u, m, k, keys);
    }
  }

  /** A payload is read exactly when some state explains it, and all states that do print alike.  So
      two given values that differ on a key they share are accepted by no state's printing. */
  lemma {:induction false} ReadExactly(m: map<Key, Value>, keys: Projected)
    requires Plain(m)
    ensures FromDict(m).Some? <==> exists s: LiveState :: ValidState(s) && Explains(s, m, keys)
    ensures forall s: LiveState | ValidState(s) && Explains(s, m, keys) ::
      && FromDict(m).Some? && ValidState(FromDict(m).value)
      && ToDict(s, keys) == ToDict(FromDict(m).value, keys)
  {
    if FromDict(m).Some? {
      ReadExplains(m, keys);
    }
    forall s: LiveState | ValidState(s) && Explains(s, m, keys)
      ensures FromDict(m).Some? && ValidState(FromDict(m).value)
      ensures ToDict(s, keys) == ToDict(FromDict(m).value, keys)
    {
      ExplainedIsRead(s, m, keys);
      ReadExplains(m, keys);
      ExplainedPrintsSame(s, FromDict(m).value, m, keys);
    }
  }

  // ---- operation snapshot ------------------------------------------------------------

  /** One operation's authoritative inputs around a single live state. */
  datatype Snapshot = Snapshot(operation: string, state: LiveState, checks: Value, warnings: seq<Value>,
                               profile: string, facts: seq<string>)

  predicate ValidSnapshot(x: Snapshot) { ValidState(x.state) && x.operation != "" }

  function Envelope(x: Snapshot): map<Key, Value> {
    map[SchemaVersion := Atom(1), Operation := Text(x.operation), RequiredChecks := Jsonable(x.checks),
        AcquisitionWarnings := Jsonable(Tuple(x.warnings)), FactProfile := Text(x.profile),
        AcquiredFacts := PrintedFacts(x.facts)]
  }

  /** The envelope repeats every canonical and legacy field of its state. */
  function SnapshotToDict(x: Snapshot, keys: Projected): map<Key, Value>
    requires ValidSnapshot(x)
  {
    (map k | k in KeysOf() && (k.Canonical? || k.Legacy?) :: Printed(x.state, k, keys))
    + Envelope(x) + map[State := Mapping(ToDict(x.state, keys))]
  }

  /** An envelope field that is there must agree with its legacy twin and with the state itself. */
  predicate EnvelopeAgrees(m: map<Key, Value>, s: LiveState, p: Pair)
    requires p in s.pairs
  {
    || (Canonical(p) !in m && Legacy(p) !in m)
    || (Merge(m, p).Some? && Coalesce(s.pairs[p], Merge(m, p).value).Some?)
  }

  predicate EnvelopeReadable(m: map<Key, Value>) {
    && Get(m, Operation).Text? && Get(m, Operation).s != ""
    && (AcquisitionWarnings in m ==> m[AcquisitionWarnings].List? || m[AcquisitionWarnings].Tuple?)
    && (AcquiredFacts in m ==> m[AcquiredFacts].List? || m[AcquiredFacts].Tuple?)
  }

  /** `show` is str(). */
  function SnapshotFromDict(m: map<Key, Value>, show: Value -> string): Option<Snapshot> {
    if !Get(m, State).Mapping? then None
    else
      var s := FromDict(m[State].fields);
      if s.None? || exists p | p in PAIRS :: !EnvelopeAgrees(m, s.value, p) then None
      else if !EnvelopeReadable(m) then None
      else
        Some(Snapshot(m[Operation].s, s.value, Get(m, RequiredChecks), Elements(Get(m, AcquisitionWarnings)),
                      if FactProfile in m then show(m[FactProfile]) else "diagnostic",
                      ShownFacts(Get(m, AcquiredFacts), show)))
  }

  lemma {:induction false} EnvelopeKeys(x: Snapshot, keys: Projected)
    requires ValidSnapshot(x)
    ensures var m := SnapshotToDict(x, keys);
      EnvelopeHeld(m, x) && State in m && m[State] == Mapping(ToDict(x.state, keys))
  {
    var m, e := SnapshotToDict(x, keys), Envelope(x);
    assert forall k | k in e :: k in m && m[k] == e[k];
  }

  /** The payload has the snapshot's own fields. */
  predicate EnvelopeHeld(m: map<Key, Value>, x: Snapshot) {
    && Get(m, Operation) == Text(x.operation) && Get(m, RequiredChecks) == Jsonable(x.checks)
    && AcquisitionWarnings in m && m[AcquisitionWarnings] == Jsonable(Tuple(x.warnings))
    && FactProfile in m && m[FactProfile] == Text(x.profile)
    && AcquiredFacts in m && m[AcquiredFacts] == PrintedFacts(x.facts)
  }

  lemma {:induction false} PairPrinted(x: Snapshot, k: Key, keys: Projected)
    requires ValidSnapshot(x) && (k.Canonical? || k.Legacy?)
    ensures Get(SnapshotToDict(x, keys), k) == Printed(x.state, k, keys)
  {
    assert k in KeysOf() && k !in Envelope(x) && k != State;
  }

  lemma {:induction false} PairInEnvelope(x: Snapshot, p: Pair, keys: Projected)
    requires ValidSnapshot(x)
    ensures EnvelopeAgrees(SnapshotToDict(x, keys), Neutral(x.state), p)
  {
    var v := Jsonable(x.state.pairs[p]);
    PairPrinted(x, Canonical(p), keys);
    PairPrinted(x, Legacy(p), keys);
    ShownAgrees(p, x.state.pairs[p], keys);
    assert Merge(SnapshotToDict(x, keys), p) == Some(v) && Neutral(x.state).pairs[p] == v;
  }

  /** The same snapshot with its values as json leaves them. */
  function NeutralSnapshot(x: Snapshot): Snapshot
    requires ValidSnapshot(x)
  {
    Snapshot(x.operation, Neutral(x.state), Jsonable(x.checks), Elements(Jsonable(Tuple(x.warnings))), x.profile,
             x.facts)
  }

  lemma {:induction false} EnvelopePrints(x: Snapshot)
    requires ValidSnapshot(x)
    ensures Envelope(NeutralSnapshot(x)) == Envelope(x)
  {
    JsonableTwice(x.checks);
    JsonableTwice(Tuple(x.warnings));
  }

  lemma {:induction false} EnvelopeReads(m: map<Key, Value>, x: Snapshot, show: Value -> string)
    requires ValidSnapshot(x) && forall s: string :: show(Text(s)) == s
    requires EnvelopeHeld(m, x)
    requires Get(m, State).Mapping? && FromDict(m[State].fields) == Some(Neutral(x.state))
    requires forall p | p in PAIRS :: EnvelopeAgrees(m, Neutral(x.state), p)
    ensures SnapshotFromDict(m, show) == Some(NeutralSnapshot(x))
  {
    FactsBack(x.facts, show);
  }

  function PrintedFacts(facts: seq<string>): Value {
    List(seq(|facts|, i requires 0 <= i < |facts| => Text(facts[i])))
  }

  function ShownFacts(v: Value, show: Value -> string): seq<string> {
    seq(|Elements(v)|, i requires 0 <= i < |Elements(v)| => show(Elements(v)[i]))
  }

  lemma {:induction false} FactsBack(facts: seq<string>, show: Value -> string)
    requires forall s: string :: show(Text(s)) == s
    ensures ShownFacts(PrintedFacts(facts), show) == facts
  {
  }

  lemma {:induction false} SnapshotReads(x: Snapshot, keys: Projected, show: Value -> string)
    requires ValidSnapshot(x) && forall s: string :: show(Text(s)) == s
    ensures SnapshotFromDict(SnapshotToDict(x, keys), show) == Some(NeutralSnapshot(x))
  {
    var m := SnapshotToDict(x, keys);
    EnvelopeKeys(x, keys);
    NeutralReads(x.state, keys);
    forall p | p in PAIRS ensures EnvelopeAgrees(m, Neutral(x.state), p) {
      PairInEnvelope(x, p, keys);
    }
    EnvelopeReads(m, x, show);
  }

  /** A serialised snapshot is read back without a conflict, and serialises to the same again. */
  lemma {:induction false} SnapshotRoundTrip(x: Snapshot, keys: Projected, show: Value -> string)
    requires ValidSnapshot(x) && forall s: string :: show(Text(s)) == s
    ensures var back := SnapshotFromDict(SnapshotToDict(x, keys), show);
      back.Some? && ValidSnapshot(back.value) && SnapshotToDict(back.value, keys) == SnapshotToDict(x, keys)
  {
    SnapshotReads(x, keys, show);
    NeutralPrints(x.state, keys);
    EnvelopePrints(x);
    SameDict(x, NeutralSnapshot(x), keys);
  }

  lemma {:induction false} SameDict(x: Snapshot, y: Snapshot, keys: Projected)
    requires ValidSnapshot(x) && ValidSnapshot(y) && Envelope(x) == Envelope(y)
    requires ToDict(x.state, keys) == ToDict(y.state, keys)
    ensures SnapshotToDict(x, keys) == SnapshotToDict(y, keys)
  {
  }

  // ---- what was read of a snapshot ---------------------------------------------------

  /** An envelope key where the legacy contract contradicts the state, out of sight because the
      canonical contract of the envelope lacks it. */
  predicate Masked(state: Value, canonical: Value, legacy: Value) {
    && state.Mapping? && canonical.Mapping? && legacy.Mapping?
    && exists k | k in legacy.fields ::
         k !in canonical.fields && k in state.fields && state.fields[k] != legacy.fields[k]
  }

  /** Three values taken together as the reader takes them: the second and third with each other, the
      one that counts of them with the first. */
  lemma {:induction false} MaskedExactly(state: Value, c: Value, l: Value)
    requires Agree(c, l) && Agree(state, if c.Null? then l else c)
    ensures Agree(state, c) && (Agree(state, l) <==> !Masked(state, c, l))
  {
  }

  lemma {:induction false} MaskedJson(state: Value, c: Value, l: Value)
    requires Agree(c, l) && Agree(state, if c.Null? then l else c)
    ensures Agree(Jsonable(state), Jsonable(c))
    ensures Agree(Jsonable(state), Jsonable(l)) <==> !Masked(Jsonable(state), Jsonable(c), Jsonable(l))
  {
    AgreeJson(c, l);
    AgreeJson(state, if c.Null? then l else c);
    MaskedExactly(Jsonable(state), Jsonable(c), Jsonable(l));
  }

  lemma {:induction false} EnvelopeAgreed(m: map<Key, Value>, p: Pair, show: Value -> string)
    requires SnapshotFromDict(m, show).Some?
    ensures ValidSnapshot(SnapshotFromDict(m, show).value)
    ensures Agree(Get(m, Canonical(p)), Get(m, Legacy(p)))
    ensures p in SnapshotFromDict(m, show).value.state.pairs
    ensures Agree(SnapshotFromDict(m, show).value.state.pairs[p], Given(m, p))
  {
    ReadIsValid(m[State].fields);
    assert p in PAIRS && EnvelopeAgrees(m, SnapshotFromDict(m, show).value.state, p);
  }

  /** A snapshot printed right after it was read contradicts no canonical value of the envelope, and a
      legacy one only where it was masked. */
  lemma {:induction false} SnapshotReadThenPrint(m: map<Key, Value>, p: Pair, keys: Projected, show: Value -> string)
    requires SnapshotFromDict(m, show).Some?
    ensures ValidSnapshot(SnapshotFromDict(m, show).value)
    ensures var d := SnapshotToDict(SnapshotFromDict(m, show).value, keys);
      var shown, canonical, legacy :=
        Get(d, Canonical(p)), Jsonable(Get(m, Canonical(p))), Jsonable(Get(m, Legacy(p)));
      Agree(shown, canonical) && (Agree(shown, legacy) <==> !Masked(shown, canonical, legacy))
  {
    var x := SnapshotFromDict(m, show).value;
    EnvelopeAgreed(m, p, show);
    PairPrinted(x, Canonical(p), keys);
    MaskedJson(x.state.pairs[p], Get(m, Canonical(p)), Get(m, Legacy(p)));
  }

  /** Printing this snapshot gives the fields of the envelope and a state that explains the enclosed
      one; its contract fields go with what the envelope gives for them. */
  ghost predicate SnapshotExplains(x: Snapshot, m: map<Key, Value>, keys: Projected, show: Value -> string)
    requires ValidSnapshot(x)
  {
    && Get(m, State).Mapping? && Explains(x.state, m[State].fields, keys)
    && (forall p | p in PAIRS :: EnvelopeFits(p, m, Printed(x.state, Canonical(p), keys)))
    && Get(m, Operation) == Text(x.operation) && Jsonable(x.checks) == Jsonable(Get(m, RequiredChecks))
    && Listed(m, AcquisitionWarnings) && x.warnings == Elements(Get(m, AcquisitionWarnings))
    && Listed(m, AcquiredFacts) && x.facts == ShownFacts(Get(m, AcquiredFacts), show)
    && x.profile == if FactProfile in m then show(m[FactProfile]) else "diagnostic"
  }

  predicate EnvelopeFits(p: Pair, m: map<Key, Value>, v: Value) {
    Agree(Get(m, Canonical(p)), Get(m, Legacy(p))) && Agree(v, Given(m, p))
  }

  predicate Listed(m: map<Key, Value>, k: Key) { k in m ==> m[k].List? || m[k].Tuple? }

  lemma {:induction false} StatePairs(s: LiveState, m: map<Key, Value>, keys: Projected)
    requires ValidState(s) && Plain(m) && FromDict(m).Some? && Explains(s, m, keys)
    ensures forall p | p in PAIRS :: FromDict(m).value.pairs[p] == Printed(s, Canonical(p), keys)
  {
    ReadIsValid(m);
    forall p | p in PAIRS ensures FromDict(m).value.pairs[p] == Printed(s, Canonical(p), keys) {
      assert PairShown(p, m, Printed(s, Canonical(p), keys));
    }
  }

  lemma {:induction false} ExplainedSnapshotIsRead(x: Snapshot, m: map<Key, Value>, keys: Projected,
                                                   show: Value -> string)
    requires ValidSnapshot(x) && SnapshotExplains(x, m, keys, show) && Plain(m[State].fields)
    ensures SnapshotFromDict(m, show).Some?
  {
    var inner := m[State].fields;
    ExplainedIsRead(x.state, inner, keys);
    StatePairs(x.state, inner, keys);
    forall p | p in PAIRS ensures EnvelopeAgrees(m, FromDict(inner).value, p) {
      assert EnvelopeFits(p, m, Printed(x.state, Canonical(p), keys));
    }
  }

  lemma {:induction false} ReadSnapshotExplains(m: map<Key, Value>, keys: Projected, show: Value -> string)
    requires SnapshotFromDict(m, show).Some? && Plain(m[State].fields)
    ensures ValidSnapshot(SnapshotFromDict(m, show).value)
    ensures SnapshotExplains(SnapshotFromDict(m, show).value, m, keys, show)
  {
    var x, inner := SnapshotFromDict(m, show).value, m[State].fields;
    ReadExplains(inner, keys);
    StatePairs(x.state, inner, keys);
    forall p | p in PAIRS ensures EnvelopeFits(p, m, Printed(x.state, Canonical(p), keys)) {
      assert EnvelopeAgrees(m, x.state, p);
    }
  }

  /** A snapshot is read exactly when some snapshot explains the payload. */
  lemma {:induction false} SnapshotReadExactly(m: map<Key, Value>, keys: Projected, show: Value -> string)
    requires Get(m, State).Mapping? ==> Plain(m[State].fields)
    ensures SnapshotFromDict(m, show).Some? <==>
      exists x: Snapshot :: ValidSnapshot(x) && SnapshotExplains(x, m, keys, show)
  {
    if SnapshotFromDict(m, show).Some? {
      ReadSnapshotExplains(m, keys, show);
    }
    forall x: Snapshot | ValidSnapshot(x) && SnapshotExplains(x, m, keys, show)
      ensures SnapshotFromDict(m, show).Some?
    {
      ExplainedSnapshotIsRead(x, m, keys, show);
    }
  }

  lemma {:induction false} OnlyNumberAndContract(contract: map<Key, Value>)
    ensures var inner := map[Canonical(Number) := Atom(1), Canonical(Contract) := Mapping(contract)];
      FromDict(inner).Some? && ValidState(FromDict(inner).value)
      && FromDict(inner).value.pairs == map p | p in PAIRS :: Given(inner, p)
  {
    var inner := map[Canonical(Number) := Atom(1), Canonical(Contract) := Mapping(contract)];
    forall p | p in PAIRS ensures Merge(inner, p).Some? && ValidPair(p, Merge(inner, p).value) {}
    forall f | f in FIELDS ensures Readable(f, Own(f) in inner, Get(inner, Own(f))) {}
    ReadIsValid(inner);
  }

  /** The title of the state is contradicted by the legacy contract only, and the canonical contract of
      the envelope is silent: accepted. */
  lemma {:induction false} MaskedAccepted(show: Value -> string) returns (m: map<Key, Value>)
    ensures SnapshotFromDict(m, show).Some? && ValidSnapshot(SnapshotFromDict(m, show).value)
    ensures Legacy(Contract) in m
    ensures !Agree(SnapshotFromDict(m, show).value.state.pairs[Contract], m[Legacy(Contract)])
  {
    var title := Other("title");
    var inner := map[Canonical(Number) := Atom(1), Canonical(Contract) := Mapping(map[title := Text("a")])];
    OnlyNumberAndContract(map[title := Text("a")]);
    m := map[State := Mapping(inner), Operation := Text("refresh"), Canonical(Contract) := Mapping(map[]),
             Legacy(Contract) := Mapping(map[title := Text("b")])];
    var s := FromDict(inner).value;
    assert s.pairs[Contract] == Mapping(map[title := Text("a")]);
    forall p | p in PAIRS ensures EnvelopeAgrees(m, s, p) {}
    assert title in s.pairs[Contract].fields && title in m[Legacy(Contract)].fields;
  }
}
