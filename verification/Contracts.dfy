/** Strict codecs of the Review contracts: one description of their shapes, and the proof that
    parsing and printing are inverse to each other on all of them. */
module Contracts {
  import opened Wrappers
  import opened Text
  import opened Json

  /** A parsed contract value. */
  datatype Value =
    | Absent
    | Number(n: int)
    | Text(s: string)
    | Config(frozen: Frozen)
    | Tuple(elements: seq<Value>)
    | Reasons(reasons: map<Key, string>)
    | Instance(name: string, fields: map<Key, Value>)

  /** How one JSON value has to look. */
  datatype Shape =
    | AnyText
    | Sha(length: nat)
    | Positive
    | NonNegative
    | Nullable(inner: Shape)
    | OneOf(names: set<string>)
    | JsonObject
    | Sequence(item: Shape, accepted: seq<Value> -> bool)
    | Skips(allowed: set<Key>)
    | Record(name: string, fields: map<Key, Shape>, consistent: map<Key, Value> -> bool)

  /** Records do not redeclare the tag fields, and null stays what it is. */
  predicate WellFormed(d: Shape) {
    match d
    case Nullable(inner) => WellFormed(inner) && !inner.Nullable?
    case Sequence(item, _) => WellFormed(item)
    case Record(_, fields, _) =>
      kind !in fields && schema_version !in fields && forall k | k in fields :: WellFormed(fields[k])
    case _ => true
  }

  predicate IsText(s: string) { Strip(s) != "" }

  predicate IsSha(s: string, length: nat) {
    IsText(s) && |s| == length && forall c | c in s :: '0' <= c <= '9' || 'a' <= c <= 'f'
  }

  /** No two of these agree on `id`. */
  predicate DistinctBy(xs: seq<Value>, id: Value -> Value) {
    forall i, j | 0 <= i < j < |xs| :: id(xs[i]) != id(xs[j])
  }

  /** The duplicate check behind it: append each value unless it is already there. */
  method Deduplicate(values: seq<Value>) returns (r: Option<seq<Value>>)
    ensures r == if DistinctBy(values, v => v) then Some(values) else None
  {
    var result: seq<Value> := [];
    for i := 0 to |values|
      invariant result == values[..i] && DistinctBy(result, v => v)
    {
      if values[i] in result {
        var k :| 0 <= k < |result| && result[k] == values[i];
        assert values[k] == values[i];
        return None;
      }
      result := result + [values[i]];
    }
    assert values[..|values|] == values;
    return Some(result);
  }

  // ---- values of a shape -----------------------------------------------------------

  /** What the constructors accept. */
  predicate Valid(d: Shape, v: Value) {
    match d
    case AnyText => v.Text? && IsText(v.s)
    case Sha(length) => v.Text? && IsSha(v.s, length)
    case Positive => v.Number? && v.n > 0
    case NonNegative => v.Number? && v.n >= 0
    case Nullable(inner) => v.Absent? || (Valid(inner, v) && !v.Absent?)
    case OneOf(names) => v.Text? && v.s in names
    case JsonObject => v.Config? && v.frozen.Proxy? && ValidFrozen(v.frozen)
    case Sequence(item, accepted) =>
      && v.Tuple? && accepted(v.elements)
      && forall i | 0 <= i < |v.elements| :: Valid(item, v.elements[i])
    case Skips(allowed) => v.Reasons? && forall k | k in v.reasons :: k in allowed && IsText(v.reasons[k])
    case Record(name, fields, consistent) =>
      && v.Instance? && v.name == name && v.fields.Keys == fields.Keys
      && (forall k | k in fields :: k in v.fields && Valid(fields[k], v.fields[k])) && consistent(v.fields)
  }

  function PrintValue(v: Value): Json {
    match v
    case Absent => Null
    case Number(n) => Int(n)
    case Text(s) => Str(s)
    case Config(frozen) => Thaw(frozen)
    case Tuple(elements) => Arr(seq(|elements|, i requires 0 <= i < |elements| => PrintValue(elements[i])))
    case Reasons(reasons) => Obj(map k | k in reasons :: Str(reasons[k]))
    case Instance(name, fields) =>
      Obj((map k | k in fields :: PrintValue(fields[k]))[kind := Str(name)][schema_version := Str(name + ".v1")])
  }

  // ---- the strict parser -----------------------------------------------------------

  function Parse(d: Shape, j: Json): Option<Value> {
    match d
    case AnyText => if j.Str? && IsText(j.s) then Some(Text(j.s)) else None
    case Sha(length) => if j.Str? && IsSha(j.s, length) then Some(Text(j.s)) else None
    case Positive => if j.Int? && j.i > 0 then Some(Number(j.i)) else None
    case NonNegative => if j.Int? && j.i >= 0 then Some(Number(j.i)) else None
    case Nullable(inner) => if j.Null? then Some(Absent) else Parse(inner, j)
    case OneOf(names) => if j.Str? && j.s in names then Some(Text(j.s)) else None
    case JsonObject => if j.Obj? && Finite(j) then Some(Config(Freeze(j))) else None
    case Sequence(item, accepted) =>
      if !j.Arr? || !(forall i | 0 <= i < |j.items| :: Parse(item, j.items[i]).Some?) then None
      else
        var vs := seq(|j.items|, i requires 0 <= i < |j.items| => Parse(item, j.items[i]).value);
        if accepted(vs) then Some(Tuple(vs)) else None
    case Skips(allowed) =>
      if j.Obj? && forall k | k in j.fields :: k in allowed && j.fields[k].Str? && IsText(j.fields[k].s)
      then Some(Reasons(map k | k in j.fields :: j.fields[k].s)) else None
    case Record(name, fields, consistent) =>
      if !Tagged(j, name, fields.Keys)
         || !(forall k | k in fields :: k in j.fields && Parse(fields[k], j.fields[k]).Some?) then None
      else
        var vs := map k | k in fields :: Parse(fields[k], j.fields[k]).value;
        if consistent(vs) then Some(Instance(name, vs)) else None
  }

  /** Exactly these fields besides the tag, and the right tag. */
  predicate Tagged(j: Json, name: string, names: set<Key>) {
    && j.Obj? && j.fields.Keys == names + {kind, schema_version}
    && j.fields[kind] == Str(name) && j.fields[schema_version] == Str(name + ".v1")
  }

  // ---- parsing and printing are inverse --------------------------------------------

  lemma {:induction false} PrintNotNull(d: Shape, v: Value)
    requires Valid(d, v) && !v.Absent?
    ensures !PrintValue(v).Null?
  {
    match d
    case Nullable(inner) => PrintNotNull(inner, v);
    case JsonObject => assert Thaw(v.frozen).Obj?;
    case _ =>
  }

  lemma {:induction false} SequenceBack(d: Shape, v: Value)
    requires d.Sequence? && Valid(d, v)
    requires forall i | 0 <= i < |v.elements| :: Parse(d.item, PrintValue(v.elements[i])) == Some(v.elements[i])
    ensures Parse(d, PrintValue(v)) == Some(v)
  {
    var items := PrintValue(v).items;
    assert forall i | 0 <= i < |items| :: Parse(d.item, items[i]) == Some(v.elements[i]);
    assert seq(|items|, i requires 0 <= i < |items| => Parse(d.item, items[i]).value) == v.elements;
  }

  lemma {:induction false} PrintTagged(v: Value)
    requires v.Instance? && kind !in v.fields && schema_version !in v.fields
    ensures Tagged(PrintValue(v), v.name, v.fields.Keys)
    ensures forall k | k in v.fields :: k in PrintValue(v).fields && PrintValue(v).fields[k] == PrintValue(v.fields[k])
  {
  }

  lemma {:induction false} RecordBack(d: Shape, v: Value)
    requires d.Record? && WellFormed(d) && Valid(d, v)
    requires forall k | k in d.fields :: Parse(d.fields[k], PrintValue(v.fields[k])) == Some(v.fields[k])
    ensures Parse(d, PrintValue(v)) == Some(v)
  {
    PrintTagged(v);
    ReadBack(d, PrintValue(v), v);
  }

  lemma {:induction false} ReadBack(d: Shape, j: Json, v: Value)
    requires d.Record? && Valid(d, v) && Tagged(j, d.name, d.fields.Keys)
    requires forall k | k in d.fields :: k in j.fields && Parse(d.fields[k], j.fields[k]) == Some(v.fields[k])
    ensures Parse(d, j) == Some(v)
  {
    var vs := map k | k in d.fields :: Parse(d.fields[k], j.fields[k]).value;
    assert vs == v.fields;
  }

  /** Printing a valid value and parsing it gives the value back. */
  lemma {:induction false} ParsePrint(d: Shape, v: Value)
    requires WellFormed(d) && Valid(d, v)
    ensures Parse(d, PrintValue(v)) == Some(v)
  {
    match d
    case Nullable(inner) =>
      if !v.Absent? {
        ParsePrint(inner, v);
        PrintNotNull(inner, v);
      }
    case JsonObject =>
      FreezeThaw(v.frozen);
      ThawFreeze(Thaw(v.frozen));
    case Sequence(item, _) =>
      forall i | 0 <= i < |v.elements| ensures Parse(item, PrintValue(v.elements[i])) == Some(v.elements[i]) {
        ParsePrint(item, v.elements[i]);
      }
      SequenceBack(d, v);
    case Skips(allowed) =>
      assert (map k | k in PrintValue(v).fields :: PrintValue(v).fields[k].s) == v.reasons;
    case Record(_, fields, _) =>
      forall k | k in fields ensures Parse(fields[k], PrintValue(v.fields[k])) == Some(v.fields[k]) {
        ParsePrint(fields[k], v.fields[k]);
      }
      RecordBack(d, v);
    case _ =>
  }

  /** Whatever is accepted is valid, and is exactly what its value prints as. */
  lemma {:induction false} PrintParse(d: Shape, j: Json)
    requires WellFormed(d) && Parse(d, j).Some?
    ensures Valid(d, Parse(d, j).value) && PrintValue(Parse(d, j).value) == j
  {
    var v := Parse(d, j).value;
    match d
    case Nullable(inner) =>
      if !j.Null? {
        PrintParse(inner, j);
      }
    case JsonObject =>
      ThawFreeze(j);
    case Sequence(item, _) =>
      forall i | 0 <= i < |j.items| ensures Valid(item, v.elements[i]) && PrintValue(v.elements[i]) == j.items[i] {
        PrintParse(item, j.items[i]);
      }
      assert PrintValue(v).items == j.items;
    case Skips(allowed) =>
      assert PrintValue(v).fields == j.fields;
    case Record(name, fields, consistent) =>
      forall k | k in fields ensures Valid(fields[k], v.fields[k]) && PrintValue(v.fields[k]) == j.fields[k] {
        PrintParse(fields[k], j.fields[k]);
      }
      assert PrintValue(v).fields == j.fields;
    case _ =>
  }
}
