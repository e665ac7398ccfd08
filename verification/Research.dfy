/** Research outcomes: the artifact binding, the accepted Review record, and the completion effect
    that carries the outcome of exactly the reviewed artifact. */
module Research {
  import opened Wrappers

  /** The identity fields that an artifact binding shares with the Review identity. */
  datatype Ids = Ids(task: nat, pr: nat, base: nat, head: nat, body: nat, mergeBase: nat, diff: nat)

  datatype Digest = Digest(path: string, sha: nat)

  /** An artifact binding; `outcome` is the raw stored value. */
  datatype Binding = Binding(ours: bool, outcome: Option<string>, typed: bool, ids: Ids,
                             files: seq<string>, digests: seq<Digest>, hash: nat)

  /** The Review evidence; `valid` stands for kind, schema version and the policy's own validation. */
  datatype Evidence = Evidence(valid: bool, passed: bool, artifact: Option<Binding>)

  datatype Record = Record(passed: bool, ids: Ids, changed: seq<string>, identityArtifact: Option<Binding>,
                           artifact: Option<Binding>, outcome: Option<string>, evidence: Option<Evidence>)

  /** How outcomes are parsed, paths allowed, artifacts read and digests hashed. */
  datatype Policy = Policy(parse: string -> Option<string>, allowed: string -> bool, clean: string -> string,
                           read: string -> nat, hash: seq<Digest> -> nat)

  const ARTIFACT_PREFIX := "docs/research/"

  /** Parsed outcomes are canonical, cleaning a path twice changes nothing more, and only paths
      under the research directory are ever allowed. */
  ghost predicate Sane(p: Policy) {
    && (forall s: string :: p.parse(s).Some? ==> p.parse(p.parse(s).value) == p.parse(s))
    && (forall s: string :: p.clean(p.clean(s)) == p.clean(s))
    && (forall s: string :: p.allowed(s) ==> ARTIFACT_PREFIX <= s)
  }

  // ---- sorted file lists -----------------------------------------------------------

  /** Lexicographic order by code point. */
  predicate Less(a: string, b: string) {
    if b == "" then false else if a == "" then true
    else a[0] < b[0] || (a[0] == b[0] && Less(a[1..], b[1..]))
  }

  lemma {:induction false} LessTotal(a: string, b: string)
    ensures a == b || Less(a, b) || Less(b, a)
    ensures !(Less(a, b) && Less(b, a)) && (a == b ==> !Less(a, b))
  {
    if a != "" && b != "" && a[0] == b[0] {
      LessTotal(a[1..], b[1..]);
      assert a == [a[0]] + a[1..] && b == [b[0]] + b[1..];
    }
  }

  lemma {:induction false} LessTransitive(a: string, b: string, c: string)
    requires Less(a, b) && Less(b, c)
    ensures Less(a, c)
  {
    if a != "" && a[0] == b[0] && b[0] == c[0] {
      LessTransitive(a[1..], b[1..], c[1..]);
    }
  }

  predicate Sorted(xs: seq<string>) { forall i, j | 0 <= i < j < |xs| :: Less(xs[i], xs[j]) }

  function Insert(x: string, xs: seq<string>): seq<string> {
    if xs == [] then [x]
    else if x == xs[0] then xs
    else if Less(x, xs[0]) then [x] + xs
    else [xs[0]] + Insert(x, xs[1..])
  }

  /** Python's sorted({path.strip() for path in changed if path.strip()}). */
  function Normalized(changed: seq<string>, p: Policy): seq<string> {
    if changed == [] then []
    else
      var rest, x := Normalized(changed[1..], p), p.clean(changed[0]);
      if x == "" then rest else Insert(x, rest)
  }

  lemma {:induction false} InsertSorted(x: string, xs: seq<string>)
    requires Sorted(xs)
    ensures Sorted(Insert(x, xs)) && forall y | y in Insert(x, xs) :: y == x || y in xs
  {
    if xs != [] && x != xs[0] {
      LessTotal(x, xs[0]);
      if Less(x, xs[0]) {
        forall j | 0 < j < |xs| ensures Less(x, xs[j]) {
          LessTransitive(x, xs[0], xs[j]);
        }
      } else {
        InsertSorted(x, xs[1..]);
        var tail := Insert(x, xs[1..]);
        forall j | 0 <= j < |tail| ensures Less(xs[0], tail[j]) {
          assert tail[j] in tail;
        }
      }
    }
  }

  lemma {:induction false} NormalizedSorted(changed: seq<string>, p: Policy)
    ensures Sorted(Normalized(changed, p))
    ensures Sane(p) ==> forall f | f in Normalized(changed, p) :: f != "" && p.clean(f) == f
  {
    if changed != [] {
      NormalizedSorted(changed[1..], p);
      InsertSorted(p.clean(changed[0]), Normalized(changed[1..], p));
    }
  }

  /** A list that is its own normal form: sorted, distinct, clean, no empty path. */
  predicate Canonical(changed: seq<string>, p: Policy) {
    Sorted(changed) && forall i | 0 <= i < |changed| :: changed[i] != "" && p.clean(changed[i]) == changed[i]
  }

  lemma {:induction false} CanonicalExactly(changed: seq<string>, p: Policy)
    requires Sane(p)
    ensures Normalized(changed, p) == changed <==> Canonical(changed, p)
  {
    NormalizedSorted(changed, p);
    if Normalized(changed, p) == changed {
      forall i | 0 <= i < |changed| ensures changed[i] != "" && p.clean(changed[i]) == changed[i] {
        assert changed[i] in changed;
      }
    }
    if Canonical(changed, p) && changed != [] {
      CanonicalExactly(changed[1..], p);
      if |changed| > 1 {
        LessTotal(changed[0], changed[1]);
      }
    }
  }

  // ---- bindings --------------------------------------------------------------------

  /** Digests of these files, as they are at the reviewed head. */
  function DigestsOf(files: seq<string>, p: Policy): seq<Digest> {
    seq(|files|, i requires 0 <= i < |files| => Digest(files[i], p.read(files[i])))
  }

  /** `declared` is the one outcome the artifacts themselves declare, if any. */
  function ArtifactBinding(ids: Ids, changed: seq<string>, declared: Option<string>, p: Policy): Option<Binding> {
    var files := Normalized(changed, p);
    if files == [] || exists i | 0 <= i < |files| :: !p.allowed(files[i]) then None
    else if declared.Some? && p.parse(declared.value).None? then None
    else
      var outcome := if declared.Some? then p.parse(declared.value) else None;
      Some(Binding(true, outcome, outcome.Some?, ids, files, DigestsOf(files, p), p.hash(DigestsOf(files, p))))
  }

  function BindOutcome(b: Binding, outcome: string, p: Policy): Option<Binding> {
    var selected := p.parse(outcome);
    if selected.None? then None
    else if b.outcome.Some? && p.parse(b.outcome.value) != selected then None
    else Some(b.(outcome := selected, typed := true))
  }

  /** What a Research PASS leaves in the Review record; `stated` is the reviewer's outcome. */
  function PassRecord(ids: Ids, changed: seq<string>, declared: Option<string>, stated: Option<string>,
                      p: Policy): Option<Record> {
    var built := ArtifactBinding(ids, changed, declared, p);
    if built.None? then None
    else
      var bound := if stated.Some? then BindOutcome(built.value, stated.value, p) else built;
      if bound.None? || bound.value.outcome.None? || p.parse(bound.value.outcome.value).None? then None
      else Some(Record(true, ids, changed, bound, bound, bound.value.outcome, Some(Evidence(true, true, bound))))
  }

  /** A PASS is recorded exactly for a list of allowed files with an outcome, declared by the artifacts or
      stated by the reviewer; both have to be known outcomes, and the same if both are given. */
  lemma {:induction false} PassRecordExactly(ids: Ids, changed: seq<string>, declared: Option<string>,
                                             stated: Option<string>, p: Policy)
    requires Sane(p)
    ensures var files, r := Normalized(changed, p), PassRecord(ids, changed, declared, stated, p);
      && (r.Some? <==>
            && files != [] && (forall f | f in files :: p.allowed(f)) && (declared.Some? || stated.Some?)
            && (declared.Some? ==> p.parse(declared.value).Some?) && (stated.Some? ==> p.parse(stated.value).Some?)
            && (declared.Some? && stated.Some? ==> p.parse(declared.value) == p.parse(stated.value)))
      && (r.Some? ==>
            && r.value.passed && r.value.ids == ids && r.value.changed == changed && r.value.artifact.Some?
            && r.value.outcome == p.parse(if declared.Some? then declared.value else stated.value)
            && r.value.artifact.value.ids == ids && r.value.artifact.value.files == files
            && r.value.artifact.value.outcome == r.value.outcome && r.value.artifact.value.typed)
  {
    var files := Normalized(changed, p);
    if forall f | f in files :: p.allowed(f) {
      assert !exists i | 0 <= i < |files| :: !p.allowed(files[i]);
    }
  }

  // ---- accepted records ------------------------------------------------------------

  /** Digests in file order, hashed, under the research directory, and exactly the changed files. */
  predicate DigestsBound(b: Binding, changed: seq<string>, p: Policy) {
    && b.files != [] && b.files == changed && |b.digests| == |b.files| && b.hash == p.hash(b.digests)
    && forall i | 0 <= i < |b.files| :: ARTIFACT_PREFIX <= b.files[i] && b.digests[i].path == b.files[i]
  }

  predicate SameButOutcome(a: Binding, b: Binding) { a.(outcome := b.outcome, typed := b.typed) == b }

  /** A typed PASS is taken as it is; the old defect, pending in the record but typed in the
      evidence, is repaired in a copy. */
  function Accepted(r: Record, p: Policy): Option<Record> {
    if !r.passed || r.identityArtifact.None? || r.artifact.None? || r.evidence.None?
       || !r.evidence.value.valid || !r.evidence.value.passed || r.evidence.value.artifact.None? then None
    else
      var original, shown := r.identityArtifact.value, r.evidence.value.artifact.value;
      if r.artifact.value != original then None
      else if shown.outcome.None? || p.parse(shown.outcome.value) != shown.outcome || !shown.typed || !shown.ours
      then None
      else if !DigestsBound(shown, r.changed, p) || shown.ids != r.ids then None
      else if original == shown then (if r.outcome == shown.outcome then Some(r) else None)
      else if original.outcome.Some? || original.typed || r.outcome.Some? || !SameButOutcome(original, shown) then None
      else Some(r.(identityArtifact := Some(shown), artifact := Some(shown), outcome := shown.outcome))
  }

  /** Whatever is accepted is a PASS whose valid evidence shows our artifact with a typed, canonical outcome
      on the reviewed task, PR, base, head, body, merge base and diff; its files are exactly the changed
      ones, under the research directory, each with its digest, and the digests hash to what is bound. */
  lemma {:induction false} AcceptedSays(r: Record, p: Policy)
    requires Accepted(r, p).Some?
    ensures r.passed && r.evidence.Some? && r.evidence.value.valid && r.evidence.value.passed
    ensures r.evidence.value.artifact.Some? && var b := r.evidence.value.artifact.value;
      && b.ours && b.typed && b.outcome.Some? && p.parse(b.outcome.value) == b.outcome
      && b.ids.task == r.ids.task && b.ids.pr == r.ids.pr && b.ids.base == r.ids.base && b.ids.head == r.ids.head
      && b.ids.body == r.ids.body && b.ids.mergeBase == r.ids.mergeBase && b.ids.diff == r.ids.diff
      && b.files == r.changed != [] && |b.digests| == |b.files| && b.hash == p.hash(b.digests)
      && (forall i | 0 <= i < |b.files| :: "docs/research/" <= b.files[i] && b.digests[i].path == b.files[i])
    // The record agrees with it, or has no outcome yet and agrees in everything else.
    ensures var b := r.evidence.value.artifact.value;
      && r.artifact.Some? && r.artifact == r.identityArtifact
      && (r.artifact == Some(b) ==> r.outcome == b.outcome)
      && (r.artifact != Some(b) ==>
            && r.outcome == None && r.artifact.value.outcome == None && !r.artifact.value.typed
            && r.artifact.value.(outcome := b.outcome, typed := true) == b)
  {
  }

  /** The old defect: a PASS whose record has no outcome yet, while its evidence has one.  It is accepted
      with the outcome of the evidence. */
  lemma {:induction false} PendingRepaired(r: Record, p: Policy)
    requires Accepted(r, p) == Some(r) && r.artifact.value.outcome.Some?
    ensures var pending := Some(r.artifact.value.(outcome := None, typed := false));
      Accepted(r.(identityArtifact := pending, artifact := pending, outcome := None), p) == Some(r)
  {
    var pending := r.artifact.value.(outcome := None, typed := false);
    assert pending.(outcome := r.artifact.value.outcome, typed := true) == r.artifact.value;
  }

  /** Resolving a resolved record changes nothing more. */
  lemma {:induction false} AcceptedTwice(r: Record, p: Policy)
    requires Accepted(r, p).Some?
    ensures Accepted(Accepted(r, p).value, p) == Accepted(r, p)
  {
  }

  /** Only outcome and outcome status may differ from the stored record, and they are the evidence's. */
  lemma {:induction false} OnlyOutcomeChanges(r: Record, p: Policy)
    requires Accepted(r, p).Some?
    ensures var a := Accepted(r, p).value;
      && a == r.(identityArtifact := a.identityArtifact, artifact := a.artifact, outcome := a.outcome)
      && a.identityArtifact == a.artifact == r.evidence.value.artifact && a.outcome == a.artifact.value.outcome
      && SameButOutcome(r.artifact.value, a.artifact.value)
      && SameButOutcome(r.identityArtifact.value, a.artifact.value)
  {
  }

  /** The record of a PASS is accepted as written exactly when its changed files were listed sorted,
      distinct and clean; otherwise it is not accepted at all. */
  lemma {:induction false} PassRecordAccepted(ids: Ids, changed: seq<string>, declared: Option<string>,
                                              stated: Option<string>, p: Policy)
    requires Sane(p) && PassRecord(ids, changed, declared, stated, p).Some?
    ensures var r := PassRecord(ids, changed, declared, stated, p).value;
      Accepted(r, p) == if Canonical(changed, p) then Some(r) else None
  {
    CanonicalExactly(changed, p);
    var r := PassRecord(ids, changed, declared, stated, p).value;
    var files := Normalized(changed, p);
    assert r.artifact.value.files == files && r.artifact.value.typed;
    if stated.Some? {
      assert r.outcome == p.parse(stated.value);
    } else {
      assert r.outcome == p.parse(declared.value);
    }
    assert p.parse(r.outcome.value) == r.outcome;
    assert DigestsBound(r.artifact.value, files, p);
  }

  /** A common prefix does not matter to the order. */
  lemma {:induction false} LessAfter(prefix: string, a: string, b: string)
    requires Less(a, b)
    ensures Less(prefix + a, prefix + b)
  {
    if prefix == "" {
      assert prefix + a == a && prefix + b == b;
    } else {
      LessAfter(prefix[1..], a, b);
      assert (prefix + a)[1..] == prefix[1..] + a && (prefix + b)[1..] == prefix[1..] + b;
    }
  }

  lemma {:induction false} TwoSwapped(x: string, y: string, p: Policy)
    requires x != "" && y != "" && p.clean(x) == x && p.clean(y) == y && Less(y, x)
    ensures Normalized([x, y], p) == [y, x] && !Canonical([x, y], p)
  {
    LessTotal(x, y);
    assert [x, y][1..] == [y] && [y][1..] == [];
    assert Normalized([], p) == [] && Insert(y, []) == [y] && Normalized([y], p) == [y];
    assert Insert(x, []) == [x] && Insert(x, [y]) == [y, x];
    assert [x, y][0] == x && [x, y][1] == y;
  }

  /** A PASS on two files out of order is recorded, and its record is not accepted. */
  lemma {:induction false} SwappedRefused(ids: Ids, x: string, y: string, outcome: string, p: Policy)
    requires Sane(p) && p.allowed(x) && p.allowed(y) && p.clean(x) == x && p.clean(y) == y && Less(y, x)
    requires p.parse(outcome).Some?
    ensures PassRecord(ids, [x, y], Some(outcome), None, p).Some?
    ensures Accepted(PassRecord(ids, [x, y], Some(outcome), None, p).value, p).None?
  {
    TwoSwapped(x, y, p);
    PassRecordAccepted(ids, [x, y], Some(outcome), None, p);
  }

  /** Two artifacts of a PASS, listed out of order. */
  lemma {:induction false} UnsortedPassRefused() returns (ids: Ids, changed: seq<string>, p: Policy)
    ensures Sane(p) && |changed| == 2 && PassRecord(ids, changed, Some("Proceed"), None, p).Some?
    ensures Accepted(PassRecord(ids, changed, Some("Proceed"), None, p).value, p).None?
  {
    ids := Ids(1, 2, 3, 4, 5, 6, 7);
    p := Policy(s => Some(s), s => ARTIFACT_PREFIX <= s, s => s, s => 0, ds => |ds|);
    var x, y := ARTIFACT_PREFIX + "b.md", ARTIFACT_PREFIX + "a.md";
    LessAfter(ARTIFACT_PREFIX, "a.md", "b.md");
    changed := [x, y];
    SwappedRefused(ids, x, y, "Proceed", p);
  }

  // ---- completion ------------------------------------------------------------------

  /** The merged PR with the current Task body. */
  datatype MergedPr = MergedPr(task: nat, pr: nat, base: nat, head: nat, body: nat)

  predicate BoundTo(ids: Ids, m: MergedPr) {
    ids.task == m.task && ids.pr == m.pr && ids.base == m.base && ids.head == m.head && ids.body == m.body
  }

  /** The value the completion effect writes to the Research Outcome field. */
  function CompletionOutcome(r: Record, m: MergedPr, p: Policy): Option<string> {
    var artifact := if r.artifact.Some? then r.artifact else r.identityArtifact;
    if artifact.None? || r.identityArtifact.None? then None
    else
      var b := artifact.value;
      if !BoundTo(r.ids, m) || !BoundTo(b.ids, m) || b.ids.mergeBase != r.ids.mergeBase || b.ids.diff != r.ids.diff
      then None
      else if r.identityArtifact.value != b || b.outcome.None? then None
      else p.parse(b.outcome.value)
  }

  /** There is something to write only when record, artifact and merged PR are about one Task, PR, base, head
      and body, and the identity of the record has that very artifact. */
  lemma {:induction false} CompletionNeeds(r: Record, m: MergedPr, p: Policy)
    requires CompletionOutcome(r, m, p).Some?
    ensures r.identityArtifact.Some? && (r.artifact.Some? ==> r.artifact == r.identityArtifact)
    ensures var b := r.identityArtifact.value;
      && b.outcome.Some? && CompletionOutcome(r, m, p) == p.parse(b.outcome.value)
      && m.task == r.ids.task == b.ids.task && m.pr == r.ids.pr == b.ids.pr && m.base == r.ids.base == b.ids.base
      && m.head == r.ids.head == b.ids.head && m.body == r.ids.body == b.ids.body
      && b.ids.mergeBase == r.ids.mergeBase && b.ids.diff == r.ids.diff
  {
  }

  /** Closeout writes exactly the typed outcome of the artifact that was reviewed, whose identity is
      the merged head, base and body; there is nothing to write for any other merge. */
  lemma {:induction false} CompletionBound(stored: Record, m: MergedPr, p: Policy)
    requires Accepted(stored, p).Some?
    ensures var r := Accepted(stored, p).value;
      var reviewed := stored.evidence.value.artifact.value;
      var merged := m.task == r.ids.task && m.pr == r.ids.pr && m.base == r.ids.base && m.head == r.ids.head
                    && m.body == r.ids.body;
      && r.ids == stored.ids == reviewed.ids
      && CompletionOutcome(r, m, p) == if merged then reviewed.outcome else None
  {
  }
}
