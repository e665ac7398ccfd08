/** The Review contracts as shapes, and when a Review run is complete. */
module ReviewModels {
  import opened Wrappers
  import opened Json
  import opened Contracts

  // ---- completeness ----------------------------------------------------------------

  datatype Obligation = Obligation(id: string, surfaces: seq<string>)
  datatype Verdict = Verdict(id: string, status: string)
  datatype Plan = Plan(required: seq<string>, covered: seq<string>, skipped: set<string>)

  /** What completeness depends on. */
  datatype Assurance = Assurance(plan: Plan, obligations: seq<Obligation>, results: seq<Verdict>)

  predicate ValidPlan(p: Plan) {
    && (forall s | s in ALWAYS_ON :: s in p.required)
    && (forall s | s in p.covered :: s !in p.skipped)
  }

  /** The constructor's checks: unique ids, and results only for declared obligations. */
  predicate ValidAssurance(a: Assurance) {
    && ValidPlan(a.plan)
    && (forall i, j | 0 <= i < j < |a.obligations| :: a.obligations[i].id != a.obligations[j].id)
    && (forall i, j | 0 <= i < j < |a.results| :: a.results[i].id != a.results[j].id)
    && (forall i | 0 <= i < |a.results| :: Declared(a.obligations, a.results[i].id))
  }

  predicate Declared(obligations: seq<Obligation>, id: string) {
    exists j | 0 <= j < |obligations| :: obligations[j].id == id
  }

  function ById(results: seq<Verdict>): map<string, Verdict> {
    if results == [] then map[]
    else
      var last := results[|results| - 1];
      ById(results[..|results| - 1])[last.id := last]
  }

  predicate CoverageComplete(p: Plan) { forall s | s in p.required :: s in p.covered }

  predicate Passing(status: string) { status == "pass" || status == "not_applicable" }

  /** The last test looks results up by obligation id; the counts before it make that safe. */
  predicate ReviewComplete(a: Assurance)
    requires ValidAssurance(a)
  {
    var byId := ById(a.results);
    if !CoverageComplete(a.plan) || |byId| != |a.obligations| then false
    else if exists i | 0 <= i < |a.obligations| ::
              exists s | s in a.obligations[i].surfaces :: s !in a.plan.required || s !in a.plan.covered
    then false
    else
      EveryIdFound(a);
      forall i | 0 <= i < |a.obligations| :: Passing(byId[a.obligations[i].id].status)
  }

  predicate HasResult(results: seq<Verdict>, id: string) {
    exists k | 0 <= k < |results| :: results[k].id == id
  }

  lemma {:induction false} ByIdKeys(results: seq<Verdict>, id: string)
    ensures id in ById(results) <==> HasResult(results, id)
  {
    if results != [] {
      var n := |results| - 1;
      ByIdKeys(results[..n], id);
      if HasResult(results, id) && results[n].id != id {
        var k :| 0 <= k < |results| && results[k].id == id;
        assert results[..n][k].id == id;
      }
    }
  }

  lemma {:induction false} ByIdFinds(results: seq<Verdict>, k: nat)
    requires forall i, j | 0 <= i < j < |results| :: results[i].id != results[j].id
    requires k < |results|
    ensures results[k].id in ById(results) && ById(results)[results[k].id] == results[k]
  {
    var n := |results| - 1;
    if k < n {
      ByIdFinds(results[..n], k);
    }
  }

  lemma {:induction false} ByIdSize(results: seq<Verdict>)
    requires forall i, j | 0 <= i < j < |results| :: results[i].id != results[j].id
    ensures |ById(results)| == |results|
  {
    if results != [] {
      var n := |results| - 1;
      ByIdSize(results[..n]);
      ByIdKeys(results[..n], results[n].id);
    }
  }

  function IdsOf(obligations: seq<Obligation>): set<string> {
    set i | 0 <= i < |obligations| :: obligations[i].id
  }

  lemma {:induction false} DistinctIds(obligations: seq<Obligation>)
    requires forall i, j | 0 <= i < j < |obligations| :: obligations[i].id != obligations[j].id
    ensures |IdsOf(obligations)| == |obligations|
  {
    if obligations != [] {
      var n := |obligations| - 1;
      DistinctIds(obligations[..n]);
      assert IdsOf(obligations) == IdsOf(obligations[..n]) + {obligations[n].id};
    }
  }

  lemma {:induction false} SubsetOfSameSize<T>(a: set<T>, b: set<T>)
    requires a <= b && |a| == |b|
    ensures a == b
  {
    var rest := b - a;
    assert b == a + rest && |b| == |a| + |rest|;
  }

  lemma {:induction false} IdsSubset(a: Assurance)
    requires ValidAssurance(a)
    ensures ById(a.results).Keys <= IdsOf(a.obligations)
  {
    forall id | id in ById(a.results) ensures id in IdsOf(a.obligations) {
      ByIdKeys(a.results, id);
      var i :| 0 <= i < |a.results| && a.results[i].id == id;
      assert Declared(a.obligations, a.results[i].id);
    }
  }

  /** Pigeonhole: as many distinct results as distinct obligations, none undeclared. */
  lemma {:induction false} EveryIdFound(a: Assurance)
    requires ValidAssurance(a) && |ById(a.results)| == |a.obligations|
    ensures forall i | 0 <= i < |a.obligations| :: a.obligations[i].id in ById(a.results)
  {
    IdsSubset(a);
    DistinctIds(a.obligations);
    SubsetOfSameSize(ById(a.results).Keys, IdsOf(a.obligations));
  }

  /** The obligation has a passing result, and only one result at all. */
  ghost predicate Discharged(a: Assurance, o: Obligation) {
    exists k | 0 <= k < |a.results| :: OnlyResult(a, o, k) && a.results[k].status in {"pass", "not_applicable"}
  }

  ghost predicate OnlyResult(a: Assurance, o: Obligation, k: int) {
    && 0 <= k < |a.results| && a.results[k].id == o.id
    && forall m | 0 <= m < |a.results| && a.results[m].id == o.id :: m == k
  }

  lemma {:induction false} DischargedExactly(a: Assurance, o: Obligation)
    requires ValidAssurance(a)
    ensures Discharged(a, o) <==> o.id in ById(a.results) && Passing(ById(a.results)[o.id].status)
  {
    ByIdKeys(a.results, o.id);
    if HasResult(a.results, o.id) {
      var k :| 0 <= k < |a.results| && a.results[k].id == o.id;
      ByIdFinds(a.results, k);
      assert OnlyResult(a, o, k);
    }
  }

  lemma {:induction false} AllDischargedCount(a: Assurance)
    requires ValidAssurance(a) && forall i | 0 <= i < |a.obligations| :: a.obligations[i].id in ById(a.results)
    ensures |ById(a.results)| == |a.obligations|
  {
    IdsSubset(a);
    DistinctIds(a.obligations);
    assert ById(a.results).Keys == IdsOf(a.obligations);
  }

  /** A run is complete exactly when every required surface is covered and every obligation is
      discharged, on surfaces that are required and covered. */
  lemma {:induction false} CompleteExactly(a: Assurance)
    requires ValidAssurance(a)
    ensures ReviewComplete(a) <==>
      && (forall s | s in a.plan.required :: s in a.plan.covered)
      && (forall i | 0 <= i < |a.obligations| :: Discharged(a, a.obligations[i]))
      && (forall i, s | 0 <= i < |a.obligations| && s in a.obligations[i].surfaces ::
            s in a.plan.required && s in a.plan.covered)
  {
    forall i | 0 <= i < |a.obligations|
      ensures Discharged(a, a.obligations[i]) <==>
        a.obligations[i].id in ById(a.results) && Passing(ById(a.results)[a.obligations[i].id].status)
    {
      DischargedExactly(a, a.obligations[i]);
    }
    if |ById(a.results)| == |a.obligations| {
      EveryIdFound(a);
    } else if forall i | 0 <= i < |a.obligations| :: a.obligations[i].id in ById(a.results) {
      AllDischargedCount(a);
    }
  }

  /** An obligation whose result failed or is pending, or that has none, is never completed. */
  lemma {:induction false} OpenNeverComplete(a: Assurance, i: nat)
    requires ValidAssurance(a) && i < |a.obligations|
    requires forall k | 0 <= k < |a.results| && a.results[k].id == a.obligations[i].id ::
      a.results[k].status !in {"pass", "not_applicable"}
    ensures !ReviewComplete(a)
  {
    CompleteExactly(a);
    assert !Discharged(a, a.obligations[i]);
  }

  /** Skipping a required surface, whatever the reason, rules completion out. */
  lemma {:induction false} SkippedNeverComplete(a: Assurance, s: string)
    requires ValidAssurance(a) && s in a.plan.required && s in a.plan.skipped
    ensures !ReviewComplete(a)
  {
  }

  const ALWAYS_ON: seq<string> :=
    ["contract_conformance", "functional_correctness", "state_transitions", "error_failure_paths", "tests_vs_claims"]

  // ---- shapes ----------------------------------------------------------------------

  const SURFACES: set<string> :=
    {"contract_conformance", "functional_correctness", "state_transitions", "error_failure_paths", "tests_vs_claims",
     "architecture", "persistence_atomicity", "compatibility_migration", "concurrency", "security",
     "recovery_idempotency", "accounting_domain_invariants"}

  function Field(v: Value, k: Key): Value { if v.Instance? && k in v.fields then v.fields[k] else Absent }

  function Elements(v: Value): seq<Value> { if v.Tuple? then v.elements else [] }

  function Chars(v: Value): string { if v.Text? then v.s else "" }

  function Strings(v: Value): seq<string> {
    seq(|Elements(v)|, i requires 0 <= i < |Elements(v)| => Chars(Elements(v)[i]))
  }

  predicate SameStrings(v: Value, w: Value) {
    (forall s | s in Strings(v) :: s in Strings(w)) && (forall s | s in Strings(w) :: s in Strings(v))
  }

  function Distinct(k: Key): seq<Value> -> bool { vs => DistinctBy(vs, v => Field(v, k)) }

  function Several(k: Key): seq<Value> -> bool { vs => vs != [] && DistinctBy(vs, v => Field(v, k)) }

  function AnyTexts(): (d: Shape)
    ensures WellFormed(d)
  {
    Sequence(AnyText, vs => DistinctBy(vs, v => v))
  }

  function SomeTexts(): (d: Shape)
    ensures WellFormed(d)
  {
    Sequence(AnyText, vs => vs != [] && DistinctBy(vs, v => v))
  }

  function Surfaces(): (d: Shape)
    ensures WellFormed(d)
  {
    Sequence(OneOf(SURFACES), vs => DistinctBy(vs, v => v))
  }

  predicate NoTags(fields: map<Key, Shape>) {
    kind !in fields && schema_version !in fields && forall k | k in fields :: WellFormed(fields[k])
  }

  function AuthorityShape(): (d: Shape)
    ensures WellFormed(d)
  {
    Record("review-authority-identity",
           map[authority_kind := OneOf({"fixture", "live"}), repository := AnyText, task_number := Positive,
               pull_request_number := Nullable(Positive), base_sha := Sha(40), head_sha := Sha(40),
               diff_sha256 := Sha(64)],
           _ => true)
  }

  function ReferenceShape(): (d: Shape)
    ensures WellFormed(d)
  {
    Record("evidence-reference",
           map[reference_id := AnyText, evidence_kind := AnyText, locator := AnyText, summary := AnyText,
               digest_sha256 := Nullable(Sha(64))],
           _ => true)
  }

  function ChangeShape(): (d: Shape)
    ensures WellFormed(d)
  {
    Record("change-map-entry",
           map[path := AnyText, change_kind := AnyText, locations := AnyTexts(), summary := AnyText],
           _ => true)
  }

  function RiskShape(): (d: Shape)
    ensures WellFormed(d)
  {
    Record("review-risk-profile",
           map[deterministic_facts := JsonObject, triggered_surfaces := Surfaces(),
               semantic_escalation_requests := Surfaces()],
           _ => true)
  }

  function PlanOf(v: Value): Plan {
    var skipped := Field(v, skipped_with_reason);
    Plan(Strings(Field(v, required)), Strings(Field(v, covered)),
         if skipped.Reasons? then set k | k in skipped.reasons && k.Other? :: k.name else {})
  }

  /** Always-on and risk-triggered surfaces are required; nothing is covered and skipped at once. */
  function PlanShape(): (d: Shape)
    ensures WellFormed(d)
  {
    Record("review-surface-plan",
           map[required := Surfaces(), covered := Surfaces(),
               skipped_with_reason := Skips(set s | s in SURFACES :: Other(s)),
               risk_triggered := Surfaces(), semantic_escalation_requests := Surfaces()],
           m =>
             var v := Instance("", m);
             ValidPlan(PlanOf(v)) && forall s | s in Strings(Field(v, risk_triggered)) :: s in PlanOf(v).required)
  }

  function ProvenanceShape(): (d: Shape)
    ensures WellFormed(d)
  {
    Record("review-run-provenance",
           map[run_id := AnyText, authority := AuthorityShape(), harness_id := AnyText, protocol_id := AnyText],
           _ => true)
  }

  function CandidateFields(): (fields: map<Key, Shape>)
    ensures NoTags(fields)
  {
    map[finding_id := AnyText, surface := OneOf(SURFACES), claim := AnyText, affected_locations := SomeTexts(),
        contract_invariant := AnyText, failure_scenario := AnyText, evidence_refs := SomeTexts(),
        originating_runs := Sequence(ProvenanceShape(), Several(run_id))]
  }

  function CandidateShape(): (d: Shape)
    ensures WellFormed(d)
  {
    Record("candidate-finding", CandidateFields(), _ => true)
  }

  /** Exactly the confirmed findings are assessed as blocking or not. */
  predicate AssessedRight(v: Value) {
    Field(v, verification_status) == Text("confirmed") <==> Field(v, blocking_status) != Text("not_assessed")
  }

  function AssessmentRule(): map<Key, Value> -> bool { m => AssessedRight(Instance("", m)) }

  function VerifiedShape(): (d: Shape)
    ensures WellFormed(d) && d.Record? && d.consistent == AssessmentRule()
  {
    Record("verified-finding",
           CandidateFields()
             [verification_status := OneOf({"confirmed", "rejected", "needs_more_evidence", "inconclusive"})]
             [verification_evidence_refs := SomeTexts()]
             [severity := OneOf({"low", "medium", "high", "critical"})]
             [blocking_status := OneOf({"blocking", "non_blocking", "not_assessed"})],
           AssessmentRule())
  }

  function TokenShape(): (d: Shape)
    ensures WellFormed(d)
  {
    Record("review-token-usage",
           map[input_tokens := NonNegative, output_tokens := NonNegative, total_tokens := NonNegative],
           m =>
             var v := Instance("", m);
             var i, o, t := Field(v, input_tokens), Field(v, output_tokens), Field(v, total_tokens);
             i.Number? && o.Number? && t == Number(i.n + o.n))
  }

  function ObligationShape(): (d: Shape)
    ensures WellFormed(d)
  {
    Record("assurance-obligation",
           map[obligation_id := AnyText, description := AnyText, required_surfaces := Surfaces()],
           _ => true)
  }

  function ResultShape(): (d: Shape)
    ensures WellFormed(d)
  {
    Record("assurance-result",
           map[obligation_id := AnyText, status := OneOf({"pass", "fail", "pending", "not_applicable"}),
               evidence_refs := AnyTexts(), summary := AnyText],
           _ => true)
  }

  function PackageFields(): (fields: map<Key, Shape>)
    ensures NoTags(fields)
  {
    map[summary := AnyText, authority := AuthorityShape(), task_contract := JsonObject,
        change_map := Sequence(ChangeShape(), vs => vs != []),
        deterministic_evidence := Sequence(ReferenceShape(), Several(reference_id)),
        risk_profile := RiskShape(), surface_plan := PlanShape(),
        targeted_retrieval_references := Sequence(ReferenceShape(), Several(reference_id))]
  }

  /** Evidence ids are unique across both lists; plan and risk profile name the same surfaces. */
  predicate PackageConsistent(v: Value) {
    var risk, plan := Field(v, risk_profile), Field(v, surface_plan);
    && Distinct(reference_id)(Elements(Field(v, deterministic_evidence))
                              + Elements(Field(v, targeted_retrieval_references)))
    && SameStrings(Field(risk, triggered_surfaces), Field(plan, risk_triggered))
    && SameStrings(Field(risk, semantic_escalation_requests), Field(plan, semantic_escalation_requests))
  }

  function PackageRule(): map<Key, Value> -> bool { m => PackageConsistent(Instance("", m)) }

  function PackageShape(): (d: Shape)
    ensures WellFormed(d) && d.Record? && d.fields == PackageFields() && d.consistent == PackageRule()
  {
    Record("review-evidence-package", PackageFields(), PackageRule())
  }

  function AssuranceOf(v: Value): Assurance {
    var os, rs := Elements(Field(v, assurance_obligations)), Elements(Field(v, assurance_results));
    Assurance(
      PlanOf(Field(v, coverage)),
      seq(|os|, i requires 0 <= i < |os| =>
        Obligation(Chars(Field(os[i], obligation_id)), Strings(Field(os[i], required_surfaces)))),
      seq(|rs|, i requires 0 <= i < |rs| =>
        Verdict(Chars(Field(rs[i], obligation_id)), Chars(Field(rs[i], status)))))
  }

  predicate ResultsDeclared(a: Assurance) {
    forall i | 0 <= i < |a.results| :: Declared(a.obligations, a.results[i].id)
  }

  function ReviewStatus(a: Assurance): string {
    if ValidAssurance(a) && ReviewComplete(a) then "complete" else "incomplete"
  }

  function RunFields(): (fields: map<Key, Shape>)
    ensures NoTags(fields)
  {
    map[run_id := AnyText, authority := AuthorityShape(), harness_config := JsonObject, protocol_config := JsonObject,
        model_config := JsonObject, token_usage := TokenShape(), wall_clock_ms := NonNegative]
  }

  function FindingFields(): (fields: map<Key, Shape>)
    ensures NoTags(fields)
  {
    map[candidate_findings := Sequence(CandidateShape(), Distinct(finding_id)),
        verified_findings := Sequence(VerifiedShape(), Distinct(finding_id))]
  }

  function Obligations(): (d: Shape)
    ensures WellFormed(d)
  {
    Sequence(ObligationShape(), Distinct(obligation_id))
  }

  function Results(): (d: Shape)
    ensures WellFormed(d)
  {
    Sequence(ResultShape(), Distinct(obligation_id))
  }

  function AssuranceFieldsOf(plan: Shape, obligations: Shape, results: Shape): (fields: map<Key, Shape>)
    requires WellFormed(plan) && WellFormed(obligations) && WellFormed(results)
    ensures NoTags(fields) && coverage in fields && assurance_obligations in fields && assurance_results in fields
    ensures fields[coverage] == plan && fields[assurance_obligations] == obligations
    ensures fields[assurance_results] == results
  {
    map[coverage := plan, assurance_obligations := obligations, assurance_results := results,
        review_status := OneOf({"complete", "incomplete"})]
  }

  function AssuranceFields(): (fields: map<Key, Shape>)
    ensures NoTags(fields)
  {
    AssuranceFieldsOf(PlanShape(), Obligations(), Results())
  }

  /** Results only for declared obligations, and a status that agrees with the recomputed one. */
  predicate ReceiptConsistent(v: Value) {
    ResultsDeclared(AssuranceOf(v)) && Field(v, review_status) == Text(ReviewStatus(AssuranceOf(v)))
  }

  function Joined(a: map<Key, Shape>, b: map<Key, Shape>, c: map<Key, Shape>): (fields: map<Key, Shape>)
    requires NoTags(a) && NoTags(b) && NoTags(c)
    ensures NoTags(fields) && forall k | k in c :: k in fields && fields[k] == c[k]
  {
    a + b + c
  }

  function ReceiptFields(): (fields: map<Key, Shape>)
    ensures NoTags(fields)
    ensures forall k | k in AssuranceFields() :: k in fields && fields[k] == AssuranceFields()[k]
  {
    Joined(RunFields(), FindingFields(), AssuranceFields())
  }

  function ReceiptRule(): map<Key, Value> -> bool { m => ReceiptConsistent(Instance("", m)) }

  function ReceiptShape(): (d: Shape)
    ensures WellFormed(d) && d.Record? && d.fields == ReceiptFields() && d.consistent == ReceiptRule()
  {
    Record("review-run-receipt", ReceiptFields(), ReceiptRule())
  }

  lemma {:induction false} FieldValid(d: Shape, v: Value, k: Key)
    requires d.Record? && Valid(d, v) && k in d.fields
    ensures v.Instance? && k in v.fields && Valid(d.fields[k], v.fields[k])
  {
  }

  /** Records of one list differ in the text of their id field. */
  lemma {:induction false} DistinctTexts(item: Shape, w: Value, k: Key)
    requires item.Record? && k in item.fields && item.fields[k] == AnyText
    requires Valid(Sequence(item, Distinct(k)), w)
    ensures forall i, j | 0 <= i < j < |w.elements| :: Chars(Field(w.elements[i], k)) != Chars(Field(w.elements[j], k))
  {
    var vs := w.elements;
    forall i, j | 0 <= i < j < |vs| ensures Chars(Field(vs[i], k)) != Chars(Field(vs[j], k)) {
      FieldValid(item, vs[i], k);
      FieldValid(item, vs[j], k);
      assert Distinct(k)(vs) && DistinctBy(vs, v => Field(v, k));
    }
  }

  lemma {:induction false} PlanValid(v: Value)
    requires Valid(PlanShape(), v)
    ensures ValidPlan(PlanOf(v))
  {
  }

  /** The parts of a record that has the assurance fields of a receipt. */
  lemma {:induction false} AssuranceParts(d: Shape, v: Value)
    requires d.Record? && Valid(d, v)
    requires forall k | k in AssuranceFields() :: k in d.fields && d.fields[k] == AssuranceFields()[k]
    ensures Valid(PlanShape(), Field(v, coverage))
    ensures Valid(Obligations(), Field(v, assurance_obligations))
    ensures Valid(Results(), Field(v, assurance_results))
  {
    FieldValid(d, v, coverage);
    FieldValid(d, v, assurance_obligations);
    FieldValid(d, v, assurance_results);
  }

  lemma {:induction false} ObligationIds(v: Value)
    requires Valid(Obligations(), Field(v, assurance_obligations))
    ensures var os := AssuranceOf(v).obligations; forall i, j | 0 <= i < j < |os| :: os[i].id != os[j].id
  {
    DistinctTexts(ObligationShape(), Field(v, assurance_obligations), obligation_id);
  }

  lemma {:induction false} ResultIds(v: Value)
    requires Valid(Results(), Field(v, assurance_results))
    ensures var rs := AssuranceOf(v).results; forall i, j | 0 <= i < j < |rs| :: rs[i].id != rs[j].id
  {
    DistinctTexts(ResultShape(), Field(v, assurance_results), obligation_id);
  }

  lemma {:induction false} SameAssurance(v: Value, w: Value)
    requires v.Instance? && w.Instance? && v.fields == w.fields
    ensures AssuranceOf(v) == AssuranceOf(w) && ReceiptConsistent(v) == ReceiptConsistent(w)
  {
  }

  lemma {:induction false} RuleHolds(d: Shape, v: Value)
    requires d.Record? && Valid(d, v)
    ensures v.Instance? && d.consistent(v.fields)
  {
  }

  lemma {:induction false} AssuranceValid(d: Shape, v: Value)
    requires d.Record? && Valid(d, v)
    requires forall k | k in AssuranceFields() :: k in d.fields && d.fields[k] == AssuranceFields()[k]
    requires ReceiptConsistent(v)
    ensures ValidAssurance(AssuranceOf(v))
  {
    AssuranceParts(d, v);
    PlanValid(Field(v, coverage));
    ObligationIds(v);
    ResultIds(v);
  }

  /** A receipt satisfies what completeness requires, and says what completeness says. */
  lemma {:induction false} ReceiptStatus(v: Value)
    requires Valid(ReceiptShape(), v)
    ensures ValidAssurance(AssuranceOf(v))
    ensures Field(v, review_status) == Text(if ReviewComplete(AssuranceOf(v)) then "complete" else "incomplete")
  {
    RuleHolds(ReceiptShape(), v);
    SameAssurance(v, Instance("", v.fields));
    AssuranceValid(ReceiptShape(), v);
  }

  /** Every valid receipt survives printing and parsing; every accepted JSON value is what its
      receipt prints as, status included. */
  lemma {:induction false} ReceiptCodec(v: Value, j: Json)
    ensures Valid(ReceiptShape(), v) ==> Parse(ReceiptShape(), PrintValue(v)) == Some(v)
    ensures Parse(ReceiptShape(), j).Some? ==>
      var r := Parse(ReceiptShape(), j).value; Valid(ReceiptShape(), r) && PrintValue(r) == j
  {
    if Valid(ReceiptShape(), v) { ParsePrint(ReceiptShape(), v); }
    if Parse(ReceiptShape(), j).Some? { PrintParse(ReceiptShape(), j); }
  }

  lemma {:induction false} PackageCodec(v: Value, j: Json)
    ensures Valid(PackageShape(), v) ==> Parse(PackageShape(), PrintValue(v)) == Some(v)
    ensures Parse(PackageShape(), j).Some? ==>
      var p := Parse(PackageShape(), j).value; Valid(PackageShape(), p) && PrintValue(p) == j
  {
    if Valid(PackageShape(), v) { ParsePrint(PackageShape(), v); }
    if Parse(PackageShape(), j).Some? { PrintParse(PackageShape(), j); }
  }

  // ---- what is accepted ------------------------------------------------------------

  lemma {:induction false} AuthorityKeys()
    ensures AuthorityShape().Record? && AuthorityShape().fields.Keys ==
      {authority_kind, repository, task_number, pull_request_number, base_sha, head_sha, diff_sha256}
  {
  }

  lemma {:induction false} ReferenceKeys()
    ensures ReferenceShape().Record? && ReferenceShape().fields.Keys ==
      {reference_id, evidence_kind, locator, summary, digest_sha256}
  {
  }

  lemma {:induction false} ChangeKeys()
    ensures ChangeShape().Record? && ChangeShape().fields.Keys ==
      {path, change_kind, locations, summary}
  {
  }

  lemma {:induction false} RiskKeys()
    ensures RiskShape().Record? && RiskShape().fields.Keys ==
      {deterministic_facts, triggered_surfaces, semantic_escalation_requests}
  {
  }

  lemma {:induction false} PlanKeys()
    ensures PlanShape().Record? && PlanShape().fields.Keys ==
      {required, covered, skipped_with_reason, risk_triggered, semantic_escalation_requests}
  {
  }

  lemma {:induction false} PackageKeys()
    ensures PackageShape().Record? && PackageShape().fields.Keys ==
      {summary, authority, task_contract, change_map, deterministic_evidence, risk_profile, surface_plan,
       targeted_retrieval_references}
  {
  }

  lemma {:induction false} CandidateKeys()
    ensures CandidateShape().Record? && CandidateShape().fields.Keys ==
      {finding_id, surface, claim, affected_locations, contract_invariant, failure_scenario, evidence_refs,
       originating_runs}
  {
  }

  lemma {:induction false} VerifiedKeys()
    ensures VerifiedShape().Record? && VerifiedShape().fields.Keys ==
      {finding_id, surface, claim, affected_locations, contract_invariant, failure_scenario, evidence_refs,
       originating_runs, verification_status, verification_evidence_refs, severity, blocking_status}
  {
  }

  lemma {:induction false} ProvenanceKeys()
    ensures ProvenanceShape().Record? && ProvenanceShape().fields.Keys ==
      {run_id, authority, harness_id, protocol_id}
  {
  }

  lemma {:induction false} TokenKeys()
    ensures TokenShape().Record? && TokenShape().fields.Keys ==
      {input_tokens, output_tokens, total_tokens}
  {
  }

  lemma {:induction false} ObligationKeys()
    ensures ObligationShape().Record? && ObligationShape().fields.Keys ==
      {obligation_id, description, required_surfaces}
  {
  }

  lemma {:induction false} ResultKeys()
    ensures ResultShape().Record? && ResultShape().fields.Keys ==
      {obligation_id, status, evidence_refs, summary}
  {
  }

  lemma {:induction false} RunKeys()
    ensures RunFields().Keys ==
      {run_id, authority, harness_config, protocol_config, model_config, token_usage, wall_clock_ms}
  {
  }

  lemma {:induction false} FindingsKeys()
    ensures FindingFields().Keys == {candidate_findings, verified_findings}
  {
  }

  lemma {:induction false} AssuranceKeys()
    ensures AssuranceFields().Keys == {coverage, assurance_obligations, assurance_results, review_status}
  {
  }

  lemma {:induction false} JoinedKeys(a: map<Key, Shape>, b: map<Key, Shape>, c: map<Key, Shape>)
    requires NoTags(a) && NoTags(b) && NoTags(c)
    ensures Joined(a, b, c).Keys == a.Keys + b.Keys + c.Keys
  {
  }

  /** So many lower-case hex digits. */
  predicate Hex(v: Value, length: nat) {
    v.Text? && |v.s| == length && forall i | 0 <= i < length :: '0' <= v.s[i] <= '9' || 'a' <= v.s[i] <= 'f'
  }

  lemma {:induction false} ShaField(d: Shape, v: Value, k: Key, length: nat)
    requires d.Record? && Valid(d, v) && k in d.fields && d.fields[k] == Sha(length)
    ensures Hex(Field(v, k), length)
  {
    var s := Field(v, k).s;
    forall i | 0 <= i < length ensures '0' <= s[i] <= '9' || 'a' <= s[i] <= 'f' {
      assert s[i] in s;
    }
  }

  /** Commits and diff of an authority are full lower-case hashes. */
  lemma {:induction false} AuthorityRules(v: Value)
    requires Valid(AuthorityShape(), v)
    ensures Hex(Field(v, base_sha), 40) && Hex(Field(v, head_sha), 40) && Hex(Field(v, diff_sha256), 64)
  {
    ShaField(AuthorityShape(), v, base_sha, 40);
    ShaField(AuthorityShape(), v, head_sha, 40);
    ShaField(AuthorityShape(), v, diff_sha256, 64);
  }

  /** A plan requires the five surfaces that are always on and every one that a risk triggered, and
      skips nothing that it covers. */
  lemma {:induction false} PlanRules(v: Value)
    requires Valid(PlanShape(), v)
    ensures forall s | s in {"contract_conformance", "functional_correctness", "state_transitions",
                             "error_failure_paths", "tests_vs_claims"} :: s in PlanOf(v).required
    ensures forall s | s in Strings(Field(v, risk_triggered)) :: s in PlanOf(v).required
    ensures Field(v, skipped_with_reason).Reasons?
    ensures forall s | s in PlanOf(v).covered :: Other(s) !in Field(v, skipped_with_reason).reasons
  {
    RuleHolds(PlanShape(), v);
    FieldValid(PlanShape(), v, skipped_with_reason);
  }

  /** Tokens add up. */
  lemma {:induction false} TokenRules(v: Value)
    requires Valid(TokenShape(), v)
    ensures Field(v, input_tokens).Number? && Field(v, output_tokens).Number? && Field(v, total_tokens).Number?
    ensures Field(v, input_tokens).n >= 0 && Field(v, output_tokens).n >= 0
    ensures Field(v, total_tokens).n == Field(v, input_tokens).n + Field(v, output_tokens).n
  {
    RuleHolds(TokenShape(), v);
    FieldValid(TokenShape(), v, input_tokens);
    FieldValid(TokenShape(), v, output_tokens);
  }

  /** A finding is assessed as blocking or not exactly when it was confirmed. */
  lemma {:induction false} FindingRules(d: Shape, v: Value)
    requires d.Record? && d.consistent == AssessmentRule() && Valid(d, v)
    requires blocking_status in d.fields && d.fields[blocking_status] == VerifiedShape().fields[blocking_status]
    ensures Field(v, verification_status) == Text("confirmed") <==>
      Field(v, blocking_status) in {Text("blocking"), Text("non_blocking")}
  {
    FieldValid(d, v, blocking_status);
    assert AssessedRight(Instance("", v.fields));
  }

  lemma {:induction false} PackageParts()
    ensures var fields := PackageFields();
      && change_map in fields && fields[change_map] == Sequence(ChangeShape(), vs => vs != [])
      && deterministic_evidence in fields
      && fields[deterministic_evidence] == Sequence(ReferenceShape(), Several(reference_id))
      && targeted_retrieval_references in fields
      && fields[targeted_retrieval_references] == Sequence(ReferenceShape(), Several(reference_id))
  {
  }

  lemma {:induction false} SequenceValid(item: Shape, accepted: seq<Value> -> bool, v: Value)
    requires Valid(Sequence(item, accepted), v)
    ensures v.Tuple? && accepted(v.elements)
  {
  }

  /** A list of several is not empty, and no two of its records agree on the id. */
  lemma {:induction false} SeveralSays(item: Shape, k: Key, v: Value)
    requires Valid(Sequence(item, Several(k)), v)
    ensures v.Tuple? && v.elements != []
    ensures forall i, j | 0 <= i < j < |v.elements| :: Field(v.elements[i], k) != Field(v.elements[j], k)
  {
    assert Several(k)(v.elements) && DistinctBy(v.elements, w => Field(w, k));
  }

  /** A finding names the runs it comes from, each once. */
  lemma {:induction false} OriginRules(d: Shape, v: Value)
    requires d.Record? && Valid(d, v) && originating_runs in d.fields
    requires d.fields[originating_runs] == CandidateFields()[originating_runs]
    ensures var runs := Elements(Field(v, originating_runs));
      runs != [] && forall i, j | 0 <= i < j < |runs| :: Field(runs[i], run_id) != Field(runs[j], run_id)
  {
    FieldValid(d, v, originating_runs);
    SeveralSays(ProvenanceShape(), run_id, v.fields[originating_runs]);
  }

  /** The evidence of a package: something changed, and neither list of references is empty. */
  lemma {:induction false} PackageLists(v: Value)
    requires Valid(PackageShape(), v)
    ensures Elements(Field(v, change_map)) != []
    ensures Elements(Field(v, deterministic_evidence)) != [] && Elements(Field(v, targeted_retrieval_references)) != []
  {
    var d := PackageShape();
    PackageParts();
    FieldValid(d, v, change_map);
    FieldValid(d, v, deterministic_evidence);
    FieldValid(d, v, targeted_retrieval_references);
    SequenceValid(ChangeShape(), vs => vs != [], v.fields[change_map]);
    SequenceValid(ReferenceShape(), Several(reference_id), v.fields[deterministic_evidence]);
    SequenceValid(ReferenceShape(), Several(reference_id), v.fields[targeted_retrieval_references]);
  }

  lemma {:induction false} DistinctAcross(a: seq<Value>, b: seq<Value>, k: Key)
    requires Distinct(k)(a + b)
    ensures forall i, j | 0 <= i < |a| && 0 <= j < |b| :: Field(a[i], k) != Field(b[j], k)
  {
    assert DistinctBy(a + b, v => Field(v, k));
    forall i, j | 0 <= i < |a| && 0 <= j < |b| ensures Field(a[i], k) != Field(b[j], k) {
      assert (a + b)[i] == a[i] && (a + b)[|a| + j] == b[j];
    }
  }

  /** No reference id stands in both lists, and plan and risk profile name the same surfaces. */
  lemma {:induction false} PackageRules(d: Shape, v: Value)
    requires d.Record? && d.consistent == PackageRule() && Valid(d, v)
    ensures
      var found := Elements(Field(v, deterministic_evidence));
      var fetched := Elements(Field(v, targeted_retrieval_references));
      forall i, j | 0 <= i < |found| && 0 <= j < |fetched| ::
        Field(found[i], reference_id) != Field(fetched[j], reference_id)
    ensures var risk, plan := Field(v, risk_profile), Field(v, surface_plan); forall s ::
      && (s in Strings(Field(risk, triggered_surfaces)) <==> s in Strings(Field(plan, risk_triggered)))
      && (s in Strings(Field(risk, semantic_escalation_requests)) <==>
            s in Strings(Field(plan, semantic_escalation_requests)))
  {
    var w := Instance("", v.fields);
    assert PackageConsistent(w);
    assert forall k :: Field(v, k) == Field(w, k);
    DistinctAcross(Elements(Field(w, deterministic_evidence)), Elements(Field(w, targeted_retrieval_references)),
                   reference_id);
  }
}
