/** JSON values, frozen values, and the exact-field objects of the Review contracts. */
module Json {

  /** Object keys: the field names of the contracts, and any other string. */
  datatype Key =
    | kind | schema_version | authority_kind | repository | task_number | pull_request_number | base_sha | head_sha
    | diff_sha256 | reference_id | evidence_kind | locator | summary | digest_sha256 | path | change_kind | locations
    | deterministic_facts | triggered_surfaces | semantic_escalation_requests | required | covered
    | skipped_with_reason | risk_triggered | run_id | authority | harness_id | protocol_id | finding_id | surface
    | claim | affected_locations | contract_invariant | failure_scenario | evidence_refs | originating_runs
    | verification_status | verification_evidence_refs | severity | blocking_status | input_tokens | output_tokens
    | total_tokens | obligation_id | description | required_surfaces | status | task_contract | change_map
    | deterministic_evidence | risk_profile | surface_plan | targeted_retrieval_references | harness_config
    | protocol_config | model_config | coverage | candidate_findings | verified_findings | token_usage
    | wall_clock_ms | assurance_obligations | assurance_results | review_status
    | Other(name: string)

  /** Object keys are unique and unordered. */
  datatype Json =
    | Null
    | Bool(b: bool)
    | Int(i: int)
    | Float(f: real)
    | NonFinite
    | Str(s: string)
    | Arr(items: seq<Json>)
    | Obj(fields: map<Key, Json>)

  // ---- frozen values ---------------------------------------------------------------

  /** Immutable counterpart: tuples for arrays, mapping proxies for objects. */
  datatype Frozen = Scalar(j: Json) | Items(elements: seq<Frozen>) | Proxy(entries: map<Key, Frozen>)

  predicate IsScalar(j: Json) { !j.Arr? && !j.Obj? }

  predicate Finite(j: Json) {
    match j
    case NonFinite => false
    case Arr(items) => forall i | 0 <= i < |items| :: Finite(items[i])
    case Obj(fields) => forall k | k in fields :: Finite(fields[k])
    case _ => true
  }

  function Freeze(j: Json): Frozen {
    match j
    case Arr(items) => Items(seq(|items|, i requires 0 <= i < |items| => Freeze(items[i])))
    case Obj(fields) => Proxy(map k | k in fields :: Freeze(fields[k]))
    case _ => Scalar(j)
  }

  function Thaw(f: Frozen): Json {
    match f
    case Scalar(j) => j
    case Items(elements) => Arr(seq(|elements|, i requires 0 <= i < |elements| => Thaw(elements[i])))
    case Proxy(entries) => Obj(map k | k in entries :: Thaw(entries[k]))
  }

  predicate ValidFrozen(f: Frozen) {
    match f
    case Scalar(j) => IsScalar(j) && Finite(j)
    case Items(elements) => forall i | 0 <= i < |elements| :: ValidFrozen(elements[i])
    case Proxy(entries) => forall k | k in entries :: ValidFrozen(entries[k])
  }

  lemma {:induction false} ThawFreeze(j: Json)
    ensures Thaw(Freeze(j)) == j && (ValidFrozen(Freeze(j)) <==> Finite(j))
  {
    match j
    case Arr(items) =>
      forall i | 0 <= i < |items|
        ensures Thaw(Freeze(items[i])) == items[i] && (ValidFrozen(Freeze(items[i])) <==> Finite(items[i]))
      {
        ThawFreeze(items[i]);
      }
    case Obj(fields) =>
      forall k | k in fields
        ensures Thaw(Freeze(fields[k])) == fields[k] && (ValidFrozen(Freeze(fields[k])) <==> Finite(fields[k]))
      {
        ThawFreeze(fields[k]);
      }
      assert Thaw(Freeze(j)).fields == fields;
    case _ =>
  }

  lemma {:induction false} FreezeThaw(f: Frozen)
    requires ValidFrozen(f)
    ensures Freeze(Thaw(f)) == f
  {
    match f
    case Scalar(j) =>
    case Items(elements) =>
      forall i | 0 <= i < |elements| ensures Freeze(Thaw(elements[i])) == elements[i] {
        FreezeThaw(elements[i]);
      }
      assert Freeze(Thaw(f)).elements == elements;
    case Proxy(entries) =>
      forall k | k in entries ensures Freeze(Thaw(entries[k])) == entries[k] {
        FreezeThaw(entries[k]);
      }
      assert Freeze(Thaw(f)).entries == entries;
  }
}
