/** Check gates: what the status rollup of a PR says, the policy read from the trusted base, and
    when the strict gate lets a PR pass. */
module Checks {
  import opened Wrappers
  import opened Text

  // ---- rollup ----------------------------------------------------------------------

  /** An entry of the status rollup; absent and empty fields are alike. */
  datatype Entry =
    | NotAMapping
    | Entry(name: string, context: string, workflowName: string, conclusion: string, state: string, status: string)

  datatype Category = Success | Waiting | Failed | Unknown

  datatype Seen = Seen(name: string, category: Category)

  /** `upper` is str.upper; `show` redacts and bounds a text for display. */
  datatype Strings = Strings(upper: string -> string, show: string -> string)

  function FirstOf(a: string, b: string, c: string, otherwise: string): string {
    if a != "" then a else if b != "" then b else if c != "" then c else otherwise
  }

  function CategoryOf(state: string): Category {
    if state in {"SUCCESS", "NEUTRAL"} then Success
    else if state in {"PENDING", "QUEUED", "IN_PROGRESS", "EXPECTED", "WAITING"} then Waiting
    else if state in {"FAILURE", "ERROR", "CANCELLED", "TIMED_OUT", "ACTION_REQUIRED"} then Failed
    else Unknown
  }

  function Reading(e: Entry, t: Strings): Seen
    requires e.Entry?
  {
    Seen(t.show(FirstOf(e.name, e.context, e.workflowName, "unnamed")),
         CategoryOf(t.upper(FirstOf(e.conclusion, e.state, e.status, "UNKNOWN"))))
  }

  /** The mapping entries of the rollup, in order. */
  function Readings(rollup: seq<Entry>, t: Strings): seq<Seen> {
    if rollup == [] then []
    else
      var last := rollup[|rollup| - 1];
      Readings(rollup[..|rollup| - 1], t) + if last.Entry? then [Reading(last, t)] else []
  }

  function Count(items: seq<Seen>, c: Category): nat {
    if items == [] then 0
    else Count(items[..|items| - 1], c) + if items[|items| - 1].category == c then 1 else 0
  }

  const MAX_LIST_ITEMS := 50

  /** Full counts, but only a bounded view of the entries themselves. */
  datatype Summary = Summary(success: nat, pending: nat, failed: nat, unknown: nat, view: seq<Seen>)

  function Bounded(items: seq<Seen>): seq<Seen> {
    if |items| <= MAX_LIST_ITEMS then items else items[..MAX_LIST_ITEMS]
  }

  function SummaryOf(items: seq<Seen>): Summary {
    Summary(Count(items, Success), Count(items, Waiting), Count(items, Failed), Count(items, Unknown), Bounded(items))
  }

  method NormalizeChecks(rollup: Option<seq<Entry>>, t: Strings) returns (r: Summary)
    ensures r == SummaryOf(if rollup.Some? then Readings(rollup.value, t) else [])
  {
    var items: seq<Seen> := [];
    var success, pending, failed, skipped := 0, 0, 0, 0;
    if rollup.Some? {
      for i := 0 to |rollup.value|
        invariant items == Readings(rollup.value[..i], t)
        invariant success == Count(items, Success) && pending == Count(items, Waiting)
        invariant failed == Count(items, Failed) && skipped == Count(items, Unknown)
      {
        assert rollup.value[..i + 1][..i] == rollup.value[..i];
        if rollup.value[i].NotAMapping? { continue; }
        var seen := Reading(rollup.value[i], t);
        match seen.category {
          case Success => success := success + 1;
          case Waiting => pending := pending + 1;
          case Failed => failed := failed + 1;
          case Unknown => skipped := skipped + 1;
        }
        assert (items + [seen])[..|items|] == items;
        items := items + [seen];
      }
      assert rollup.value[..|rollup.value|] == rollup.value;
    }
    r := Summary(success, pending, failed, skipped, Bounded(items));
  }

  // ---- what the rollup says ----------------------------------------------------------

  /** The state of an entry: the first of conclusion, state and status that is not empty. */
  function Effective(e: Entry, t: Strings): string
    requires e.Entry?
  {
    t.upper(if e.conclusion != "" then e.conclusion else if e.state != "" then e.state
            else if e.status != "" then e.status else "UNKNOWN")
  }

  predicate StateIn(e: Entry, states: set<string>, t: Strings) { e.Entry? && Effective(e, t) in states }

  predicate SomeIn(rollup: seq<Entry>, states: set<string>, t: Strings) {
    exists i | 0 <= i < |rollup| :: StateIn(rollup[i], states, t)
  }

  function Mappings(rollup: seq<Entry>): nat {
    if rollup == [] then 0 else Mappings(rollup[..|rollup| - 1]) + if rollup[|rollup| - 1].Entry? then 1 else 0
  }

  /** Entry `i` is a mapping, and `j` others come before it. */
  predicate Stands(rollup: seq<Entry>, i: int, j: int) {
    0 <= i < |rollup| && rollup[i].Entry? && Mappings(rollup[..i]) == j
  }

  /** One of the first fifty mapping entries shows this name. */
  ghost predicate Reported(rollup: seq<Entry>, name: string, t: Strings) {
    exists i, j: nat :: Stands(rollup, i, j) && j < 50 &&
      var e := rollup[i];
      name == t.show(if e.name != "" then e.name else if e.context != "" then e.context
                     else if e.workflowName != "" then e.workflowName else "unnamed")
  }

  ghost predicate Sourced(rollup: seq<Entry>, j: int) { exists i :: Stands(rollup, i, j) }

  /** The readings are those of the mapping entries, each in its place. */
  lemma {:induction false} ReadingsStand(rollup: seq<Entry>, t: Strings)
    ensures |Readings(rollup, t)| == Mappings(rollup)
    ensures forall i, j | Stands(rollup, i, j) ::
      j < |Readings(rollup, t)| && Readings(rollup, t)[j] == Reading(rollup[i], t)
    ensures forall j | 0 <= j < |Readings(rollup, t)| :: Sourced(rollup, j)
  {
    if rollup != [] {
      var n, rest := |rollup| - 1, rollup[..|rollup| - 1];
      ReadingsStand(rest, t);
      forall i, j | Stands(rollup, i, j)
        ensures j < |Readings(rollup, t)| && Readings(rollup, t)[j] == Reading(rollup[i], t)
      {
        if i < n {
          assert rest[..i] == rollup[..i];
          assert Stands(rest, i, j);
        }
      }
      forall j | 0 <= j < |Readings(rollup, t)| ensures Sourced(rollup, j) {
        if j < |Readings(rest, t)| {
          assert Sourced(rest, j);
          var i :| Stands(rest, i, j);
          assert rest[..i] == rollup[..i];
          assert Stands(rollup, i, j);
        } else {
          assert Stands(rollup, n, j);
        }
      }
    }
  }

  lemma {:induction false} CountedExactly(rollup: seq<Entry>, c: Category, t: Strings)
    ensures Count(Readings(rollup, t), c) > 0 <==>
      exists i | 0 <= i < |rollup| :: rollup[i].Entry? && CategoryOf(Effective(rollup[i], t)) == c
  {
    ReadingsStand(rollup, t);
    CountZero(Readings(rollup, t), c);
    if Count(Readings(rollup, t), c) > 0 {
      var j :| 0 <= j < |Readings(rollup, t)| && Readings(rollup, t)[j].category == c;
      assert Sourced(rollup, j);
    } else {
      forall i | 0 <= i < |rollup| && rollup[i].Entry? ensures CategoryOf(Effective(rollup[i], t)) != c {
        assert Stands(rollup, i, Mappings(rollup[..i]));
      }
    }
  }

  /** A category is counted exactly when some mapping entry is in one of its states; anything that is no
      success, no wait and no failure is unknown. */
  lemma {:induction false} CountsSay(rollup: seq<Entry>, t: Strings)
    ensures Count(Readings(rollup, t), Success) > 0 <==> SomeIn(rollup, {"SUCCESS", "NEUTRAL"}, t)
    ensures Count(Readings(rollup, t), Waiting) > 0 <==>
      SomeIn(rollup, {"PENDING", "QUEUED", "IN_PROGRESS", "EXPECTED", "WAITING"}, t)
    ensures Count(Readings(rollup, t), Failed) > 0 <==>
      SomeIn(rollup, {"FAILURE", "ERROR", "CANCELLED", "TIMED_OUT", "ACTION_REQUIRED"}, t)
    ensures Count(Readings(rollup, t), Unknown) > 0 <==>
      exists i | 0 <= i < |rollup| :: rollup[i].Entry? && Effective(rollup[i], t) !in
        {"SUCCESS", "NEUTRAL", "PENDING", "QUEUED", "IN_PROGRESS", "EXPECTED", "WAITING",
         "FAILURE", "ERROR", "CANCELLED", "TIMED_OUT", "ACTION_REQUIRED"}
  {
    CountedExactly(rollup, Success, t);
    CountedExactly(rollup, Waiting, t);
    CountedExactly(rollup, Failed, t);
    CountedExactly(rollup, Unknown, t);
    forall i | 0 <= i < |rollup| && rollup[i].Entry?
      ensures CategoryOf(Effective(rollup[i], t)) == Failed <==>
        StateIn(rollup[i], {"FAILURE", "ERROR", "CANCELLED", "TIMED_OUT", "ACTION_REQUIRED"}, t)
      ensures CategoryOf(Effective(rollup[i], t)) == Waiting <==>
        StateIn(rollup[i], {"PENDING", "QUEUED", "IN_PROGRESS", "EXPECTED", "WAITING"}, t)
      ensures CategoryOf(Effective(rollup[i], t)) == Success <==> StateIn(rollup[i], {"SUCCESS", "NEUTRAL"}, t)
    {
    }
  }

  /** Nothing but SUCCESS and NEUTRAL passes. */
  predicate Succeeds(e: Entry, t: Strings) { e.Entry? ==> Effective(e, t) in {"SUCCESS", "NEUTRAL"} }

  lemma {:induction false} SuccessExactly(rollup: seq<Entry>, t: Strings)
    ensures AllSuccess(Readings(rollup, t)) <==> forall i | 0 <= i < |rollup| :: Succeeds(rollup[i], t)
  {
    ReadingsStand(rollup, t);
    var items := Readings(rollup, t);
    if AllSuccess(items) {
      forall i | 0 <= i < |rollup| && rollup[i].Entry? ensures Succeeds(rollup[i], t) {
        assert Stands(rollup, i, Mappings(rollup[..i]));
      }
    } else {
      var j :| 0 <= j < |items| && items[j].category != Success;
      assert Sourced(rollup, j);
    }
  }

  lemma {:induction false} InViewExactly(rollup: seq<Entry>, name: string, t: Strings)
    ensures InView(Readings(rollup, t), name) <==> Reported(rollup, name, t)
  {
    ReadingsStand(rollup, t);
    if InView(Readings(rollup, t), name) {
      var j :| 0 <= j < |Readings(rollup, t)| && j < MAX_LIST_ITEMS && Readings(rollup, t)[j].name == name;
      assert Sourced(rollup, j);
    }
  }

  // ---- gate ------------------------------------------------------------------------

  /** Later entries of the view overwrite earlier ones of the same name. */
  function Observed(view: seq<Seen>): map<string, Category> {
    if view == [] then map[] else Observed(view[..|view| - 1])[view[|view| - 1].name := view[|view| - 1].category]
  }

  method ObservedCategories(view: seq<Seen>) returns (values: map<string, Category>)
    ensures values == Observed(view)
  {
    values := map[];
    for i := 0 to |view|
      invariant values == Observed(view[..i])
    {
      assert view[..i + 1][..i] == view[..i];
      values := values[view[i].name := view[i].category];
    }
    assert view[..|view|] == view;
  }

  datatype CheckState = AllPassed | SomeFailed | SomeUnknown | SomePending | SomeMissing

  /** The reported state of the non-blocking gate. */
  function StateOf(sum: Summary, required: set<string>): CheckState {
    var observed := Observed(sum.view);
    var failedRequired := set n | n in required && n in observed && observed[n] != Success;
    var missing := required - observed.Keys;
    if sum.failed > 0 || failedRequired != {} then SomeFailed
    else if sum.unknown > 0 then SomeUnknown
    else if sum.pending > 0 then SomePending
    else if missing != {} then SomeMissing
    else AllPassed
  }

  datatype Refusal = FailedOrUnknown | StillPending | RequiredNotSuccessful | RequiredNotPresent

  /** The strict gate raises in this order; None is a pass. */
  function Refused(sum: Summary, required: set<string>): Option<Refusal> {
    var observed := Observed(sum.view);
    if sum.failed > 0 || sum.unknown > 0 then Some(FailedOrUnknown)
    else if sum.pending > 0 then Some(StillPending)
    else if (set n | n in required && n in observed && observed[n] != Success) != {} then Some(RequiredNotSuccessful)
    else if required - observed.Keys != {} then Some(RequiredNotPresent)
    else None
  }

  method EvaluatePrChecks(rollup: Option<seq<Entry>>, required: set<string>, strict: bool, t: Strings)
    returns (state: CheckState, refusal: Option<Refusal>)
    ensures var sum := SummaryOf(if rollup.Some? then Readings(rollup.value, t) else []);
      state == StateOf(sum, required) && refusal == if strict then Refused(sum, required) else None
  {
    var sum := NormalizeChecks(rollup, t);
    var observed := ObservedCategories(sum.view);
    var failedRequired := set n | n in required && n in observed && observed[n] != Success;
    var missing := required - observed.Keys;
    if sum.failed > 0 || failedRequired != {} {
      state := SomeFailed;
    } else if sum.unknown > 0 {
      state := SomeUnknown;
    } else if sum.pending > 0 {
      state := SomePending;
    } else if missing != {} {
      state := SomeMissing;
    } else {
      state := AllPassed;
    }
    refusal := None;
    if strict {
      if sum.failed > 0 || sum.unknown > 0 {
        refusal := Some(FailedOrUnknown);
      } else if sum.pending > 0 {
        refusal := Some(StillPending);
      } else if failedRequired != {} {
        refusal := Some(RequiredNotSuccessful);
      } else if missing != {} {
        refusal := Some(RequiredNotPresent);
      }
    }
  }

  lemma {:induction false} CountZero(items: seq<Seen>, c: Category)
    ensures Count(items, c) == 0 <==> forall i | 0 <= i < |items| :: items[i].category != c
  {
    if items != [] {
      CountZero(items[..|items| - 1], c);
    }
  }

  lemma {:induction false} ObservedNames(view: seq<Seen>, name: string)
    ensures name in Observed(view) <==> exists i | 0 <= i < |view| :: view[i].name == name
    ensures name in Observed(view) ==> exists i | 0 <= i < |view| :: view[i] == Seen(name, Observed(view)[name])
  {
    if view != [] {
      var n := |view| - 1;
      ObservedNames(view[..n], name);
      assert forall i | 0 <= i < n :: view[..n][i] == view[i];
      assert view[n].name == name ==> view[n] == Seen(name, Observed(view)[name]);
    }
  }

  predicate InView(items: seq<Seen>, name: string) {
    exists i | 0 <= i < |items| && i < MAX_LIST_ITEMS :: items[i].name == name
  }

  predicate AllSuccess(items: seq<Seen>) { forall i | 0 <= i < |items| :: items[i].category == Success }

  predicate AllInView(names: seq<string>, items: seq<Seen>) { forall n | n in names :: InView(items, n) }

  lemma {:induction false} ViewNames(items: seq<Seen>, name: string)
    ensures name in Observed(Bounded(items)) <==> InView(items, name)
  {
    ObservedNames(Bounded(items), name);
    if InView(items, name) {
      var i :| 0 <= i < |items| && i < MAX_LIST_ITEMS && items[i].name == name;
      assert Bounded(items)[i].name == name;
    }
  }

  /** The strict gate passes exactly when every entry is successful and every required name stands
      among the first fifty; the non-blocking gate reports a pass in the same cases. */
  lemma {:induction false} StrictExactly(items: seq<Seen>, required: set<string>)
    ensures Refused(SummaryOf(items), required) == None <==>
      AllSuccess(items) && forall n | n in required :: InView(items, n)
    ensures StateOf(SummaryOf(items), required) == AllPassed <==> Refused(SummaryOf(items), required) == None
  {
    CountZero(items, Failed);
    CountZero(items, Unknown);
    CountZero(items, Waiting);
    var observed := Observed(Bounded(items));
    forall n | n in required ensures n in observed <==> InView(items, n) {
      ViewNames(items, n);
    }
    if AllSuccess(items) {
      forall n | n in observed ensures observed[n] == Success {
        ObservedNames(Bounded(items), n);
      }
    }
    if Refused(SummaryOf(items), required) == None {
      forall i | 0 <= i < |items| ensures items[i].category == Success {}
      forall n | n in required ensures n in observed { assert n !in required - observed.Keys; }
    } else if forall n | n in required :: InView(items, n) {
      assert required - observed.Keys == {};
    }
  }

  /** A green required check behind the fiftieth entry counts as missing. */
  lemma {:induction false} BeyondTheView(items: seq<Seen>, required: set<string>, name: string)
    requires name in required && !InView(items, name) && AllSuccess(items)
    ensures Refused(SummaryOf(items), required) == Some(RequiredNotPresent)
  {
    CountZero(items, Failed);
    CountZero(items, Unknown);
    CountZero(items, Waiting);
    var observed := Observed(Bounded(items));
    ViewNames(items, name);
    assert name in required - observed.Keys;
    forall n | n in observed ensures observed[n] == Success {
      ObservedNames(Bounded(items), n);
    }
    assert (set n | n in required && n in observed && observed[n] != Success) == {};
  }

  // ---- policy ----------------------------------------------------------------------

  datatype JobName = Unnamed | BadName | JobName(text: string)

  /** A job of the CI workflow, as parsed from YAML; a bad id is no non-empty string. */
  datatype Job = Job(id: Option<string>, mapping: bool, matrix: bool, name: JobName)

  /** The required-check policy with its self-hash; `source` is the commit it was read at. */
  datatype Policy<+C> = Policy(fromBaseCi: bool, source: C, workflowPath: bool, hash: nat, names: seq<string>)

  predicate Contains(s: string, needle: string) {
    needle <= s || (s != "" && Contains(s[1..], needle))
  }

  /** The check a static job reports under, if it is one. */
  function CheckName(job: Job): Option<string> {
    if job.id.None? || Strip(job.id.value) == "" || !job.mapping || job.matrix then None
    else
      match job.name
      case Unnamed => Static(Strip(job.id.value))
      case BadName => None
      case JobName(text) => if Strip(text) == "" then None else Static(Strip(text))
  }

  function Static(name: string): Option<string> { if Contains(name, "${{") then None else Some(name) }

  ghost predicate Within(s: string, needle: string) {
    exists before: string, after: string :: s == before + needle + after
  }

  lemma {:induction false} ContainsExactly(s: string, needle: string)
    ensures Contains(s, needle) <==> Within(s, needle)
  {
    if Contains(s, needle) {
      if needle <= s {
        assert s == "" + needle + s[|needle|..];
      } else {
        ContainsExactly(s[1..], needle);
        var before: string, after: string :| s[1..] == before + needle + after;
        assert s == ([s[0]] + before) + needle + after;
      }
    }
    if Within(s, needle) && !(needle <= s) {
      var before: string, after: string :| s == before + needle + after;
      assert before != "";
      assert s[1..] == before[1..] + needle + after;
      ContainsExactly(s[1..], needle);
    }
  }

  /** A job that has an id and no matrix reports under its name, or else its id, stripped; neither may be
      blank, and a name with an expression in it is none. */
  lemma {:induction false} CheckNameExactly(job: Job)
    ensures CheckName(job).Some? <==>
      && job.id.Some? && !AllSpace(job.id.value) && job.mapping && !job.matrix
      && !job.name.BadName? && (job.name.JobName? ==> !AllSpace(job.name.text))
      && !Within(Strip(if job.name.JobName? then job.name.text else job.id.value), "${{")
    ensures CheckName(job).Some? ==>
      && CheckName(job).value == Strip(if job.name.JobName? then job.name.text else job.id.value)
      && CheckName(job).value != ""
  {
    if job.id.Some? {
      StripEmpty(job.id.value);
      ContainsExactly(Strip(job.id.value), "${{");
    }
    if job.name.JobName? {
      StripEmpty(job.name.text);
      ContainsExactly(Strip(job.name.text), "${{");
    }
  }

  predicate Distinct(names: seq<string>) { forall i, j | 0 <= i < j < |names| :: names[i] != names[j] }

  /** Every job is static, and no two of them report under one name. */
  ghost predicate SupportedWorkflow(jobs: seq<Job>) {
    && jobs != [] && (forall i | 0 <= i < |jobs| :: CheckName(jobs[i]).Some?)
    && (forall i, j | 0 <= i < j < |jobs| :: CheckName(jobs[i]) != CheckName(jobs[j]))
  }

  /** Accepted exactly for supported workflows; the names are the jobs' own, in order. */
  method ParseRequiredChecksWorkflow<C>(jobs: seq<Job>, source: C, sha: seq<string> -> nat)
    returns (r: Option<Policy<C>>)
    ensures r.Some? <==> SupportedWorkflow(jobs)
    ensures r.Some? ==>
      && r.value == Policy(true, source, true, sha(r.value.names), r.value.names) && |r.value.names| == |jobs|
      && forall i | 0 <= i < |jobs| :: CheckName(jobs[i]) == Some(r.value.names[i])
  {
    if jobs == [] { return None; }
    var names: seq<string> := [];
    for k := 0 to |jobs|
      invariant |names| == k && (forall i | 0 <= i < k :: CheckName(jobs[i]) == Some(names[i])) && Distinct(names)
    {
      var name := CheckName(jobs[k]);
      if name.None? { return None; }
      if name.value in names {
        var i :| 0 <= i < |names| && names[i] == name.value;
        assert CheckName(jobs[i]) == CheckName(jobs[k]);
        return None;
      }
      names := names + [name.value];
    }
    r := Some(Policy(true, source, true, sha(names), names));
  }

  predicate ValidPolicy<C>(p: Policy<C>, sha: seq<string> -> nat) {
    && p.fromBaseCi && p.workflowPath && sha(p.names) == p.hash
    && Distinct(p.names) && forall i | 0 <= i < |p.names| :: p.names[i] != ""
  }

  method RequiredCheckContract<C>(p: Policy<C>, sha: seq<string> -> nat) returns (r: Option<seq<string>>)
    ensures r == if ValidPolicy(p, sha) then Some(p.names) else None
  {
    if !p.fromBaseCi { return None; }
    var names: seq<string> := [];
    for k := 0 to |p.names|
      invariant names == p.names[..k] && Distinct(names) && forall i | 0 <= i < k :: names[i] != ""
    {
      if p.names[k] == "" { return None; }
      if p.names[k] in names {
        var i :| 0 <= i < |names| && names[i] == p.names[k];
        assert p.names[i] == p.names[k];
        return None;
      }
      names := names + [p.names[k]];
    }
    assert p.names[..|p.names|] == p.names;
    if !p.workflowPath || sha(names) != p.hash { return None; }
    r := Some(names);
  }

  /** Every policy the parser emits is accepted by the validator, with the same names. */
  lemma {:induction false} ParsedIsValid<C>(jobs: seq<Job>, p: Policy<C>, sha: seq<string> -> nat)
    requires SupportedWorkflow(jobs) && p.fromBaseCi && p.workflowPath && p.hash == sha(p.names)
    requires |p.names| == |jobs| && forall i | 0 <= i < |jobs| :: CheckName(jobs[i]) == Some(p.names[i])
    ensures ValidPolicy(p, sha) && p.names != []
  {
  }

  /** The check side of an operation snapshot: PR base and head, rollup, policy if bound. */
  datatype Snapshot<+C> = Snapshot(base: C, head: C, rollup: Option<seq<Entry>>, required: Option<Policy<C>>)

  /** Read the policy at the PR base, never at its head or from the working tree. */
  method BindRequiredChecks<C>(x: Snapshot<C>, workflowAt: C -> seq<Job>, sha: seq<string> -> nat)
    returns (r: Option<Snapshot<C>>)
    ensures r.Some? ==> r.value == x.(required := r.value.required) && r.value.required.Some?
    ensures r.Some? ==> ValidPolicy(r.value.required.value, sha)
    ensures x.required.None? ==> (r.Some? <==> SupportedWorkflow(workflowAt(x.base)))
    ensures x.required.None? && r.Some? ==> BaseBound(r.value, workflowAt)
    ensures x.required.Some? ==> r == if ValidPolicy(x.required.value, sha) then Some(x) else None
  {
    if x.required.Some? {
      var kept := RequiredCheckContract(x.required.value, sha);
      return if kept.Some? then Some(x) else None;
    }
    var parsed := ParseRequiredChecksWorkflow(workflowAt(x.base), x.base, sha);
    if parsed.None? { return None; }
    ParsedIsValid(workflowAt(x.base), parsed.value, sha);
    var names := RequiredCheckContract(parsed.value, sha);
    r := Some(x.(required := parsed));
  }

  /** The bound policy says what the workflow at the base commit says. */
  ghost predicate BaseBound<C>(x: Snapshot<C>, workflowAt: C -> seq<Job>) {
    && x.required.Some? && x.required.value.source == x.base
    && var jobs, names := workflowAt(x.base), x.required.value.names;
       |names| == |jobs| && forall i | 0 <= i < |jobs| :: CheckName(jobs[i]) == Some(names[i])
  }

  /** Strict evaluation of a bound snapshot. */
  method Evaluate<C(==)>(x: Snapshot<C>, sha: seq<string> -> nat, t: Strings) returns (pass: bool)
    ensures pass <==>
      && x.required.Some? && ValidPolicy(x.required.value, sha) && x.required.value.source == x.base
      && var items := if x.rollup.Some? then Readings(x.rollup.value, t) else [];
         AllSuccess(items) && AllInView(x.required.value.names, items)
  {
    if x.required.None? { return false; }
    var names := RequiredCheckContract(x.required.value, sha);
    if names.None? || x.required.value.source != x.base { return false; }
    var required := set n | n in names.value;
    var state, refusal := EvaluatePrChecks(x.rollup, required, true, t);
    StrictExactly(if x.rollup.Some? then Readings(x.rollup.value, t) else [], required);
    pass := refusal.None?;
  }

  /** The base workflow is supported, every mapping entry of the rollup says SUCCESS or NEUTRAL, and every
      job of that workflow reports among the first fifty of them. */
  ghost predicate Green(jobs: seq<Job>, rollup: Option<seq<Entry>>, t: Strings) {
    && SupportedWorkflow(jobs) && rollup.Some?
    && (forall i | 0 <= i < |rollup.value| :: Succeeds(rollup.value[i], t))
    && (forall k | 0 <= k < |jobs| ::
          CheckName(jobs[k]).Some? && Reported(rollup.value, CheckName(jobs[k]).value, t))
  }

  /** Every job is static and reports in the view. */
  predicate JobsInView(jobs: seq<Job>, items: seq<Seen>) {
    forall i | 0 <= i < |jobs| :: CheckName(jobs[i]).Some? && InView(items, CheckName(jobs[i]).value)
  }

  lemma {:induction false} GreenExactly(jobs: seq<Job>, rollup: Option<seq<Entry>>, t: Strings)
    ensures var items := if rollup.Some? then Readings(rollup.value, t) else [];
      Green(jobs, rollup, t) <==> SupportedWorkflow(jobs) && AllSuccess(items) && JobsInView(jobs, items)
  {
    if rollup.Some? {
      SuccessExactly(rollup.value, t);
      forall k | 0 <= k < |jobs| && CheckName(jobs[k]).Some?
        ensures InView(Readings(rollup.value, t), CheckName(jobs[k]).value) <==>
          Reported(rollup.value, CheckName(jobs[k]).value, t)
      {
        InViewExactly(rollup.value, CheckName(jobs[k]).value, t);
      }
    } else if jobs != [] && CheckName(jobs[0]).Some? {
      assert !InView([], CheckName(jobs[0]).value);
    }
  }

  /** One failed, cancelled, waiting or unknown entry is enough to refuse. */
  lemma {:induction false} OtherStateRefused(jobs: seq<Job>, rollup: seq<Entry>, i: nat, t: Strings)
    requires i < |rollup| && rollup[i].Entry? && Effective(rollup[i], t) !in {"SUCCESS", "NEUTRAL"}
    ensures !Green(jobs, Some(rollup), t)
  {
    assert !Succeeds(rollup[i], t);
  }

  lemma {:induction false} NamesInView(jobs: seq<Job>, names: seq<string>, items: seq<Seen>)
    requires |names| == |jobs| && forall i | 0 <= i < |jobs| :: CheckName(jobs[i]) == Some(names[i])
    ensures AllInView(names, items) <==> JobsInView(jobs, items)
  {
    if AllInView(names, items) {
      forall i | 0 <= i < |jobs| ensures InView(items, CheckName(jobs[i]).value) {
        assert names[i] in names;
      }
    } else {
      var n :| n in names && !InView(items, n);
      var i :| 0 <= i < |names| && names[i] == n;
      assert CheckName(jobs[i]).value == n;
    }
  }

  /** Bind and evaluate, as an operation does on a fresh snapshot: nothing but the workflow at the
      base commit and the rollup decides. */
  method StrictGate<C(==)>(x: Snapshot<C>, workflowAt: C -> seq<Job>, sha: seq<string> -> nat, t: Strings)
    returns (pass: bool)
    requires x.required.None?
    ensures pass <==> Green(workflowAt(x.base), x.rollup, t)
  {
    var bound := BindRequiredChecks(x, workflowAt, sha);
    if bound.None? { return false; }
    pass := Evaluate(bound.value, sha, t);
    var items := if x.rollup.Some? then Readings(x.rollup.value, t) else [];
    assert BaseBound(bound.value, workflowAt) && bound.value.rollup == x.rollup && bound.value.base == x.base;
    NamesInView(workflowAt(x.base), bound.value.required.value.names, items);
    GreenExactly(workflowAt(x.base), x.rollup, t);
  }

  /** Two candidates on one base with the same rollup get the same answer, whatever their heads. */
  method SameAnswer<C(==)>(x: Snapshot<C>, y: Snapshot<C>, workflowAt: C -> seq<Job>, sha: seq<string> -> nat,
                           t: Strings)
    returns (p: bool, q: bool)
    requires x.required.None? && y.required.None? && x.base == y.base && x.rollup == y.rollup
    ensures p == q
  {
    p := StrictGate(x, workflowAt, sha, t);
    q := StrictGate(y, workflowAt, sha, t);
  }
}
