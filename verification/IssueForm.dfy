/** Issue Form contracts: the template loader, the parser of a rendered body, and the proof that
    parsing undoes rendering. */
module IssueForm {
  import opened Wrappers
  import opened Text
  import opened Markdown

  // ---- template --------------------------------------------------------------------

  /** A body item of an Issue Form, as parsed from YAML. */
  datatype Field = Malformed | Field(required: bool, textarea: bool, id: Option<string>, labelText: Option<string>)

  datatype Template = Template(fieldIds: seq<string>, labels: seq<string>)

  datatype TemplateError = InvalidItem | NotTextarea | MissingIdOrLabel | NotUnique | NoRequiredSections

  datatype Loaded = Usable(template: Template) | Unusable(error: TemplateError)

  predicate Named(f: Field) {
    f.Field? && f.id.Some? && Strip(f.id.value) != "" && f.labelText.Some? && Strip(f.labelText.value) != ""
  }

  predicate Required(f: Field) { f.Field? && f.required }

  function Requireds(fields: seq<Field>): seq<Field> {
    if fields == [] then []
    else
      var last := fields[|fields| - 1];
      Requireds(fields[..|fields| - 1]) + if Required(last) then [last] else []
  }

  predicate WellFormed(f: Field) {
    f.Field? && (f.required ==> f.textarea && Named(f))
  }

  function Id(f: Field): string { if f.Field? && f.id.Some? then Strip(f.id.value) else "" }

  function Label(f: Field): string { if f.Field? && f.labelText.Some? then Collapse(f.labelText.value) else "" }

  function Ids(fields: seq<Field>): seq<string> {
    seq(|fields|, i requires 0 <= i < |fields| => Id(fields[i]))
  }

  function Labels(fields: seq<Field>): seq<string> {
    seq(|fields|, i requires 0 <= i < |fields| => Label(fields[i]))
  }

  /** No two of these are the same up to case. */
  predicate Distinct(names: seq<string>, fold: string -> string) {
    forall i, j | 0 <= i < j < |names| :: fold(names[i]) != fold(names[j])
  }

  predicate UsableTemplate(fields: seq<Field>, fold: string -> string) {
    var req := Requireds(fields);
    && (forall f | f in fields :: WellFormed(f))
    && req != [] && Distinct(Ids(req), fold) && Distinct(Labels(req), fold)
  }

  function Folded(names: seq<string>, fold: string -> string): set<string> {
    set name | name in names :: fold(name)
  }

  lemma {:induction false} FoldedSnoc(names: seq<string>, name: string, fold: string -> string)
    ensures Folded(names + [name], fold) == Folded(names, fold) + {fold(name)}
    ensures Distinct(names + [name], fold) <==> Distinct(names, fold) && fold(name) !in Folded(names, fold)
  {
    var all := names + [name];
    assert name == all[|names|] && forall n | n in names :: n in all;
    if fold(name) in Folded(names, fold) {
      var k :| 0 <= k < |names| && fold(names[k]) == fold(name);
      assert all[k] == names[k];
    }
    if Distinct(all, fold) {
      forall i, j | 0 <= i < j < |names| ensures fold(names[i]) != fold(names[j]) {
        assert all[i] == names[i] && all[j] == names[j];
      }
    }
  }

  lemma {:induction false} DistinctPrefix(a: seq<string>, b: seq<string>, fold: string -> string)
    requires a <= b && Distinct(b, fold)
    ensures Distinct(a, fold)
  {
  }

  /** Accepted exactly when every item is well formed and the required ids and labels are distinct;
      the contract lists them in order, normalised. */
  method LoadIssueFormTemplate(fields: seq<Field>, fold: string -> string) returns (r: Loaded)
    ensures r.Usable? <==> UsableTemplate(fields, fold)
    ensures r.Usable? ==> r.template == Template(Ids(Requireds(fields)), Labels(Requireds(fields)))
  {
    var ids: seq<string>, labels: seq<string> := [], [];
    var idKeys: set<string>, labelKeys: set<string> := {}, {};
    for k := 0 to |fields|
      invariant ids == Ids(Requireds(fields[..k])) && labels == Labels(Requireds(fields[..k]))
      invariant idKeys == Folded(ids, fold) && labelKeys == Folded(labels, fold)
      invariant Distinct(ids, fold) && Distinct(labels, fold)
      invariant forall f | f in fields[..k] :: WellFormed(f)
    {
      var field := fields[k];
      assert field in fields;
      assert fields[..k + 1][..k] == fields[..k];
      if field.Malformed? { return Unusable(InvalidItem); }
      if !field.required { continue; }
      if !field.textarea { return Unusable(NotTextarea); }
      if !Named(field) { return Unusable(MissingIdOrLabel); }
      FoldedSnoc(ids, Id(field), fold);
      FoldedSnoc(labels, Label(field), fold);
      RequiredsSnoc(fields, k);
      if fold(Id(field)) in idKeys || fold(Label(field)) in labelKeys {
        RequiredsPrefix(fields, k + 1, fold);
        return Unusable(NotUnique);
      }
      idKeys, labelKeys := idKeys + {fold(Id(field))}, labelKeys + {fold(Label(field))};
      ids, labels := ids + [Id(field)], labels + [Label(field)];
    }
    assert fields[..|fields|] == fields;
    if labels == [] { return Unusable(NoRequiredSections); }
    r := Usable(Template(ids, labels));
  }

  lemma {:induction false} RequiredsSnoc(fields: seq<Field>, k: nat)
    requires k < |fields| && Required(fields[k])
    ensures Ids(Requireds(fields[..k + 1])) == Ids(Requireds(fields[..k])) + [Id(fields[k])]
    ensures Labels(Requireds(fields[..k + 1])) == Labels(Requireds(fields[..k])) + [Label(fields[k])]
  {
    assert fields[..k + 1][..k] == fields[..k];
  }

  /** A clash found on the way stays a clash. */
  lemma {:induction false} RequiredsPrefix(fields: seq<Field>, k: nat, fold: string -> string)
    requires k <= |fields|
    ensures Requireds(fields[..k]) <= Requireds(fields)
    ensures Distinct(Ids(Requireds(fields)), fold) ==> Distinct(Ids(Requireds(fields[..k])), fold)
    ensures Distinct(Labels(Requireds(fields)), fold) ==> Distinct(Labels(Requireds(fields[..k])), fold)
    decreases |fields|
  {
    if k == |fields| {
      assert fields[..k] == fields;
    } else {
      var init := fields[..|fields| - 1];
      RequiredsPrefix(init, k, fold);
      assert init[..k] == fields[..k];
      if Distinct(Ids(Requireds(fields)), fold) {
        DistinctPrefix(Ids(Requireds(fields[..k])), Ids(Requireds(fields)), fold);
      }
      if Distinct(Labels(Requireds(fields)), fold) {
        DistinctPrefix(Labels(Requireds(fields[..k])), Labels(Requireds(fields)), fold);
      }
    }
  }

  /** A required item needs a textarea, an id and a label that are not blank. */
  lemma {:induction false} WellFormedExactly(f: Field)
    ensures WellFormed(f) <==>
      && f.Field?
      && (f.required ==>
            && f.textarea && f.id.Some? && !AllSpace(f.id.value)
            && f.labelText.Some? && !AllSpace(f.labelText.value))
  {
    if f.Field? && f.id.Some? {
      StripEmpty(f.id.value);
    }
    if f.Field? && f.labelText.Some? {
      StripEmpty(f.labelText.value);
    }
  }

  // ---- parser ----------------------------------------------------------------------

  datatype Parsed = Parsed(pass: bool, missing: seq<string>, duplicates: seq<string>, empty: seq<string>,
                           sections: seq<(string, string)>)

  function Pick(labels: seq<string>, keep: string -> bool): seq<string> {
    if labels == [] then []
    else Pick(labels[..|labels| - 1], keep) + if keep(labels[|labels| - 1]) then [labels[|labels| - 1]] else []
  }

  /** How often a section with this key was extracted. */
  function Occurrences(sections: seq<(string, string)>, key: string, fold: string -> string): nat {
    if sections == [] then 0
    else
      var last := sections[|sections| - 1];
      Occurrences(sections[..|sections| - 1], key, fold) + if fold(last.0) == key then 1 else 0
  }

  predicate HasEmpty(sections: seq<(string, string)>, key: string, fold: string -> string) {
    exists k | 0 <= k < |sections| :: fold(sections[k].0) == key && sections[k].1 == ""
  }

  function CanonicalKeys(labels: seq<string>, fold: string -> string): Keys {
    Some(set l | l in labels :: fold(Collapse(l)))
  }

  function NameAndContent(ss: seq<Section>): seq<(string, string)> {
    seq(|ss|, i requires 0 <= i < |ss| => (ss[i].name, ss[i].content))
  }

  function ParseIssueForm(labels: seq<string>, lines: seq<string>, fold: string -> string): Parsed {
    if Strip(Join(lines)) == "" then Parsed(false, [], [], [], [])
    else
      var sections := NameAndContent(ExtractedSections(Atx(fold), lines, CanonicalKeys(labels, fold)));
      var missing := Pick(labels, l => Occurrences(sections, fold(l), fold) == 0);
      var duplicates := Pick(labels, l => Occurrences(sections, fold(l), fold) > 1);
      var empty := Pick(labels, l => HasEmpty(sections, fold(l), fold));
      Parsed(missing == duplicates == empty == [], missing, duplicates, empty, sections)
  }

  lemma {:induction false} PickNone(labels: seq<string>, keep: string -> bool)
    ensures Pick(labels, keep) == [] <==> forall l | l in labels :: !keep(l)
  {
    if labels != [] {
      var init, last := labels[..|labels| - 1], labels[|labels| - 1];
      assert labels == init + [last];
      PickNone(init, keep);
    }
  }

  lemma {:induction false} Picked(labels: seq<string>, keep: string -> bool, l: string)
    ensures l in Pick(labels, keep) <==> l in labels && keep(l)
  {
    if labels != [] {
      var init, last := labels[..|labels| - 1], labels[|labels| - 1];
      assert labels == init + [last];
      Picked(init, keep, l);
    }
  }

  predicate Has(sections: seq<(string, string)>, k: int, key: string, fold: string -> string) {
    0 <= k < |sections| && fold(sections[k].0) == key
  }

  lemma {:induction false} OccurrencesSay(sections: seq<(string, string)>, key: string, fold: string -> string)
    ensures Occurrences(sections, key, fold) >= 1 <==> exists k :: Has(sections, k, key, fold)
    ensures Occurrences(sections, key, fold) >= 2 <==>
      exists j, k :: j < k && Has(sections, j, key, fold) && Has(sections, k, key, fold)
  {
    if sections != [] {
      var n, init := |sections| - 1, sections[..|sections| - 1];
      OccurrencesSay(init, key, fold);
      assert forall k | 0 <= k < n :: init[k] == sections[k];
      assert forall k | 0 <= k < n :: Has(init, k, key, fold) == Has(sections, k, key, fold);
      assert Has(sections, n, key, fold) <==> fold(sections[n].0) == key;
      if j, k :| j < k && Has(sections, j, key, fold) && Has(sections, k, key, fold) {
        assert Has(init, j, key, fold);
        assert k < n ==> Has(init, k, key, fold);
      }
    }
  }

  /** A label is missing, duplicated or empty exactly when no section, two of them or one without content
      bears its name. */
  lemma {:induction false} ListsExactly(labels: seq<string>, lines: seq<string>, fold: string -> string, l: string)
    requires !AllSpace(Join(lines)) && l in labels
    ensures var p := ParseIssueForm(labels, lines, fold);
      && (l in p.missing <==> !exists k :: Has(p.sections, k, fold(l), fold))
      && (l in p.duplicates <==>
            exists j, k :: j < k && Has(p.sections, j, fold(l), fold) && Has(p.sections, k, fold(l), fold))
      && (l in p.empty <==> exists k :: Has(p.sections, k, fold(l), fold) && p.sections[k].1 == "")
  {
    StripEmpty(Join(lines));
    ListsSay(labels, ParseIssueForm(labels, lines, fold).sections, fold, l);
  }

  lemma {:induction false} ListsSay(labels: seq<string>, sections: seq<(string, string)>, fold: string -> string,
                                    l: string)
    requires l in labels
    ensures l in Pick(labels, l => Occurrences(sections, fold(l), fold) == 0) <==>
      !exists k :: Has(sections, k, fold(l), fold)
    ensures l in Pick(labels, l => Occurrences(sections, fold(l), fold) > 1) <==>
      exists j, k :: j < k && Has(sections, j, fold(l), fold) && Has(sections, k, fold(l), fold)
    ensures l in Pick(labels, l => HasEmpty(sections, fold(l), fold)) <==>
      exists k :: Has(sections, k, fold(l), fold) && sections[k].1 == ""
  {
    Picked(labels, l => Occurrences(sections, fold(l), fold) == 0, l);
    Picked(labels, l => Occurrences(sections, fold(l), fold) > 1, l);
    Picked(labels, l => HasEmpty(sections, fold(l), fold), l);
    OccurrencesSay(sections, fold(l), fold);
  }

  /** A body passes exactly when every required section occurs once, with content. */
  lemma {:induction false} PassesExactly(labels: seq<string>, lines: seq<string>, fold: string -> string)
    requires Strip(Join(lines)) != ""
    ensures var p := ParseIssueForm(labels, lines, fold);
      p.pass <==> forall l | l in labels ::
        Occurrences(p.sections, fold(l), fold) == 1 && !HasEmpty(p.sections, fold(l), fold)
  {
    var sections := ParseIssueForm(labels, lines, fold).sections;
    PickNone(labels, l => Occurrences(sections, fold(l), fold) == 0);
    PickNone(labels, l => Occurrences(sections, fold(l), fold) > 1);
    PickNone(labels, l => HasEmpty(sections, fold(l), fold));
  }

  // ---- printer ---------------------------------------------------------------------

  /** One rendered field: heading, blank line, content, blank line. */
  function Rendered(label_: string, content: seq<string>): seq<string> {
    ["### " + label_, ""] + content + [""]
  }

  function Concat(blocks: seq<seq<string>>): seq<string> {
    if blocks == [] then [] else Concat(blocks[..|blocks| - 1]) + blocks[|blocks| - 1]
  }

  function Render(labels: seq<string>, contents: seq<seq<string>>): seq<string>
    requires |labels| == |contents|
  {
    Concat(seq(|labels|, i requires 0 <= i < |labels| => Rendered(labels[i], contents[i])))
  }

  /** Fences balance, and outside them no heading is canonical or above level 4. */
  predicate Contained(content: seq<string>, keys: Keys, g: Grammar) {
    && FenceAfter(g, None, content) == None
    && forall h | h in Headings(g, None, content, 0) :: h.level > 3 && !Selected(h.name, keys, g)
  }

  lemma {:induction false} TitleLine(label_: string)
    requires label_ != "" && Collapse(label_) == label_
    ensures FenceMarker("### " + label_) == None
    ensures AtxHeading("### " + label_) == Some((3, label_))
  {
    var line := "### " + label_;
    assert line[3..] == " " + label_ && line[1..][0] == line[2..][0] == '#' && line[1..][1..] == line[2..];
    assert line[2..][1..] == line[3..] && Run(line[3..], '#') == 0;
    assert Run(line[2..], '#') == 1;
    assert Run(line[1..], '#') == 2;
    var rest := line[3..];
    assert rest[1..] == label_ && Words(rest) == Words(label_);
    assert line[Blanks(line)..] == line;
  }

  lemma {:induction false} NeverEnds(hs: seq<Heading>, p: nat, q: nat, total: nat, keys: Keys, g: Grammar)
    requires p < |hs| && q <= |hs|
    requires forall r | q <= r < |hs| :: !EndsSection(hs[p], hs[r], keys, g)
    ensures SectionEnd(hs, p, q, total, keys, g) == total
    decreases |hs| - q
  {
    if q < |hs| {
      NeverEnds(hs, p, q + 1, total, keys, g);
    }
  }

  lemma {:induction false} GatherNothing<T>(f: nat -> seq<T>, n: nat)
    requires n > 0 && forall p: nat | 0 < p < n :: f(p) == []
    ensures Gather(f, n) == f(0)
  {
    if n == 1 {
      assert Gather(f, 0) == [];
    } else {
      GatherNothing(f, n - 1);
    }
  }

  /** The headings of a rendered field: its own, then those inside the content. */
  lemma {:induction false} RenderedHeadings(g: Grammar, title: string, name: string, content: seq<string>)
    requires g.opens(title).None? && g.heading(title) == Some((3, name))
    requires g.opens("").None? && g.heading("").None?
    requires FenceAfter(g, None, content).None?
    ensures var lines := [title, ""] + content + [""];
      && FenceAfter(g, None, lines).None?
      && Headings(g, None, lines, 0) ==
           [Heading(0, name, 3)] + Shifted(Headings(g, None, content, 0), 2)
  {
    assert [title, ""] == ([] + [title]) + [""];
    HeadingsSnoc(g, None, [], title, 0);
    HeadingsSnoc(g, None, [] + [title], "", 0);
    HeadingsAfterUnfenced(g, [title, ""], content);
    FenceJoin(g, None, [title, ""], content);
    HeadingsSnoc(g, None, [title, ""] + content, "", 0);
  }

  /** A canonical heading followed by deeper, non-canonical ones only is one section. */
  lemma {:induction false} OneSection(lines: seq<string>, hs: seq<Heading>, keys: Keys, g: Grammar)
    requires hs != [] && Selected(hs[0].name, keys, g) && keys.Some?
    requires forall p | 0 < p < |hs| :: hs[p].level > hs[0].level && !Selected(hs[p].name, keys, g)
    ensures Gather(SectionOf(lines, hs, keys, g), |hs|) ==
      [Section(hs[0].name, hs[0].level, g.text(Slice(lines, hs[0].line + 1, |lines|)))]
  {
    NeverEnds(hs, 0, 1, |lines|, keys, g);
    GatherNothing(SectionOf(lines, hs, keys, g), |hs|);
  }

  lemma {:induction false} InnerHeadings(hs: seq<Heading>, head: Heading, inner: seq<Heading>, keys: Keys, g: Grammar)
    requires hs == [head] + Shifted(inner, 2)
    requires forall h | h in inner :: h.level > 3 && !Selected(h.name, keys, g)
    ensures forall p | 0 < p < |hs| :: hs[p].level > 3 && !Selected(hs[p].name, keys, g)
  {
  }

  lemma {:induction false} RenderedBody(title: string, content: seq<string>)
    ensures var lines := [title, ""] + content + [""]; Slice(lines, 1, |lines|) == [""] + content + [""]
  {
  }

  lemma {:induction false} RenderedSection(g: Grammar, title: string, name: string, content: seq<string>, keys: Keys)
    requires g.opens(title).None? && g.heading(title) == Some((3, name)) && Selected(name, keys, g)
    requires g.opens("").None? && g.heading("").None? && keys.Some?
    requires Contained(content, keys, g)
    ensures ExtractedSections(g, [title, ""] + content + [""], keys) ==
      [Section(name, 3, g.text([""] + content + [""]))]
  {
    var lines := [title, ""] + content + [""];
    var inner := Headings(g, None, content, 0);
    RenderedHeadings(g, title, name, content);
    InnerHeadings(Headings(g, None, lines, 0), Heading(0, name, 3), inner, keys, g);
    OneSection(lines, Headings(g, None, lines, 0), keys, g);
    RenderedBody(title, content);
  }

  /** What `Render` is parsed back into. */
  function Expected(labels: seq<string>, contents: seq<seq<string>>): seq<Section>
    requires |labels| == |contents|
  {
    seq(|labels|, i requires 0 <= i < |labels| => Section(labels[i], 3, Strip(Join(contents[i]))))
  }

  /** Labels as the template loader makes them: normalised, not empty. */
  predicate Normalised(labels: seq<string>) {
    forall l | l in labels :: l != "" && Collapse(l) == l
  }

  lemma {:induction false} OneFieldBack(name: string, content: seq<string>, keys: Keys, fold: string -> string)
    requires name != "" && Collapse(name) == name && keys.Some? && fold(name) in keys.value
    requires Contained(content, keys, Atx(fold))
    ensures FenceAfter(Atx(fold), None, Rendered(name, content)).None?
    ensures CanonicalHeading(Atx(fold), Rendered(name, content)[0], keys)
    ensures ExtractedSections(Atx(fold), Rendered(name, content), keys) == [Section(name, 3, Strip(Join(content)))]
  {
    TitleLine(name);
    RenderedHeadings(Atx(fold), "### " + name, name, content);
    RenderedSection(Atx(fold), "### " + name, name, content, keys);
    StripBlankLines(content);
  }

  /** This block alone is read as this section, and can follow any other block. */
  ghost predicate ReadsAs(g: Grammar, block: seq<string>, section: Section, keys: Keys) {
    && FenceAfter(g, None, block).None? && block != [] && CanonicalHeading(g, block[0], keys)
    && ExtractedSections(g, block, keys) == [section]
  }

  lemma {:induction false} OneMoreBlock(g: Grammar, a: seq<string>, b: seq<string>, before: seq<Section>,
                                        last: Section, keys: Keys)
    requires FenceAfter(g, None, a).None? && ExtractedSections(g, a, keys) == before
    requires ReadsAs(g, b, last, keys)
    ensures FenceAfter(g, None, a + b).None? && ExtractedSections(g, a + b, keys) == before + [last]
  {
    FenceJoin(g, None, a, b);
    CanonicalSplit(g, a, b, keys);
  }

  lemma {:induction false} BlocksRead(g: Grammar, blocks: seq<seq<string>>, sections: seq<Section>, keys: Keys)
    requires |blocks| == |sections|
    requires forall i | 0 <= i < |blocks| :: ReadsAs(g, blocks[i], sections[i], keys)
    ensures FenceAfter(g, None, Concat(blocks)).None?
    ensures ExtractedSections(g, Concat(blocks), keys) == sections
  {
    if blocks == [] {
      assert Headings(g, None, [], 0) == [];
    } else {
      var n := |blocks| - 1;
      BlocksRead(g, blocks[..n], sections[..n], keys);
      OneMoreBlock(g, Concat(blocks[..n]), blocks[n], sections[..n], sections[n], keys);
      assert sections == sections[..n] + [sections[n]];
    }
  }

  /** Reading back what was rendered gives exactly the labels and their stripped contents. */
  lemma {:induction false} RenderThenExtract(labels: seq<string>, contents: seq<seq<string>>, keys: Keys,
                                             fold: string -> string)
    requires |labels| == |contents| && Normalised(labels) && keys.Some?
    requires forall l | l in labels :: fold(l) in keys.value
    requires forall c | c in contents :: Contained(c, keys, Atx(fold))
    ensures ExtractedSections(Atx(fold), Render(labels, contents), keys) == Expected(labels, contents)
  {
    var blocks := seq(|labels|, i requires 0 <= i < |labels| => Rendered(labels[i], contents[i]));
    forall i | 0 <= i < |blocks| ensures ReadsAs(Atx(fold), blocks[i], Expected(labels, contents)[i], keys) {
      assert labels[i] in labels && contents[i] in contents;
      OneFieldBack(labels[i], contents[i], keys, fold);
    }
    BlocksRead(Atx(fold), blocks, Expected(labels, contents), keys);
  }

  // ---- the contract, there and back ------------------------------------------------

  lemma {:induction false} TemplateLabels(fields: seq<Field>, fold: string -> string)
    requires UsableTemplate(fields, fold)
    ensures var labels := Labels(Requireds(fields)); labels != [] && Normalised(labels) && Distinct(labels, fold)
  {
    var req := Requireds(fields);
    forall i | 0 <= i < |req| ensures Label(req[i]) != "" && Collapse(Label(req[i])) == Label(req[i]) {
      RequiredsAreFields(fields, i);
      CollapseNonEmpty(req[i].labelText.value);
      CollapseIdempotent(req[i].labelText.value);
    }
  }

  lemma {:induction false} RequiredsAreFields(fields: seq<Field>, i: nat)
    requires i < |Requireds(fields)|
    ensures Requireds(fields)[i] in fields && Required(Requireds(fields)[i])
  {
    var init := fields[..|fields| - 1];
    if i < |Requireds(init)| {
      RequiredsAreFields(init, i);
    }
  }

  lemma {:induction false} OccursOnce(sections: seq<(string, string)>, k: nat, fold: string -> string)
    requires k < |sections|
    requires forall i, j | 0 <= i < j < |sections| :: fold(sections[i].0) != fold(sections[j].0)
    ensures Occurrences(sections, fold(sections[k].0), fold) == 1
  {
    var n := |sections| - 1;
    if k < n {
      OccursOnce(sections[..n], k, fold);
    } else {
      NeverOccurs(sections[..n], fold(sections[k].0), fold);
    }
  }

  lemma {:induction false} NeverOccurs(sections: seq<(string, string)>, key: string, fold: string -> string)
    requires forall i | 0 <= i < |sections| :: fold(sections[i].0) != key
    ensures Occurrences(sections, key, fold) == 0
  {
    if sections != [] {
      NeverOccurs(sections[..|sections| - 1], key, fold);
    }
  }

  lemma {:induction false} ConcatFirst(blocks: seq<seq<string>>)
    requires blocks != [] && blocks[0] != []
    ensures Concat(blocks) != [] && Concat(blocks)[0] == blocks[0][0]
  {
    if |blocks| == 1 {
      assert Concat(blocks[..0]) == [];
    } else {
      ConcatFirst(blocks[..|blocks| - 1]);
    }
  }

  lemma {:induction false} RenderedIsNotBlank(labels: seq<string>, contents: seq<seq<string>>)
    requires |labels| == |contents| && labels != []
    ensures Strip(Join(Render(labels, contents))) != ""
  {
    ConcatFirst(seq(|labels|, i requires 0 <= i < |labels| => Rendered(labels[i], contents[i])));
    var text := Join(Render(labels, contents));
    assert text[0] == '#' && text[0] in text && !AllSpace(text);
    StripEmpty(text);
  }

  lemma {:induction false} FilledIn(labels: seq<string>, contents: seq<seq<string>>, sections: seq<(string, string)>,
                                    fold: string -> string)
    requires |labels| == |contents| && Distinct(labels, fold)
    requires sections == Filled(labels, contents)
    ensures (forall l | l in labels :: Occurrences(sections, fold(l), fold) == 1 && !HasEmpty(sections, fold(l), fold))
      <==> forall c | c in contents :: Strip(Join(c)) != ""
  {
    forall k | 0 <= k < |labels|
      ensures Occurrences(sections, fold(labels[k]), fold) == 1
      ensures HasEmpty(sections, fold(labels[k]), fold) <==> Strip(Join(contents[k])) == ""
    {
      OccursOnce(sections, k, fold);
      assert sections[k] == (labels[k], Strip(Join(contents[k])));
    }
    forall k | 0 <= k < |contents| ensures contents[k] in contents && labels[k] in labels {}
  }

  /** Labels with their stripped contents. */
  function Filled(labels: seq<string>, contents: seq<seq<string>>): seq<(string, string)>
    requires |labels| == |contents|
  {
    seq(|labels|, i requires 0 <= i < |labels| => (labels[i], Strip(Join(contents[i]))))
  }

  lemma {:induction false} SectionsBack(labels: seq<string>, contents: seq<seq<string>>, fold: string -> string)
    requires |labels| == |contents| && labels != [] && Normalised(labels)
    requires forall c | c in contents :: Contained(c, CanonicalKeys(labels, fold), Atx(fold))
    ensures ParseIssueForm(labels, Render(labels, contents), fold).sections == Filled(labels, contents)
  {
    var keys := CanonicalKeys(labels, fold);
    forall l | l in labels ensures fold(l) in keys.value {
      assert fold(Collapse(l)) == fold(l);
    }
    RenderThenExtract(labels, contents, keys, fold);
    RenderedIsNotBlank(labels, contents);
    assert NameAndContent(Expected(labels, contents)) == Filled(labels, contents);
  }

  /** What a usable template asks for, filled in with contained contents and rendered, is parsed
      back to exactly those labels with their stripped contents; it passes if none is blank. */
  lemma {:induction false} ParseUndoesRender(fields: seq<Field>, contents: seq<seq<string>>, fold: string -> string)
    requires UsableTemplate(fields, fold) && |contents| == |Requireds(fields)|
    requires var keys := CanonicalKeys(Labels(Requireds(fields)), fold);
      forall c | c in contents :: Contained(c, keys, Atx(fold))
    ensures var labels := Labels(Requireds(fields));
      var p := ParseIssueForm(labels, Render(labels, contents), fold);
      p.sections == Filled(labels, contents) && (p.pass <==> forall c | c in contents :: Strip(Join(c)) != "")
  {
    var labels := Labels(Requireds(fields));
    TemplateLabels(fields, fold);
    SectionsBack(labels, contents, fold);
    RenderedIsNotBlank(labels, contents);
    PassesExactly(labels, Render(labels, contents), fold);
    FilledIn(labels, contents, Filled(labels, contents), fold);
  }
}
