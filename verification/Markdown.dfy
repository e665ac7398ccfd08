/** Fence-aware extraction of ATX sections from the lines of an Issue body. */
module Markdown {
  import opened Wrappers
  import opened Text

  datatype Fence = Fence(mark: char, width: nat)
  datatype Heading = Heading(line: nat, name: string, level: nat)
  datatype Section = Section(name: string, level: nat, content: string)

  /** How single lines, names and section lines are read; the scan below takes any such reading. */
  datatype Grammar = Grammar(
    opens: string -> Option<Fence>,
    closes: (string, Fence) -> bool,
    heading: string -> Option<(nat, string)>,
    text: seq<string> -> string,
    fold: string -> string)

  /** The reading of the Issue contracts, over a given str.casefold. */
  function Atx(fold: string -> string): Grammar {
    Grammar(FenceMarker, IsFenceClose, AtxHeading, lines => Strip(Join(lines)), fold)
  }

  // ---- one line ------------------------------------------------------------------

  predicate IsBlank(c: char) { c == ' ' || c == '\t' }

  function Blanks(s: string): (n: nat)
    ensures n <= |s|
  {
    if s != "" && IsBlank(s[0]) then 1 + Blanks(s[1..]) else 0
  }

  function Run(s: string, c: char): (n: nat)
    ensures n <= |s|
  {
    if s != "" && s[0] == c then 1 + Run(s[1..], c) else 0
  }

  /** A fence line: at most three blanks, three or more equal marks, and the remainder. */
  function FenceLine(line: string): Option<(Fence, string)> {
    var s := line[Blanks(line)..];
    if Blanks(line) > 3 || s == "" || (s[0] != '`' && s[0] != '~') || Run(s, s[0]) < 3 then None
    else Some((Fence(s[0], Run(s, s[0])), s[Run(s, s[0])..]))
  }

  /** Backtick fences cannot have backticks in their info string; tilde fences may. */
  function FenceMarker(line: string): Option<Fence> {
    var f := FenceLine(line);
    if f.Some? && !(f.value.0.mark == '`' && '`' in f.value.1) then Some(f.value.0) else None
  }

  predicate IsFenceClose(line: string, opening: Fence) {
    var f := FenceLine(line);
    && f.Some? && Strip(f.value.1) == ""
    && f.value.0.mark == opening.mark && f.value.0.width >= opening.width
  }

  /** Level and collapsed name of an ATX heading.  A marker followed by two or more blanks and
      nothing else is a heading with an empty name; by fewer, it is no heading. */
  function AtxHeading(line: string): Option<(nat, string)> {
    var s := line[Blanks(line)..];
    var marks := Run(s, '#');
    var rest := s[marks..];
    if Blanks(line) > 3 || !(1 <= marks <= 6) || rest == "" || !IsBlank(rest[0]) then None
    else if Blanks(rest) == |rest| == 1 then None
    else Some((marks, Collapse(rest)))
  }

  // ---- what single lines are ---------------------------------------------------------

  predicate AllBlank(s: string) { forall i | 0 <= i < |s| :: s[i] == ' ' || s[i] == '\t' }

  predicate AllOf(s: string, c: char) { forall i | 0 <= i < |s| :: s[i] == c }

  lemma {:induction false} BlanksOf(lead: string, rest: string)
    requires AllBlank(lead) && (rest == "" || !IsBlank(rest[0]))
    ensures Blanks(lead + rest) == |lead| && (lead + rest)[|lead|..] == rest
  {
    if lead == "" {
      assert lead + rest == rest;
    } else {
      assert (lead + rest)[1..] == lead[1..] + rest;
      BlanksOf(lead[1..], rest);
    }
  }

  lemma {:induction false} RunOf(marks: string, rest: string, c: char)
    requires AllOf(marks, c) && (rest == "" || rest[0] != c)
    ensures Run(marks + rest, c) == |marks| && (marks + rest)[|marks|..] == rest
  {
    if marks == "" {
      assert marks + rest == rest;
    } else {
      assert (marks + rest)[1..] == marks[1..] + rest;
      RunOf(marks[1..], rest, c);
    }
  }

  /** Every line is some blanks, a run of one other character, and the remainder. */
  lemma {:induction false} LineParts(line: string) returns (lead: string, marks: string, info: string)
    ensures line == lead + marks + info && AllBlank(lead)
    ensures marks == "" ==> info == ""
    ensures marks != "" ==> !IsBlank(marks[0]) && AllOf(marks, marks[0]) && (info == "" || info[0] != marks[0])
  {
    if line == "" {
      lead, marks, info := "", "", "";
    } else {
      lead, marks, info := LineParts(line[1..]);
      if IsBlank(line[0]) {
        lead := [line[0]] + lead;
      } else if lead == "" && marks != "" && marks[0] == line[0] {
        marks := [line[0]] + marks;
      } else {
        info := lead + marks + info;
        lead, marks := "", [line[0]];
      }
    }
  }

  /** A fence opens with three or more backticks or tildes behind at most three blanks, and a backtick
      fence has no other backtick; it is closed by a line of at least as many of the same marks and
      nothing else. */
  lemma {:induction false} FenceLinesExactly(lead: string, marks: string, info: string, opening: Fence)
    requires AllBlank(lead) && (marks == "" ==> info == "")
    requires marks != "" ==> !IsBlank(marks[0]) && AllOf(marks, marks[0]) && (info == "" || info[0] != marks[0])
    ensures FenceMarker(lead + marks + info) ==
      if |lead| <= 3 && |marks| >= 3 && ((marks[0] == '`' && '`' !in info) || marks[0] == '~')
      then Some(Fence(marks[0], |marks|)) else None
    ensures IsFenceClose(lead + marks + info, opening) <==>
      && |lead| <= 3 && |marks| >= 3 && marks[0] in {'`', '~'} && AllSpace(info)
      && marks[0] == opening.mark && |marks| >= opening.width
  {
    assert lead + marks + info == lead + (marks + info);
    BlanksOf(lead, marks + info);
    StripEmpty(info);
    if marks != "" {
      RunOf(marks, info, marks[0]);
    }
  }

  /** A heading is one to six hashes behind at most three blanks, then a blank; with nothing but that
      one blank it is none. */
  lemma {:induction false} HeadingLinesExactly(lead: string, marks: string, rest: string)
    requires AllBlank(lead) && AllOf(marks, '#') && (rest == "" || rest[0] != '#')
    requires marks == "" ==> rest == "" || !IsBlank(rest[0])
    ensures AtxHeading(lead + marks + rest) ==
      if |lead| <= 3 && 1 <= |marks| <= 6 && rest != "" && rest[0] in {' ', '\t'} && |rest| > 1
      then Some((|marks|, Collapse(rest))) else None
  {
    assert lead + marks + rest == lead + (marks + rest);
    BlanksOf(lead, marks + rest);
    RunOf(marks, rest, '#');
  }

  // ---- all lines -----------------------------------------------------------------

  function FenceStep(g: Grammar, open: Option<Fence>, line: string): Option<Fence> {
    if open.Some? then (if g.closes(line, open.value) then None else open) else g.opens(line)
  }

  function HeadingStep(g: Grammar, open: Option<Fence>, line: string, at: nat): (hs: seq<Heading>)
    ensures |hs| <= 1 && (hs != [] ==> hs[0].line == at)
  {
    if open.Some? || g.opens(line).Some? || g.heading(line).None? then []
    else [Heading(at, g.heading(line).value.1, g.heading(line).value.0)]
  }

  /** The fence still open after these lines. */
  function FenceAfter(g: Grammar, open: Option<Fence>, lines: seq<string>): Option<Fence> {
    if lines == [] then open else FenceStep(g, FenceAfter(g, open, lines[..|lines| - 1]), lines[|lines| - 1])
  }

  /** Headings outside fences, in order; the first line has number `at`. */
  function Headings(g: Grammar, open: Option<Fence>, lines: seq<string>, at: nat): seq<Heading> {
    if lines == [] then []
    else
      var n := |lines| - 1;
      Headings(g, open, lines[..n], at) + HeadingStep(g, FenceAfter(g, open, lines[..n]), lines[n], at + n)
  }

  lemma {:induction false} FenceJoin(g: Grammar, open: Option<Fence>, a: seq<string>, b: seq<string>)
    ensures FenceAfter(g, open, a + b) == FenceAfter(g, FenceAfter(g, open, a), b)
  {
    if b == [] {
      assert a + b == a;
    } else {
      var n, c := |b| - 1, a + b;
      assert c[..|c| - 1] == a + b[..n] && c[|c| - 1] == b[n];
      FenceJoin(g, open, a, b[..n]);
    }
  }

  /** One more line. */
  lemma {:induction false} HeadingsSnoc(g: Grammar, open: Option<Fence>, lines: seq<string>, line: string, at: nat)
    ensures Headings(g, open, lines + [line], at) ==
      Headings(g, open, lines, at) + HeadingStep(g, FenceAfter(g, open, lines), line, at + |lines|)
    ensures FenceAfter(g, open, lines + [line]) == FenceStep(g, FenceAfter(g, open, lines), line)
  {
  }

  lemma {:induction false} ConcatAssociative<T>(x: seq<T>, y: seq<T>, z: seq<T>)
    ensures (x + y) + z == x + (y + z)
  {
  }

  lemma {:induction false} HeadingsJoinSnoc(g: Grammar, open: Option<Fence>, a: seq<string>, b: seq<string>,
                                            last: string, at: nat)
    requires Headings(g, open, a + b, at) == Headings(g, open, a, at) + Headings(g, FenceAfter(g, open, a), b, at + |a|)
    ensures Headings(g, open, (a + b) + [last], at) ==
      Headings(g, open, a, at) + Headings(g, FenceAfter(g, open, a), b + [last], at + |a|)
  {
    var mid := FenceAfter(g, open, a);
    HeadingsSnoc(g, open, a + b, last, at);
    HeadingsSnoc(g, mid, b, last, at + |a|);
    FenceJoin(g, open, a, b);
    ConcatAssociative(Headings(g, open, a, at), Headings(g, mid, b, at + |a|),
                      HeadingStep(g, FenceAfter(g, mid, b), last, at + |a| + |b|));
  }

  lemma {:induction false} JoinSnocLines(a: seq<string>, b: seq<string>)
    requires b != []
    ensures b[..|b| - 1] + [b[|b| - 1]] == b && (a + b[..|b| - 1]) + [b[|b| - 1]] == a + b
  {
  }

  lemma {:induction false} HeadingsJoin(g: Grammar, open: Option<Fence>, a: seq<string>, b: seq<string>, at: nat)
    ensures Headings(g, open, a + b, at) == Headings(g, open, a, at) + Headings(g, FenceAfter(g, open, a), b, at + |a|)
  {
    if b == [] {
      assert a + b == a;
    } else {
      var init, last := b[..|b| - 1], b[|b| - 1];
      HeadingsJoin(g, open, a, init, at);
      HeadingsJoinSnoc(g, open, a, init, last, at);
      JoinSnocLines(a, b);
    }
  }

  /** Distinct headings in the order of their lines, between `lo` and `hi`. */
  predicate Ordered(hs: seq<Heading>, lo: nat, hi: nat) {
    && (forall i | 0 <= i < |hs| :: lo <= hs[i].line < hi)
    && (forall i, j | 0 <= i < j < |hs| :: hs[i].line < hs[j].line)
  }

  lemma {:induction false} HeadingsOrdered(g: Grammar, open: Option<Fence>, lines: seq<string>, at: nat)
    ensures Ordered(Headings(g, open, lines, at), at, at + |lines|)
  {
    if lines != [] {
      var init, last := lines[..|lines| - 1], lines[|lines| - 1];
      assert lines == init + [last];
      HeadingsSnoc(g, open, init, last, at);
      HeadingsOrdered(g, open, init, at);
    }
  }

  function NamesAndLevels(hs: seq<Heading>): seq<(string, nat)> {
    seq(|hs|, i requires 0 <= i < |hs| => (hs[i].name, hs[i].level))
  }

  function Shifted(hs: seq<Heading>, offset: nat): seq<Heading> {
    seq(|hs|, i requires 0 <= i < |hs| => hs[i].(line := hs[i].line + offset))
  }

  lemma {:induction false} ShiftedJoin(a: seq<Heading>, b: seq<Heading>, offset: nat)
    ensures Shifted(a + b, offset) == Shifted(a, offset) + Shifted(b, offset)
  {
  }

  /** Moving a block of lines moves its headings and changes nothing else. */
  lemma {:induction false} HeadingsShift(g: Grammar, open: Option<Fence>, lines: seq<string>, at: nat)
    ensures Headings(g, open, lines, at) == Shifted(Headings(g, open, lines, 0), at)
  {
    if lines != [] {
      var init, last := lines[..|lines| - 1], lines[|lines| - 1];
      assert lines == init + [last];
      HeadingsSnoc(g, open, init, last, at);
      HeadingsSnoc(g, open, init, last, 0);
      HeadingsShift(g, open, init, at);
      ShiftedJoin(Headings(g, open, init, 0), HeadingStep(g, FenceAfter(g, open, init), last, |init|), at);
    }
  }

  // ---- section boundaries --------------------------------------------------------

  /** Casefolded canonical names; None selects every section. */
  type Keys = Option<set<string>>

  /** `next` ends the section of `h`. */
  predicate EndsSection(h: Heading, next: Heading, keys: Keys, g: Grammar) {
    keys.None? || g.fold(next.name) in keys.value || next.level <= h.level
  }

  /** The line of the first heading from `q` on that ends the section at `p`, or the end. */
  function SectionEnd(hs: seq<Heading>, p: nat, q: nat, total: nat, keys: Keys, g: Grammar): nat
    requires p < |hs| && q <= |hs|
    decreases |hs| - q
  {
    if q == |hs| then total
    else if EndsSection(hs[p], hs[q], keys, g) then hs[q].line
    else SectionEnd(hs, p, q + 1, total, keys, g)
  }

  predicate Selected(name: string, keys: Keys, g: Grammar) {
    keys.Some? ==> g.fold(name) in keys.value
  }

  /** Python's lines[from:to]; an empty range is no error. */
  function Slice(lines: seq<string>, from: nat, to: nat): seq<string> {
    if from <= to <= |lines| then lines[from..to] else []
  }

  /** The section of the heading at `p`, if it is selected. */
  function SectionAt(lines: seq<string>, hs: seq<Heading>, p: nat, keys: Keys, g: Grammar): seq<Section>
    requires p < |hs|
  {
    var h := hs[p];
    if Selected(h.name, keys, g) then
      [Section(h.name, h.level, g.text(Slice(lines, h.line + 1, SectionEnd(hs, p, p + 1, |lines|, keys, g))))]
    else []
  }

  /** The pieces of `piece(0)`, ..., `piece(n - 1)` one after the other. */
  function Gather<T>(piece: nat -> seq<T>, n: nat): seq<T> {
    if n == 0 then [] else Gather(piece, n - 1) + piece(n - 1)
  }

  lemma {:induction false} GatherSame<T>(f: nat -> seq<T>, h: nat -> seq<T>, n: nat)
    requires forall p: nat | p < n :: f(p) == h(p)
    ensures Gather(f, n) == Gather(h, n)
  {
    if n > 0 {
      GatherSame(f, h, n - 1);
    }
  }

  /** From position `k` on, `f` yields what `h` yields. */
  ghost predicate Follows<T>(f: nat -> seq<T>, h: nat -> seq<T>, k: nat, n: nat) {
    forall p: nat | p < n :: f(k + p) == h(p)
  }

  lemma {:induction false} GatherRest<T>(f: nat -> seq<T>, h: nat -> seq<T>, k: nat, n: nat)
    requires Follows(f, h, k, n)
    ensures Gather(f, k + n) == Gather(f, k) + Gather(h, n)
  {
    if n > 0 {
      GatherRest(f, h, k, n - 1);
      ConcatAssociative(Gather(f, k), Gather(h, n - 1), h(n - 1));
      assert f(k + (n - 1)) == h(n - 1);
    }
  }

  /** The section of each selected heading, by position. */
  function SectionOf(lines: seq<string>, hs: seq<Heading>, keys: Keys, g: Grammar): nat -> seq<Section> {
    (p: nat) => if p < |hs| then SectionAt(lines, hs, p, keys, g) else []
  }

  lemma {:induction false} SectionEndBounds(hs: seq<Heading>, p: nat, q: nat, total: nat, keys: Keys, g: Grammar)
    requires p < q <= |hs| && Ordered(hs, 0, total)
    ensures hs[p].line < SectionEnd(hs, p, q, total, keys, g) <= total
    ensures forall r | q <= r < |hs| && EndsSection(hs[p], hs[r], keys, g) ::
      SectionEnd(hs, p, q, total, keys, g) <= hs[r].line
    decreases |hs| - q
  {
    if q < |hs| && !EndsSection(hs[p], hs[q], keys, g) {
      SectionEndBounds(hs, p, q + 1, total, keys, g);
    }
  }

  /** Heading `q` ends the section of heading `p`: it is canonical, no deeper, or every heading counts. */
  predicate Ends(hs: seq<Heading>, p: nat, q: int, keys: Keys, g: Grammar) {
    && p < q < |hs|
    && (keys == None || g.fold(hs[q].name) in keys.value || hs[q].level <= hs[p].level)
  }

  /** A section ends at the first heading that ends it, or else with the body. */
  lemma {:induction false} SectionEndExactly(hs: seq<Heading>, p: nat, from: nat, total: nat, keys: Keys, g: Grammar)
    requires p < from <= |hs|
    ensures var end := SectionEnd(hs, p, from, total, keys, g);
      || (end == total && forall q | from <= q < |hs| :: !Ends(hs, p, q, keys, g))
      || (exists q :: from <= q && Ends(hs, p, q, keys, g) && end == hs[q].line
                      && forall r | from <= r < q :: !Ends(hs, p, r, keys, g))
    decreases |hs| - from
  {
    if from < |hs| {
      if Ends(hs, p, from, keys, g) {
        assert SectionEnd(hs, p, from, total, keys, g) == hs[from].line;
      } else {
        SectionEndExactly(hs, p, from + 1, total, keys, g);
      }
    }
  }

  function ExtractedSections(g: Grammar, lines: seq<string>, keys: Keys): seq<Section> {
    var hs := Headings(g, None, lines, 0);
    Gather(SectionOf(lines, hs, keys, g), |hs|)
  }

  lemma {:induction false} Gathered<T>(piece: nat -> seq<T>, n: nat, x: T)
    ensures x in Gather(piece, n) <==> exists p: nat | p < n :: x in piece(p)
  {
    if n > 0 {
      Gathered(piece, n - 1, x);
    }
  }

  lemma {:induction false} ExtractedFrom(g: Grammar, lines: seq<string>, hs: seq<Heading>, keys: Keys, s: Section)
    requires Ordered(hs, 0, |lines|)
    ensures s in Gather(SectionOf(lines, hs, keys, g), |hs|) <==> exists p: nat :: Extracts(g, lines, hs, keys, p, s)
  {
    var piece := SectionOf(lines, hs, keys, g);
    Gathered(piece, |hs|, s);
    if s in Gather(piece, |hs|) {
      var p: nat :| p < |hs| && s in piece(p);
      ExtractsAt(g, lines, hs, keys, p, s);
    }
    if p: nat :| Extracts(g, lines, hs, keys, p, s) {
      ExtractsAt(g, lines, hs, keys, p, s);
      assert s in piece(p);
    }
  }

  /** The sections are those of the headings whose name is asked for: all of them, or the canonical ones. */
  lemma {:induction false} ExtractedExactly(g: Grammar, lines: seq<string>, hs: seq<Heading>, keys: Keys, s: Section)
    requires hs == Headings(g, None, lines, 0)
    ensures s in ExtractedSections(g, lines, keys) <==> exists p: nat :: Extracts(g, lines, hs, keys, p, s)
  {
    HeadingsOrdered(g, None, lines, 0);
    ExtractedFrom(g, lines, hs, keys, s);
  }

  lemma {:induction false} ExtractsAt(g: Grammar, lines: seq<string>, hs: seq<Heading>, keys: Keys, p: nat, s: Section)
    requires p < |hs| && Ordered(hs, 0, |lines|)
    ensures s in SectionOf(lines, hs, keys, g)(p) <==> Extracts(g, lines, hs, keys, p, s)
  {
    SectionEndBounds(hs, p, p + 1, |lines|, keys, g);
  }

  ghost predicate Extracts(g: Grammar, lines: seq<string>, hs: seq<Heading>, keys: Keys, p: nat, s: Section) {
    && p < |hs| && (keys == None || g.fold(hs[p].name) in keys.value)
    && s.name == hs[p].name && s.level == hs[p].level
    && var end := SectionEnd(hs, p, p + 1, |lines|, keys, g);
       hs[p].line < end <= |lines| && s.content == g.text(lines[hs[p].line + 1..end])
  }

  // ---- the extractor -------------------------------------------------------------

  method ScanHeadings(lines: seq<string>, g: Grammar) returns (sections: seq<Heading>)
    ensures sections == Headings(g, None, lines, 0)
  {
    var openingFence: Option<Fence> := None;
    sections := [];
    for index := 0 to |lines|
      invariant openingFence == FenceAfter(g, None, lines[..index])
      invariant sections == Headings(g, None, lines[..index], 0)
    {
      assert lines[..index + 1][..index] == lines[..index];
      var line := lines[index];
      if openingFence.Some? {
        if g.closes(line, openingFence.value) {
          openingFence := None;
        }
        continue;
      }
      var fence := g.opens(line);
      if fence.Some? {
        openingFence := fence;
        continue;
      }
      var heading := g.heading(line);
      if heading.None? {
        continue;
      }
      sections := sections + [Heading(index, heading.value.1, heading.value.0)];
    }
    assert lines[..|lines|] == lines;
  }

  method FindSectionEnd(sections: seq<Heading>, position: nat, total: nat, keys: Keys, g: Grammar)
    returns (nextLine: nat)
    requires position < |sections|
    ensures nextLine == SectionEnd(sections, position, position + 1, total, keys, g)
  {
    nextLine := total;
    var next := position + 1;
    while next < |sections|
      invariant position < next <= |sections| && nextLine == total
      invariant SectionEnd(sections, position, position + 1, total, keys, g) ==
                SectionEnd(sections, position, next, total, keys, g)
    {
      if EndsSection(sections[position], sections[next], keys, g) {
        return sections[next].line;
      }
      next := next + 1;
    }
  }

  /** The section at one heading, if the keys select it. */
  method ExtractSection(lines: seq<string>, sections: seq<Heading>, position: nat, g: Grammar, keys: Keys)
    returns (section: seq<Section>)
    requires position < |sections|
    ensures section == SectionOf(lines, sections, keys, g)(position)
  {
    var h := sections[position];
    var nextLine := FindSectionEnd(sections, position, |lines|, keys, g);
    if !Selected(h.name, keys, g) { return []; }
    section := [Section(h.name, h.level, g.text(Slice(lines, h.line + 1, nextLine)))];
  }

  method ExtractMarkdownSections(lines: seq<string>, g: Grammar, keys: Keys)
    returns (extracted: seq<Section>)
    ensures extracted == ExtractedSections(g, lines, keys)
  {
    var sections := ScanHeadings(lines, g);
    extracted := [];
    for position := 0 to |sections|
      invariant extracted == Gather(SectionOf(lines, sections, keys, g), position)
    {
      var section := ExtractSection(lines, sections, position, g, keys);
      extracted := extracted + section;
    }
  }

  // ---- fenced blocks -------------------------------------------------------------

  /** An opening fence, lines that do not close it, and a closing fence. */
  predicate FencedBlock(g: Grammar, block: seq<string>) {
    && |block| >= 2 && g.opens(block[0]).Some?
    && g.closes(block[|block| - 1], g.opens(block[0]).value)
    && forall k | 0 < k < |block| - 1 :: !g.closes(block[k], g.opens(block[0]).value)
  }

  lemma {:induction false} InsideBlock(g: Grammar, block: seq<string>, n: nat)
    requires FencedBlock(g, block) && 0 < n < |block|
    ensures FenceAfter(g, None, block[..n]) == g.opens(block[0]) && Headings(g, None, block[..n], 0) == []
  {
    if n == 1 {
      assert block[..1] == [] + [block[0]];
      HeadingsSnoc(g, None, [], block[0], 0);
    } else {
      assert block[..n] == block[..n - 1] + [block[n - 1]];
      HeadingsSnoc(g, None, block[..n - 1], block[n - 1], 0);
      InsideBlock(g, block, n - 1);
    }
  }

  lemma {:induction false} BlockIsSilent(g: Grammar, block: seq<string>)
    requires FencedBlock(g, block)
    ensures FenceAfter(g, None, block) == None && Headings(g, None, block, 0) == []
  {
    var n := |block| - 1;
    InsideBlock(g, block, n);
    assert block == block[..n] + [block[n]];
    HeadingsSnoc(g, None, block[..n], block[n], 0);
  }

  /** The heading names and levels that the keys select, by position. */
  function SelectedName(ns: seq<(string, nat)>, keys: Keys, g: Grammar): nat -> seq<(string, nat)> {
    (p: nat) => if p < |ns| && Selected(ns[p].0, keys, g) then [ns[p]] else []
  }

  function SectionNames(ss: seq<Section>): seq<(string, nat)> {
    seq(|ss|, i requires 0 <= i < |ss| => (ss[i].name, ss[i].level))
  }

  lemma {:induction false} NameOfSection(lines: seq<string>, hs: seq<Heading>, p: nat, keys: Keys, g: Grammar)
    requires p < |hs|
    ensures SectionNames(SectionAt(lines, hs, p, keys, g)) == SelectedName(NamesAndLevels(hs), keys, g)(p)
  {
  }

  lemma {:induction false} SectionNamesJoin(a: seq<Section>, b: seq<Section>)
    ensures SectionNames(a + b) == SectionNames(a) + SectionNames(b)
  {
  }

  /** The extracted names are the selected headings, in order. */
  lemma {:induction false} ExtractedNames(lines: seq<string>, hs: seq<Heading>, n: nat, keys: Keys, g: Grammar)
    requires n <= |hs|
    ensures SectionNames(Gather(SectionOf(lines, hs, keys, g), n)) ==
      Gather(SelectedName(NamesAndLevels(hs), keys, g), n)
  {
    if n > 0 {
      ExtractedNames(lines, hs, n - 1, keys, g);
      NameOfSection(lines, hs, n - 1, keys, g);
      SectionNamesJoin(Gather(SectionOf(lines, hs, keys, g), n - 1), SectionAt(lines, hs, n - 1, keys, g));
    }
  }

  lemma {:induction false} NamesOf(g: Grammar, lines: seq<string>, keys: Keys)
    ensures var ns := NamesAndLevels(Headings(g, None, lines, 0));
      SectionNames(ExtractedSections(g, lines, keys)) == Gather(SelectedName(ns, keys, g), |ns|)
  {
    var hs := Headings(g, None, lines, 0);
    ExtractedNames(lines, hs, |hs|, keys, g);
  }

  lemma {:induction false} NamesOfShifted(a: seq<Heading>, b: seq<Heading>, m: nat, n: nat)
    ensures NamesAndLevels(a + Shifted(b, m)) == NamesAndLevels(a + Shifted(b, n))
  {
  }

  lemma {:induction false} HeadingsAfterUnfenced(g: Grammar, a: seq<string>, b: seq<string>)
    requires FenceAfter(g, None, a) == None
    ensures Headings(g, None, a + b, 0) == Headings(g, None, a, 0) + Shifted(Headings(g, None, b, 0), |a|)
  {
    HeadingsJoin(g, None, a, b, 0);
    HeadingsShift(g, None, b, |a|);
  }

  lemma {:induction false} BlockAppended(g: Grammar, before: seq<string>, block: seq<string>)
    requires FenceAfter(g, None, before) == None && FencedBlock(g, block)
    ensures FenceAfter(g, None, before + block) == None
    ensures Headings(g, None, before + block, 0) == Headings(g, None, before, 0)
  {
    BlockIsSilent(g, block);
    FenceJoin(g, None, before, block);
    HeadingsAfterUnfenced(g, before, block);
  }

  lemma {:induction false} SameNames(g: Grammar, before: seq<string>, block: seq<string>, after: seq<string>)
    requires FenceAfter(g, None, before) == None && FencedBlock(g, block)
    ensures NamesAndLevels(Headings(g, None, before + block + after, 0)) ==
      NamesAndLevels(Headings(g, None, before + after, 0))
  {
    BlockAppended(g, before, block);
    HeadingsAfterUnfenced(g, before + block, after);
    HeadingsAfterUnfenced(g, before, after);
    NamesOfShifted(Headings(g, None, before, 0), Headings(g, None, after, 0), |before| + |block|, |before|);
  }

  /** A fenced block put anywhere outside a fence, whatever is in it, neither adds, removes nor
      renames a section. */
  lemma {:induction false} FenceInsertion(g: Grammar, before: seq<string>, block: seq<string>, after: seq<string>,
                                          keys: Keys)
    requires FenceAfter(g, None, before) == None && FencedBlock(g, block)
    ensures SectionNames(ExtractedSections(g, before + block + after, keys)) ==
      SectionNames(ExtractedSections(g, before + after, keys))
  {
    SameNames(g, before, block, after);
    NamesOf(g, before + block + after, keys);
    NamesOf(g, before + after, keys);
  }

  /** Whatever their levels, no canonical section reaches into another one. */
  lemma {:induction false} CanonicalRangesDisjoint(g: Grammar, lines: seq<string>, names: set<string>, p: nat, q: nat)
    requires p < q < |Headings(g, None, lines, 0)|
    requires g.fold(Headings(g, None, lines, 0)[q].name) in names
    ensures var hs := Headings(g, None, lines, 0);
      hs[p].line < SectionEnd(hs, p, p + 1, |lines|, Some(names), g) <= hs[q].line
  {
    HeadingsOrdered(g, None, lines, 0);
    SectionEndBounds(Headings(g, None, lines, 0), p, p + 1, |lines|, Some(names), g);
  }

  // ---- concatenation -------------------------------------------------------------

  /** `hs` is `ha` followed by `hb` moved down by `offset` lines. */
  ghost predicate Spliced(hs: seq<Heading>, ha: seq<Heading>, hb: seq<Heading>, offset: nat) {
    && |hs| == |ha| + |hb|
    && (forall i | 0 <= i < |ha| :: hs[i] == ha[i])
    && (forall i | 0 <= i < |hb| :: Moved(hs, |ha| + i, hb[i], offset))
  }

  ghost predicate Moved(hs: seq<Heading>, i: nat, h: Heading, offset: nat) {
    i < |hs| && hs[i] == h.(line := h.line + offset)
  }

  /** The first heading of `hb` is canonical and stands on its first line. */
  predicate LeadsCanonical(hb: seq<Heading>, keys: Keys, g: Grammar) {
    hb != [] && hb[0].line == 0 && keys.Some? && g.fold(hb[0].name) in keys.value
  }

  lemma {:induction false} EndBefore(hs: seq<Heading>, ha: seq<Heading>, hb: seq<Heading>, n: nat, p: nat, q: nat,
                                     total: nat, keys: Keys, g: Grammar)
    requires Spliced(hs, ha, hb, n) && LeadsCanonical(hb, keys, g) && p < q <= |ha|
    ensures SectionEnd(hs, p, q, total, keys, g) == SectionEnd(ha, p, q, n, keys, g)
    decreases |ha| - q
  {
    if q < |ha| {
      EndBefore(hs, ha, hb, n, p, q + 1, total, keys, g);
    } else {
      assert Moved(hs, |ha| + 0, hb[0], n);
    }
  }

  lemma {:induction false} EndAfter(hs: seq<Heading>, ha: seq<Heading>, hb: seq<Heading>, n: nat, p: nat, q: nat,
                                    total: nat, keys: Keys, g: Grammar)
    requires Spliced(hs, ha, hb, n) && p < |hb| && q <= |hb|
    ensures SectionEnd(hs, |ha| + p, |ha| + q, n + total, keys, g) == n + SectionEnd(hb, p, q, total, keys, g)
    decreases |hb| - q
  {
    if q < |hb| {
      assert Moved(hs, |ha| + p, hb[p], n) && Moved(hs, |ha| + q, hb[q], n);
      EndAfter(hs, ha, hb, n, p, q + 1, total, keys, g);
    }
  }

  lemma {:induction false} SectionAtBefore(c: seq<string>, a: seq<string>, hs: seq<Heading>, ha: seq<Heading>,
                                           hb: seq<Heading>, p: nat, keys: Keys, g: Grammar)
    requires Ordered(ha, 0, |a|) && a <= c && p < |ha|
    requires Spliced(hs, ha, hb, |a|) && LeadsCanonical(hb, keys, g)
    ensures SectionAt(c, hs, p, keys, g) == SectionAt(a, ha, p, keys, g)
  {
    EndBefore(hs, ha, hb, |a|, p, p + 1, |c|, keys, g);
    SectionEndBounds(ha, p, p + 1, |a|, keys, g);
    var from, to := ha[p].line + 1, SectionEnd(ha, p, p + 1, |a|, keys, g);
    assert c[from..to] == a[from..to];
  }

  lemma {:induction false} SliceOfTail(c: seq<string>, b: seq<string>, n: nat, from: nat, to: nat)
    requires |c| == n + |b| && c[n..] == b && from <= to <= |b|
    ensures Slice(c, n + from, n + to) == Slice(b, from, to)
  {
    assert c[n + from..n + to] == c[n..][from..to];
  }

  lemma {:induction false} SectionAtAfter(c: seq<string>, b: seq<string>, n: nat, hs: seq<Heading>, ha: seq<Heading>,
                                          hb: seq<Heading>, p: nat, keys: Keys, g: Grammar)
    requires Ordered(hb, 0, |b|) && |c| == n + |b| && c[n..] == b && p < |hb|
    requires Spliced(hs, ha, hb, n)
    ensures SectionAt(c, hs, |ha| + p, keys, g) == SectionAt(b, hb, p, keys, g)
  {
    assert Moved(hs, |ha| + p, hb[p], n);
    EndAfter(hs, ha, hb, n, p, p + 1, |b|, keys, g);
    SectionEndBounds(hb, p, p + 1, |b|, keys, g);
    var from, to := hb[p].line + 1, SectionEnd(hb, p, p + 1, |b|, keys, g);
    SliceOfTail(c, b, n, from, to);
    assert hs[|ha| + p].line + 1 == n + from && SectionEnd(hs, |ha| + p, |ha| + p + 1, |c|, keys, g) == n + to;
  }

  /** A line that is a canonical heading. */
  predicate CanonicalHeading(g: Grammar, line: string, keys: Keys) {
    && g.opens(line).None? && g.heading(line).Some?
    && keys.Some? && g.fold(g.heading(line).value.1) in keys.value
  }

  lemma {:induction false} FirstHeading(g: Grammar, lines: seq<string>, keys: Keys)
    requires lines != [] && CanonicalHeading(g, lines[0], keys)
    ensures LeadsCanonical(Headings(g, None, lines, 0), keys, g)
  {
    assert lines == [lines[0]] + lines[1..] && [lines[0]] == [] + [lines[0]];
    HeadingsSnoc(g, None, [], lines[0], 0);
    HeadingsJoin(g, None, [lines[0]], lines[1..], 0);
  }

  lemma {:induction false} SplicedHeadings(g: Grammar, a: seq<string>, b: seq<string>)
    requires FenceAfter(g, None, a) == None
    ensures Spliced(Headings(g, None, a + b, 0), Headings(g, None, a, 0), Headings(g, None, b, 0), |a|)
  {
    HeadingsAfterUnfenced(g, a, b);
    var hs, ha, hb := Headings(g, None, a + b, 0), Headings(g, None, a, 0), Headings(g, None, b, 0);
    forall i | 0 <= i < |hb| ensures Moved(hs, |ha| + i, hb[i], |a|) {
      assert hs[|ha| + i] == Shifted(hb, |a|)[i];
    }
  }

  lemma {:induction false} SplitLines(c: seq<string>, a: seq<string>, b: seq<string>)
    requires c == a + b
    ensures a <= c && |c| == |a| + |b| && c[|a|..] == b
  {
  }

  lemma {:induction false} PieceBefore(c: seq<string>, a: seq<string>, hs: seq<Heading>, ha: seq<Heading>,
                                       hb: seq<Heading>, p: nat, keys: Keys, g: Grammar)
    requires Ordered(ha, 0, |a|) && a <= c && p < |ha|
    requires Spliced(hs, ha, hb, |a|) && LeadsCanonical(hb, keys, g)
    ensures SectionOf(c, hs, keys, g)(p) == SectionOf(a, ha, keys, g)(p)
  {
    SectionAtBefore(c, a, hs, ha, hb, p, keys, g);
  }

  lemma {:induction false} PieceAfter(c: seq<string>, b: seq<string>, n: nat, hs: seq<Heading>, ha: seq<Heading>,
                                      hb: seq<Heading>, p: nat, keys: Keys, g: Grammar)
    requires Ordered(hb, 0, |b|) && |c| == n + |b| && c[n..] == b && p < |hb| && Spliced(hs, ha, hb, n)
    ensures SectionOf(c, hs, keys, g)(|ha| + p) == SectionOf(b, hb, keys, g)(p)
  {
    SectionAtAfter(c, b, n, hs, ha, hb, p, keys, g);
  }

  lemma {:induction false} FirstSections(c: seq<string>, a: seq<string>, hs: seq<Heading>, ha: seq<Heading>,
                                         hb: seq<Heading>, keys: Keys, g: Grammar)
    requires Ordered(ha, 0, |a|) && a <= c && Spliced(hs, ha, hb, |a|) && LeadsCanonical(hb, keys, g)
    ensures Gather(SectionOf(c, hs, keys, g), |ha|) == Gather(SectionOf(a, ha, keys, g), |ha|)
  {
    forall p: nat | p < |ha| ensures SectionOf(c, hs, keys, g)(p) == SectionOf(a, ha, keys, g)(p) {
      PieceBefore(c, a, hs, ha, hb, p, keys, g);
    }
    GatherSame(SectionOf(c, hs, keys, g), SectionOf(a, ha, keys, g), |ha|);
  }

  lemma {:induction false} PiecesFollow(c: seq<string>, b: seq<string>, n: nat, hs: seq<Heading>, ha: seq<Heading>,
                                        hb: seq<Heading>, keys: Keys, g: Grammar)
    requires Ordered(hb, 0, |b|) && |c| == n + |b| && c[n..] == b && Spliced(hs, ha, hb, n)
    ensures Follows(SectionOf(c, hs, keys, g), SectionOf(b, hb, keys, g), |ha|, |hb|)
  {
    forall p: nat | p < |hb| ensures SectionOf(c, hs, keys, g)(|ha| + p) == SectionOf(b, hb, keys, g)(p) {
      PieceAfter(c, b, n, hs, ha, hb, p, keys, g);
    }
  }

  lemma {:induction false} SecondSections(c: seq<string>, b: seq<string>, n: nat, hs: seq<Heading>, ha: seq<Heading>,
                                          hb: seq<Heading>, keys: Keys, g: Grammar)
    requires Ordered(hb, 0, |b|) && |c| == n + |b| && c[n..] == b && Spliced(hs, ha, hb, n)
    ensures Gather(SectionOf(c, hs, keys, g), |ha| + |hb|) ==
      Gather(SectionOf(c, hs, keys, g), |ha|) + Gather(SectionOf(b, hb, keys, g), |hb|)
  {
    PiecesFollow(c, b, n, hs, ha, hb, keys, g);
    GatherRest(SectionOf(c, hs, keys, g), SectionOf(b, hb, keys, g), |ha|, |hb|);
  }

  lemma {:induction false} SplitSections(c: seq<string>, a: seq<string>, b: seq<string>, hs: seq<Heading>,
                                         ha: seq<Heading>, hb: seq<Heading>, keys: Keys, g: Grammar)
    requires Ordered(ha, 0, |a|) && Ordered(hb, 0, |b|) && a <= c && |c| == |a| + |b| && c[|a|..] == b
    requires Spliced(hs, ha, hb, |a|) && LeadsCanonical(hb, keys, g)
    ensures Gather(SectionOf(c, hs, keys, g), |hs|) ==
      Gather(SectionOf(a, ha, keys, g), |ha|) + Gather(SectionOf(b, hb, keys, g), |hb|)
  {
    FirstSections(c, a, hs, ha, hb, keys, g);
    SecondSections(c, b, |a|, hs, ha, hb, keys, g);
    assert |hs| == |ha| + |hb|;
  }

  /** A canonical heading outside a fence splits a body into two that are read independently. */
  lemma {:induction false} CanonicalSplit(g: Grammar, a: seq<string>, b: seq<string>, keys: Keys)
    requires FenceAfter(g, None, a) == None && b != [] && CanonicalHeading(g, b[0], keys)
    ensures ExtractedSections(g, a + b, keys) == ExtractedSections(g, a, keys) + ExtractedSections(g, b, keys)
  {
    FirstHeading(g, b, keys);
    SplicedHeadings(g, a, b);
    HeadingsOrdered(g, None, a, 0);
    HeadingsOrdered(g, None, b, 0);
    SplitLines(a + b, a, b);
    SplitSections(a + b, a, b, Headings(g, None, a + b, 0), Headings(g, None, a, 0), Headings(g, None, b, 0), keys, g);
  }
}
