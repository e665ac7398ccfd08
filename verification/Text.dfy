/** The string operations the parsers lean on: strip, split-and-join, and joining lines. */
module Text {

  /** What Python's str.isspace, and so strip and split, treat as white space. */
  predicate IsSpace(c: char) {
    || '\t' <= c <= '\r' || '\U{1c}' <= c <= ' ' || c == '\U{85}' || c == '\U{a0}' || c == '\U{1680}'
    || '\U{2000}' <= c <= '\U{200a}' || c == '\U{2028}' || c == '\U{2029}' || c == '\U{202f}'
    || c == '\U{205f}' || c == '\U{3000}'
  }

  predicate AllSpace(s: string) { forall c | c in s :: IsSpace(c) }

  predicate NoSpace(s: string) { forall c | c in s :: !IsSpace(c) }

  // ---- strip -------------------------------------------------------------------

  function StripLeft(s: string): string {
    if s != "" && IsSpace(s[0]) then StripLeft(s[1..]) else s
  }

  function StripRight(s: string): string {
    if s != "" && IsSpace(s[|s| - 1]) then StripRight(s[..|s| - 1]) else s
  }

  function Strip(s: string): string { StripRight(StripLeft(s)) }

  lemma {:induction false} StripLeftSplit(s: string, t: string)
    ensures StripLeft(s + t) == if AllSpace(s) then StripLeft(t) else StripLeft(s) + t
  {
    if s == "" {
      assert s + t == t;
    } else {
      assert (s + t)[1..] == s[1..] + t && (s + t)[0] == s[0];
      if IsSpace(s[0]) {
        StripLeftSplit(s[1..], t);
        assert AllSpace(s) <==> AllSpace(s[1..]) by {
          assert s == [s[0]] + s[1..];
        }
      }
    }
  }

  lemma {:induction false} StripLeftAll(s: string)
    ensures StripLeft(s) == "" <==> AllSpace(s)
  {
    if s != "" {
      assert s == [s[0]] + s[1..];
      StripLeftAll(s[1..]);
    }
  }

  lemma {:induction false} StripRightSpace(s: string, c: char)
    requires IsSpace(c)
    ensures StripRight(s + [c]) == StripRight(s)
  {
  }

  lemma {:induction false} StripRightKeeps(s: string, k: nat)
    requires k < |s| && !IsSpace(s[k])
    ensures |StripRight(s)| > k && StripRight(s) <= s
  {
    if IsSpace(s[|s| - 1]) {
      StripRightKeeps(s[..|s| - 1], k);
    }
  }

  lemma {:induction false} StripLeftFirst(s: string)
    ensures StripLeft(s) != "" ==> !IsSpace(StripLeft(s)[0])
  {
    if s != "" && IsSpace(s[0]) {
      StripLeftFirst(s[1..]);
    }
  }

  /** Only white space strips to nothing. */
  lemma {:induction false} StripEmpty(s: string)
    ensures Strip(s) == "" <==> AllSpace(s)
  {
    StripLeftAll(s);
    StripLeftFirst(s);
    if StripLeft(s) != "" {
      StripRightKeeps(StripLeft(s), 0);
    }
  }

  lemma {:induction false} StripRightSplits(s: string) returns (after: string)
    ensures s == StripRight(s) + after && AllSpace(after)
    ensures StripRight(s) != "" ==> !IsSpace(StripRight(s)[|StripRight(s)| - 1])
  {
    after := "";
    if s != "" && IsSpace(s[|s| - 1]) {
      after := StripRightSplits(s[..|s| - 1]);
      after := after + [s[|s| - 1]];
    }
  }

  lemma {:induction false} StripLeftSplits(s: string) returns (before: string)
    ensures s == before + StripLeft(s) && AllSpace(before)
  {
    before := "";
    if s != "" && IsSpace(s[0]) {
      before := StripLeftSplits(s[1..]);
      before := [s[0]] + before;
    }
  }

  /** Strip takes away white space at both ends, and all of it. */
  lemma {:induction false} StripSplits(s: string) returns (before: string, after: string)
    ensures s == before + Strip(s) + after && AllSpace(before) && AllSpace(after)
    ensures Strip(s) != "" ==> !IsSpace(Strip(s)[0]) && !IsSpace(Strip(s)[|Strip(s)| - 1])
  {
    before := StripLeftSplits(s);
    after := StripRightSplits(StripLeft(s));
    StripLeftFirst(s);
  }

  /** White space around a text does not survive strip. */
  lemma {:induction false} StripPadded(before: char, s: string, after: char)
    requires IsSpace(before) && IsSpace(after)
    ensures Strip([before] + s + [after]) == Strip(s)
  {
    assert ([before] + s + [after])[1..] == s + [after];
    StripLeftSplit(s, [after]);
    StripLeftAll(s);
    StripLeftAll([after]);
    if !AllSpace(s) {
      StripRightSpace(StripLeft(s), after);
    }
  }

  // ---- split and join ------------------------------------------------------------

  function WordLength(s: string): (n: nat)
    ensures n <= |s| && (n == 0 <==> s == "" || IsSpace(s[0]))
  {
    if s == "" || IsSpace(s[0]) then 0 else 1 + WordLength(s[1..])
  }

  /** Maximal runs without white space. */
  function Words(s: string): seq<string>
    decreases |s|
  {
    if s == "" then []
    else if IsSpace(s[0]) then Words(s[1..])
    else [s[..WordLength(s)]] + Words(s[WordLength(s)..])
  }

  predicate AreWords(ws: seq<string>) { forall w | w in ws :: w != "" && NoSpace(w) }

  lemma {:induction false} FirstWord(s: string)
    ensures NoSpace(s[..WordLength(s)])
  {
    if s != "" && !IsSpace(s[0]) {
      FirstWord(s[1..]);
      assert s[..WordLength(s)] == [s[0]] + s[1..][..WordLength(s[1..])];
    }
  }

  lemma {:induction false} WordsAreWords(s: string)
    ensures AreWords(Words(s))
    decreases |s|
  {
    if s != "" {
      if IsSpace(s[0]) {
        WordsAreWords(s[1..]);
      } else {
        FirstWord(s);
        WordsAreWords(s[WordLength(s)..]);
      }
    }
  }

  function Spaced(ws: seq<string>): string {
    if ws == [] then "" else if |ws| == 1 then ws[0] else ws[0] + " " + Spaced(ws[1..])
  }

  /** The words of `s` with single blanks between them. */
  function Collapse(s: string): string { Spaced(Words(s)) }

  lemma {:induction false} WordLengthOf(w: string, t: string)
    requires NoSpace(w) && (t == "" || IsSpace(t[0]))
    ensures WordLength(w + t) == |w|
  {
    if w == "" {
      assert w + t == t;
    } else {
      assert (w + t)[1..] == w[1..] + t;
      WordLengthOf(w[1..], t);
    }
  }

  lemma {:induction false} WordsOfSpaced(ws: seq<string>)
    requires AreWords(ws)
    ensures Words(Spaced(ws)) == ws
  {
    if ws != [] {
      var w, rest := ws[0], if |ws| == 1 then "" else " " + Spaced(ws[1..]);
      assert Spaced(ws) == w + rest;
      WordLengthOf(w, rest);
      assert (w + rest)[..|w|] == w && (w + rest)[|w|..] == rest;
      if |ws| > 1 {
        assert rest[1..] == Spaced(ws[1..]);
        WordsOfSpaced(ws[1..]);
      }
    }
  }

  /** Collapsing is idempotent: a normalised label is normal. */
  lemma {:induction false} CollapseIdempotent(s: string)
    ensures Collapse(Collapse(s)) == Collapse(s)
  {
    WordsAreWords(s);
    WordsOfSpaced(Words(s));
  }

  lemma {:induction false} NoWords(s: string)
    ensures Words(s) == [] <==> AllSpace(s)
    decreases |s|
  {
    if s != "" && IsSpace(s[0]) {
      assert s == [s[0]] + s[1..];
      NoWords(s[1..]);
    }
  }

  /** A text with something in it is still something once collapsed. */
  lemma {:induction false} CollapseNonEmpty(s: string)
    requires Strip(s) != ""
    ensures Collapse(s) != ""
  {
    StripEmpty(s);
    NoWords(s);
    WordsAreWords(s);
    assert Words(s)[0] in Words(s);
  }

  // ---- lines ---------------------------------------------------------------------

  function Join(lines: seq<string>): string {
    if lines == [] then "" else if |lines| == 1 then lines[0] else lines[0] + "\n" + Join(lines[1..])
  }

  lemma {:induction false} JoinSnoc(lines: seq<string>, last: string)
    requires lines != []
    ensures Join(lines + [last]) == Join(lines) + "\n" + last
  {
    assert (lines + [last])[1..] == lines[1..] + [last];
    if |lines| == 1 {
      assert lines[1..] + [last] == [last];
    } else {
      JoinSnoc(lines[1..], last);
    }
  }

  /** Empty lines around a block do not survive strip. */
  lemma {:induction false} StripBlankLines(lines: seq<string>)
    ensures Strip(Join([""] + lines + [""])) == Strip(Join(lines))
  {
    JoinSnoc([""] + lines, "");
    if lines == [] {
      assert [""] + lines == [""];
      StripPadded('\n', "", '\n');
      assert StripLeft("\n") == StripLeft("\n"[1..]);
      assert Join([""] + lines + [""]) == "\n";
    } else {
      assert ([""] + lines)[1..] == lines;
      assert Join([""] + lines + [""]) == ['\n'] + Join(lines) + ['\n'];
      StripPadded('\n', Join(lines), '\n');
    }
  }
}
