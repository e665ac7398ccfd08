/** Branch names decide ownership: which profile and Issue number a branch belongs to. */
module Branches {
  import opened Wrappers

  datatype Profile = Task | Bug | Documentation | Research

  function Namespace(p: Profile): string {
    match p
    case Task => "task/"
    case Bug => "bug/"
    case Documentation => "documentation/"
    case Research => "research/"
  }

  function Kind(p: Profile): string {
    match p
    case Task => "task"
    case Bug => "bug"
    case Documentation => "documentation"
    case Research => "research"
  }

  // ---- numerals --------------------------------------------------------------------

  // Other decimal digits that \d admits never occur in str(number), so they decide nothing.
  predicate IsDigit(c: char) { '0' <= c <= '9' }

  predicate AllDigits(s: string) { forall i | 0 <= i < |s| :: IsDigit(s[i]) }

  /** str(n) of a natural number. */
  function Decimal(n: nat): (s: string)
    ensures s != ""
  {
    var last := ['0' + (n % 10) as char];
    if n < 10 then last else Decimal(n / 10) + last
  }

  lemma {:induction false} DecimalDigits(n: nat)
    ensures AllDigits(Decimal(n))
  {
    if n >= 10 {
      DecimalDigits(n / 10);
    }
  }

  lemma {:induction false} DecimalInjective(m: nat, n: nat)
    requires Decimal(m) == Decimal(n)
    ensures m == n
  {
    var s, t := Decimal(m), Decimal(n);
    assert s[|s| - 1] == '0' + (m % 10) as char && t[|t| - 1] == '0' + (n % 10) as char;
    assert m % 10 == n % 10;
    if m >= 10 || n >= 10 {
      assert |Decimal(m)| == 1 <==> m < 10;
      assert |Decimal(n)| == 1 <==> n < 10;
      assert s[..|s| - 1] == Decimal(m / 10) && t[..|t| - 1] == Decimal(n / 10);
      DecimalInjective(m / 10, n / 10);
    }
  }

  // ---- recognising a branch --------------------------------------------------------

  function DigitRun(s: string): (n: nat)
    ensures n <= |s|
  {
    if s != "" && IsDigit(s[0]) then 1 + DigitRun(s[1..]) else 0
  }

  /** A dash and at least one more character, on one line. */
  predicate DashRest(s: string) {
    |s| >= 2 && s[0] == '-' && forall i | 1 <= i < |s| :: s[i] != '\n'
  }

  /** The number of a Task branch name: task/N, task-N, both with or without a suffix, or N-suffix. */
  function TaskNumber(branch: string): Option<string> {
    if "task/" <= branch || "task-" <= branch then
      var rest := branch[5..];
      var d := DigitRun(rest);
      if d > 0 && (d == |rest| || DashRest(rest[d..])) then Some(rest[..d]) else None
    else
      var d := DigitRun(branch);
      if d > 0 && DashRest(branch[d..]) then Some(branch[..d]) else None
  }

  predicate SlugChar(c: char) { 'a' <= c <= 'z' || '0' <= c <= '9' }

  predicate IsSlug(s: string) {
    s != "" && SlugChar(s[0]) && forall i | 0 <= i < |s| :: SlugChar(s[i]) || s[i] == '-'
  }

  predicate BranchMatchesProfile(branch: string, number: nat, p: Profile) {
    if p.Task? then TaskNumber(branch) == Some(Decimal(number))
    else
      var prefix := Namespace(p) + Decimal(number) + "-";
      prefix <= branch && IsSlug(branch[|prefix|..])
  }

  /** A dash and more, without a line break. */
  predicate Suffix(rest: string) {
    |rest| >= 2 && rest[0] == '-' && forall i | 1 <= i < |rest| :: rest[i] != '\n'
  }

  /** The number of a branch is in one of four places. */
  ghost predicate NamesTask(branch: string, ds: string, rest: string) {
    || (branch == "task/" + ds + rest && (rest == "" || Suffix(rest)))
    || (branch == "task-" + ds + rest && (rest == "" || Suffix(rest)))
    || (branch == ds + rest && Suffix(rest))
  }

  /** Digits and a suffix give these digits back. */
  lemma {:induction false} NumeralOf(s: string, ds: string, rest: string)
    requires s == ds + rest && AllDigits(ds) && (rest == "" || Suffix(rest))
    ensures DigitRun(s) == |ds| && s[..|ds|] == ds && s[|ds|..] == rest
  {
    DigitRunOf(ds, rest);
  }

  lemma {:induction false} NamedIsMatched(branch: string, ds: string, rest: string)
    requires NamesTask(branch, ds, rest) && AllDigits(ds) && ds != ""
    ensures TaskNumber(branch) == Some(ds)
  {
    if branch == ds + rest && Suffix(rest) {
      assert branch[0] == ds[0];
      NumeralOf(branch, ds, rest);
    } else {
      var head := if branch == "task/" + ds + rest then "task/" else "task-";
      assert branch == head + (ds + rest);
      assert branch[5..] == ds + rest && head <= branch;
      NumeralOf(branch[5..], ds, rest);
    }
  }

  lemma {:induction false} MatchedIsNamed(branch: string, ds: string) returns (rest: string)
    requires TaskNumber(branch) == Some(ds)
    ensures NamesTask(branch, ds, rest)
  {
    if "task/" <= branch || "task-" <= branch {
      rest := branch[5..][|ds|..];
      assert branch == branch[..5] + ds + rest;
    } else {
      rest := branch[|ds|..];
      assert branch == ds + rest;
    }
  }

  /** A Task owns exactly task/N and task-N, both with or without a suffix, and N with one. */
  lemma {:induction false} TaskBranchExactly(branch: string, number: nat)
    ensures BranchMatchesProfile(branch, number, Task) <==>
      exists rest: string :: NamesTask(branch, Decimal(number), rest)
  {
    var ds := Decimal(number);
    DecimalDigits(number);
    if TaskNumber(branch) == Some(ds) {
      var rest := MatchedIsNamed(branch, ds);
      assert BranchMatchesProfile(branch, number, Task);
      assert exists r: string :: NamesTask(branch, Decimal(number), r);
    } else if rest: string :| NamesTask(branch, ds, rest) {
      NamedIsMatched(branch, ds, rest);
    }
  }

  /** The other profiles own exactly their directory, number, dash and slug. */
  lemma {:induction false} ProfileBranchExactly(branch: string, number: nat, p: Profile, directory: string)
    requires (p, directory) in {(Bug, "bug/"), (Documentation, "documentation/"), (Research, "research/")}
    ensures BranchMatchesProfile(branch, number, p) <==>
      exists slug: string ::
        && branch == directory + Decimal(number) + "-" + slug && slug != "" && slug[0] != '-'
        && forall i | 0 <= i < |slug| :: 'a' <= slug[i] <= 'z' || '0' <= slug[i] <= '9' || slug[i] == '-'
  {
    var prefix := directory + Decimal(number) + "-";
    assert prefix <= branch ==> branch == prefix + branch[|prefix|..];
  }

  // ---- one owner -------------------------------------------------------------------

  /** A numeral ends where the digits end. */
  lemma {:induction false} DigitRunOf(ds: string, rest: string)
    requires AllDigits(ds) && (rest == "" || !IsDigit(rest[0]))
    ensures DigitRun(ds + rest) == |ds|
  {
    if ds == "" {
      assert ds + rest == rest;
    } else {
      assert (ds + rest)[1..] == ds[1..] + rest;
      DigitRunOf(ds[1..], rest);
    }
  }

  lemma {:induction false} SameNumeral(m: nat, n: nat, a: string, b: string)
    requires Decimal(m) + "-" + a == Decimal(n) + "-" + b
    ensures m == n
  {
    DecimalDigits(m);
    DecimalDigits(n);
    assert Decimal(m) + "-" + a == Decimal(m) + ("-" + a);
    assert Decimal(n) + "-" + b == Decimal(n) + ("-" + b);
    DigitRunOf(Decimal(m), "-" + a);
    DigitRunOf(Decimal(n), "-" + b);
    var whole := Decimal(m) + ("-" + a);
    assert whole[..DigitRun(whole)] == Decimal(m) == Decimal(n);
    DecimalInjective(m, n);
  }

  /** Only Task names start with t or a digit. */
  lemma {:induction false} FirstLetter(branch: string, number: nat, p: Profile)
    requires BranchMatchesProfile(branch, number, p)
    ensures branch != ""
    ensures p.Task? ==> branch[0] == 't' || IsDigit(branch[0])
    ensures !p.Task? ==> branch[0] == Namespace(p)[0]
  {
  }

  lemma {:induction false} SplitAt(branch: string, namespace: string, number: nat)
    requires namespace + Decimal(number) + "-" <= branch
    ensures namespace <= branch
    ensures exists slug: string :: branch[|namespace|..] == Decimal(number) + "-" + slug
  {
    var prefix := namespace + Decimal(number) + "-";
    assert branch[|namespace|..] == Decimal(number) + "-" + branch[|prefix|..];
  }

  lemma {:induction false} OneNumber(branch: string, namespace: string, m: nat, n: nat)
    requires namespace + Decimal(m) + "-" <= branch && namespace + Decimal(n) + "-" <= branch
    ensures m == n
  {
    SplitAt(branch, namespace, m);
    SplitAt(branch, namespace, n);
    var a: string :| branch[|namespace|..] == Decimal(m) + "-" + a;
    var b: string :| branch[|namespace|..] == Decimal(n) + "-" + b;
    SameNumeral(m, n, a, b);
  }

  /** No branch name belongs to two profiles or to two Issues. */
  lemma {:induction false} OneOwner(branch: string, m: nat, p: Profile, n: nat, q: Profile)
    requires BranchMatchesProfile(branch, m, p) && BranchMatchesProfile(branch, n, q)
    ensures p == q && m == n
  {
    FirstLetter(branch, m, p);
    FirstLetter(branch, n, q);
    if p.Task? {
      DecimalInjective(m, n);
    } else {
      OneNumber(branch, Namespace(p), m, n);
    }
  }

  // ---- canonical names -------------------------------------------------------------

  function WordRun(s: string): (n: nat)
    ensures n <= |s| && (s != "" && SlugChar(s[0]) ==> n > 0)
  {
    if s != "" && SlugChar(s[0]) then 1 + WordRun(s[1..]) else 0
  }

  /** Runs of letters and digits of a title that is already ASCII and casefolded. */
  function TitleWords(s: string): seq<string>
    decreases |s|
  {
    if s == "" then []
    else if SlugChar(s[0]) then [s[..WordRun(s)]] + TitleWords(s[WordRun(s)..])
    else TitleWords(s[1..])
  }

  function Dashed(words: seq<string>): string {
    if words == [] then "" else if |words| == 1 then words[0] else words[0] + "-" + Dashed(words[1..])
  }

  /** At most twelve words, or the kind of the profile when the title has none. */
  function Slug(p: Profile, title: string): string {
    var words := TitleWords(title);
    var slug := Dashed(if |words| <= 12 then words else words[..12]);
    if slug == "" then Kind(p) else slug
  }

  function CanonicalBranch(p: Profile, number: nat, title: string): string {
    Namespace(p) + Decimal(number) + "-" + Slug(p, title)
  }

  predicate IsWord(w: string) { w != "" && forall i | 0 <= i < |w| :: SlugChar(w[i]) }

  lemma {:induction false} WordRunIsWord(s: string)
    ensures forall i | 0 <= i < WordRun(s) :: SlugChar(s[i])
  {
    if s != "" && SlugChar(s[0]) {
      WordRunIsWord(s[1..]);
      forall i | 0 < i < WordRun(s) ensures SlugChar(s[i]) {
        assert s[i] == s[1..][i - 1];
      }
    }
  }

  lemma {:induction false} TitleWordsAreWords(s: string)
    ensures forall i | 0 <= i < |TitleWords(s)| :: IsWord(TitleWords(s)[i])
    decreases |s|
  {
    if s != "" {
      if SlugChar(s[0]) {
        WordRunIsWord(s);
        TitleWordsAreWords(s[WordRun(s)..]);
      } else {
        TitleWordsAreWords(s[1..]);
      }
    }
  }

  lemma {:induction false} DashedIsSlug(words: seq<string>)
    requires words != [] && forall i | 0 <= i < |words| :: IsWord(words[i])
    ensures IsSlug(Dashed(words))
  {
    assert IsWord(words[0]);
    if |words| > 1 {
      DashedIsSlug(words[1..]);
    }
  }

  lemma {:induction false} SlugIsSlug(p: Profile, title: string)
    ensures IsSlug(Slug(p, title))
  {
    TitleWordsAreWords(title);
    var words := TitleWords(title);
    var few := if |words| <= 12 then words else words[..12];
    if few != [] {
      DashedIsSlug(few);
    }
  }

  function Dashes(s: string): nat { if s == "" then 0 else Dashes(s[1..]) + if s[0] == '-' then 1 else 0 }

  lemma {:induction false} DashesJoin(a: string, b: string)
    ensures Dashes(a + b) == Dashes(a) + Dashes(b)
    ensures IsWord(a) ==> Dashes(a) == 0
  {
    if a == "" {
      assert a + b == b;
    } else {
      assert (a + b)[1..] == a[1..] + b;
      DashesJoin(a[1..], b);
      if IsWord(a) && a[1..] != "" {
        assert IsWord(a[1..]);
      }
    }
  }

  lemma {:induction false} DashedDashes(words: seq<string>)
    requires words != [] && forall i | 0 <= i < |words| :: IsWord(words[i])
    ensures Dashes(Dashed(words)) == |words| - 1
  {
    DashesJoin(words[0], "");
    if |words| > 1 {
      DashedDashes(words[1..]);
      DashesJoin(words[0], "-" + Dashed(words[1..]));
      assert words[0] + "-" + Dashed(words[1..]) == words[0] + ("-" + Dashed(words[1..]));
      DashesJoin("-", Dashed(words[1..]));
    } else {
      assert words[0] + "" == words[0];
    }
  }

  /** A slug has as many words as the title, but never more than twelve; without any it is the kind. */
  lemma {:induction false} SlugBounded(p: Profile, title: string)
    ensures var n := |TitleWords(title)|;
      Dashes(Slug(p, title)) == (if n == 0 then 0 else if n <= 12 then n - 1 else 11)
    ensures TitleWords(title) == [] ==> Slug(p, title) in {"task", "bug", "documentation", "research"}
  {
    TitleWordsAreWords(title);
    var words := TitleWords(title);
    var few := if |words| <= 12 then words else words[..12];
    if few != [] {
      DashedDashes(few);
      DashedIsSlug(few);
    } else {
      assert IsWord(Kind(p));
      DashesJoin(Kind(p), "");
    }
  }

  /** Whatever the title, the derived branch is recognised as its own Issue's. */
  lemma {:induction false} CanonicalIsRecognised(p: Profile, number: nat, title: string)
    ensures BranchMatchesProfile(CanonicalBranch(p, number, title), number, p)
  {
    var slug, ds := Slug(p, title), Decimal(number);
    SlugIsSlug(p, title);
    var branch := CanonicalBranch(p, number, title);
    var prefix := Namespace(p) + ds + "-";
    assert branch == prefix + slug && branch[|prefix|..] == slug;
    if p.Task? {
      var rest := branch[5..];
      assert rest == ds + ("-" + slug);
      DecimalDigits(number);
      DigitRunOf(ds, "-" + slug);
      assert rest[|ds|..] == "-" + slug && rest[..|ds|] == ds;
      assert "task/" <= branch;
    }
  }
}
