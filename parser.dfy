/**
 * Model of parser.py: `analyser_texte_bulletin` turns the text of one report-card page into a
 * record holding the student name, the overall average, the ordered per-subject records and the
 * global comment.
 */
module Parser {
  import opened Wrappers
  import opened Text
  import opened Scan

  /** One entry of "appreciations_matieres". */
  datatype Subject = Subject(matiere: string, moyenne: string, commentaire: string)

  /** The dictionary returned by the parser: its four keys are the four fields. None stands for Python's None. */
  datatype Donnees = Donnees(
    nomEleve: Option<string>,
    moyenneGenerale: Option<string>,
    appreciationsMatieres: seq<Subject>,
    appreciationGlobale: Option<string>)

  // ================================================================ student name

  const BornAnchor: string := "\nNé le"
  const Town: string := "Échirolles"

  predicate IsUpperOrSpace(c: char) { IsUpper(c) || IsSpace(c) }

  /**
   * `([A-Z\s]+[A-Z][a-z]+)\nNé le` tried at s: the end of group 1. The greedy `[A-Z\s]+` must stop
   * one character before the first lower-case letter, which `[A-Z]` then takes.
   */
  function NameEndAt(t: string, s: nat): (r: Option<nat>)
    ensures r.Some? ==> s < r.value <= |t|
  {
    if s > |t| then None
    else
      var j := s + Run(t, s, IsUpperOrSpace);
      if j - s >= 2 && IsUpper(t[j - 1]) then
        var k := j + Run(t, j, IsLower);
        if k > j && OccursAt(t, BornAnchor, k) then Some(k) else None
      else None
  }

  /**
   * The same pattern read declaratively: for some c, t[s..c] is upper-case letters or whitespace
   * (at least one), t[c] is an upper-case letter, t[c+1..e] lower-case letters (at least one),
   * and "\nNé le" follows at e.
   */
  ghost predicate NameRegexMatches(t: string, s: nat, e: nat) {
    exists c :: s < c && c + 1 < e <= |t| && Span(t, s, c, IsUpperOrSpace) && IsUpper(t[c])
      && Span(t, c + 1, e, IsLower) && OccursAt(t, BornAnchor, e)
  }

  /** The scanner finds exactly the matches of the regular expression. */
  lemma NameEndAtIsRegex(t: string, s: nat, e: nat)
    ensures NameEndAt(t, s) == Some(e) <==> NameRegexMatches(t, s, e)
  {
    if NameEndAt(t, s) == Some(e) {
      NameEndAtSound(t, s, e);
    }
    if NameRegexMatches(t, s, e) {
      NameEndAtComplete(t, s, e);
    }
  }

  lemma NameEndAtSound(t: string, s: nat, e: nat)
    requires NameEndAt(t, s) == Some(e)
    ensures NameRegexMatches(t, s, e)
  {
    var j := s + Run(t, s, IsUpperOrSpace);
    assert Span(t, s, j - 1, IsUpperOrSpace);
    assert Span(t, j, e, IsLower);
  }

  lemma NameEndAtComplete(t: string, s: nat, e: nat)
    requires NameRegexMatches(t, s, e)
    ensures NameEndAt(t, s) == Some(e)
  {
    var c :| s < c && c + 1 < e <= |t| && Span(t, s, c, IsUpperOrSpace) && IsUpper(t[c])
      && Span(t, c + 1, e, IsLower) && OccursAt(t, BornAnchor, e);
    NameEndAtSplit(t, s, c, e);
  }

  /** The scanner's two runs end where the regular expression's pieces do. */
  lemma NameEndAtSplit(t: string, s: nat, c: nat, e: nat)
    requires s < c && c + 1 < e <= |t| && Span(t, s, c, IsUpperOrSpace) && IsUpper(t[c])
    requires Span(t, c + 1, e, IsLower) && OccursAt(t, BornAnchor, e)
    ensures NameEndAt(t, s) == Some(e)
  {
    assert !IsUpperOrSpace(t[c + 1]);
    RunIs(t, s, c + 1 - s, IsUpperOrSpace);
    AnchorHead(t, e);
    RunIs(t, c + 1, e - c - 1, IsLower);
    NameEndAtFound(t, s, c + 1, e);
  }

  lemma AnchorHead(t: string, e: nat)
    requires OccursAt(t, BornAnchor, e)
    ensures e < |t| && t[e] == '\n'
  {
    assert t[e] == t[e..e + |BornAnchor|][0];
  }

  lemma NameEndAtFound(t: string, s: nat, j: nat, k: nat)
    requires s <= |t| && j == s + Run(t, s, IsUpperOrSpace) && j - s >= 2 && IsUpper(t[j - 1])
    requires j <= |t| && k == j + Run(t, j, IsLower) && k > j && OccursAt(t, BornAnchor, k)
    ensures NameEndAt(t, s) == Some(k)
  {
  }

  /**
   * `Échirolles\s*(.*?)\nNé le` (DOTALL) tried at s: the bounds of group 1. The greedy `\s*`
   * gives characters back only when no anchor is left after it.
   */
  function TownNameAt(t: string, s: nat): (r: Option<(nat, nat)>)
    ensures r.Some? ==> OccursAt(t, Town, s) && s + |Town| <= r.value.0 <= r.value.1 <= |t|
    ensures r.Some? ==> AllSpace(t[s + |Town|..r.value.0]) && OccursAt(t, BornAnchor, r.value.1)
    ensures r.Some? ==> forall q :: r.value.0 <= q < r.value.1 ==> !OccursAt(t, BornAnchor, q)
    ensures r.Some? && IsSpace(t[r.value.0]) ==> forall q :: r.value.0 < q ==> !OccursAt(t, BornAnchor, q)
    ensures r.None? && OccursAt(t, Town, s) ==> forall q :: s + |Town| <= q ==> !OccursAt(t, BornAnchor, q)
  {
    if !OccursAt(t, Town, s) then None
    else
      SpacedLazy(t, s + |Town|, BornAnchor, 0)
  }

  /** parser.py:16-21: the first pattern wins; the "Échirolles" pattern is the fallback. */
  function ExtractName(t: string): Option<string> {
    match Leftmost(s => NameEndAt(t, s), 0, |t|)
    case Some((s, e)) => Some(Strip(t[s..e]))
    case None =>
      match Leftmost(s => TownNameAt(t, s), 0, |t|)
      case Some((_, (p, q))) => Some(Strip(t[p..q]))
      case None => None
  }

  /** Where the regular expression does not match, neither does the scanner. */
  lemma NoNameBefore(t: string, s: nat)
    requires forall s': nat, e': nat :: s' < s ==> !NameRegexMatches(t, s', e')
    ensures forall s': nat :: s' < s ==> NameEndAt(t, s').None?
  {
    forall s': nat | s' < s ensures NameEndAt(t, s').None? {
      if NameEndAt(t, s').Some? {
        NameEndAtSound(t, s', NameEndAt(t, s').value);
      }
    }
  }

  /** If the name pattern matches first at s, with group 1 ending at e, the name is t[s..e] stripped. */
  lemma NameIsFirstMatch(t: string, s: nat, e: nat)
    requires NameRegexMatches(t, s, e)
    requires forall s': nat, e': nat :: s' < s ==> !NameRegexMatches(t, s', e')
    ensures ExtractName(t) == Some(Strip(t[s..e]))
  {
    NameEndAtComplete(t, s, e);
    NoNameBefore(t, s);
    var f := (s': nat) => NameEndAt(t, s');
    assert forall j :: 0 <= j < s ==> f(j).None?;
    LeftmostIs(f, 0, |t|, s, e);
  }

  /** When the name pattern never matches, the first "Échirolles ... \nNé le" match gives the name. */
  lemma NameFallsBackToTown(t: string, s: nat, p: nat, q: nat)
    requires forall s': nat, e': nat :: !NameRegexMatches(t, s', e')
    requires TownNameAt(t, s) == Some((p, q))
    requires forall s': nat :: s' < s ==> TownNameAt(t, s').None?
    ensures ExtractName(t) == Some(Strip(t[p..q]))
  {
    NoNameBefore(t, |t| + 1);
    var f := (s': nat) => NameEndAt(t, s');
    assert Leftmost(f, 0, |t|).None?;
    var g := (s': nat) => TownNameAt(t, s');
    assert s <= |t|;
    assert forall j :: 0 <= j < s ==> g(j).None?;
    LeftmostIs(g, 0, |t|, s, (p, q));
  }

  // ================================================================ overall average

  const AverageLabel: string := "Moyenne générale"

  predicate IsNumChar(c: char) { IsDigit(c) || c == ',' || c == '.' }

  /** `Moyenne générale\s+([\d,\.]+)` tried at s: the bounds of group 1. */
  function OverallAverageAt(t: string, s: nat): (r: Option<(nat, nat)>)
    ensures r.Some? ==> OccursAt(t, AverageLabel, s) && s + |AverageLabel| < r.value.0 < r.value.1 <= |t|
    ensures r.Some? ==> Span(t, s + |AverageLabel|, r.value.0, IsSpace) && Span(t, r.value.0, r.value.1, IsNumChar)
    ensures r.Some? ==> r.value.1 == |t| || !IsNumChar(t[r.value.1])
  {
    if !OccursAt(t, AverageLabel, s) then None
    else
      var a := s + |AverageLabel|;
      var b := a + Run(t, a, IsSpace);
      var n := Run(t, b, IsNumChar);
      if b > a && n >= 1 then Some((b, b + n)) else None
  }

  /** A run of digits, commas and dots with its commas turned into dots is a run of digits and dots. */
  lemma DottedRun(t: string, a: nat, b: nat)
    requires a < b <= |t| && Span(t, a, b, IsNumChar)
    ensures var r := ReplaceChar(t[a..b], ',', '.'); r != [] && forall i :: 0 <= i < |r| ==> IsDigit(r[i]) || r[i] == '.'
  {
    var r := ReplaceChar(t[a..b], ',', '.');
    forall i | 0 <= i < |r| ensures IsDigit(r[i]) || r[i] == '.' {
      assert t[a..b][i] == t[a + i];
    }
  }

  /** If the average pattern matches first at s, moyenne_generale is its group 1 with commas turned into dots. */
  lemma OverallAverageIsFirstMatch(t: string, s: nat, a: nat, b: nat)
    requires OverallAverageAt(t, s) == Some((a, b))
    requires forall s': nat :: s' < s ==> OverallAverageAt(t, s').None?
    ensures ExtractOverallAverage(t) == Some(ReplaceChar(t[a..b], ',', '.'))
  {
    var f := (s': nat) => OverallAverageAt(t, s');
    assert s <= |t|;
    assert forall j :: 0 <= j < s ==> f(j).None?;
    LeftmostIs(f, 0, |t|, s, (a, b));
  }

  /**
   * parser.py:23-25: group 1 of the leftmost match with every comma turned into a dot, so a
   * non-empty run of digits and dots.
   */
  function ExtractOverallAverage(t: string): (r: Option<string>)
    ensures r.Some? ==> r.value != [] && forall i :: 0 <= i < |r.value| ==> IsDigit(r.value[i]) || r.value[i] == '.'
    ensures r.Some? <==> exists s: nat :: s <= |t| && OverallAverageAt(t, s).Some?
  {
    var f := (s: nat) => OverallAverageAt(t, s);
    match Leftmost(f, 0, |t|)
    case Some((_, (a, b))) =>
      DottedRun(t, a, b);
      Some(ReplaceChar(t[a..b], ',', '.'))
    case None =>
      assert forall s: nat :: s <= |t| ==> OverallAverageAt(t, s).None? by {
        forall s: nat | s <= |t| ensures OverallAverageAt(t, s).None? {
          assert f(s).None?;
        }
      }
      None
  }

  // ================================================================ global comment

  const GlobalLabel: string := "Appréciation globale"
  const MentionsAnchor: string := "\nMentions"

  /** From a, whitespace and then a colon that ends just before d (`\s*:`). */
  predicate ColonEnd(t: string, a: nat, d: nat) {
    a < d <= |t| && AllSpace(t[a..d - 1]) && t[d - 1] == ':'
  }

  /** Where `\s*:` tried at a ends: the end of the whitespace run, when a colon follows it. */
  function ColonAt(t: string, a: nat): (r: Option<nat>)
    requires a <= |t|
    ensures r.Some? ==> ColonEnd(t, a, r.value)
    ensures forall d: nat :: ColonEnd(t, a, d) ==> r == Some(d)
  {
    var c := a + Run(t, a, IsSpace);
    assert forall d: nat :: ColonEnd(t, a, d) ==> d == c + 1 by {
      forall d | ColonEnd(t, a, d) ensures d == c + 1 {
        ColonEndIsRun(t, a, d);
      }
    }
    if c < |t| && t[c] == ':' then
      assert Span(t, a, c, IsSpace);
      Some(c + 1)
    else None
  }

  lemma ColonEndIsRun(t: string, a: nat, d: nat)
    requires ColonEnd(t, a, d)
    ensures d == a + Run(t, a, IsSpace) + 1
  {
    assert Span(t, a, d - 1, IsSpace) by {
      forall i | a <= i < d - 1 ensures IsSpace(t[i]) {
        assert t[a..d - 1][i - a] == t[i];
      }
    }
    RunIs(t, a, d - 1 - a, IsSpace);
  }

  /**
   * `Appréciation globale\s*:\s*(.+?)\nMentions` (DOTALL) tried at s: the bounds of group 1. Group 1
   * starts after the colon and whitespace, and ends at the first anchor after its first character;
   * the greedy `\s*` gives whitespace back only when no anchor is left after it.
   */
  function GlobalCommentAt(t: string, s: nat): (r: Option<(nat, nat)>)
    ensures r.Some? ==> OccursAt(t, GlobalLabel, s) && OccursAt(t, MentionsAnchor, r.value.1)
    ensures r.Some? ==> s + |GlobalLabel| < r.value.0 < r.value.1 <= |t|
    ensures r.Some? ==> var c := ColonAt(t, s + |GlobalLabel|);
      c.Some? && c.value <= r.value.0 && AllSpace(t[c.value..r.value.0])
    ensures r.Some? ==> forall q :: r.value.0 < q < r.value.1 ==> !OccursAt(t, MentionsAnchor, q)
    ensures r.Some? && IsSpace(t[r.value.0]) ==> forall q :: r.value.0 + 1 < q ==> !OccursAt(t, MentionsAnchor, q)
    ensures r.None? && OccursAt(t, GlobalLabel, s) && ColonAt(t, s + |GlobalLabel|).Some? ==>
      forall q :: ColonAt(t, s + |GlobalLabel|).value < q ==> !OccursAt(t, MentionsAnchor, q)
  {
    if !OccursAt(t, GlobalLabel, s) then None
    else
      match ColonAt(t, s + |GlobalLabel|)
      case Some(d) => SpacedLazy(t, d, MentionsAnchor, 1)
      case None => None
  }

  /** parser.py:27-30: newlines become spaces, then strip and " ".join(split()). */
  function ExtractGlobalComment(t: string): (r: Option<string>)
    ensures r.Some? ==> IsCollapsed(r.value)
    ensures r.Some? <==> exists s: nat :: s <= |t| && GlobalCommentAt(t, s).Some?
  {
    var f := (s: nat) => GlobalCommentAt(t, s);
    match Leftmost(f, 0, |t|)
    case Some((_, (p, q))) =>
      CollapseIsCollapsed(Strip(ReplaceChar(t[p..q], '\n', ' ')));
      Some(Collapse(Strip(ReplaceChar(t[p..q], '\n', ' '))))
    case None =>
      assert forall s: nat :: s <= |t| ==> GlobalCommentAt(t, s).None? by {
        forall s: nat | s <= |t| ensures GlobalCommentAt(t, s).None? {
          assert f(s).None?;
        }
      }
      None
  }

  /**
   * If the global-comment pattern matches first at s, the comment is its group 1 with line breaks
   * turned into spaces, stripped and collapsed.
   */
  lemma GlobalCommentIsFirstMatch(t: string, s: nat, p: nat, q: nat)
    requires GlobalCommentAt(t, s) == Some((p, q))
    requires forall s': nat :: s' < s ==> GlobalCommentAt(t, s').None?
    ensures ExtractGlobalComment(t) == Some(Collapse(Strip(ReplaceChar(t[p..q], '\n', ' '))))
  {
    var f := (s': nat) => GlobalCommentAt(t, s');
    assert s <= |t|;
    assert forall j :: 0 <= j < s ==> f(j).None?;
    LeftmostIs(f, 0, |t|, s, (p, q));
  }

  // ================================================================ the subjects table

  const TableStart: string := "Appréciations\n"
  const TableEnd: string := "\nMoyenne générale"

  /** `Appréciations\n(.+?)\nMoyenne générale` (DOTALL) tried at s: the bounds of group 1. */
  function TableAt(t: string, s: nat): (r: Option<(nat, nat)>)
    ensures r.Some? ==> OccursAt(t, TableStart, s) && r.value.0 == s + |TableStart| < r.value.1
    ensures r.Some? ==> OccursAt(t, TableEnd, r.value.1)
    ensures r.Some? ==> forall q :: r.value.0 < q < r.value.1 ==> !OccursAt(t, TableEnd, q)
    ensures r.None? && OccursAt(t, TableStart, s) ==> forall q :: s + |TableStart| < q ==> !OccursAt(t, TableEnd, q)
  {
    if !OccursAt(t, TableStart, s) then None
    else
      var p := s + |TableStart|;
      match FindFrom(t, TableEnd, p + 1)
      case Some(q) => Some((p, q))
      case None => None
  }

  /** The table text (parser.py:36); None where `re.search(...)` returns None and `.group` raises. */
  function TableRegion(t: string): Option<string> {
    match Leftmost(s => TableAt(t, s), 0, |t|)
    case Some((_, (p, q))) => Some(t[p..q])
    case None => None
  }

  /** `tableau_texte.strip().split('\n')` */
  function TableLines(region: string): seq<string> {
    Split(Strip(region), '\n')
  }

  // ================================================================ subject header lines

  const NotGraded: string := "N.Not"

  predicate IsHeaderChar(c: char) { IsUpper(c) || c == '.' || c == ' ' || c == '&' }

  /** `(?:\d+/\d+|N\.Not)` at the start of u: the length of the token. */
  function GradeTokenLen(u: string): (r: Option<nat>)
    ensures r.Some? ==> 0 < r.value <= |u| && (IsDigit(u[0]) || u[0] == 'N')
  {
    var a := Run(u, 0, IsDigit);
    if a >= 1 && a < |u| && u[a] == '/' && Run(u, a + 1, IsDigit) >= 1 then Some(a + 1 + Run(u, a + 1, IsDigit))
    else if NotGradedAt(u) then Some(5)
    else None
  }

  /** `N\.Not` at the start of u, read character by character. */
  predicate NotGradedAt(u: string) {
    5 <= |u| && u[0] == 'N' && u[1] == '.' && u[2] == 'N' && u[3] == 'o' && u[4] == 't'
  }

  /** The character test is the prefix test for "N.Not". */
  lemma NotGradedAtIsPrefix(u: string)
    ensures NotGradedAt(u) <==> StartsWith(u, NotGraded)
    ensures |NotGraded| == 5
  {
    if StartsWith(u, NotGraded) {
      assert forall i :: 0 <= i < 5 ==> u[i] == u[..5][i];
    }
    if NotGradedAt(u) {
      assert u[..5] == NotGraded;
    }
  }

  /**
   * `\d+/\d+|N\.Not` read declaratively at the start of u, ending at n: digits, a slash and a
   * maximal run of digits (nothing follows in the pattern, so the greedy run is not cut back), or
   * exactly "N.Not".
   */
  ghost predicate GradeToken(u: string, n: nat) {
    (exists a: nat :: 1 <= a && a + 1 < n <= |u| && Span(u, 0, a, IsDigit) && u[a] == '/'
      && Span(u, a + 1, n, IsDigit) && (n == |u| || !IsDigit(u[n])))
    || (n == 5 && NotGradedAt(u))
  }

  /** The scanner finds exactly the grade token the alternation matches. */
  lemma GradeTokenLenIsRegex(u: string, n: nat)
    ensures GradeTokenLen(u) == Some(n) <==> GradeToken(u, n)
  {
    if GradeTokenLen(u) == Some(n) {
      GradeTokenLenSound(u, n);
    }
    if GradeToken(u, n) {
      GradeTokenLenComplete(u, n);
    }
  }

  lemma GradeTokenLenSound(u: string, n: nat)
    requires GradeTokenLen(u) == Some(n)
    ensures GradeToken(u, n)
  {
    var a := Run(u, 0, IsDigit);
    if a >= 1 && a < |u| && u[a] == '/' && Run(u, a + 1, IsDigit) >= 1 {
      assert Span(u, 0, a, IsDigit);
      assert Span(u, a + 1, n, IsDigit);
    }
  }

  lemma GradeTokenLenComplete(u: string, n: nat)
    requires GradeToken(u, n)
    ensures GradeTokenLen(u) == Some(n)
  {
    if n == 5 && NotGradedAt(u) {
      RunIs(u, 0, 0, IsDigit);
    } else {
      var a :| 1 <= a && a + 1 < n <= |u| && Span(u, 0, a, IsDigit) && u[a] == '/'
        && Span(u, a + 1, n, IsDigit) && (n == |u| || !IsDigit(u[n]));
      RunIs(u, 0, a, IsDigit);
      RunIs(u, a + 1, n - a - 1, IsDigit);
    }
  }

  /** `\s+(?:\d+/\d+|N\.Not)` at g: the end of the match. Only the longest whitespace run can be followed by the token. */
  function MatchEndAt(l: string, g: nat): (r: Option<nat>)
    requires g <= |l|
    ensures r.Some? ==> g < r.value <= |l|
  {
    var w := Run(l, g, IsSpace);
    if w >= 1 then
      match GradeTokenLen(l[g + w..])
      case Some(n) => Some(g + w + n)
      case None => None
    else None
  }

  /**
   * The backtracking of the greedy group `[A-Z. &]{3,}`: group 1 is tried ending at g, then at
   * g - 1, and so on down to 3 characters.
   */
  function HeaderFrom(l: string, g: nat): (r: Option<(nat, nat)>)
    requires g <= |l|
    decreases g
    ensures r.Some? ==> 3 <= r.value.0 <= g && r.value.0 < r.value.1 <= |l|
  {
    if g < 3 then None
    else
      match MatchEndAt(l, g)
      case Some(e) => Some((g, e))
      case None => HeaderFrom(l, g - 1)
  }

  /** `re.match(r'([A-Z. &]{3,})\s+(?:\d+/\d+|N\.Not)', ligne)`: the end of group 1 and of the match. */
  function HeaderOf(l: string): (r: Option<(nat, nat)>)
    ensures r.Some? ==> 3 <= r.value.0 < r.value.1 <= |l| && Span(l, 0, r.value.0, IsHeaderChar)
  {
    HeaderFrom(l, Run(l, 0, IsHeaderChar))
  }

  /**
   * The header pattern read declaratively: group 1 is l[..g], at least three header characters;
   * whitespace follows up to p, then a grade token up to the match end e.
   */
  ghost predicate HeaderMatches(l: string, g: nat, e: nat) {
    3 <= g <= |l| && Span(l, 0, g, IsHeaderChar)
    && exists p :: g < p <= e <= |l| && Span(l, g, p, IsSpace) && GradeTokenLen(l[p..]) == Some(e - p)
  }

  lemma MatchEndAtFinds(l: string, g: nat, p: nat, e: nat)
    requires g < p <= e <= |l| && Span(l, g, p, IsSpace) && GradeTokenLen(l[p..]) == Some(e - p)
    ensures MatchEndAt(l, g) == Some(e)
  {
    assert l[p..][0] == l[p];
    RunIs(l, g, p - g, IsSpace);
    MatchEndAtOf(l, g, p - g, e - p);
  }

  lemma MatchEndAtOf(l: string, g: nat, w: nat, n: nat)
    requires g <= |l| && w == Run(l, g, IsSpace) && w >= 1 && GradeTokenLen(l[g + w..]) == Some(n)
    ensures MatchEndAt(l, g) == Some(g + w + n)
  {
  }

  lemma HeaderFromFinds(l: string, top: nat, g: nat, e: nat)
    requires g <= top <= |l| && HeaderMatches(l, g, e)
    ensures HeaderFrom(l, top).Some? && HeaderFrom(l, top).value.0 >= g
    decreases top
  {
    if top == g {
      var p :| g < p <= e <= |l| && Span(l, g, p, IsSpace) && GradeTokenLen(l[p..]) == Some(e - p);
      MatchEndAtFinds(l, g, p, e);
    } else if MatchEndAt(l, top).None? {
      HeaderFromFinds(l, top - 1, g, e);
    }
  }

  /** Backtracking stops at the first group end where the rest of the pattern matches. */
  lemma {:induction false} HeaderFromStops(l: string, g: nat)
    requires g <= |l| && HeaderFrom(l, g).Some?
    ensures MatchEndAt(l, HeaderFrom(l, g).value.0) == Some(HeaderFrom(l, g).value.1)
    decreases g
  {
    if MatchEndAt(l, g).None? {
      HeaderFromNext(l, g);
      HeaderFromStops(l, g - 1);
    }
  }

  lemma HeaderFromNext(l: string, g: nat)
    requires g <= |l| && HeaderFrom(l, g).Some? && MatchEndAt(l, g).None?
    ensures 3 <= g && HeaderFrom(l, g) == HeaderFrom(l, g - 1)
  {
  }

  lemma MatchEndAtSound(l: string, g: nat)
    requires 3 <= g <= |l| && Span(l, 0, g, IsHeaderChar) && MatchEndAt(l, g).Some?
    ensures HeaderMatches(l, g, MatchEndAt(l, g).value)
  {
    var e := MatchEndAt(l, g).value;
    var p := g + Run(l, g, IsSpace);
    assert g < p <= e <= |l| && Span(l, g, p, IsSpace) && GradeTokenLen(l[p..]) == Some(e - p);
  }

  /**
   * A line is a subject header exactly when the pattern matches it, and then group 1 is the
   * longest one with which the pattern matches.
   */
  lemma HeaderOfIsLongestMatch(l: string)
    ensures HeaderOf(l).Some? ==> HeaderMatches(l, HeaderOf(l).value.0, HeaderOf(l).value.1)
    ensures forall g: nat, e: nat :: HeaderMatches(l, g, e) ==> HeaderOf(l).Some? && HeaderOf(l).value.0 >= g
  {
    var top := Run(l, 0, IsHeaderChar);
    if HeaderOf(l).Some? {
      HeaderFromStops(l, top);
      MatchEndAtSound(l, HeaderOf(l).value.0);
    }
    forall g: nat, e: nat | HeaderMatches(l, g, e) ensures HeaderOf(l).Some? && HeaderOf(l).value.0 >= g {
      assert g <= top;
      HeaderFromFinds(l, top, g, e);
    }
  }

  // ================================================================ segmentation of the table

  const NoAverage: string := "N/A"

  /** The state of the loop at parser.py:41-64: the subjects already saved and the open one. */
  datatype Segmentation = Segmentation(done: seq<Subject>, current: Option<Subject>)

  /** The subject a header line opens (parser.py:53-60). */
  function Open(l: string, g: nat, e: nat): Subject
    requires g <= e <= |l|
  {
    Subject(Strip(l[..g]), NoAverage, Strip(l[e..]) + " ")
  }

  /** The saved subjects followed by the open one, if any. */
  function Flush(st: Segmentation): seq<Subject> {
    st.done + match st.current case Some(m) => [m] case None => []
  }

  /** One iteration of the loop: a header line saves the open subject and opens a new one; any other line extends the open subject's comment. */
  function Step(st: Segmentation, l: string): Segmentation {
    match HeaderOf(l)
    case Some((g, e)) => Segmentation(Flush(st), Some(Open(l, g, e)))
    case None =>
      match st.current
      case Some(m) => Segmentation(st.done, Some(m.(commentaire := m.commentaire + Strip(l) + " ")))
      case None => st
  }

  /** The loop state after the given lines. */
  function Segmented(lines: seq<string>): Segmentation
    decreases |lines|
  {
    if lines == [] then Segmentation([], None)
    else Step(Segmented(lines[..|lines| - 1]), lines[|lines| - 1])
  }

  /** The subjects of the table, the last one included (parser.py:41-68). */
  function Segment(lines: seq<string>): seq<Subject> {
    Flush(Segmented(lines))
  }

  /** The subject names of the header lines, in order. */
  function HeaderNames(lines: seq<string>): seq<string>
    decreases |lines|
  {
    if lines == [] then []
    else
      var l := lines[|lines| - 1];
      HeaderNames(lines[..|lines| - 1]) + match HeaderOf(l) case Some((g, _)) => [Strip(l[..g])] case None => []
  }

  function Names(subjects: seq<Subject>): (r: seq<string>)
    ensures |r| == |subjects| && forall i :: 0 <= i < |r| ==> r[i] == subjects[i].matiere
  {
    seq(|subjects|, i requires 0 <= i < |subjects| => subjects[i].matiere)
  }

  lemma NamesAppend(a: seq<Subject>, m: Subject)
    ensures Names(a + [m]) == Names(a) + [m.matiere]
  {
    assert Names(a + [m])[|a|] == m.matiere;
  }

  /** One subject per header line, named after it, in the order of the lines: lines before the first header are dropped. */
  lemma {:induction false} SegmentNames(lines: seq<string>)
    ensures Names(Segment(lines)) == HeaderNames(lines)
    decreases |lines|
  {
    if lines != [] {
      var init := lines[..|lines| - 1];
      var l := lines[|lines| - 1];
      SegmentNames(init);
      var st := Segmented(init);
      assert Segmented(lines) == Step(st, l);
      match HeaderOf(l)
      case Some((g, e)) =>
        assert HeaderNames(lines) == HeaderNames(init) + [Strip(l[..g])];
        assert Segment(lines) == Flush(st) + [Open(l, g, e)];
        NamesAppend(Flush(st), Open(l, g, e));
      case None =>
        assert HeaderNames(lines) == HeaderNames(init);
        match st.current
        case Some(m) =>
          var m' := m.(commentaire := m.commentaire + Strip(l) + " ");
          assert Segment(lines) == st.done + [m'];
          assert Flush(st) == st.done + [m];
          NamesAppend(st.done, m);
          NamesAppend(st.done, m');
        case None =>
          assert Segment(lines) == Flush(st);
    }
  }

  /** A subject as the loop builds it: its name is stripped header text, its average "N/A" and its comment ends with a space. */
  ghost predicate IsOpened(m: Subject) {
    IsStripped(m.matiere) && (forall i :: 0 <= i < |m.matiere| ==> IsHeaderChar(m.matiere[i]))
    && m.moyenne == NoAverage && m.commentaire != [] && m.commentaire[|m.commentaire| - 1] == ' '
  }

  lemma StripHeaderChars(l: string, g: nat)
    requires g <= |l| && Span(l, 0, g, IsHeaderChar)
    ensures forall i :: 0 <= i < |Strip(l[..g])| ==> IsHeaderChar(Strip(l[..g])[i])
  {
    var r := Strip(l[..g]);
    var k := g - |TrimLeft(l[..g])|;
    StripSlice(l[..g]);
    forall i | 0 <= i < |r| ensures IsHeaderChar(r[i]) {
      assert r[i] == l[..g][k + i];
    }
  }

  ghost predicate AllOpened(xs: seq<Subject>) {
    forall i :: 0 <= i < |xs| ==> IsOpened(xs[i])
  }

  lemma AllOpenedAppend(xs: seq<Subject>, m: Subject)
    requires AllOpened(xs) && IsOpened(m)
    ensures AllOpened(xs + [m])
  {
    assert forall i :: 0 <= i < |xs| ==> (xs + [m])[i] == xs[i];
  }

  lemma StepKeepsOpened(st: Segmentation, l: string)
    requires AllOpened(Flush(st))
    ensures AllOpened(Flush(Step(st, l)))
  {
    match HeaderOf(l)
    case Some((g, e)) =>
      StripHeaderChars(l, g);
      AllOpenedAppend(Flush(st), Open(l, g, e));
    case None =>
      match st.current
      case Some(m) =>
        assert Flush(st) == st.done + [m];
        assert forall i :: 0 <= i < |st.done| ==> st.done[i] == Flush(st)[i];
        assert IsOpened(Flush(st)[|st.done|]);
        AllOpenedAppend(st.done, m.(commentaire := m.commentaire + Strip(l) + " "));
      case None =>
  }

  /** Every subject the loop saves has a stripped name made of header characters, the average "N/A" and a comment ending with a space. */
  lemma {:induction false} SegmentShape(lines: seq<string>)
    ensures AllOpened(Segment(lines))
    decreases |lines|
  {
    if lines != [] {
      SegmentShape(lines[..|lines| - 1]);
      StepKeepsOpened(Segmented(lines[..|lines| - 1]), lines[|lines| - 1]);
    }
  }

  /**
   * The text the lines from position i on add to the open comment, read forwards: each line
   * stripped and followed by a space, up to (not including) the first header line.
   */
  function Continuation(lines: seq<string>, i: nat): string
    requires i <= |lines|
    decreases |lines| - i
  {
    if i == |lines| || HeaderOf(lines[i]).Some? then ""
    else Strip(lines[i]) + " " + Continuation(lines, i + 1)
  }

  /**
   * The subjects of the table from line i on, read forwards, one per header line: the name is
   * group 1 stripped, the average "N/A", and the comment is the rest of the header line, stripped,
   * with a space, followed by the continuation lines up to the next header. Lines before the
   * first header belong to no subject.
   */
  function SubjectsFrom(lines: seq<string>, i: nat): seq<Subject>
    requires i <= |lines|
    decreases |lines| - i
  {
    if i == |lines| then []
    else
      match HeaderOf(lines[i])
      case Some((g, e)) =>
        var l := lines[i];
        [Subject(Strip(l[..g]), NoAverage, Strip(l[e..]) + " " + Continuation(lines, i + 1))] + SubjectsFrom(lines, i + 1)
      case None => SubjectsFrom(lines, i + 1)
  }

  /** The loop run over the lines from position i on, starting from the state st. */
  function FoldFrom(st: Segmentation, lines: seq<string>, i: nat): Segmentation
    requires i <= |lines|
    decreases |lines| - i
  {
    if i == |lines| then st else FoldFrom(Step(st, lines[i]), lines, i + 1)
  }

  lemma {:induction false} SegmentedIsFold(lines: seq<string>, i: nat)
    requires i <= |lines|
    ensures FoldFrom(Segmented(lines[..i]), lines, i) == Segmented(lines)
    decreases |lines| - i
  {
    if i == |lines| {
      assert lines[..i] == lines;
    } else {
      SegmentedSnoc(lines, i);
      SegmentedIsFold(lines, i + 1);
    }
  }

  lemma FoldFromStep(st: Segmentation, lines: seq<string>, i: nat)
    requires i < |lines|
    ensures FoldFrom(st, lines, i) == FoldFrom(Step(st, lines[i]), lines, i + 1)
  {
  }

  /** With a subject open, the lines up to the next header extend its comment and the rest are read forwards. */
  lemma {:induction false} FoldOpen(done: seq<Subject>, m: Subject, lines: seq<string>, i: nat)
    requires i <= |lines|
    ensures Flush(FoldFrom(Segmentation(done, Some(m)), lines, i))
      == done + [m.(commentaire := m.commentaire + Continuation(lines, i))] + SubjectsFrom(lines, i)
    decreases |lines| - i, 1
  {
    if i == |lines| {
      assert m.commentaire + "" == m.commentaire;
      assert FoldFrom(Segmentation(done, Some(m)), lines, i) == Segmentation(done, Some(m));
    } else if HeaderOf(lines[i]).Some? {
      FoldOpenHeader(done, m, lines, i);
    } else {
      FoldOpenLine(done, m, lines, i);
    }
  }

  lemma {:induction false} FoldOpenHeader(done: seq<Subject>, m: Subject, lines: seq<string>, i: nat)
    requires i < |lines| && HeaderOf(lines[i]).Some?
    ensures Flush(FoldFrom(Segmentation(done, Some(m)), lines, i))
      == done + [m.(commentaire := m.commentaire + Continuation(lines, i))] + SubjectsFrom(lines, i)
    decreases |lines| - i, 0
  {
    var st := Segmentation(done, Some(m));
    FoldFromStep(st, lines, i);
    var o := HeaderLine(st, lines, i);
    FoldOpen(done + [m], o, lines, i + 1);
    assert m.(commentaire := m.commentaire + Continuation(lines, i)) == m by {
      assert m.commentaire + "" == m.commentaire;
    }
    var x := o.(commentaire := o.commentaire + Continuation(lines, i + 1));
    SubjectsAssoc(done + [m], x, SubjectsFrom(lines, i + 1));
  }

  lemma SubjectsAssoc(a: seq<Subject>, x: Subject, b: seq<Subject>)
    ensures a + [x] + b == a + ([x] + b)
  {
  }

  /** A header line o closes the open subject, opens the subject o, and ends the continuation before it. */
  lemma HeaderLine(st: Segmentation, lines: seq<string>, i: nat) returns (o: Subject)
    requires i < |lines| && HeaderOf(lines[i]).Some?
    ensures Step(st, lines[i]) == Segmentation(Flush(st), Some(o))
    ensures SubjectsFrom(lines, i) == [o.(commentaire := o.commentaire + Continuation(lines, i + 1))] + SubjectsFrom(lines, i + 1)
    ensures Continuation(lines, i) == ""
  {
    var (g, e) := HeaderOf(lines[i]).value;
    o := Open(lines[i], g, e);
  }

  lemma {:induction false} FoldOpenLine(done: seq<Subject>, m: Subject, lines: seq<string>, i: nat)
    requires i < |lines| && HeaderOf(lines[i]).None?
    ensures Flush(FoldFrom(Segmentation(done, Some(m)), lines, i))
      == done + [m.(commentaire := m.commentaire + Continuation(lines, i))] + SubjectsFrom(lines, i)
    decreases |lines| - i, 0
  {
    var st, l := Segmentation(done, Some(m)), lines[i];
    var m' := m.(commentaire := m.commentaire + Strip(l) + " ");
    FoldFromStep(st, lines, i);
    assert Step(st, l) == Segmentation(done, Some(m'));
    FoldOpen(done, m', lines, i + 1);
    assert m'.commentaire + Continuation(lines, i + 1) == m.commentaire + Continuation(lines, i) by {
      assert Continuation(lines, i) == Strip(l) + " " + Continuation(lines, i + 1);
    }
    assert SubjectsFrom(lines, i) == SubjectsFrom(lines, i + 1);
  }

  /** With no subject open, the lines are read forwards. */
  lemma {:induction false} FoldClosed(done: seq<Subject>, lines: seq<string>, i: nat)
    requires i <= |lines|
    ensures Flush(FoldFrom(Segmentation(done, None), lines, i)) == done + SubjectsFrom(lines, i)
    decreases |lines| - i
  {
    var st := Segmentation(done, None);
    if i == |lines| {
      assert FoldFrom(st, lines, i) == st;
    } else {
      var l := lines[i];
      FoldFromStep(st, lines, i);
      match HeaderOf(l)
      case Some((g, e)) =>
        var o := Open(l, g, e);
        assert Step(st, l) == Segmentation(done, Some(o));
        FoldOpen(done, o, lines, i + 1);
        var x := o.(commentaire := o.commentaire + Continuation(lines, i + 1));
        assert SubjectsFrom(lines, i) == [x] + SubjectsFrom(lines, i + 1);
      case None =>
        assert Step(st, l) == st;
        FoldClosed(done, lines, i + 1);
        assert SubjectsFrom(lines, i) == SubjectsFrom(lines, i + 1);
    }
  }

  /**
   * The loop's subjects are the forward reading: subject k is opened by the k-th header line,
   * and its comment is the rest of that line followed by every line before the next header.
   */
  lemma SegmentIsSubjects(lines: seq<string>)
    ensures Segment(lines) == SubjectsFrom(lines, 0)
  {
    SegmentedIsFold(lines, 0);
    assert lines[..0] == [];
    FoldClosed([], lines, 0);
  }

  // ================================================================ cleaning one subject

  const NotEvaluated: string := "non évalué"
  const NotEvaluatedComment: string := "non évalué ce trimestre"
  const ParseError: string := "Erreur"
  const UnparsedComment: string := "Données de la matière non parsées."

  /** `M\.|Mme` at the start of u, ending at p, read character by character. */
  predicate TitleAt(u: string, p: nat) {
    (p == 2 && 2 <= |u| && u[0] == 'M' && u[1] == '.')
    || (p == 3 && 3 <= |u| && u[0] == 'M' && u[1] == 'm' && u[2] == 'e')
  }

  /** `(M\.|Mme)\s+[A-Z]+` at the start of u: the length of the match. */
  function TeacherLen(u: string): (r: Option<nat>)
    ensures r.Some? ==> 0 < r.value <= |u|
  {
    var p := if TitleAt(u, 2) then 2 else if TitleAt(u, 3) then 3 else 0;
    if p == 0 then None
    else
      var w := Run(u, p, IsSpace);
      var n := Run(u, p + w, IsUpper);
      if w >= 1 && n >= 1 then Some(p + w + n) else None
  }

  /**
   * The teacher pattern read declaratively at the start of u, ending at n: a title, a whitespace
   * run of at least one character, then a maximal run of at least one capital letter. A shorter
   * whitespace run cannot be followed by a capital, and nothing follows the capitals in the pattern.
   */
  ghost predicate TeacherMatch(u: string, n: nat) {
    exists p: nat, w: nat :: TitleAt(u, p) && p < w < n <= |u| && Span(u, p, w, IsSpace)
      && Span(u, w, n, IsUpper) && (n == |u| || !IsUpper(u[n]))
  }

  /** The scanner finds exactly the teacher names the pattern matches. */
  lemma TeacherLenIsRegex(u: string, n: nat)
    ensures TeacherLen(u) == Some(n) <==> TeacherMatch(u, n)
  {
    if TeacherLen(u) == Some(n) {
      TeacherLenSound(u, n);
    }
    if TeacherMatch(u, n) {
      TeacherLenComplete(u, n);
    }
  }

  lemma TeacherLenSound(u: string, n: nat)
    requires TeacherLen(u) == Some(n)
    ensures TeacherMatch(u, n)
  {
    var p := if TitleAt(u, 2) then 2 else 3;
    var w := p + Run(u, p, IsSpace);
    assert Span(u, p, w, IsSpace);
    assert Span(u, w, n, IsUpper);
  }

  lemma TeacherLenComplete(u: string, n: nat)
    requires TeacherMatch(u, n)
    ensures TeacherLen(u) == Some(n)
  {
    var p: nat, w: nat :| TitleAt(u, p) && p < w < n <= |u| && Span(u, p, w, IsSpace)
      && Span(u, w, n, IsUpper) && (n == |u| || !IsUpper(u[n]));
    TeacherRuns(u, p, w, n);
  }

  lemma TeacherRuns(u: string, p: nat, w: nat, n: nat)
    requires TitleAt(u, p) && p < w < n <= |u| && Span(u, p, w, IsSpace)
    requires Span(u, w, n, IsUpper) && (n == |u| || !IsUpper(u[n]))
    ensures TeacherLen(u) == Some(n)
  {
    assert IsUpper(u[w]);
    RunIs(u, p, w - p, IsSpace);
    RunIs(u, w, n - w, IsUpper);
    TeacherLenOf(u, p, w, n);
  }

  lemma TeacherLenOf(u: string, p: nat, w: nat, n: nat)
    requires TitleAt(u, p) && p < w < n <= |u|
    requires Run(u, p, IsSpace) == w - p && Run(u, w, IsUpper) == n - w
    ensures TeacherLen(u) == Some(n)
  {
    assert p == if TitleAt(u, 2) then 2 else 3;
  }

  /** `re.sub(r'(M\.|Mme)\s+[A-Z]+', '', u)`: teacher names removed, left to right. */
  function StripTeachers(u: string): (r: string)
    ensures |r| <= |u|
    decreases |u|
  {
    if u == [] then []
    else
      match TeacherLen(u)
      case Some(n) => StripTeachers(u[n..])
      case None => [u[0]] + StripTeachers(u[1..])
  }

  /** Text in which no teacher name starts is copied as it is, and the scan goes on after it. */
  lemma {:induction false} StripTeachersKeeps(a: string, b: string)
    requires forall i :: 0 <= i < |a| ==> TeacherLen((a + b)[i..]).None?
    ensures StripTeachers(a + b) == a + StripTeachers(b)
    decreases |a|
  {
    if a == [] {
      assert a + b == b;
    } else {
      var u := a + b;
      assert u[0..] == u;
      StripTeachersCopies(u);
      assert u[1..] == a[1..] + b;
      forall i | 0 <= i < |a| - 1 ensures TeacherLen((a[1..] + b)[i..]).None? {
        assert (a[1..] + b)[i..] == u[i + 1..];
      }
      StripTeachersKeeps(a[1..], b);
      ConsAppend(a, StripTeachers(b));
    }
  }

  lemma ConsAppend(a: string, x: string)
    requires a != []
    ensures [a[0]] + (a[1..] + x) == a + x
  {
    assert a == [a[0]] + a[1..];
  }

  lemma StripTeachersCopies(u: string)
    requires u != [] && TeacherLen(u).None?
    ensures StripTeachers(u) == [u[0]] + StripTeachers(u[1..])
  {
  }

  /** A teacher name at the scan position is dropped whole, and the scan resumes after it. */
  lemma StripTeachersDrops(m: string, b: string)
    requires TeacherLen(m + b) == Some(|m|)
    ensures StripTeachers(m + b) == StripTeachers(b)
  {
    assert (m + b)[|m|..] == b;
  }

  /**
   * The substitution removes the first teacher name and copies the text before it: when no match
   * starts in a and one spans exactly m, the result is a followed by the substitution of b. The
   * scan does not look again at the text that a removal joins up.
   */
  lemma StripTeachersRemovesFirst(a: string, m: string, b: string)
    requires forall i :: 0 <= i < |a| ==> TeacherLen((a + m + b)[i..]).None?
    requires TeacherLen(m + b) == Some(|m|)
    ensures StripTeachers(a + m + b) == a + StripTeachers(b)
  {
    assert a + m + b == a + (m + b);
    StripTeachersKeeps(a, m + b);
    StripTeachersDrops(m, b);
  }

  /**
   * The text a removal joins up is not scanned again, so a teacher name can survive: with b =
   * "me DUPONT", "MM. Xme DUPONT" becomes "Mme DUPONT".
   */
  lemma StripTeachersDoesNotRescan(b: string)
    requires 'M' !in b && (b == [] || !IsUpper(b[0]))
    ensures StripTeachers("MM. X" + b) == "M" + b
  {
    var a, m := "M", "M. X";
    assert a + m + b == "MM. X" + b;
    NoTeacherAtDoubleM(a + m + b);
    TeacherAtX(m, b);
    StripTeachersRemovesFirst(a, m, b);
    StripTeachersWithoutTitle(b);
  }

  lemma NoTeacherAtDoubleM(u: string)
    requires 2 <= |u| && u[1] == 'M'
    ensures TeacherLen(u).None?
  {
    assert !TitleAt(u, 2) && !TitleAt(u, 3);
  }

  lemma TeacherAtX(m: string, b: string)
    requires m == "M. X" && (b == [] || !IsUpper(b[0]))
    ensures TeacherLen(m + b) == Some(|m|)
  {
    var u := m + b;
    assert u[0] == 'M' && u[1] == '.' && u[2] == ' ' && u[3] == 'X';
    RunIs(u, 2, 1, IsSpace);
    RunIs(u, 3, 1, IsUpper);
    TeacherLenOf(u, 2, 3, 4);
  }

  /** Every title starts with an M, so a comment without one is left as it is. */
  lemma StripTeachersWithoutTitle(u: string)
    requires 'M' !in u
    ensures StripTeachers(u) == u
  {
    forall i | 0 <= i < |u| ensures TeacherLen(u[i..]).None? {
      assert u[i..][0] == u[i];
    }
    StripTeachersKeepsPlainText(u);
  }

  /** A comment in which no teacher name starts anywhere is left as it is. */
  lemma StripTeachersKeepsPlainText(u: string)
    requires forall i :: 0 <= i < |u| ==> TeacherLen(u[i..]).None?
    ensures StripTeachers(u) == u
  {
    assert u + [] == u;
    StripTeachersKeeps(u, []);
  }

  /** The comment marks the subject as not evaluated. */
  predicate MarksNotEvaluated(c: string) {
    Contains(c, NotGraded) || Contains(c, NotEvaluated)
  }

  predicate IsDecimalSep(c: char) { c == ',' || c == '.' }

  /** Text of the form `\d{1,2}[,.]\d{2}`. */
  predicate IsGradeToken(g: string) {
    (|g| == 4 && IsDigit(g[0]) && IsDecimalSep(g[1]) && IsDigit(g[2]) && IsDigit(g[3]))
    || (|g| == 5 && IsDigit(g[0]) && IsDigit(g[1]) && IsDecimalSep(g[2]) && IsDigit(g[3]) && IsDigit(g[4]))
  }

  /** A subject average as stored: one or two digits, a dot, two digits. */
  predicate IsAverage(g: string) {
    IsGradeToken(g) && g[|g| - 3] == '.'
  }

  lemma AverageChars(g: string)
    requires IsAverage(g)
    ensures forall i :: 0 <= i < |g| ==> IsDigit(g[i]) || g[i] == '.'
  {
    forall i | 0 <= i < |g| ensures IsDigit(g[i]) || g[i] == '.' {
      if |g| == 4 {
        assert i == 0 || i == 1 || i == 2 || i == 3;
      } else {
        assert i == 0 || i == 1 || i == 2 || i == 3 || i == 4;
      }
    }
  }

  /** `\d{1,2}[,.]\d{2}` at the start of u; the greedy `\d{1,2}` tries two digits before one. */
  function GradeLen(u: string): (r: Option<nat>)
    ensures r.Some? ==> r.value <= |u| && IsGradeToken(u[..r.value])
  {
    if 5 <= |u| && IsDigit(u[0]) && IsDigit(u[1]) && IsDecimalSep(u[2]) && IsDigit(u[3]) && IsDigit(u[4]) then Some(5)
    else if 4 <= |u| && IsDigit(u[0]) && IsDecimalSep(u[1]) && IsDigit(u[2]) && IsDigit(u[3]) then Some(4)
    else None
  }

  /** The grade search matches exactly the grade-shaped prefixes, preferring two integer digits. */
  lemma GradeLenIsGreedy(u: string)
    ensures forall n :: 4 <= n <= 5 && n <= |u| && IsGradeToken(u[..n]) ==> GradeLen(u).Some?
    ensures 5 <= |u| && IsGradeToken(u[..5]) ==> GradeLen(u) == Some(5)
  {
  }

  predicate IsNoiseChar(c: char) { IsDigit(c) || IsSpace(c) || c == ',' || c == '.' || c == '/' }

  /** `re.sub(r'^\s*[\d\s,./]*', '', u)`: the leading digits, whitespace, commas, dots and slashes removed. */
  function DropNoise(u: string): (r: string)
    ensures r == [] || !IsNoiseChar(r[0])
  {
    if u != [] && IsNoiseChar(u[0]) then DropNoise(u[1..]) else u
  }

  /** What is removed is exactly the longest prefix of noise characters: the rest is a suffix of u that does not start with one. */
  lemma {:induction false} DropNoiseSpec(u: string)
    ensures var r := DropNoise(u); |r| <= |u| && r == u[|u| - |r|..]
    ensures var r := DropNoise(u); forall i :: 0 <= i < |u| - |r| ==> IsNoiseChar(u[i])
    ensures var r := DropNoise(u); r == [] || !IsNoiseChar(r[0])
  {
    if u != [] && IsNoiseChar(u[0]) {
      DropNoiseSpec(u[1..]);
      var r := DropNoise(u);
      assert r == DropNoise(u[1..]);
      forall i | 0 <= i < |u| - |r|
        ensures IsNoiseChar(u[i])
      {
        if i > 0 {
          assert u[i] == u[1..][i - 1];
        }
      }
      assert u[1..][|u[1..]| - |r|..] == u[|u| - |r|..];
    }
  }

  predicate IsFractionTail(c: char) { IsDigit(c) || c == ',' || IsSpace(c) || c == '.' }

  // `\s*\d*/\d+\s*[\d,\s.]*` at the start of u: the length of the match.
  function FractionLen(u: string): (r: Option<nat>)
    ensures r.Some? ==> 0 < r.value <= |u|
  {
    var a := Run(u, 0, IsSpace);
    var b := a + Run(u, a, IsDigit);
    if b < |u| && u[b] == '/' && Run(u, b + 1, IsDigit) >= 1 then
      var c := b + 1 + Run(u, b + 1, IsDigit);
      Some(c + Run(u, c, IsFractionTail))
    else None
  }

  /** A slash followed by a digit always starts a fraction. */
  lemma FractionAtSlash(u: string)
    requires 2 <= |u| && u[0] == '/' && FractionLen(u).None?
    ensures !IsDigit(u[1])
  {
    RunIs(u, 0, 0, IsSpace);
    RunIs(u, 0, 0, IsDigit);
  }

  /** A fraction can only start with whitespace, a digit or the slash. */
  lemma FractionStartsWithNoise(u: string)
    requires u != [] && !IsNoiseChar(u[0])
    ensures FractionLen(u).None?
  {
    RunIs(u, 0, 0, IsSpace);
    RunIs(u, 0, 0, IsDigit);
  }

  // `\s*\d*/\d+\s*[\d,\s.]*` matches u from its start up to n: spaces, digits, a slash, at least one
  // digit, then the characters of the tail, as many as there are (every quantifier is greedy and
  // nothing follows them, so the match ends where the tail's characters stop).
  ghost predicate FractionMatch(u: string, n: nat) {
    exists a: nat, b: nat, c: nat :: Span(u, 0, a, IsSpace) && Span(u, a, b, IsDigit) && b < |u| && u[b] == '/'
      && b + 1 < c && Span(u, b + 1, c, IsDigit) && Span(u, c, n, IsFractionTail) && (n == |u| || !IsFractionTail(u[n]))
  }

  /** The scanner reports exactly the end of the regex match, and reports one whenever the regex matches. */
  lemma FractionLenIsRegex(u: string, n: nat)
    ensures FractionLen(u) == Some(n) <==> FractionMatch(u, n)
  {
    if FractionLen(u) == Some(n) {
      FractionLenSound(u, n);
    }
    if FractionMatch(u, n) {
      FractionLenComplete(u, n);
    }
  }

  lemma FractionLenSound(u: string, n: nat)
    requires FractionLen(u) == Some(n)
    ensures FractionMatch(u, n)
  {
    var a := Run(u, 0, IsSpace);
    var b := a + Run(u, a, IsDigit);
    FractionLenFound(u, a, b);
    var c := b + 1 + Run(u, b + 1, IsDigit);
    FractionMatchOfRuns(u, a, b, c, n);
  }

  lemma FractionLenFound(u: string, a: nat, b: nat)
    requires FractionLen(u).Some? && a == Run(u, 0, IsSpace) && b == a + Run(u, a, IsDigit)
    ensures b < |u| && u[b] == '/' && Run(u, b + 1, IsDigit) >= 1
    ensures var c := b + 1 + Run(u, b + 1, IsDigit); FractionLen(u).value == c + Run(u, c, IsFractionTail)
  {
  }

  lemma FractionMatchOfRuns(u: string, a: nat, b: nat, c: nat, n: nat)
    requires a == Run(u, 0, IsSpace) && a <= |u| && b == a + Run(u, a, IsDigit) && b < |u| && u[b] == '/'
    requires c == b + 1 + Run(u, b + 1, IsDigit) && b + 1 < c && n == c + Run(u, c, IsFractionTail)
    ensures FractionMatch(u, n)
  {
    RunSpan(u, 0, IsSpace);
    RunSpan(u, a, IsDigit);
    RunSpan(u, b + 1, IsDigit);
    FractionMatchOf(u, a, b, c, n);
  }

  lemma FractionMatchOf(u: string, a: nat, b: nat, c: nat, n: nat)
    requires Span(u, 0, a, IsSpace) && Span(u, a, b, IsDigit) && b < |u| && u[b] == '/'
    requires b + 1 < c && Span(u, b + 1, c, IsDigit) && c <= |u| && n == c + Run(u, c, IsFractionTail)
    ensures FractionMatch(u, n)
  {
    RunSpan(u, c, IsFractionTail);
  }

  lemma FractionLenComplete(u: string, n: nat)
    requires FractionMatch(u, n)
    ensures FractionLen(u) == Some(n)
  {
    var a: nat, b: nat, c: nat :| Span(u, 0, a, IsSpace) && Span(u, a, b, IsDigit) && b < |u| && u[b] == '/'
      && b + 1 < c && Span(u, b + 1, c, IsDigit) && Span(u, c, n, IsFractionTail) && (n == |u| || !IsFractionTail(u[n]));
    FractionParts(u, a, b, c, n);
  }

  lemma FractionParts(u: string, a: nat, b: nat, c: nat, n: nat)
    requires Span(u, 0, a, IsSpace) && Span(u, a, b, IsDigit) && b < |u| && u[b] == '/'
    requires b + 1 < c && Span(u, b + 1, c, IsDigit) && Span(u, c, n, IsFractionTail) && (n == |u| || !IsFractionTail(u[n]))
    ensures FractionLen(u) == Some(n)
  {
    assert !IsSpace(u[a]);
    RunIs(u, 0, a, IsSpace);
    RunIs(u, a, b - a, IsDigit);
    var e := b + 1 + Run(u, b + 1, IsDigit);
    RunCovers(u, b + 1, c, IsDigit);
    if n < |u| {
      RunStopsBy(u, b + 1, n, IsDigit);
    }
    assert forall k :: e <= k < n ==> IsFractionTail(u[k]);
    RunIs(u, e, n - e, IsFractionTail);
    FractionLenOf(u, a, b, e, n);
  }

  lemma FractionLenOf(u: string, a: nat, b: nat, e: nat, n: nat)
    requires a <= b < |u| && Run(u, 0, IsSpace) == a && Run(u, a, IsDigit) == b - a && u[b] == '/'
    requires b + 1 < e <= n <= |u| && Run(u, b + 1, IsDigit) == e - b - 1 && Run(u, e, IsFractionTail) == n - e
    ensures FractionLen(u) == Some(n)
  {
  }

  // `re.sub(r'\s*\d*/\d+\s*[\d,\s.]*', ' ', u)`: every fraction and the numbers after it become one space.
  function ReplaceFractions(u: string): (r: string)
    decreases |u|
  {
    if u == [] then []
    else
      match FractionLen(u)
      case Some(n) => " " + ReplaceFractions(u[n..])
      case None => [u[0]] + ReplaceFractions(u[1..])
  }

  /** The rewrite starts with the space that replaces a fraction, or else with u's own first character. */
  lemma ReplaceFractionsHead(u: string)
    requires u != []
    ensures var r := ReplaceFractions(u); r != [] && (r[0] == ' ' || (FractionLen(u).None? && r[0] == u[0]))
  {
  }

  /** No slash in r is followed by a digit. */
  predicate NoFraction(r: string) {
    forall i :: 0 <= i < |r| - 1 && r[i] == '/' ==> !IsDigit(r[i + 1])
  }

  /** No slash followed by a digit is left once the fractions are replaced. */
  lemma {:induction false} NoFractionLeft(u: string)
    ensures NoFraction(ReplaceFractions(u))
    decreases |u|
  {
    if u != [] {
      match FractionLen(u)
      case Some(n) =>
        NoFractionLeft(u[n..]);
        NoFractionCons(' ', ReplaceFractions(u[n..]));
      case None =>
        NoFractionLeft(u[1..]);
        var rest := ReplaceFractions(u[1..]);
        if u[0] == '/' && 1 < |u| {
          FractionAtSlash(u);
          ReplaceFractionsHead(u[1..]);
          assert u[1..][0] == u[1];
        }
        NoFractionCons(u[0], rest);
    }
  }

  /** A character put in front of text without fractions makes none, unless it is a slash before a digit. */
  lemma NoFractionCons(c: char, rest: string)
    requires NoFraction(rest) && (c == '/' && rest != [] ==> !IsDigit(rest[0]))
    ensures NoFraction([c] + rest)
  {
    var r := [c] + rest;
    forall i | 0 <= i < |r| - 1 && r[i] == '/' ensures !IsDigit(r[i + 1]) {
      if i > 0 {
        assert r[i] == rest[i - 1] && r[i + 1] == rest[i];
      }
    }
  }

  /** Text without a slash holds no fraction and comes out of the rewrite unchanged. */
  lemma {:induction false} ReplaceFractionsNoSlash(u: string)
    requires '/' !in u
    ensures ReplaceFractions(u) == u
    decreases |u|
  {
    if u != [] {
      var b := Run(u, 0, IsSpace) + Run(u, Run(u, 0, IsSpace), IsDigit);
      assert FractionLen(u).None? by {
        if b < |u| {
          assert u[b] in u;
        }
      }
      assert '/' !in u[1..] by {
        forall k | 0 <= k < |u[1..]| ensures u[1..][k] != '/' {
          assert u[1..][k] == u[k + 1] && u[k + 1] in u;
        }
      }
      ReplaceFractionsNoSlash(u[1..]);
      assert [u[0]] + u[1..] == u;
    }
  }

  lemma NoFractionSlice(s: string, i: nat, j: nat)
    requires i <= j <= |s| && NoFraction(s)
    ensures NoFraction(s[i..j])
  {
    var t := s[i..j];
    forall k | 0 <= k < |t| - 1 && t[k] == '/'
      ensures !IsDigit(t[k + 1])
    {
      assert t[k] == s[i + k] && t[k + 1] == s[i + k + 1];
    }
  }

  lemma {:induction false} WordsNoFraction(s: string)
    requires NoFraction(s)
    ensures forall i :: 0 <= i < |Words(s)| ==> NoFraction(Words(s)[i])
    decreases |s|
  {
    var t := TrimLeft(s);
    if t != [] {
      TrimLeftSuffix(s);
      NoFractionSlice(s, |s| - |t|, |s|);
      var n := WordLen(t);
      NoFractionSlice(t, 0, n);
      NoFractionSlice(t, n, |t|);
      WordsNoFraction(t[n..]);
    }
  }

  lemma NoFractionSpaced(a: string, b: string)
    requires NoFraction(a) && NoFraction(b)
    ensures NoFraction(a + " " + b)
  {
    var r := a + " " + b;
    forall i | 0 <= i < |r| - 1 && r[i] == '/'
      ensures !IsDigit(r[i + 1])
    {
      if i < |a| - 1 {
        assert r[i] == a[i] && r[i + 1] == a[i + 1];
      } else if i == |a| - 1 {
        assert r[i + 1] == ' ';
      } else {
        assert r[|a|] == ' ';
        assert r[i] == b[i - |a| - 1] && r[i + 1] == b[i - |a|];
      }
    }
  }

  lemma {:induction false} JoinNoFraction(ws: seq<string>)
    requires forall i :: 0 <= i < |ws| ==> NoFraction(ws[i])
    ensures NoFraction(Join(ws, " "))
  {
    if |ws| >= 2 {
      JoinNoFraction(ws[1..]);
      NoFractionSpaced(ws[0], Join(ws[1..], " "));
    }
  }

  /** Stripping and collapsing whitespace brings no slash next to a digit. */
  lemma CollapseStripNoFraction(s: string)
    requires NoFraction(s)
    ensures NoFraction(Collapse(Strip(s)))
  {
    StripSlice(s);
    NoFractionSlice(s, |s| - |TrimLeft(s)|, |s| - |TrimLeft(s)| + |Strip(s)|);
    WordsNoFraction(Strip(s));
    JoinNoFraction(Words(Strip(s)));
  }

  lemma CleanedHead(d: string)
    requires d == [] || !IsNoiseChar(d[0])
    ensures var r := Collapse(Strip(ReplaceFractions(d))); IsCollapsed(r) && (r == [] || !IsNoiseChar(r[0]))
  {
    var f := ReplaceFractions(d);
    CollapseIsCollapsed(Strip(f));
    if d != [] {
      FractionStartsWithNoise(d);
      ReplaceFractionsHead(d);
      assert f[0] == d[0];
      StripKeepsHead(f);
      CollapseKeepsHead(Strip(f));
    } else {
      assert Strip(f) == [];
      assert Words([]) == [];
    }
  }

  /** The cleaning of the text after the grade (parser.py:88-91). */
  function CleanComment(rest: string): (r: string)
    ensures IsCollapsed(r)
    ensures r == [] || !IsNoiseChar(r[0])
  {
    CleanedHead(DropNoise(Strip(rest)));
    Collapse(Strip(ReplaceFractions(DropNoise(Strip(rest)))))
  }

  /** No slash followed by a digit survives the cleaning: the fractions are gone from the comment. */
  lemma CleanCommentNoFraction(rest: string)
    ensures NoFraction(CleanComment(rest))
  {
    NoFractionLeft(DropNoise(Strip(rest)));
    CollapseStripNoFraction(ReplaceFractions(DropNoise(Strip(rest))));
  }

  /** No grade starts anywhere in c. */
  predicate NoGrade(c: string) {
    forall i :: 0 <= i <= |c| ==> GradeLen(c[i..]).None?
  }

  /** The first grade of c starts at i and is n characters long. */
  predicate FirstGradeAt(c: string, i: nat, n: nat) {
    i <= |c| && GradeLen(c[i..]) == Some(n) && forall j :: 0 <= j < i ==> GradeLen(c[j..]).None?
  }

  /** The scan of `re.search` from position j on: the first position where a grade starts, and its length. */
  function FirstGradeFrom(c: string, j: nat): (r: Option<(nat, nat)>)
    requires j <= |c|
    decreases |c| - j
    ensures r.Some? ==> j <= r.value.0 && r.value.0 + r.value.1 <= |c|
  {
    match GradeLen(c[j..])
    case Some(n) => Some((j, n))
    case None => if j == |c| then None else FirstGradeFrom(c, j + 1)
  }

  lemma {:induction false} FirstGradeFromSpec(c: string, j: nat)
    requires j <= |c|
    decreases |c| - j
    ensures var r := FirstGradeFrom(c, j);
      r.Some? ==> GradeLen(c[r.value.0..]) == Some(r.value.1) && forall k :: j <= k < r.value.0 ==> GradeLen(c[k..]).None?
    ensures FirstGradeFrom(c, j).None? ==> forall k :: j <= k <= |c| ==> GradeLen(c[k..]).None?
  {
    if GradeLen(c[j..]).None? && j < |c| {
      FirstGradeFromSpec(c, j + 1);
    }
  }

  /** `re.search(r'(\d{1,2}[,.]\d{2})', c)`: where the first grade starts, and its length. */
  function FirstGrade(c: string): (r: Option<(nat, nat)>)
    ensures r.Some? ==> r.value.0 + r.value.1 <= |c|
  {
    FirstGradeFrom(c, 0)
  }

  /** The search returns the leftmost grade, and None exactly when no grade starts anywhere in c. */
  lemma FirstGradeSpec(c: string)
    ensures FirstGrade(c).Some? ==> FirstGradeAt(c, FirstGrade(c).value.0, FirstGrade(c).value.1)
    ensures FirstGrade(c).None? ==> NoGrade(c)
  {
    FirstGradeFromSpec(c, 0);
  }

  /** A grade that is the first one in c is the one the search finds. */
  lemma FirstGradeIsFirst(c: string, i: nat, n: nat)
    requires FirstGradeAt(c, i, n)
    ensures FirstGrade(c) == Some((i, n))
  {
    FirstGradeFromSpec(c, 0);
  }

  /** The post-processing of one subject (parser.py:72-94). */
  function Clean(x: Subject): Subject {
    var c := StripTeachers(x.commentaire);
    if MarksNotEvaluated(c) then x.(moyenne := NotGraded, commentaire := NotEvaluatedComment)
    else
      match FirstGrade(c)
      case Some((i, n)) => x.(moyenne := ReplaceChar(c[i..i + n], ',', '.'), commentaire := CleanComment(c[i + n..]))
      case None => x.(moyenne := ParseError, commentaire := UnparsedComment)
  }

  /**
   * The three outcomes of the post-processing: "N.Not" exactly when the comment, without teacher
   * names, says so; "Erreur" exactly when it holds no grade either; otherwise a dotted grade and a
   * cleaned comment. The subject name never changes.
   */
  lemma CleanOutcomes(x: Subject)
    ensures Clean(x).matiere == x.matiere
    ensures Clean(x).moyenne == NotGraded <==> MarksNotEvaluated(StripTeachers(x.commentaire))
    ensures Clean(x).moyenne == NotGraded ==> Clean(x).commentaire == NotEvaluatedComment
    ensures Clean(x).moyenne == ParseError <==> !MarksNotEvaluated(StripTeachers(x.commentaire)) && NoGrade(StripTeachers(x.commentaire))
    ensures Clean(x).moyenne == ParseError ==> Clean(x).commentaire == UnparsedComment
    ensures Clean(x).moyenne != NotGraded && Clean(x).moyenne != ParseError ==>
      IsAverage(Clean(x).moyenne) && IsCollapsed(Clean(x).commentaire) && NoFraction(Clean(x).commentaire)
      && (Clean(x).commentaire == [] || !IsNoiseChar(Clean(x).commentaire[0]))
  {
    var c := StripTeachers(x.commentaire);
    FirstGradeSpec(c);
    if !MarksNotEvaluated(c) && FirstGrade(c).Some? {
      CleanGraded(x);
    }
  }

  /** The graded outcome: the average is a dotted grade, distinct from both markers. */
  lemma CleanGraded(x: Subject)
    requires !MarksNotEvaluated(StripTeachers(x.commentaire)) && FirstGrade(StripTeachers(x.commentaire)).Some?
    ensures IsAverage(Clean(x).moyenne) && Clean(x).moyenne != NotGraded && Clean(x).moyenne != ParseError
    ensures Clean(x).matiere == x.matiere
    ensures IsCollapsed(Clean(x).commentaire) && (Clean(x).commentaire == [] || !IsNoiseChar(Clean(x).commentaire[0]))
    ensures NoFraction(Clean(x).commentaire)
  {
    var c := StripTeachers(x.commentaire);
    var (i, n) := FirstGrade(c).value;
    FirstGradeSpec(c);
    GradeTokenAt(c, i, n);
    DottedGrade(c[i..i + n]);
    CleanTakesFirstGrade(x, c, i, n);
    CleanCommentNoFraction(c[i + n..]);
  }

  lemma GradeTokenAt(c: string, i: nat, n: nat)
    requires FirstGradeAt(c, i, n)
    ensures i + n <= |c| && IsGradeToken(c[i..i + n])
  {
    assert c[i..][..n] == c[i..i + n];
  }

  /** A grade with its comma turned into a dot is an average, and neither marker. */
  lemma DottedGrade(t: string)
    requires IsGradeToken(t)
    ensures IsAverage(ReplaceChar(t, ',', '.'))
    ensures ReplaceChar(t, ',', '.') != NotGraded && ReplaceChar(t, ',', '.') != ParseError
  {
    var g := ReplaceChar(t, ',', '.');
    assert g != NotGraded by { assert !IsDigit(NotGraded[0]); }
    assert g != ParseError by { assert !IsDigit(ParseError[0]); }
  }

  /** The average taken is the first grade in the comment, with a dot, and the comment is what follows it, cleaned. */
  lemma CleanTakesFirstGrade(x: Subject, c: string, i: nat, n: nat)
    requires c == StripTeachers(x.commentaire) && !MarksNotEvaluated(c) && FirstGradeAt(c, i, n)
    ensures i + n <= |c|
    ensures Clean(x) == x.(moyenne := ReplaceChar(c[i..i + n], ',', '.'), commentaire := CleanComment(c[i + n..]))
  {
    FirstGradeIsFirst(c, i, n);
    CleanWithGrade(x, c, i, n);
  }

  lemma CleanWithGrade(x: Subject, c: string, i: nat, n: nat)
    requires c == StripTeachers(x.commentaire) && !MarksNotEvaluated(c) && FirstGrade(c) == Some((i, n))
    ensures i + n <= |c|
    ensures Clean(x) == x.(moyenne := ReplaceChar(c[i..i + n], ',', '.'), commentaire := CleanComment(c[i + n..]))
  {
    var g := FirstGrade(c);
    assert g == Some((i, n));
    assert Clean(x) == x.(moyenne := ReplaceChar(c[g.value.0..g.value.0 + g.value.1], ',', '.'), commentaire := CleanComment(c[g.value.0 + g.value.1..]));
  }

  function CleanAll(xs: seq<Subject>): (r: seq<Subject>)
    ensures |r| == |xs| && forall i :: 0 <= i < |xs| ==> r[i] == Clean(xs[i])
  {
    seq(|xs|, i requires 0 <= i < |xs| => Clean(xs[i]))
  }

  // ================================================================ the whole page

  /** The record parser.py returns for a page; without a subjects table the list stays empty. */
  function Analyse(texte: string): Donnees {
    var subjects := match TableRegion(texte)
      case Some(region) => CleanAll(Segment(TableLines(region)))
      case None => [];
    Donnees(ExtractName(texte), ExtractOverallAverage(texte), subjects, ExtractGlobalComment(texte))
  }

  /**
   * The subjects of a page: one per header line of the table, named after it, in order; each
   * average is "N.Not", "Erreur" or a grade with a dot.
   */
  lemma AnalyseSubjects(texte: string)
    ensures TableRegion(texte).None? ==> Analyse(texte).appreciationsMatieres == []
    ensures TableRegion(texte).Some? ==>
      Names(Analyse(texte).appreciationsMatieres) == HeaderNames(TableLines(TableRegion(texte).value))
    ensures forall i :: 0 <= i < |Analyse(texte).appreciationsMatieres| ==>
      var m := Analyse(texte).appreciationsMatieres[i];
      (m.moyenne == NotGraded || m.moyenne == ParseError || IsAverage(m.moyenne)) && m.moyenne != NoAverage
  {
    var subjects := Analyse(texte).appreciationsMatieres;
    match TableRegion(texte) {
      case Some(region) =>
        var seg := Segment(TableLines(region));
        assert subjects == CleanAll(seg);
        SegmentNames(TableLines(region));
        forall i | 0 <= i < |subjects|
          ensures subjects[i].matiere == seg[i].matiere
          ensures subjects[i].moyenne == NotGraded || subjects[i].moyenne == ParseError || IsAverage(subjects[i].moyenne)
          ensures subjects[i].moyenne != NoAverage
        {
          CleanOutcomes(seg[i]);
          assert !IsDigit(NoAverage[0]);
        }
        assert Names(subjects) == Names(seg);
      case None =>
    }
  }

  lemma SegmentedSnoc(lines: seq<string>, i: nat)
    requires i < |lines|
    ensures Segmented(lines[..i + 1]) == Step(Segmented(lines[..i]), lines[i])
  {
    assert lines[..i + 1][..i] == lines[..i];
  }

  /** The body of the first loop for one line (parser.py:45-64). */
  method ReadLine(done: seq<Subject>, current: Option<Subject>, ligne: string)
    returns (done': seq<Subject>, current': Option<Subject>)
    ensures Segmentation(done', current') == Step(Segmentation(done, current), ligne)
  {
    done', current' := done, current;
    match HeaderOf(ligne) {
      case Some((g, e)) =>
        if current'.Some? {
          done' := done' + [current'.value];
        }
        current' := Some(Open(ligne, g, e));
      case None =>
        if current'.Some? {
          current' := Some(current'.value.(commentaire := current'.value.commentaire + Strip(ligne) + " "));
        }
    }
  }

  /** The first loop (parser.py:41-68): the table lines cut into subjects. */
  method SegmentLines(lignes: seq<string>) returns (subjects: seq<Subject>)
    ensures subjects == Segment(lignes)
  {
    var done: seq<Subject> := [];
    var current: Option<Subject> := None;
    for i := 0 to |lignes|
      invariant Segmentation(done, current) == Segmented(lignes[..i])
    {
      SegmentedSnoc(lignes, i);
      done, current := ReadLine(done, current, lignes[i]);
    }
    assert lignes[..|lignes|] == lignes;
    subjects := done;
    if current.Some? {
      subjects := subjects + [current.value];
    }
  }

  /** The second loop (parser.py:71-94): every subject cleaned in place. */
  method CleanSubjects(segment: seq<Subject>) returns (subjects: seq<Subject>)
    ensures subjects == CleanAll(segment)
  {
    subjects := segment;
    for i := 0 to |subjects|
      invariant |subjects| == |segment|
      invariant forall j :: 0 <= j < i ==> subjects[j] == Clean(segment[j])
      invariant forall j :: i <= j < |subjects| ==> subjects[j] == segment[j]
    {
      subjects := subjects[i := Clean(subjects[i])];
    }
  }

  /** `analyser_texte_bulletin`. */
  method AnalyserTexteBulletin(texte: string) returns (d: Donnees)
    ensures d == Analyse(texte)
  {
    var subjects: seq<Subject> := [];
    match TableRegion(texte) {
      case Some(region) =>
        subjects := SegmentLines(TableLines(region));
        subjects := CleanSubjects(subjects);
      case None =>
    }
    d := Donnees(ExtractName(texte), ExtractOverallAverage(texte), subjects, ExtractGlobalComment(texte));
  }
}
