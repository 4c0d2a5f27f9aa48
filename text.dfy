/**
 * The Python string operations the core relies on: strip, split, join, " ".join(s.split()),
 * substring search, replace.
 *
 * Alphabet assumption: whitespace is the ASCII set that Python's str.strip(), str.split() and the
 * regex class \s share on ASCII text (space, \t, \n, \v, \f, \r and the four separators U+001C
 * to U+001F); digits are ASCII 0-9; letters are ASCII A-Z / a-z. Non-ASCII whitespace or digits
 * are not modelled.
 */
module Text {
  import opened Wrappers

  /**
   * Space, one of tab, line feed, vertical tab, form feed and carriage return (9 to 13), or one of
   * the file, group, record and unit separators (28 to 31).
   */
  predicate IsSpace(c: char) {
    c == ' ' || '\t' <= c <= '\r' || '\U{1C}' <= c <= '\U{1F}'
  }

  predicate IsDigit(c: char) { '0' <= c <= '9' }

  predicate IsUpper(c: char) { 'A' <= c <= 'Z' }

  predicate IsLower(c: char) { 'a' <= c <= 'z' }

  predicate NoSpace(s: string) { forall i :: 0 <= i < |s| ==> !IsSpace(s[i]) }

  predicate AllSpace(s: string) { forall i :: 0 <= i < |s| ==> IsSpace(s[i]) }

  /** Neither end of s is whitespace (what str.strip() returns). */
  predicate IsStripped(s: string) {
    s == [] || (!IsSpace(s[0]) && !IsSpace(s[|s| - 1]))
  }

  // ---------------------------------------------------------------- strip

  /** str.lstrip() */
  function TrimLeft(s: string): (r: string)
    ensures |r| <= |s|
    ensures r == [] || !IsSpace(r[0])
  {
    if s != [] && IsSpace(s[0]) then TrimLeft(s[1..]) else s
  }

  /** lstrip() keeps a suffix of its argument. */
  lemma {:induction false} TrimLeftSuffix(s: string)
    ensures TrimLeft(s) == s[|s| - |TrimLeft(s)|..]
  {
    if s != [] && IsSpace(s[0]) {
      TrimLeftSuffix(s[1..]);
      assert s[1..][|s| - 1 - |TrimLeft(s)|..] == s[|s| - |TrimLeft(s)|..];
    }
  }

  /** lstrip() removes whitespace only. */
  lemma {:induction false} TrimLeftSpaces(s: string)
    ensures AllSpace(s[..|s| - |TrimLeft(s)|])
  {
    if s != [] && IsSpace(s[0]) {
      TrimLeftSpaces(s[1..]);
      var n := |s| - |TrimLeft(s)|;
      forall i | 0 <= i < n ensures IsSpace(s[i]) {
        if i > 0 {
          assert s[..n][i] == s[1..][..n - 1][i - 1];
        }
      }
    }
  }

  /** str.rstrip() */
  function TrimRight(s: string): (r: string)
    ensures |r| <= |s|
    ensures r == [] || !IsSpace(r[|r| - 1])
  {
    if s != [] && IsSpace(s[|s| - 1]) then TrimRight(s[..|s| - 1]) else s
  }

  /** rstrip() keeps a prefix of its argument. */
  lemma {:induction false} TrimRightPrefix(s: string)
    ensures TrimRight(s) == s[..|TrimRight(s)|]
  {
    if s != [] && IsSpace(s[|s| - 1]) {
      TrimRightPrefix(s[..|s| - 1]);
      assert s[..|s| - 1][..|TrimRight(s)|] == s[..|TrimRight(s)|];
    }
  }

  /** rstrip() removes whitespace only. */
  lemma {:induction false} TrimRightSpaces(s: string)
    ensures AllSpace(s[|TrimRight(s)|..])
  {
    if s != [] && IsSpace(s[|s| - 1]) {
      var u := s[..|s| - 1];
      TrimRightSpaces(u);
      var m := |TrimRight(s)|;
      forall i | m <= i < |s| ensures IsSpace(s[i]) {
        if i < |s| - 1 {
          assert s[m..][i - m] == u[m..][i - m];
        }
      }
    }
  }

  /** str.strip() */
  function Strip(s: string): (r: string)
    ensures IsStripped(r)
  {
    var t := TrimLeft(s);
    TrimRightPrefix(t);
    TrimRight(t)
  }

  /** strip() cuts s into leading whitespace, the result and trailing whitespace. */
  lemma StripSpec(s: string)
    ensures var r := Strip(s); var k := |s| - |TrimLeft(s)|;
      k + |r| <= |s| && r == s[k..k + |r|] && AllSpace(s[..k]) && AllSpace(s[k + |r|..])
  {
    TrimLeftSpaces(s);
    StripSlice(s);
    StripTrailing(s);
  }

  lemma StripSlice(s: string)
    ensures var r := Strip(s); var k := |s| - |TrimLeft(s)|;
      k + |r| <= |s| && r == s[k..k + |r|]
  {
    var t := TrimLeft(s);
    TrimLeftSuffix(s);
    TrimRightPrefix(t);
    SuffixSlices(s, |s| - |t|, |TrimRight(t)|);
  }

  lemma StripTrailing(s: string)
    ensures var r := Strip(s); var k := |s| - |TrimLeft(s)|;
      k + |r| <= |s| && AllSpace(s[k + |r|..])
  {
    var t := TrimLeft(s);
    TrimRightSpaces(t);
    SuffixSlices(s, |s| - |t|, |TrimRight(t)|);
  }

  lemma SuffixSlices(s: string, k: nat, m: nat)
    requires k + m <= |s|
    ensures s[k..][..m] == s[k..k + m] && s[k..][m..] == s[k + m..]
  {
  }

  /** Stripping a string that does not begin with whitespace keeps its first character. */
  lemma StripKeepsHead(s: string)
    requires s != [] && !IsSpace(s[0])
    ensures Strip(s) != [] && Strip(s)[0] == s[0]
  {
    assert TrimLeft(s) == s;
    TrimRightSpaces(s);
    TrimRightPrefix(s);
  }

  /** strip() is the identity on stripped strings. */
  lemma StripStripped(s: string)
    requires IsStripped(s)
    ensures Strip(s) == s
  {
    assert TrimLeft(s) == s;
  }

  // ---------------------------------------------------------------- substrings

  predicate StartsWith(s: string, p: string) {
    |p| <= |s| && s[..|p|] == p
  }

  predicate OccursAt(s: string, p: string, i: nat) {
    i + |p| <= |s| && s[i..i + |p|] == p
  }

  /** s.find(p, from): the leftmost occurrence of p at or after from. */
  function FindFrom(s: string, p: string, from: nat): (r: Option<nat>)
    decreases |s| - from
    ensures r.Some? ==> from <= r.value && OccursAt(s, p, r.value)
    ensures r.Some? ==> forall j :: from <= j < r.value ==> !OccursAt(s, p, j)
    ensures r.None? ==> forall j :: from <= j ==> !OccursAt(s, p, j)
  {
    if from + |p| > |s| then None
    else if s[from..from + |p|] == p then Some(from)
    else FindFrom(s, p, from + 1)
  }

  /** Python's `p in s`. */
  predicate Contains(s: string, p: string) {
    FindFrom(s, p, 0).Some?
  }

  /** s.replace(a, b) for single characters. */
  function ReplaceChar(s: string, a: char, b: char): (r: string)
    ensures |r| == |s|
    ensures forall i :: 0 <= i < |s| ==> r[i] == if s[i] == a then b else s[i]
  {
    seq(|s|, i requires 0 <= i < |s| => if s[i] == a then b else s[i])
  }

  /** s.replace(pat, rep, 1): only the leftmost occurrence is replaced. */
  function ReplaceFirst(s: string, pat: string, rep: string): string {
    match FindFrom(s, pat, 0)
    case None => s
    case Some(i) => s[..i] + rep + s[i + |pat|..]
  }

  /** When s starts with pat, replace(pat, rep, 1) swaps that prefix and keeps the rest verbatim. */
  lemma ReplaceFirstPrefix(s: string, pat: string, rep: string)
    requires StartsWith(s, pat)
    ensures ReplaceFirst(s, pat, rep) == rep + s[|pat|..]
  {
    assert OccursAt(s, pat, 0);
  }

  /** s.split(sep, 1) when sep occurs in s: the text before its first occurrence and the text after it. */
  function SplitOnce(s: string, sep: string): (r: Option<(string, string)>)
    ensures r.Some? ==> s == r.value.0 + sep + r.value.1
    ensures r.Some? ==> forall j :: 0 <= j < |r.value.0| ==> !OccursAt(s, sep, j)
    ensures r.None? <==> !Contains(s, sep)
  {
    match FindFrom(s, sep, 0)
    case Some(i) =>
      assert s == s[..i] + sep + s[i + |sep|..];
      Some((s[..i], s[i + |sep|..]))
    case None => None
  }

  /** A character that s lacks is missing from strip(s) as well. */
  lemma StripKeepsOut(s: string, c: char)
    requires c !in s
    ensures c !in Strip(s)
  {
    var r := Strip(s);
    var k := |s| - |TrimLeft(s)|;
    StripSlice(s);
    forall i | 0 <= i < |r| ensures r[i] != c {
      assert r[i] == s[k + i];
    }
  }

  // ---------------------------------------------------------------- split / join

  /** s.split(c) for a one-character separator: always at least one piece. */
  function Split(s: string, c: char): (r: seq<string>)
    ensures |r| >= 1
  {
    if s == [] then [""]
    else
      var rest := Split(s[1..], c);
      if s[0] == c then [""] + rest else [[s[0]] + rest[0]] + rest[1..]
  }

  /** sep.join(xs) */
  function Join(xs: seq<string>, sep: string): string {
    if |xs| == 0 then ""
    else if |xs| == 1 then xs[0]
    else xs[0] + sep + Join(xs[1..], sep)
  }

  /** No piece of s.split(c) contains c. */
  lemma {:induction false} SplitPiecesAvoidSeparator(s: string, c: char)
    ensures forall i :: 0 <= i < |Split(s, c)| ==> c !in Split(s, c)[i]
  {
    if s != [] {
      SplitPiecesAvoidSeparator(s[1..], c);
      var rest := Split(s[1..], c);
      if s[0] != c {
        assert c !in rest[0];
        assert c !in [s[0]] + rest[0];
      }
    }
  }

  /** Joining the pieces of a split with the separator gives back the original string. */
  lemma {:induction false} JoinSplit(s: string, c: char)
    ensures Join(Split(s, c), [c]) == s
  {
    if s != [] {
      JoinSplit(s[1..], c);
      var rest := Split(s[1..], c);
      if s[0] == c {
        assert Join([""] + rest, [c]) == "" + [c] + Join(rest, [c]);
      } else if |rest| == 1 {
        assert Split(s, c) == [[s[0]] + rest[0]];
      } else {
        var r := [[s[0]] + rest[0]] + rest[1..];
        assert r[1..] == rest[1..];
        assert Join(r, [c]) == [s[0]] + rest[0] + [c] + Join(rest[1..], [c]);
      }
    }
  }

  lemma {:induction false} SplitWithoutSeparator(s: string, c: char)
    requires c !in s
    ensures Split(s, c) == [s]
  {
    if s != [] {
      SplitWithoutSeparator(s[1..], c);
      assert [s[0]] + s[1..] == s;
    }
  }

  lemma {:induction false} SplitAtSeparator(x: string, y: string, c: char)
    requires c !in x
    ensures Split(x + [c] + y, c) == [x] + Split(y, c)
  {
    if x == [] {
      assert x + [c] + y == [c] + y;
      assert ([c] + y)[1..] == y;
    } else {
      var s := x + [c] + y;
      assert s[1..] == x[1..] + [c] + y;
      SplitAtSeparator(x[1..], y, c);
      assert [x[0]] + x[1..] == x;
    }
  }

  /** Splitting a join of separator-free pieces gives back the pieces (a non-empty list). */
  lemma {:induction false} SplitJoin(xs: seq<string>, c: char)
    requires |xs| >= 1
    requires forall i :: 0 <= i < |xs| ==> c !in xs[i]
    ensures Split(Join(xs, [c]), c) == xs
  {
    if |xs| == 1 {
      SplitWithoutSeparator(xs[0], c);
    } else {
      SplitJoin(xs[1..], c);
      SplitAtSeparator(xs[0], Join(xs[1..], [c]), c);
      assert [xs[0]] + xs[1..] == xs;
    }
  }

  /** The last piece of a split is what follows the last separator. */
  lemma {:induction false} SplitLastPiece(s: string, c: char)
    ensures var r := Split(s, c); var p := r[|r| - 1];
      |p| <= |s| && p == s[|s| - |p|..] && c !in p && (|p| == |s| || s[|s| - |p| - 1] == c)
  {
    SplitPiecesAvoidSeparator(s, c);
    if s != [] {
      SplitLastPiece(s[1..], c);
      var rest := Split(s[1..], c);
      var q := rest[|rest| - 1];
      if s[0] != c {
        if |rest| == 1 {
          JoinSplit(s[1..], c);
          assert rest[0] == s[1..];
          assert [s[0]] + s[1..] == s;
        } else if |q| == |s| - 1 {
          SplitWithoutSeparator(s[1..], c);
          assert false;
        }
      }
    }
  }

  // ---------------------------------------------------------------- whitespace collapsing

  /** Length of the leading run of non-whitespace characters. */
  function WordLen(s: string): (n: nat)
    ensures n <= |s| && NoSpace(s[..n]) && (n == |s| || IsSpace(s[n]))
  {
    if s != [] && !IsSpace(s[0]) then 1 + WordLen(s[1..]) else 0
  }

  /** s.split() with no argument: the maximal runs of non-whitespace characters. */
  function Words(s: string): (ws: seq<string>)
    decreases |s|
    ensures forall i :: 0 <= i < |ws| ==> ws[i] != [] && NoSpace(ws[i])
  {
    var t := TrimLeft(s);
    if t == [] then []
    else
      var n := WordLen(t);
      [t[..n]] + Words(t[n..])
  }

  /** " ".join(s.split()) */
  function Collapse(s: string): string {
    Join(Words(s), " ")
  }

  /**
   * Whitespace occurs only as single spaces between two non-whitespace characters:
   * no leading or trailing whitespace, no newline, no run of two spaces.
   */
  predicate IsCollapsed(r: string) {
    forall i :: 0 <= i < |r| ==> SingleSpaceAt(r, i)
  }

  /** Position i of r is not whitespace, or is one space between two non-whitespace characters. */
  predicate SingleSpaceAt(r: string, i: nat)
    requires i < |r|
  {
    IsSpace(r[i]) ==> r[i] == ' ' && 0 < i && i + 1 < |r| && !IsSpace(r[i + 1])
  }

  lemma {:induction false} JoinHead(xs: seq<string>, sep: string)
    requires |xs| >= 1 && xs[0] != []
    ensures Join(xs, sep) != [] && Join(xs, sep)[0] == xs[0][0]
  {
  }

  lemma {:induction false} JoinWordsCollapsed(ws: seq<string>)
    requires forall i :: 0 <= i < |ws| ==> ws[i] != [] && NoSpace(ws[i])
    ensures IsCollapsed(Join(ws, " "))
  {
    if |ws| >= 2 {
      JoinWordsCollapsed(ws[1..]);
      JoinHead(ws[1..], " ");
      var w, j := ws[0], Join(ws[1..], " ");
      var r := w + " " + j;
      assert Join(ws, " ") == r;
      forall i | 0 <= i < |r|
        ensures SingleSpaceAt(r, i)
      {
        if i < |w| {
          assert r[i] == w[i];
        } else if i == |w| {
          assert r[i + 1] == j[0];
        } else {
          assert SingleSpaceAt(j, i - |w| - 1);
          assert r[i] == j[i - |w| - 1];
          if i + 1 < |r| {
            assert r[i + 1] == j[i - |w|];
          }
        }
      }
    }
  }

  /** The collapsed form has single inner spaces only. */
  lemma CollapseIsCollapsed(s: string)
    ensures IsCollapsed(Collapse(s))
  {
    JoinWordsCollapsed(Words(s));
  }

  /** Collapsing keeps the first character when it is not whitespace. */
  lemma CollapseKeepsHead(s: string)
    requires s != [] && !IsSpace(s[0])
    ensures Collapse(s) != [] && Collapse(s)[0] == s[0]
  {
    assert TrimLeft(s) == s;
    JoinHead(Words(s), " ");
  }

  lemma JoinCons(w: string, ws: seq<string>, sep: string)
    requires |ws| >= 1
    ensures Join([w] + ws, sep) == w + sep + Join(ws, sep)
  {
    assert ([w] + ws)[1..] == ws;
  }

  lemma CollapsedAfterSpace(s: string, n: nat)
    requires IsCollapsed(s) && n < |s| && IsSpace(s[n])
    ensures IsCollapsed(s[n + 1..]) && s[n + 1..] != [] && !IsSpace(s[n + 1])
  {
    var t := s[n + 1..];
    assert SingleSpaceAt(s, n);
    forall i | 0 <= i < |t|
      ensures SingleSpaceAt(t, i)
    {
      assert SingleSpaceAt(s, n + 1 + i);
      assert t[i] == s[n + 1 + i];
    }
  }

  lemma WordsOfWordStart(s: string)
    requires s != [] && !IsSpace(s[0])
    ensures var n := WordLen(s);
      n == |s| ==> Words(s) == [s]
    ensures var n := WordLen(s);
      n < |s| ==> Words(s) == [s[..n]] + Words(s[n + 1..])
  {
    assert TrimLeft(s) == s;
    var n := WordLen(s);
    assert Words(s) == [s[..n]] + Words(s[n..]);
    if n == |s| {
      assert s[n..] == [] && s[..n] == s;
      assert Words([]) == [];
    } else {
      var u := s[n..];
      assert u[1..] == s[n + 1..];
      assert TrimLeft(u) == TrimLeft(u[1..]);
    }
  }

  lemma WordsNonEmpty(t: string)
    requires t != [] && !IsSpace(t[0])
    ensures |Words(t)| >= 1
  {
    assert TrimLeft(t) == t;
  }

  /** Collapsing a word followed by one space and more text. */
  lemma CollapseCons(s: string, n: nat, t: string)
    requires s != [] && !IsSpace(s[0]) && n == WordLen(s) && n < |s|
    requires t == s[n + 1..] && t != [] && !IsSpace(t[0])
    ensures Collapse(s) == s[..n] + " " + Collapse(t)
  {
    WordsNonEmpty(t);
    var ws := Words(t);
    assert Words(s) == [s[..n]] + ws by { WordsOfWordStart(s); }
    JoinCons(s[..n], ws, " ");
  }

  /** Collapsing an already collapsed string changes nothing (so Collapse is idempotent). */
  lemma {:induction false} CollapseOfCollapsed(s: string)
    requires IsCollapsed(s)
    ensures Collapse(s) == s
  {
    if s != [] {
      assert SingleSpaceAt(s, 0);
      var n := WordLen(s);
      if n == |s| {
        WordsOfWordStart(s);
      } else {
        var t := s[n + 1..];
        assert SingleSpaceAt(s, n);
        CollapsedAfterSpace(s, n);
        CollapseOfCollapsed(t);
        CollapseCons(s, n, t);
        assert s == s[..n] + " " + t;
      }
    }
  }

  /** Collapsed text has no newline, no doubled space and no surrounding whitespace. */
  lemma CollapsedIsPlain(r: string)
    requires IsCollapsed(r)
    ensures '\n' !in r
    ensures forall i :: 0 <= i < |r| - 1 ==> !(r[i] == ' ' && r[i + 1] == ' ')
    ensures IsStripped(r)
  {
    forall i | 0 <= i < |r| ensures r[i] != '\n' {
      assert SingleSpaceAt(r, i);
    }
    forall i | 0 <= i < |r| - 1 ensures !(r[i] == ' ' && r[i + 1] == ' ') {
      assert SingleSpaceAt(r, i);
    }
    if r != [] {
      assert SingleSpaceAt(r, 0);
      assert SingleSpaceAt(r, |r| - 1);
    }
  }
}
