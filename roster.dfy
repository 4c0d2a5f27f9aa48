/**
 * The roster comprehensions of main.py:65-66 and app.py:102-103: a form field or a stored class
 * field split on a separator, each piece stripped, the empty pieces dropped.
 */
module Roster {
  import opened Text

  /** `[p.strip() for p in pieces if p.strip()]` */
  function NonBlank(pieces: seq<string>): (r: seq<string>)
    ensures |r| <= |pieces|
    ensures forall i :: 0 <= i < |r| ==> r[i] != [] && IsStripped(r[i])
  {
    if pieces == [] then []
    else
      var p := Strip(pieces[0]);
      (if p != [] then [p] else []) + NonBlank(pieces[1..])
  }

  /** The entries are exactly the non-blank stripped pieces. */
  lemma {:induction false} NonBlankMembers(pieces: seq<string>)
    ensures forall x :: x in NonBlank(pieces) <==> x != [] && exists i :: 0 <= i < |pieces| && Strip(pieces[i]) == x
    decreases |pieces|
  {
    if pieces != [] {
      NonBlankMembers(pieces[1..]);
      var p := Strip(pieces[0]);
      var rest := NonBlank(pieces[1..]);
      assert NonBlank(pieces) == (if p != [] then [p] else []) + rest;
      forall x | x != [] && (exists i :: 0 <= i < |pieces| && Strip(pieces[i]) == x)
        ensures x in NonBlank(pieces)
      {
        var i :| 0 <= i < |pieces| && Strip(pieces[i]) == x;
        if i > 0 {
          assert Strip(pieces[1..][i - 1]) == x;
        }
      }
      forall x | x in rest ensures exists i :: 0 <= i < |pieces| && Strip(pieces[i]) == x {
        var j :| 0 <= j < |pieces| - 1 && Strip(pieces[1..][j]) == x;
        assert Strip(pieces[j + 1]) == x;
      }
    }
  }

  /** A single piece gives its stripped text, or nothing when that is empty. */
  lemma NonBlankOne(p: string)
    ensures NonBlank([p]) == if Strip(p) != [] then [Strip(p)] else []
  {
    assert [p][1..] == [];
  }

  /** Each piece is handled on its own: the entries keep the order and the repetitions of the pieces. */
  lemma {:induction false} NonBlankAppend(a: seq<string>, b: seq<string>)
    ensures NonBlank(a + b) == NonBlank(a) + NonBlank(b)
    decreases |a|
  {
    if a == [] {
      assert a + b == b;
    } else {
      assert (a + b)[0] == a[0];
      assert (a + b)[1..] == a[1..] + b;
      NonBlankAppend(a[1..], b);
    }
  }

  /** `[p.strip() for p in s.split(sep) if p.strip()]` */
  function Pieces(s: string, sep: char): seq<string> {
    NonBlank(Split(s, sep))
  }

  /** No entry of xs contains c. */
  predicate Avoids(xs: seq<string>, c: char) {
    forall i :: 0 <= i < |xs| ==> c !in xs[i]
  }

  lemma {:induction false} NonBlankKeepsOut(pieces: seq<string>, c: char)
    requires Avoids(pieces, c)
    ensures Avoids(NonBlank(pieces), c)
    decreases |pieces|
  {
    if pieces != [] {
      assert c !in pieces[0];
      StripKeepsOut(pieces[0], c);
      assert Avoids(pieces[1..], c) by {
        forall i | 0 <= i < |pieces| - 1 ensures c !in pieces[1..][i] {
          assert pieces[1..][i] == pieces[i + 1];
        }
      }
      NonBlankKeepsOut(pieces[1..], c);
      var p := Strip(pieces[0]);
      var rest := NonBlank(pieces[1..]);
      var head := if p != [] then [p] else [];
      assert NonBlank(pieces) == head + rest;
      forall i | 0 <= i < |head + rest| ensures c !in (head + rest)[i] {
        if i < |head| {
          assert (head + rest)[i] == p;
        } else {
          assert (head + rest)[i] == rest[i - |head|];
        }
      }
    }
  }

  /** Every roster entry is non-empty, has no surrounding whitespace and no separator. */
  lemma PiecesShape(s: string, sep: char)
    ensures forall i :: 0 <= i < |Pieces(s, sep)| ==>
      Pieces(s, sep)[i] != [] && IsStripped(Pieces(s, sep)[i]) && sep !in Pieces(s, sep)[i]
  {
    SplitPiecesAvoidSeparator(s, sep);
    NonBlankKeepsOut(Split(s, sep), sep);
    assert Avoids(Pieces(s, sep), sep);
  }

  lemma {:induction false} NonBlankOfClean(xs: seq<string>)
    requires forall i :: 0 <= i < |xs| ==> xs[i] != [] && IsStripped(xs[i])
    ensures NonBlank(xs) == xs
    decreases |xs|
  {
    if xs != [] {
      StripStripped(xs[0]);
      NonBlankOfClean(xs[1..]);
      assert [xs[0]] + xs[1..] == xs;
    }
  }

  /**
   * Writing non-empty, stripped, separator-free entries one per separator and parsing the text
   * again gives back the same entries in the same order.
   */
  lemma PiecesOfJoin(xs: seq<string>, sep: char)
    requires forall i :: 0 <= i < |xs| ==> xs[i] != [] && IsStripped(xs[i]) && sep !in xs[i]
    ensures Pieces(Join(xs, [sep]), sep) == xs
  {
    if xs == [] {
      assert Split("", sep) == [""];
      assert Strip("") == [];
      assert NonBlank([""]) == NonBlank([]);
    } else {
      SplitJoin(xs, sep);
      NonBlankOfClean(xs);
    }
  }
}
