/** Splitting text, or bytes, at a separator. */
module Texts {

  /** The pieces between separators; a text without one is a single piece. */
  function Split<T(==)>(sep: T, s: seq<T>): (r: seq<seq<T>>)
    ensures r != []
  {
    if s == [] then [[]]
    else
      var rest := Split(sep, s[1..]);
      if s[0] == sep then [[]] + rest else [[s[0]] + rest[0]] + rest[1..]
  }

  lemma {:induction false} SplitJoined<T>(sep: T, a: seq<T>, b: seq<T>)
    ensures Split(sep, a + [sep] + b) == Split(sep, a) + Split(sep, b)
  {
    var s := a + [sep] + b;
    if a == [] {
      assert s[0] == sep && s[1..] == b;
    } else {
      assert s[0] == a[0] && s[1..] == a[1..] + [sep] + b;
      SplitJoined(sep, a[1..], b);
    }
  }

  lemma {:induction false} SplitOnePiece<T>(sep: T, s: seq<T>)
    requires sep !in s
    ensures Split(sep, s) == [s]
  {
    if s != [] {
      assert s[0] in s;
      SplitOnePiece(sep, s[1..]);
      assert s == [s[0]] + s[1..];
    }
  }

  /** Pieces of a text, with more text behind it. */
  function Continued<T>(x: seq<seq<T>>, y: seq<seq<T>>): seq<seq<T>>
    requires x != [] && y != []
  {
    x[..|x| - 1] + [x[|x| - 1] + y[0]] + y[1..]
  }

  lemma ContinuedNothing<T>(y: seq<seq<T>>)
    requires y != []
    ensures Continued([[]], y) == y
  {
    assert [] + y[0] == y[0];
  }

  lemma ContinuedNewPiece<T>(x: seq<seq<T>>, y: seq<seq<T>>)
    requires x != [] && y != []
    ensures Continued([[]] + x, y) == [[]] + Continued(x, y)
  {
    assert ([[]] + x)[..|x|] == [[]] + x[..|x| - 1];
  }

  lemma ContinuedLonger<T>(c: T, x: seq<seq<T>>, y: seq<seq<T>>)
    requires x != [] && y != []
    ensures Continued([[c] + x[0]] + x[1..], y) == [[c] + Continued(x, y)[0]] + Continued(x, y)[1..]
  {
    var z := [[c] + x[0]] + x[1..];
    if |x| == 1 {
      assert z == [[c] + x[0]] && [c] + (x[0] + y[0]) == ([c] + x[0]) + y[0];
    } else {
      assert z[..|z| - 1] == [[c] + x[0]] + x[1..|x| - 1] && z[|z| - 1] == x[|x| - 1];
      assert Continued(x, y)[0] == x[0] && Continued(x, y)[1..] == x[1..|x| - 1] + [x[|x| - 1] + y[0]] + y[1..];
    }
  }

  /** What follows continues the last piece. */
  lemma {:induction false} SplitTail<T>(sep: T, a: seq<T>, b: seq<T>)
    ensures Split(sep, a + b) == Continued(Split(sep, a), Split(sep, b))
  {
    if a == [] {
      assert a + b == b;
      ContinuedNothing(Split(sep, b));
    } else {
      assert (a + b)[0] == a[0] && (a + b)[1..] == a[1..] + b;
      SplitTail(sep, a[1..], b);
      ContinuedNewPiece(Split(sep, a[1..]), Split(sep, b));
      ContinuedLonger(a[0], Split(sep, a[1..]), Split(sep, b));
      hide Continued;
    }
  }

  /** `s[i..j]` runs from one separator, or an end of the text, to the next. */
  ghost predicate Piece<T>(sep: T, s: seq<T>, i: int, j: int) {
    && 0 <= i <= j <= |s| && sep !in s[i..j]
    && (i == 0 || s[i - 1] == sep) && (j == |s| || s[j] == sep)
  }

  lemma FirstSeparator<T>(sep: T, s: seq<T>) returns (k: nat)
    requires sep in s
    ensures k < |s| && s[k] == sep && sep !in s[..k]
  {
    k := 0;
    while s[k] != sep
      invariant k < |s| && sep !in s[..k] && sep in s[k..]
      decreases |s| - k
    {
      assert s[k..][1..] == s[k + 1..];
      k := k + 1;
    }
  }

  /** Behind the first separator the pieces are those of the rest. */
  lemma PieceBehind<T>(sep: T, s: seq<T>, k: nat, i: int, j: int)
    requires k < |s| && s[k] == sep && sep !in s[..k]
    ensures Piece(sep, s, i, j) <==> (i == 0 && j == k) || (i > k && Piece(sep, s[k + 1..], i - k - 1, j - k - 1))
  {
    var rest := s[k + 1..];
    if 0 <= i <= j <= |s| {
      if i > k {
        assert s[i..j] == rest[i - k - 1..j - k - 1];
      } else if i > 0 {
        assert s[i - 1] == s[..k][i - 1];
      } else if j > k {
        assert s[i..j][k - i] == sep;
      } else if j < k {
        assert s[j] == s[..k][j];
      } else {
        assert s[i..j] == s[..k];
      }
    }
  }

  ghost predicate IsPiece<T>(sep: T, s: seq<T>, x: seq<T>) { exists i, j :: Piece(sep, s, i, j) && s[i..j] == x }

  /** Splitting yields the pieces of the text, one more than it has separators. */
  lemma {:induction false} SplitMeans<T>(sep: T, s: seq<T>, x: seq<T>)
    ensures x in Split(sep, s) <==> IsPiece(sep, s, x)
    ensures |Split(sep, s)| == multiset(s)[sep] + 1
    decreases |s|
  {
    if sep in s {
      var k := FirstSeparator(sep, s);
      var a, rest := s[..k], s[k + 1..];
      assert s == a + [sep] + rest;
      SplitJoined(sep, a, rest);
      SplitOnePiece(sep, a);
      SplitMeans(sep, rest, x);
      BehindPieces(sep, s, k, x);
      hide Split, IsPiece;
      assert multiset(a)[sep] == 0;
    } else {
      SplitOnePiece(sep, s);
      hide Split;
      WholePiece(sep, s, x);
    }
  }

  lemma BehindPieces<T>(sep: T, s: seq<T>, k: nat, x: seq<T>)
    requires k < |s| && s[k] == sep && sep !in s[..k]
    ensures IsPiece(sep, s, x) <==> x == s[..k] || IsPiece(sep, s[k + 1..], x)
  {
    if IsPiece(sep, s, x) { PieceFound(sep, s, k, x); }
    if x == s[..k] || IsPiece(sep, s[k + 1..], x) { PieceKept(sep, s, k, x); }
    hide IsPiece;
  }

  lemma PieceFound<T>(sep: T, s: seq<T>, k: nat, x: seq<T>)
    requires k < |s| && s[k] == sep && sep !in s[..k] && IsPiece(sep, s, x)
    ensures x == s[..k] || IsPiece(sep, s[k + 1..], x)
  {
    var i, j :| Piece(sep, s, i, j) && s[i..j] == x;
    PieceBehind(sep, s, k, i, j);
    hide Piece;
    if i > k { assert s[k + 1..][i - k - 1..j - k - 1] == x; }
  }

  lemma PieceKept<T>(sep: T, s: seq<T>, k: nat, x: seq<T>)
    requires k < |s| && s[k] == sep && sep !in s[..k] && (x == s[..k] || IsPiece(sep, s[k + 1..], x))
    ensures IsPiece(sep, s, x)
  {
    if x == s[..k] {
      PieceBehind(sep, s, k, 0, k);
      assert Piece(sep, s, 0, k) && s[0..k] == x;
    } else {
      var rest := s[k + 1..];
      var i, j :| Piece(sep, rest, i, j) && rest[i..j] == x;
      PieceBehind(sep, s, k, i + k + 1, j + k + 1);
      assert Piece(sep, rest, i, j);
      assert Piece(sep, s, i + k + 1, j + k + 1) && s[i + k + 1..j + k + 1] == x;
    }
  }

  lemma WholePiece<T>(sep: T, s: seq<T>, x: seq<T>)
    requires sep !in s
    ensures IsPiece(sep, s, x) <==> x == s
    ensures multiset(s)[sep] == 0
  {
    forall i, j ensures Piece(sep, s, i, j) ==> i == 0 && j == |s| {
      assert 0 < i <= |s| ==> s[i - 1] in s;
      assert 0 <= j < |s| ==> s[j] in s;
    }
    if x == s { assert Piece(sep, s, 0, |s|) && s[0..|s|] == x; }
  }
}
