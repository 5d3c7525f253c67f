/** The orders the engines sort by.

    Rust compares `String`s byte by byte in UTF-8, which is the order of their
    Unicode scalar values; `AtMost` is that lexicographic order. */
module Ordering {

  /** Lexicographic `a <= b`. */
  predicate AtMost(a: string, b: string) {
    a == [] ||
    (b != [] && (a[0] < b[0] || (a[0] == b[0] && AtMost(a[1..], b[1..]))))
  }

  /** Lexicographic `a < b`. */
  predicate Below(a: string, b: string) {
    !AtMost(b, a)
  }

  lemma {:induction false} AtMostTotal(a: string, b: string)
    ensures AtMost(a, b) || AtMost(b, a)
  {
    if a != [] && b != [] && a[0] == b[0] {
      AtMostTotal(a[1..], b[1..]);
    }
  }

  lemma {:induction false} AtMostAntisymmetric(a: string, b: string)
    requires AtMost(a, b) && AtMost(b, a)
    ensures a == b
  {
    if a != [] && b != [] {
      AtMostAntisymmetric(a[1..], b[1..]);
      assert a == [a[0]] + a[1..] && b == [b[0]] + b[1..];
    }
  }

  lemma {:induction false} AtMostTransitive(a: string, b: string, c: string)
    requires AtMost(a, b) && AtMost(b, c)
    ensures AtMost(a, c)
  {
    if a != [] && a[0] == b[0] == c[0] {
      AtMostTransitive(a[1..], b[1..], c[1..]);
    }
  }

  /** The texts agree up to `k`, and there `a` has the smaller character. */
  predicate SmallerAt(a: string, b: string, k: int) {
    0 <= k < |a| && k < |b| && a[..k] == b[..k] && a[k] < b[k]
  }

  /** At most: a prefix, or smaller at the first difference. */
  lemma {:induction false} AtMostMeans(a: string, b: string)
    ensures AtMost(a, b) <==> a <= b || exists k :: SmallerAt(a, b, k)
  {
    if a != [] && b != [] {
      var x, y := a[1..], b[1..];
      assert a == [a[0]] + x && b == [b[0]] + y;
      if a[0] < b[0] {
        assert SmallerAt(a, b, 0);
      } else if a[0] == b[0] {
        AtMostMeans(x, y);
        if k :| SmallerAt(x, y, k) {
          assert a[..k + 1] == [a[0]] + x[..k] && b[..k + 1] == [b[0]] + y[..k];
          assert SmallerAt(a, b, k + 1);
        }
        if k :| SmallerAt(a, b, k) {
          assert a[..k] == b[..k] && k > 0;
          assert x[..k - 1] == a[..k][1..] && y[..k - 1] == b[..k][1..];
          assert SmallerAt(x, y, k - 1);
        }
      } else {
        forall k ensures !SmallerAt(a, b, k) {
          assert 0 < k < |a| && k < |b| ==> a[..k][0] == a[0] && b[..k][0] == b[0];
        }
      }
    }
  }

  /** A total preorder: what a comparator must be for `sort_by` to mean anything. */
  ghost predicate TotalPreorder<T(!new)>(le: (T, T) -> bool) {
    && (forall x, y :: le(x, y) || le(y, x))
    && (forall x, y, z :: le(x, y) && le(y, z) ==> le(x, z))
  }

  /** The comparator of every `BTreeMap<String, _>`. */
  function ByName(): (string, string) -> bool { (a, b) => AtMost(a, b) }

  lemma ByNameIsOrder()
    ensures TotalPreorder(ByName())
    ensures forall a, b :: ByName()(a, b) && ByName()(b, a) ==> a == b
  {
    forall a, b ensures ByName()(a, b) || ByName()(b, a) { AtMostTotal(a, b); }
    forall a, b, c | ByName()(a, b) && ByName()(b, c) ensures ByName()(a, c) { AtMostTransitive(a, b, c); }
    forall a, b | ByName()(a, b) && ByName()(b, a) ensures a == b { AtMostAntisymmetric(a, b); }
  }

  /** The comparator of every `BTreeMap<i64, _>`. */
  function ByNumber(): (int, int) -> bool { (a, b) => a <= b }
}
