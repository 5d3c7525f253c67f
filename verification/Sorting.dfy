/** The stable sort behind every `sort`, `sort_by` and `sort_by_key` of the engines. */
module Sorting {
  import opened Ordering
  import opened Sequences

  predicate SortedBy<T(!new)>(le: (T, T) -> bool, s: seq<T>) {
    forall i, j :: 0 <= i < j < |s| ==> le(s[i], s[j])
  }

  /** Places `x` behind everything it does not precede, so ties keep arrival order. */
  function Insert<T(!new)>(le: (T, T) -> bool, s: seq<T>, x: T): (r: seq<T>)
    ensures |r| == |s| + 1
  {
    if s == [] || le(s[|s|-1], x) then s + [x]
    else Insert(le, s[..|s|-1], x) + [s[|s|-1]]
  }

  function SortBy<T(!new)>(le: (T, T) -> bool, s: seq<T>): (r: seq<T>)
    ensures |r| == |s|
  {
    if s == [] then [] else Insert(le, SortBy(le, s[..|s|-1]), s[|s|-1])
  }

  lemma {:induction false} InsertPermutes<T(!new)>(le: (T, T) -> bool, s: seq<T>, x: T)
    ensures multiset(Insert(le, s, x)) == multiset(s + [x])
  {
    if s != [] && !le(s[|s|-1], x) {
      InsertPermutes(le, s[..|s|-1], x);
      assert s == s[..|s|-1] + [s[|s|-1]];
    }
  }

  lemma {:induction false} SortPermutes<T(!new)>(le: (T, T) -> bool, s: seq<T>)
    ensures multiset(SortBy(le, s)) == multiset(s)
  {
    if s != [] {
      SortPermutes(le, s[..|s|-1]);
      InsertPermutes(le, SortBy(le, s[..|s|-1]), s[|s|-1]);
      assert s == s[..|s|-1] + [s[|s|-1]];
    }
  }

  lemma SortMembers<T(!new)>(le: (T, T) -> bool, s: seq<T>, x: T)
    ensures x in SortBy(le, s) <==> x in s
  {
    SortPermutes(le, s);
    assert x in SortBy(le, s) <==> x in multiset(SortBy(le, s));
    assert x in s <==> x in multiset(s);
  }

  lemma {:induction false} InsertSorted<T(!new)>(le: (T, T) -> bool, s: seq<T>, x: T)
    requires TotalPreorder(le) && SortedBy(le, s)
    ensures SortedBy(le, Insert(le, s, x))
  {
    var n := |s| - 1;
    if s == [] {
    } else if le(s[n], x) {
      forall i | 0 <= i < |s| ensures le(s[i], x) {
        assert i == n || le(s[i], s[n]);
      }
    } else {
      InsertSorted(le, s[..n], x);
      InsertPermutes(le, s[..n], x);
      var front := Insert(le, s[..n], x);
      forall i | 0 <= i < |front| ensures le(front[i], s[n]) {
        assert front[i] in multiset(front);
        assert front[i] in s[..n] + [x];
        assert le(x, s[n]);
      }
    }
  }

  lemma {:induction false} SortSorts<T(!new)>(le: (T, T) -> bool, s: seq<T>)
    requires TotalPreorder(le)
    ensures SortedBy(le, SortBy(le, s))
  {
    if s != [] {
      SortSorts(le, s[..|s|-1]);
      InsertSorted(le, SortBy(le, s[..|s|-1]), s[|s|-1]);
    }
  }

  /** An already sorted stream is left alone, ties included. */
  lemma {:induction false} SortIdentity<T(!new)>(le: (T, T) -> bool, s: seq<T>)
    requires SortedBy(le, s)
    ensures SortBy(le, s) == s
  {
    if s != [] {
      var n := |s| - 1;
      SortIdentity(le, s[..n]);
      assert s == s[..n] + [s[n]];
      assert n == 0 || le(s[n-1], s[n]);
    }
  }

  lemma InsertLast<T(!new)>(le: (T, T) -> bool, s: seq<T>, x: T)
    requires s == [] || le(s[|s|-1], x)
    ensures Insert(le, s, x) == s + [x]
  {
  }

  lemma InsertInner<T(!new)>(le: (T, T) -> bool, s: seq<T>, last: T, x: T)
    requires !le(last, x)
    ensures Insert(le, s + [last], x) == Insert(le, s, x) + [last]
  {
    assert (s + [last])[..|s|] == s;
  }

  lemma FilteredLast<T(!new)>(le: (T, T) -> bool, p: T -> bool, s: seq<T>, x: T)
    requires TotalPreorder(le) && SortedBy(le, s) && s != [] && le(s[|s|-1], x) && Filter(p, s) != []
    ensures le(Filter(p, s)[|Filter(p, s)| - 1], x)
  {
    var last := Filter(p, s)[|Filter(p, s)| - 1];
    FilterMember(p, s, last);
    var i :| 0 <= i < |s| && s[i] == last;
    assert i == |s| - 1 || le(s[i], s[|s|-1]);
  }

  lemma {:induction false} InsertFilter<T(!new)>(le: (T, T) -> bool, p: T -> bool, s: seq<T>, x: T)
    requires TotalPreorder(le) && SortedBy(le, s)
    ensures Filter(p, Insert(le, s, x)) == if p(x) then Insert(le, Filter(p, s), x) else Filter(p, s)
  {
    hide Filter, Insert;
    var n := |s| - 1;
    if s == [] || le(s[n], x) {
      InsertLast(le, s, x);
      FilterSnoc(p, s, x);
      if s == [] { assert Filter(p, s) == []; }
      if Filter(p, s) != [] { FilteredLast(le, p, s, x); }
      InsertLast(le, Filter(p, s), x);
    } else {
      assert s == s[..n] + [s[n]];
      InsertFilter(le, p, s[..n], x);
      InsertInner(le, s[..n], s[n], x);
      FilterSnoc(p, Insert(le, s[..n], x), s[n]);
      FilterSnoc(p, s[..n], s[n]);
      if p(s[n]) { InsertInner(le, Filter(p, s[..n]), s[n], x); }
    }
  }

  /** A stable sort restricted to one group is the stable sort of that group. */
  lemma {:induction false} SortFilter<T(!new)>(le: (T, T) -> bool, p: T -> bool, s: seq<T>)
    requires TotalPreorder(le)
    ensures Filter(p, SortBy(le, s)) == SortBy(le, Filter(p, s))
  {
    if s != [] {
      var n := |s| - 1;
      SortFilter(le, p, s[..n]);
      SortSorts(le, s[..n]);
      InsertFilter(le, p, SortBy(le, s[..n]), s[n]);
      if p(s[n]) {
        var f := Filter(p, s[..n]) + [s[n]];
        assert f[..|f|-1] == Filter(p, s[..n]);
      }
    }
  }

  lemma {:induction false} InsertApply<T(!new), U(!new)>(le: (T, T) -> bool, on: (U, U) -> bool, f: T -> U, s: seq<T>, x: T)
    requires forall a, b :: le(a, b) == on(f(a), f(b))
    ensures Apply(f, Insert(le, s, x)) == Insert(on, Apply(f, s), f(x))
  {
    if s == [] || le(s[|s|-1], x) {
      ApplySnoc(f, s, x);
    } else {
      InsertApply(le, on, f, s[..|s|-1], x);
      assert Apply(f, s)[..|s|-1] == Apply(f, s[..|s|-1]);
    }
  }

  /** Two arrays sorted separately by the same key stay in lockstep. */
  lemma {:induction false} SortApply<T(!new), U(!new)>(le: (T, T) -> bool, on: (U, U) -> bool, f: T -> U, s: seq<T>)
    requires forall a, b :: le(a, b) == on(f(a), f(b))
    ensures Apply(f, SortBy(le, s)) == SortBy(on, Apply(f, s))
  {
    if s != [] {
      SortApply(le, on, f, s[..|s|-1]);
      InsertApply(le, on, f, SortBy(le, s[..|s|-1]), s[|s|-1]);
      assert Apply(f, s)[..|s|-1] == Apply(f, s[..|s|-1]);
    }
  }

  lemma {:induction false} InsertAgrees<T(!new)>(le: (T, T) -> bool, on: (T, T) -> bool, s: seq<T>, x: T)
    requires forall a, b :: a in s + [x] && b in s + [x] ==> le(a, b) == on(a, b)
    ensures Insert(le, s, x) == Insert(on, s, x)
  {
    if s != [] && !le(s[|s|-1], x) {
      InsertAgrees(le, on, s[..|s|-1], x);
    }
  }

  /** Comparators that agree on the elements sort them alike. */
  lemma {:induction false} SortAgrees<T(!new)>(le: (T, T) -> bool, on: (T, T) -> bool, s: seq<T>)
    requires forall a, b :: a in s && b in s ==> le(a, b) == on(a, b)
    ensures SortBy(le, s) == SortBy(on, s)
  {
    if s != [] {
      var front := s[..|s|-1];
      SortAgrees(le, on, front);
      forall a ensures a in SortBy(le, front) <==> a in front { SortMembers(le, front, a); }
      InsertAgrees(le, on, SortBy(le, front), s[|s|-1]);
    }
  }

  lemma SameGreatest<T(!new)>(le: (T, T) -> bool, a: seq<T>, b: seq<T>)
    requires SortedBy(le, a) && SortedBy(le, b) && a != [] && multiset(a) == multiset(b)
    requires forall x, y :: x in a && y in a && le(x, y) && le(y, x) ==> x == y
    ensures b != [] && a[|a|-1] == b[|b|-1]
  {
    PermutedLength(a, b);
    var x, y := a[|a|-1], b[|b|-1];
    assert x in multiset(b) && y in multiset(a);
    var i :| 0 <= i < |b| && b[i] == x;
    var j :| 0 <= j < |a| && a[j] == y;
    assert i == |b| - 1 || le(b[i], y);
    assert j == |a| - 1 || le(a[j], x);
  }

  lemma FrontsPermute<T>(a: seq<T>, b: seq<T>)
    requires a != [] && b != [] && a[|a|-1] == b[|b|-1] && multiset(a) == multiset(b)
    ensures multiset(a[..|a|-1]) == multiset(b[..|b|-1])
  {
    WithoutPermutes(a, b, |a| - 1, |b| - 1);
    assert Without(a, |a| - 1) == a[..|a|-1] && Without(b, |b| - 1) == b[..|b|-1];
  }

  /** Sorted permutations of each other are equal when the key decides the element. */
  lemma {:induction false} SortedUnique<T(!new)>(le: (T, T) -> bool, a: seq<T>, b: seq<T>)
    requires SortedBy(le, a) && SortedBy(le, b) && multiset(a) == multiset(b)
    requires forall x, y :: x in a && y in a && le(x, y) && le(y, x) ==> x == y
    ensures a == b
  {
    PermutedLength(a, b);
    if a != [] {
      SameGreatest(le, a, b);
      FrontsPermute(a, b);
      SortedUnique(le, a[..|a|-1], b[..|b|-1]);
      assert a == a[..|a|-1] + [a[|a|-1]] && b == b[..|b|-1] + [b[|b|-1]];
    }
  }

  // ---- ascending iteration over the keys of a `BTreeMap` -------------------------------

  ghost predicate StrictOrder<K(!new)>(le: (K, K) -> bool) {
    TotalPreorder(le) && forall a, b :: le(a, b) && le(b, a) ==> a == b
  }

  /** `ks` lists exactly the elements of `keys`, once each, in ascending order. */
  ghost predicate Ascends<K(!new)>(le: (K, K) -> bool, ks: seq<K>, keys: set<K>) {
    && (forall k :: k in ks <==> k in keys)
    && SortedBy(le, ks)
    && (forall i, j :: 0 <= i < j < |ks| ==> ks[i] != ks[j])
  }

  method Ascending<K(==,!new)>(le: (K, K) -> bool, keys: set<K>) returns (ks: seq<K>)
    requires StrictOrder(le)
    ensures Ascends(le, ks, keys) && |ks| == |keys|
  {
    ks := [];
    var rest := keys;
    while rest != {}
      invariant rest <= keys && |ks| + |rest| == |keys|
      invariant Ascends(le, ks, keys - rest)
      invariant forall a, b :: a in ks && b in rest ==> le(a, b)
      decreases |rest|
    {
      LeastExists(le, rest);
      var k :| k in rest && forall j :: j in rest ==> le(k, j);
      ks, rest := ks + [k], rest - {k};
    }
    assert keys - rest == keys;
  }

  lemma ByNameStrict()
    ensures StrictOrder(ByName())
  {
    ByNameIsOrder();
  }

  /** The keys of a `BTreeMap<String, _>`, in iteration order. */
  method NamesOf(keys: set<string>) returns (names: seq<string>)
    ensures Ascends(ByName(), names, keys) && |names| == |keys|
    ensures forall k :: k in names <==> k in keys
    ensures forall i :: 0 <= i < |names| ==> names[i] in keys
    ensures forall i, j :: 0 <= i < j < |names| ==> names[i] != names[j]
  {
    ByNameStrict();
    hide AtMost;
    names := Ascending(ByName(), keys);
  }

  lemma {:induction false} LeastExists<K(!new)>(le: (K, K) -> bool, keys: set<K>)
    requires TotalPreorder(le) && keys != {}
    ensures exists k :: k in keys && forall j :: j in keys ==> le(k, j)
    decreases |keys|
  {
    var x :| x in keys;
    if keys == {x} {
      assert forall j :: j in keys ==> le(x, j);
    } else {
      assert keys - {x} != {};
      LeastExists(le, keys - {x});
      var k :| k in keys - {x} && forall j :: j in keys - {x} ==> le(k, j);
      if le(k, x) {
        assert forall j :: j in keys ==> le(k, j);
      } else {
        assert forall j :: j in keys ==> le(x, j);
      }
    }
  }

  lemma {:induction false} DistinctMultiset<K>(a: seq<K>, k: K)
    requires forall i, j :: 0 <= i < j < |a| ==> a[i] != a[j]
    ensures multiset(a)[k] == if k in a then 1 else 0
  {
    if a != [] {
      var n := |a| - 1;
      DistinctMultiset(a[..n], k);
      assert a == a[..n] + [a[n]];
    }
  }

  /** Two duplicate-free listings of the same elements are permutations of each other. */
  lemma SameSetPermutes<K(!new)>(a: seq<K>, b: seq<K>)
    requires forall i, j :: 0 <= i < j < |a| ==> a[i] != a[j]
    requires forall i, j :: 0 <= i < j < |b| ==> b[i] != b[j]
    requires forall k :: k in a <==> k in b
    ensures multiset(a) == multiset(b)
  {
    forall k ensures multiset(a)[k] == multiset(b)[k] {
      DistinctMultiset(a, k);
      DistinctMultiset(b, k);
    }
    SameCounts(multiset(a), multiset(b));
  }

  /** A permutation of a duplicate-free listing is duplicate-free. */
  lemma DistinctPermutation<K>(a: seq<K>, b: seq<K>)
    requires forall i, j :: 0 <= i < j < |a| ==> a[i] != a[j]
    requires multiset(a) == multiset(b)
    ensures forall i, j :: 0 <= i < j < |b| ==> b[i] != b[j]
  {
    forall i, j | 0 <= i < j < |b| ensures b[i] != b[j] {
      if b[i] == b[j] {
        DistinctMultiset(a, b[i]);
        TwiceCounted(b, i, j);
      }
    }
  }

  lemma TwiceCounted<T>(s: seq<T>, i: nat, j: nat)
    requires i < j < |s| && s[i] == s[j]
    ensures multiset(s)[s[i]] >= 2
  {
    assert s == s[..i] + [s[i]] + s[i+1..j] + [s[j]] + s[j+1..];
  }

  /** There is only one ascending listing of a set. */
  lemma AscendsUnique<K(!new)>(le: (K, K) -> bool, a: seq<K>, b: seq<K>, keys: set<K>)
    requires StrictOrder(le) && Ascends(le, a, keys) && Ascends(le, b, keys)
    ensures a == b
  {
    SameSetPermutes(a, b);
    SortedUnique(le, a, b);
  }
}
