/** Facts about finite streams: filtering, first-come admission, sums. */
module Sequences {

  function Filter<T>(p: T -> bool, s: seq<T>): (r: seq<T>)
    ensures |r| <= |s|
  {
    if s == [] then []
    else
      var front := Filter(p, s[..|s|-1]);
      if p(s[|s|-1]) then front + [s[|s|-1]] else front
  }

  lemma FilterSnoc<T>(p: T -> bool, s: seq<T>, x: T)
    ensures Filter(p, s + [x]) == if p(x) then Filter(p, s) + [x] else Filter(p, s)
  {
    assert (s + [x])[..|s|] == s;
  }

  lemma SplitLast<T>(s: seq<T>, t: seq<T>)
    requires t != []
    ensures t == t[..|t|-1] + [t[|t|-1]]
    ensures s + t == (s + t[..|t|-1]) + [t[|t|-1]]
  {
  }

  lemma {:induction false} FilterConcat<T>(p: T -> bool, s: seq<T>, t: seq<T>)
    ensures Filter(p, s + t) == Filter(p, s) + Filter(p, t)
  {
    if t == [] {
      assert s + t == s;
    } else {
      var front, x := t[..|t|-1], t[|t|-1];
      FilterConcat(p, s, front);
      FilterMore(p, s, front, x);
      SplitLast([], t);
      hide *;
    }
  }

  lemma FilterMore<T>(p: T -> bool, s: seq<T>, t: seq<T>, x: T)
    requires Filter(p, s + t) == Filter(p, s) + Filter(p, t)
    ensures Filter(p, s + (t + [x])) == Filter(p, s) + Filter(p, t + [x])
  {
    FilterSnoc(p, s + t, x);
    FilterSnoc(p, t, x);
    hide *;
    assert s + (t + [x]) == (s + t) + [x];
    if p(x) { assert (Filter(p, s) + Filter(p, t)) + [x] == Filter(p, s) + (Filter(p, t) + [x]); }
  }

  /** Where the elements that satisfy a test stand. */
  function Places<T>(p: T -> bool, s: seq<T>): set<int> { set i | 0 <= i < |s| && p(s[i]) }

  lemma PlacesSnoc<T>(p: T -> bool, s: seq<T>, x: T)
    ensures Places(p, s + [x]) == if p(x) then Places(p, s) + {|s|} else Places(p, s)
  {
    assert forall i :: 0 <= i < |s| ==> (s + [x])[i] == s[i];
  }

  /** Filtering keeps one element for each of those places. */
  lemma {:induction false} FilterSize<T>(p: T -> bool, s: seq<T>)
    ensures |Filter(p, s)| == |Places(p, s)|
  {
    if s != [] {
      var front, x := s[..|s|-1], s[|s|-1];
      FilterSize(p, front);
      assert s == front + [x];
      FilterSnoc(p, front, x);
      PlacesSnoc(p, front, x);
      assert |front| !in Places(p, front);
      hide Filter, Places;
    }
  }

  /** Filtering acts on the multiset of a stream, so it cannot see its order. */
  lemma {:induction false} FilterMultiset<T>(p: T -> bool, s: seq<T>, x: T)
    ensures multiset(Filter(p, s))[x] == if p(x) then multiset(s)[x] else 0
  {
    if s != [] {
      FilterMultiset(p, s[..|s|-1], x);
      assert s == s[..|s|-1] + [s[|s|-1]];
    }
  }

  lemma FilterMember<T>(p: T -> bool, s: seq<T>, x: T)
    ensures x in Filter(p, s) <==> x in s && p(x)
  {
    FilterMultiset(p, s, x);
    assert x in Filter(p, s) <==> x in multiset(Filter(p, s));
    assert x in s <==> x in multiset(s);
  }

  lemma SameCounts<T>(a: multiset<T>, b: multiset<T>)
    requires forall x :: a[x] == b[x]
    ensures a == b
  {
  }

  lemma FilterPermutes<T>(p: T -> bool, s: seq<T>, t: seq<T>)
    requires multiset(s) == multiset(t)
    ensures multiset(Filter(p, s)) == multiset(Filter(p, t))
  {
    var a, b := multiset(Filter(p, s)), multiset(Filter(p, t));
    forall x ensures a[x] == b[x] {
      FilterMultiset(p, s, x);
      FilterMultiset(p, t, x);
    }
    SameCounts(a, b);
  }

  lemma SameMembers<T>(s: seq<T>, t: seq<T>, x: T)
    requires multiset(s) == multiset(t)
    ensures x in s <==> x in t
  {
    assert x in s <==> x in multiset(s);
    assert x in t <==> x in multiset(t);
  }

  /** Permuted streams have the same length. */
  lemma PermutedLength<T>(s: seq<T>, t: seq<T>)
    requires multiset(s) == multiset(t)
    ensures |s| == |t|
  {
    assert |multiset(s)| == |s| && |multiset(t)| == |t|;
  }

  lemma {:induction false} FilterAgrees<T>(p: T -> bool, q: T -> bool, s: seq<T>)
    requires forall x :: x in s ==> p(x) == q(x)
    ensures Filter(p, s) == Filter(q, s)
  {
    if s != [] {
      FilterAgrees(p, q, s[..|s|-1]);
    }
  }

  lemma {:induction false} FilterAll<T>(p: T -> bool, s: seq<T>)
    requires forall x :: x in s ==> p(x)
    ensures Filter(p, s) == s
  {
    if s != [] {
      FilterAll(p, s[..|s|-1]);
    }
  }

  lemma {:induction false} FilterNone<T>(p: T -> bool, s: seq<T>)
    requires forall x :: x in s ==> !p(x)
    ensures Filter(p, s) == []
  {
    if s != [] {
      FilterNone(p, s[..|s|-1]);
    }
  }

  lemma {:induction false} FilterDisjoint<T(!new)>(p: T -> bool, q: T -> bool, either: T -> bool, s: seq<T>)
    requires forall x :: either(x) == (p(x) || q(x))
    requires forall x :: !(p(x) && q(x))
    ensures |Filter(either, s)| == |Filter(p, s)| + |Filter(q, s)|
  {
    if s != [] {
      FilterDisjoint(p, q, either, s[..|s|-1]);
    }
  }

  function Apply<T, U>(f: T -> U, s: seq<T>): (r: seq<U>)
    ensures |r| == |s|
    ensures forall i :: 0 <= i < |s| ==> r[i] == f(s[i])
  {
    seq(|s|, i requires 0 <= i < |s| => f(s[i]))
  }

  lemma ApplySnoc<T, U>(f: T -> U, s: seq<T>, x: T)
    ensures Apply(f, s + [x]) == Apply(f, s) + [f(x)]
  {
  }

  lemma ApplyConcat<T, U>(f: T -> U, s: seq<T>, t: seq<T>)
    ensures Apply(f, s + t) == Apply(f, s) + Apply(f, t)
  {
  }

  lemma ApplyHead<T, U>(f: T -> U, x: T, s: seq<T>)
    ensures Apply(f, [x] + s) == [f(x)] + Apply(f, s)
  {
  }

  lemma {:induction false} FilterApply<T, U>(f: T -> U, p: T -> bool, q: U -> bool, s: seq<T>)
    requires forall x :: x in s ==> p(x) == q(f(x))
    ensures Filter(q, Apply(f, s)) == Apply(f, Filter(p, s))
  {
    if s != [] {
      var front, x := s[..|s|-1], s[|s|-1];
      assert s == front + [x];
      FilterApply(f, p, q, front);
      hide Filter;
      ApplySnoc(f, front, x);
      FilterSnoc(q, Apply(f, front), f(x));
      FilterSnoc(p, front, x);
      ApplySnoc(f, Filter(p, front), x);
    }
  }

  /** At most the first `n` elements. */
  function Upto<T>(n: nat, s: seq<T>): (r: seq<T>)
    ensures |r| == if |s| <= n then |s| else n
    ensures r <= s
  {
    if |s| <= n then s else s[..n]
  }

  lemma UptoSnoc<T>(n: nat, s: seq<T>, x: T)
    ensures Upto(n, s + [x]) == if |s| < n then Upto(n, s) + [x] else Upto(n, s)
  {
  }

  function Flatten<T>(parts: seq<seq<T>>): seq<T> {
    if parts == [] then [] else Flatten(parts[..|parts|-1]) + parts[|parts|-1]
  }

  lemma FlattenSnoc<T>(parts: seq<seq<T>>, p: seq<T>)
    ensures Flatten(parts + [p]) == Flatten(parts) + p
  {
    assert (parts + [p])[..|parts|] == parts;
  }

  lemma {:induction false} FlattenMember<T>(parts: seq<seq<T>>, x: T)
    requires x in Flatten(parts)
    ensures exists i :: 0 <= i < |parts| && x in parts[i]
  {
    if x !in parts[|parts|-1] { FlattenMember(parts[..|parts|-1], x); }
  }

  lemma {:induction false} FlattenOne<T>(parts: seq<seq<T>>, k: nat)
    requires k < |parts| && forall i :: 0 <= i < |parts| && i != k ==> parts[i] == []
    ensures Flatten(parts) == parts[k]
  {
    var n := |parts| - 1;
    if k == n { FlattenNone(parts[..n]); } else { FlattenOne(parts[..n], k); }
  }

  lemma {:induction false} FlattenNone<T>(parts: seq<seq<T>>)
    requires forall i :: 0 <= i < |parts| ==> parts[i] == []
    ensures Flatten(parts) == []
  {
    if parts != [] { FlattenNone(parts[..|parts|-1]); }
  }

  lemma {:induction false} FlattenCountNone<T>(parts: seq<seq<T>>, x: T)
    requires forall i :: 0 <= i < |parts| ==> multiset(parts[i])[x] == 0
    ensures multiset(Flatten(parts))[x] == 0
  {
    if parts != [] { FlattenCountNone(parts[..|parts|-1], x); }
  }

  /** What occurs in one part only occurs as often in the whole. */
  lemma {:induction false} FlattenCount<T>(parts: seq<seq<T>>, k: nat, x: T)
    requires k < |parts| && forall i :: 0 <= i < |parts| && i != k ==> multiset(parts[i])[x] == 0
    ensures multiset(Flatten(parts))[x] == multiset(parts[k])[x]
  {
    var n := |parts| - 1;
    if k == n { FlattenCountNone(parts[..n], x); } else { FlattenCount(parts[..n], k, x); }
  }

  function Without<T>(s: seq<T>, i: nat): seq<T>
    requires i < |s|
  {
    s[..i] + s[i+1..]
  }

  lemma WithoutMultiset<T>(s: seq<T>, i: nat)
    requires i < |s|
    ensures multiset(s) == multiset(Without(s, i)) + multiset{s[i]}
  {
    assert s == s[..i] + [s[i]] + s[i+1..];
  }

  lemma CancelOne<T>(a: multiset<T>, b: multiset<T>, x: T)
    requires a + multiset{x} == b + multiset{x}
    ensures a == b
  {
    assert a == (a + multiset{x}) - multiset{x};
    assert b == (b + multiset{x}) - multiset{x};
  }

  /** Permutations stay permutations when the same element leaves both. */
  lemma WithoutPermutes<T>(s: seq<T>, t: seq<T>, i: nat, j: nat)
    requires multiset(s) == multiset(t) && i < |s| && j < |t| && s[i] == t[j]
    ensures multiset(Without(s, i)) == multiset(Without(t, j))
  {
    WithoutMultiset(s, i);
    WithoutMultiset(t, j);
    CancelOne(multiset(Without(s, i)), multiset(Without(t, j)), s[i]);
  }

  lemma ApplyWithout<T, U>(f: T -> U, s: seq<T>, i: nat)
    requires i < |s|
    ensures Apply(f, Without(s, i)) == Without(Apply(f, s), i)
  {
  }

  lemma {:induction false} ApplyPermutes<T, U>(f: T -> U, s: seq<T>, t: seq<T>)
    requires multiset(s) == multiset(t)
    ensures multiset(Apply(f, s)) == multiset(Apply(f, t))
    decreases |s|
  {
    hide Without;
    PermutedLength(s, t);
    if s != [] {
      assert s[0] in multiset(t);
      var i :| 0 <= i < |t| && t[i] == s[0];
      WithoutPermutes(s, t, 0, i);
      ShorterWithout(s, 0);
      ApplyPermutes(f, Without(s, 0), Without(t, i));
      ApplyWithout(f, s, 0);
      ApplyWithout(f, t, i);
      WithoutMultiset(Apply(f, s), 0);
      WithoutMultiset(Apply(f, t), i);
    }
  }

  lemma ShorterWithout<T>(s: seq<T>, i: nat)
    requires i < |s|
    ensures |Without(s, i)| == |s| - 1
  {
  }

  /** The stream with one element moved to its head. */
  function Fronted<T>(s: seq<T>, i: nat): seq<T>
    requires i < |s|
  {
    [s[i]] + Without(s, i)
  }

  lemma FrontedPermutes<T>(s: seq<T>, i: nat)
    requires i < |s|
    ensures multiset(Fronted(s, i)) == multiset(s)
  {
    WithoutMultiset(s, i);
  }

  /** The keys of a stream in the order they first occur. */
  function Distinct<K(==,!new)>(s: seq<K>): (r: seq<K>)
    ensures forall k :: k in r <==> k in s
    ensures forall i, j :: 0 <= i < j < |r| ==> r[i] != r[j]
    ensures |r| <= |s|
  {
    if s == [] then []
    else
      var front := Distinct(s[..|s|-1]);
      assert forall k :: k in s <==> k in s[..|s|-1] || k == s[|s|-1];
      if s[|s|-1] in front then front else front + [s[|s|-1]]
  }

  lemma DistinctSnoc<K(!new)>(s: seq<K>, x: K)
    ensures Distinct(s + [x]) == if x in s then Distinct(s) else Distinct(s) + [x]
  {
    assert (s + [x])[..|s|] == s;
  }

  /** First-come admission under a cap: the first `cap` distinct keys are held,
      every later new key is refused for good. */
  function Admitted<K(==,!new)>(cap: nat, s: seq<K>): (r: seq<K>)
    ensures |r| <= cap
    ensures forall k :: k in r ==> k in s
  {
    var d := Distinct(s);
    if |d| <= cap then d else d[..cap]
  }

  function FirstOf<K(==)>(s: seq<K>, x: K): (i: nat)
    requires x in s
    ensures i < |s| && s[i] == x && x !in s[..i]
  {
    if s[0] == x then 0
    else
      var i := FirstOf(s[1..], x);
      assert s[..i + 1] == [s[0]] + s[1..][..i];
      i + 1
  }

  lemma {:induction false} DistinctPrefix<K(!new)>(s: seq<K>, i: nat)
    requires i <= |s|
    ensures Distinct(s[..i]) <= Distinct(s)
  {
    if i < |s| {
      DistinctPrefix(s[..|s|-1], i);
      assert s[..|s|-1][..i] == s[..i];
    } else {
      assert s[..i] == s;
    }
  }

  /** A key is held exactly when fewer than `cap` others came before its first occurrence. */
  lemma AdmittedIff<K(!new)>(cap: nat, s: seq<K>, x: K)
    requires x in s
    ensures x in Admitted(cap, s) <==> |Distinct(s[..FirstOf(s, x)])| < cap
  {
    var i := FirstOf(s, x);
    assert s[..i + 1] == s[..i] + [x];
    hide Distinct;
    DistinctSnoc(s[..i], x);
    DistinctPrefix(s, i + 1);
    assert Distinct(s)[|Distinct(s[..i])|] == x;
    TakeIff(Distinct(s), |Distinct(s[..i])|, cap);
  }

  lemma TakeIff<K>(d: seq<K>, n: nat, cap: nat)
    requires n < |d| && forall i, j :: 0 <= i < j < |d| ==> d[i] != d[j]
    ensures d[n] in (if |d| <= cap then d else d[..cap]) <==> n < cap
  {
    if cap < |d| { assert forall i :: 0 <= i < cap ==> d[..cap][i] == d[i]; }
    if n < cap < |d| { assert d[..cap][n] == d[n]; }
  }

  predicate Overflows<K(==,!new)>(cap: nat, s: seq<K>) {
    |Distinct(s)| > cap
  }

  /** What one more arrival does to an admission: a held key stays held, a new one
      is held exactly while there is room. */
  lemma AdmittedSnoc<K(!new)>(cap: nat, s: seq<K>, x: K)
    ensures x in Admitted(cap, s) ==> Admitted(cap, s + [x]) == Admitted(cap, s)
    ensures x !in Admitted(cap, s) && |Admitted(cap, s)| < cap ==> Admitted(cap, s + [x]) == Admitted(cap, s) + [x] && x !in s
    ensures x !in Admitted(cap, s) && |Admitted(cap, s)| >= cap ==> Admitted(cap, s + [x]) == Admitted(cap, s)
    ensures Overflows(cap, s + [x]) <==> Overflows(cap, s) || (x !in Admitted(cap, s) && |Admitted(cap, s)| >= cap)
  {
    DistinctSnoc(s, x);
    if x !in Admitted(cap, s) && x in s && |Distinct(s)| <= cap {
      assert false;
    }
  }

  lemma AdmittedSetSize<K(!new)>(cap: nat, s: seq<K>)
    ensures |set k | k in Admitted(cap, s)| == |Admitted(cap, s)|
  {
    UniqueSetSize(Admitted(cap, s));
  }

  lemma {:induction false} UniqueSetSize<K(!new)>(s: seq<K>)
    requires forall i, j :: 0 <= i < j < |s| ==> s[i] != s[j]
    ensures |set k | k in s| == |s|
  {
    if s != [] {
      var n := |s| - 1;
      UniqueSetSize(s[..n]);
      assert (set k | k in s) == (set k | k in s[..n]) + {s[n]};
    }
  }

  /** The number of distinct keys does not depend on their order. */
  lemma DistinctPermutes<K(!new)>(s: seq<K>, t: seq<K>)
    requires forall k :: k in s <==> k in t
    ensures |Distinct(s)| == |Distinct(t)|
  {
    UniqueSetSize(Distinct(s));
    UniqueSetSize(Distinct(t));
    assert (set k | k in Distinct(s)) == (set k | k in Distinct(t));
  }

  /** Whoever comes first is admitted. */
  lemma {:induction false} HeadAdmitted<K(!new)>(cap: nat, s: seq<K>)
    requires cap >= 1 && s != []
    ensures s[0] in Admitted(cap, s)
  {
    if |s| > 1 {
      HeadAdmitted(cap, s[..|s|-1]);
      AdmittedSnoc(cap, s[..|s|-1], s[|s|-1]);
      assert s == s[..|s|-1] + [s[|s|-1]];
    } else {
      assert Distinct(s) == [s[0]] by { DistinctSnoc([], s[0]); assert [] + [s[0]] == s; }
    }
  }

  lemma RefusedWitness<K(!new)>(cap: nat, s: seq<K>) returns (k: K)
    requires Overflows(cap, s)
    ensures k in s && k !in Admitted(cap, s)
  {
    k := Distinct(s)[cap];
  }

  lemma AllHeld<K(!new)>(cap: nat, s: seq<K>)
    requires forall k :: k in s ==> k in Admitted(cap, s)
    ensures !Overflows(cap, s)
  {
    if Overflows(cap, s) {
      var k := RefusedWitness(cap, s);
    }
  }

  function Sum(s: seq<int>): (n: int)
    ensures (forall i :: 0 <= i < |s| ==> s[i] >= 0) ==> n >= 0
  {
    if s == [] then 0 else Sum(s[..|s|-1]) + s[|s|-1]
  }

  lemma SumSnoc(s: seq<int>, x: int)
    ensures Sum(s + [x]) == Sum(s) + x
  {
    assert (s + [x])[..|s|] == s;
  }

  lemma {:induction false} SumConcat(s: seq<int>, t: seq<int>)
    ensures Sum(s + t) == Sum(s) + Sum(t)
  {
    if t == [] {
      assert s + t == s;
    } else {
      SumConcat(s, t[..|t|-1]);
      assert (s + t)[..|s + t| - 1] == s + t[..|t|-1];
    }
  }

  lemma {:induction false} SumPermutes(s: seq<int>, t: seq<int>)
    requires multiset(s) == multiset(t)
    ensures Sum(s) == Sum(t)
    decreases |s|
  {
    PermutedLength(s, t);
    if s != [] {
      assert s[0] in multiset(t);
      var i :| 0 <= i < |t| && t[i] == s[0];
      WithoutPermutes(s, t, 0, i);
      SumPermutes(Without(s, 0), Without(t, i));
      SumWithout(s, 0);
      SumWithout(t, i);
    }
  }

  lemma SumWithout(s: seq<int>, i: nat)
    requires i < |s|
    ensures Sum(s) == Sum(Without(s, i)) + s[i]
  {
    hide *;
    SplitAt(s, i);
    SumMiddle(s[..i], s[i], s[i+1..]);
  }

  lemma SplitAt<T>(s: seq<T>, i: nat)
    requires i < |s|
    ensures s == s[..i] + [s[i]] + s[i+1..] && Without(s, i) == s[..i] + s[i+1..]
  {
  }

  lemma SumMiddle(a: seq<int>, x: int, c: seq<int>)
    ensures Sum(a + [x] + c) == Sum(a + c) + x
  {
    hide *;
    SumConcat(a + [x], c);
    SumSnoc(a, x);
    SumConcat(a, c);
  }
}
