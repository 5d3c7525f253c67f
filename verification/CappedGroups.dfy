/** A keyed map filled by one streaming pass under a cap on its size: the shape of every
    aggregator. A key that finds no room is refused for good; a held key is exact. */
module CappedGroups {
  import opened Sequences

  function KeyIs<E, K(==)>(f: E -> K, k: K): E -> bool { (e: E) => f(e) == k }

  /** The elements filed under one key, in arrival order. */
  function Group<E, K(==)>(f: E -> K, k: K, s: seq<E>): seq<E> { Filter(KeyIs(f, k), s) }

  /** What the pass must hold after `s`: for every admitted key, `v` of its whole group. */
  ghost function GroupMap<E, K(!new), V>(cap: nat, f: E -> K, v: seq<E> -> V, s: seq<E>): map<K, V> {
    map k | k in Admitted(cap, Apply(f, s)) :: v(Group(f, k, s))
  }

  lemma GroupMember<E, K>(f: E -> K, k: K, s: seq<E>, e: E)
    ensures e in Group(f, k, s) <==> e in s && f(e) == k
  {
    FilterMember(KeyIs(f, k), s, e);
  }

  lemma GroupNonEmpty<E, K>(f: E -> K, k: K, s: seq<E>)
    ensures k in Apply(f, s) <==> Group(f, k, s) != []
  {
    if k in Apply(f, s) {
      var i :| 0 <= i < |s| && Apply(f, s)[i] == k;
      GroupMember(f, k, s, s[i]);
    }
    if Group(f, k, s) != [] {
      GroupMember(f, k, s, Group(f, k, s)[0]);
      var i :| 0 <= i < |s| && s[i] == Group(f, k, s)[0];
      assert Apply(f, s)[i] == k;
    }
  }

  lemma GroupSnoc<E, K>(f: E -> K, k: K, s: seq<E>, e: E)
    ensures Group(f, k, s + [e]) == if f(e) == k then Group(f, k, s) + [e] else Group(f, k, s)
  {
    FilterSnoc(KeyIs(f, k), s, e);
  }

  lemma GroupPermutes<E, K>(f: E -> K, k: K, s: seq<E>, t: seq<E>)
    requires multiset(s) == multiset(t)
    ensures multiset(Group(f, k, s)) == multiset(Group(f, k, t))
  {
    FilterPermutes(KeyIs(f, k), s, t);
  }

  lemma GroupHead<E, K>(f: E -> K, e: E, s: seq<E>)
    ensures Group(f, f(e), [e] + s) == [e] + Group(f, f(e), s)
  {
    FilterConcat(KeyIs(f, f(e)), [e], s);
    FilterSnoc(KeyIs(f, f(e)), [], e);
    assert [] + [e] == [e];
  }

  lemma GroupKeys<E, K(!new), V>(cap: nat, f: E -> K, v: seq<E> -> V, s: seq<E>)
    ensures |GroupMap(cap, f, v, s)| == |Admitted(cap, Apply(f, s))|
    ensures forall k :: k in GroupMap(cap, f, v, s) ==> GroupMap(cap, f, v, s)[k] == v(Group(f, k, s))
    ensures forall k :: k in GroupMap(cap, f, v, s) <==> k in Admitted(cap, Apply(f, s))
  {
    AdmittedSetSize(cap, Apply(f, s));
    assert GroupMap(cap, f, v, s).Keys == set k | k in Admitted(cap, Apply(f, s));
  }

  /** A held key: its value is recomputed from one more element, all others stay. */
  lemma GroupHeld<E, K(!new), V>(cap: nat, f: E -> K, v: seq<E> -> V, s: seq<E>, e: E)
    requires f(e) in GroupMap(cap, f, v, s)
    ensures GroupMap(cap, f, v, s + [e]) == GroupMap(cap, f, v, s)[f(e) := v(Group(f, f(e), s) + [e])]
    ensures GroupMap(cap, f, v, s)[f(e)] == v(Group(f, f(e), s))
    ensures Overflows(cap, Apply(f, s + [e])) <==> Overflows(cap, Apply(f, s))
  {
    hide Group, Distinct;
    ApplySnoc(f, s, e);
    AdmittedSnoc(cap, Apply(f, s), f(e));
    forall k ensures Group(f, k, s + [e]) == if f(e) == k then Group(f, k, s) + [e] else Group(f, k, s) {
      GroupSnoc(f, k, s, e);
    }
  }

  /** A new key with room left opens a group of one. */
  lemma GroupOpened<E, K(!new), V>(cap: nat, f: E -> K, v: seq<E> -> V, s: seq<E>, e: E)
    requires f(e) !in GroupMap(cap, f, v, s) && |GroupMap(cap, f, v, s)| < cap
    ensures GroupMap(cap, f, v, s + [e]) == GroupMap(cap, f, v, s)[f(e) := v([e])]
    ensures Group(f, f(e), s) == []
    ensures Overflows(cap, Apply(f, s + [e])) <==> Overflows(cap, Apply(f, s))
  {
    GroupNonEmpty(f, f(e), s);
    hide Group, Distinct;
    GroupKeys(cap, f, v, s);
    ApplySnoc(f, s, e);
    AdmittedSnoc(cap, Apply(f, s), f(e));
    assert [] + [e] == [e];
    forall k ensures Group(f, k, s + [e]) == if f(e) == k then Group(f, k, s) + [e] else Group(f, k, s) {
      GroupSnoc(f, k, s, e);
    }
  }

  /** A new key without room changes nothing but the overflow flag. */
  lemma GroupRefused<E, K(!new), V>(cap: nat, f: E -> K, v: seq<E> -> V, s: seq<E>, e: E)
    requires f(e) !in GroupMap(cap, f, v, s) && |GroupMap(cap, f, v, s)| >= cap
    ensures GroupMap(cap, f, v, s + [e]) == GroupMap(cap, f, v, s)
    ensures Overflows(cap, Apply(f, s + [e]))
  {
    hide Group, Distinct;
    GroupKeys(cap, f, v, s);
    ApplySnoc(f, s, e);
    AdmittedSnoc(cap, Apply(f, s), f(e));
    forall k ensures Group(f, k, s + [e]) == if f(e) == k then Group(f, k, s) + [e] else Group(f, k, s) {
      GroupSnoc(f, k, s, e);
    }
  }

  /** The element whose key ends up admitted. */
  function Holds<E, K(==,!new)>(cap: nat, f: E -> K, s: seq<E>): E -> bool {
    (e: E) => f(e) in Admitted(cap, Apply(f, s))
  }

  /** How many elements belong to held keys; the rest were refused one by one. */
  function HeldCount<E, K(==,!new)>(cap: nat, f: E -> K, s: seq<E>): nat {
    |Filter(Holds(cap, f, s), s)|
  }

  /** Refusal is permanent, so one more element never changes how earlier ones count. */
  lemma HeldSnoc<E, K(!new), V>(cap: nat, f: E -> K, v: seq<E> -> V, s: seq<E>, e: E)
    ensures var m := GroupMap(cap, f, v, s);
      HeldCount(cap, f, s + [e]) == HeldCount(cap, f, s) + if f(e) in m || |m| < cap then 1 else 0
    ensures HeldCount(cap, f, s) <= |s|
  {
    hide Distinct, Filter;
    GroupKeys(cap, f, v, s);
    ApplySnoc(f, s, e);
    AdmittedSnoc(cap, Apply(f, s), f(e));
    forall x | x in s ensures Holds(cap, f, s + [e])(x) == Holds(cap, f, s)(x) {
      var i :| 0 <= i < |s| && s[i] == x;
      assert Apply(f, s)[i] == f(x);
    }
    FilterAgrees(Holds(cap, f, s + [e]), Holds(cap, f, s), s);
    FilterSnoc(Holds(cap, f, s + [e]), s, e);
  }

  /** When everything fits, every element is held. */
  lemma AllHeldCount<E, K(!new)>(cap: nat, f: E -> K, s: seq<E>)
    requires !Overflows(cap, Apply(f, s))
    ensures HeldCount(cap, f, s) == |s|
  {
    forall e | e in s ensures Holds(cap, f, s)(e) {
      var i :| 0 <= i < |s| && s[i] == e;
      assert Apply(f, s)[i] == f(e);
    }
    FilterAll(Holds(cap, f, s), s);
  }

  lemma KeysPermute<E, K(!new)>(f: E -> K, s: seq<E>, t: seq<E>)
    requires multiset(s) == multiset(t)
    ensures forall k :: k in Apply(f, s) <==> k in Apply(f, t)
    ensures |Distinct(Apply(f, s))| == |Distinct(Apply(f, t))|
  {
    ApplyPermutes(f, s, t);
    forall k ensures k in Apply(f, s) <==> k in Apply(f, t) { SameMembers(Apply(f, s), Apply(f, t), k); }
    DistinctPermutes(Apply(f, s), Apply(f, t));
  }

  /** Below the cap, a map whose group values ignore order ignores the order of the stream. */
  lemma GroupMapPermutes<E, K(!new), V>(cap: nat, f: E -> K, v: seq<E> -> V, s: seq<E>, t: seq<E>)
    requires multiset(s) == multiset(t) && !Overflows(cap, Apply(f, s))
    requires forall k :: k in Apply(f, s) ==> v(Group(f, k, s)) == v(Group(f, k, t))
    ensures GroupMap(cap, f, v, s) == GroupMap(cap, f, v, t) && !Overflows(cap, Apply(f, t))
  {
    hide Group, Distinct;
    KeysPermute(f, s, t);
  }

  /** How many elements belong to one of the listed keys. */
  function InKeys<E, K(==)>(f: E -> K, ks: seq<K>): E -> bool { (e: E) => f(e) in ks }

  function GroupSize<E, K(==)>(f: E -> K, s: seq<E>): K -> int { (k: K) => |Group(f, k, s)| }

  /** The groups of distinct keys are disjoint: their sizes add up to what they cover. */
  lemma {:induction false} GroupSizesAdd<E(!new), K(!new)>(f: E -> K, ks: seq<K>, s: seq<E>)
    requires forall i, j :: 0 <= i < j < |ks| ==> ks[i] != ks[j]
    ensures Sum(Apply(GroupSize(f, s), ks)) == |Filter(InKeys(f, ks), s)|
  {
    if ks == [] {
      FilterNone(InKeys(f, ks), s);
    } else {
      var n := |ks| - 1;
      GroupSizesAdd(f, ks[..n], s);
      ApplySnoc(GroupSize(f, s), ks[..n], ks[n]);
      assert ks == ks[..n] + [ks[n]];
      SumSnoc(Apply(GroupSize(f, s), ks[..n]), |Group(f, ks[n], s)|);
      forall e ensures InKeys(f, ks)(e) <==> InKeys(f, ks[..n])(e) || KeyIs(f, ks[n])(e) {
        assert f(e) in ks <==> f(e) in ks[..n] || f(e) == ks[n];
      }
      FilterDisjoint(InKeys(f, ks[..n]), KeyIs(f, ks[n]), InKeys(f, ks), s);
    }
  }

  /** The sizes of the held groups add up to the held elements. */
  lemma HeldSizesAdd<E(!new), K(!new)>(cap: nat, f: E -> K, s: seq<E>, ks: seq<K>)
    requires forall k :: k in ks <==> k in Admitted(cap, Apply(f, s))
    requires forall i, j :: 0 <= i < j < |ks| ==> ks[i] != ks[j]
    ensures Sum(Apply(GroupSize(f, s), ks)) == HeldCount(cap, f, s)
  {
    GroupSizesAdd(f, ks, s);
    FilterAgrees(InKeys(f, ks), Holds(cap, f, s), s);
  }
}
