/** When the arrival order of rows can be read off a pattern run, and when it cannot. */
module PatternOrder {
  import opened CappedGroups
  import opened Ordering
  import opened Sequences
  import opened Rows
  import opened Patterns

  // ---- extremes ------------------------------------------------------------------

  ghost predicate Least(x: Extreme, s: seq<Extreme>) {
    x in s && forall z :: z in s ==> !Before(z, x)
  }

  ghost predicate Greatest(x: Extreme, s: seq<Extreme>) {
    x in s && forall z :: z in s ==> !Before(x, z)
  }

  /** No two different records share the winning (time, record id). */
  ghost predicate SoleLeast(s: seq<Extreme>) {
    forall x, y :: Least(x, s) && Least(y, s) ==> x == y
  }

  ghost predicate SoleGreatest(s: seq<Extreme>) {
    forall x, y :: Greatest(x, s) && Greatest(y, s) ==> x == y
  }

  lemma BeforeIsStrict(a: Extreme, b: Extreme, c: Extreme)
    ensures !Before(a, a)
    ensures Before(a, b) ==> !Before(b, a)
    ensures !Before(b, a) && !Before(c, b) ==> !Before(c, a)
  {
    AtMostTotal(a.recordId, a.recordId);
    AtMostTotal(a.recordId, b.recordId);
    if AtMost(a.recordId, b.recordId) && AtMost(b.recordId, c.recordId) {
      AtMostTransitive(a.recordId, b.recordId, c.recordId);
    }
  }

  /** The earliest slot holds the first arrival among the least. */
  lemma {:induction false} EarliestIsLeast(s: seq<Extreme>)
    requires s != []
    ensures Least(Earliest(s), s)
    ensures Least(s[0], s) ==> Earliest(s) == s[0]
  {
    var n := |s| - 1;
    BeforeIsStrict(s[0], s[0], s[0]);
    if n > 0 {
      EarliestIsLeast(s[..n]);
      var e := Earliest(s[..n]);
      assert s[..n][0] == s[0];
      forall z | z in s ensures !Before(z, Earliest(s)) {
        BeforeIsStrict(s[n], e, z);
        BeforeIsStrict(e, s[n], z);
        BeforeIsStrict(s[n], s[n], s[n]);
      }
    }
  }

  lemma {:induction false} LatestIsGreatest(s: seq<Extreme>)
    requires s != []
    ensures Greatest(Latest(s), s)
    ensures Greatest(s[0], s) ==> Latest(s) == s[0]
  {
    var n := |s| - 1;
    BeforeIsStrict(s[0], s[0], s[0]);
    if n > 0 {
      LatestIsGreatest(s[..n]);
      var e := Latest(s[..n]);
      assert s[..n][0] == s[0];
      forall z | z in s ensures !Before(Latest(s), z) {
        BeforeIsStrict(z, e, s[n]);
        BeforeIsStrict(e, s[n], z);
        BeforeIsStrict(s[n], s[n], s[n]);
      }
    }
  }

  lemma ExtremesPermute(s: seq<Extreme>, t: seq<Extreme>)
    requires s != [] && multiset(s) == multiset(t)
    ensures t != []
    ensures SoleLeast(s) ==> Earliest(s) == Earliest(t)
    ensures SoleGreatest(s) ==> Latest(s) == Latest(t)
  {
    PermutedLength(s, t);
    forall x ensures x in s <==> x in t { SameMembers(s, t, x); }
    EarliestIsLeast(s);
    EarliestIsLeast(t);
    LatestIsGreatest(s);
    LatestIsGreatest(t);
    assert Least(Earliest(t), s);
    assert Greatest(Latest(t), s);
  }

  // ---- capped tallies --------------------------------------------------------------

  /** A tally map that no reordering can change: everything fits, no winning tie. */
  ghost predicate SettledTally<K(!new)>(cap: nat, s: seq<Keyed<K>>) {
    !TallyOverflows(cap, s) && forall k :: k in Apply(KeyOf(), s) ==> SoleLeast(Points(k, s))
  }

  lemma PointsPermute<K(!new)>(k: K, s: seq<Keyed<K>>, t: seq<Keyed<K>>)
    requires multiset(s) == multiset(t)
    ensures multiset(Points(k, s)) == multiset(Points(k, t))
  {
    GroupPermutes(KeyOf(), k, s, t);
    ApplyPermutes(PointOf(), Group(KeyOf(), k, s), Group(KeyOf(), k, t));
  }

  lemma TallyPermutes<K(!new)>(cap: nat, s: seq<Keyed<K>>, t: seq<Keyed<K>>)
    requires multiset(s) == multiset(t) && SettledTally(cap, s)
    ensures CappedTally(cap, s) == CappedTally(cap, t)
    ensures !TallyOverflows(cap, t)
  {
    hide GroupMap, Group, Overflows;
    forall k | k in Apply(KeyOf(), s)
      ensures ToTally()(Group(KeyOf(), k, s)) == ToTally()(Group(KeyOf(), k, t))
    {
      PointsPermute(k, s, t);
      PermutedLength(Points(k, s), Points(k, t));
      if Points(k, s) != [] {
        ExtremesPermute(Points(k, s), Points(k, t));
      }
    }
    GroupMapPermutes(cap, KeyOf(), ToTally(), s, t);
  }

  /** The first arrival holds its key, and wins any tie for it. */
  lemma HeadTally<K(!new)>(cap: nat, s: seq<Keyed<K>>, x: Keyed<K>)
    requires cap >= 1
    ensures x.key in CappedTally(cap, [x] + s)
    ensures Least(x.at, Points(x.key, [x] + s)) ==> CappedTally(cap, [x] + s)[x.key].first == x.at
  {
    hide GroupMap, Group, Admitted;
    GroupKeys(cap, KeyOf(), ToTally(), [x] + s);
    ApplyHead(KeyOf(), x, s);
    HeadAdmitted(cap, Apply(KeyOf(), [x] + s));
    GroupHead(KeyOf(), x, s);
    ApplyHead(PointOf(), x, Group(KeyOf(), x.key, s));
    EarliestIsLeast(Points(x.key, [x] + s));
  }

  // ---- whole runs --------------------------------------------------------------------

  /** Everything a pattern run reports about the entries it was given. */
  datatype Outcome = Outcome(patterns: map<string, PatternAgg>, truncated: bool, accepted: nat)

  ghost function OutcomeOf(limits: PatternLimits, s: seq<Entry>): Outcome
    requires limits.Usable()
  {
    Outcome(PatternsOf(limits, s), Overflows(limits.maxPatterns, Ids(s)), HeldCount(limits.maxPatterns, PatternOf(), s))
  }

  /** One pattern's entries `s` leave nothing to the order of arrival. */
  ghost predicate SettledPattern(limits: PatternLimits, s: seq<Entry>)
    requires limits.Usable()
  {
    && (forall e, f :: e in s && f in s ==> e.descriptor == f.descriptor)
    && SoleLeast(Moments(s)) && SoleGreatest(Moments(s))
    && SettledTally(limits.maxBuckets, Bucketed(limits, s))
    && SettledTally(limits.maxServices, Resourced(s))
  }

  /** Every cap holds everything, one descriptor per pattern, no winning tie. */
  ghost predicate Settled(limits: PatternLimits, s: seq<Entry>)
    requires limits.Usable()
  {
    && !Overflows(limits.maxPatterns, Ids(s))
    && forall id :: id in Ids(s) ==> SettledPattern(limits, Of(id, s))
  }

  lemma EntriesPermute(limits: PatternLimits, s: seq<Entry>, t: seq<Entry>)
    requires limits.Usable() && multiset(s) == multiset(t)
    ensures multiset(Dated(s)) == multiset(Dated(t))
    ensures multiset(Moments(s)) == multiset(Moments(t))
    ensures multiset(Bucketed(limits, s)) == multiset(Bucketed(limits, t))
    ensures multiset(Resourced(s)) == multiset(Resourced(t))
  {
    FilterPermutes(IsDated(), s, t);
    ApplyPermutes(AtOf(), Dated(s), Dated(t));
    ApplyPermutes(ByBucket(limits), Dated(s), Dated(t));
    ApplyPermutes(ByResource(), Dated(s), Dated(t));
  }

  lemma AggPermutes(limits: PatternLimits, d: Descriptor, s: seq<Entry>, t: seq<Entry>)
    requires limits.Usable() && multiset(s) == multiset(t) && SettledPattern(limits, s)
    ensures AggOf(limits, d, s) == AggOf(limits, d, t)
  {
    hide CappedTally, TallyOverflows, Moments, Bucketed, Resourced, Dated;
    EntriesPermute(limits, s, t);
    PermutedLength(s, t);
    PermutedLength(Dated(s), Dated(t));
    PermutedLength(Moments(s), Moments(t));
    if Moments(s) != [] {
      ExtremesPermute(Moments(s), Moments(t));
    }
    TallyPermutes(limits.maxBuckets, Bucketed(limits, s), Bucketed(limits, t));
    TallyPermutes(limits.maxServices, Resourced(s), Resourced(t));
  }

  lemma OwnPermutes(limits: PatternLimits, id: string, s: seq<Entry>, t: seq<Entry>)
    requires limits.Usable() && multiset(s) == multiset(t)
    requires id in Ids(s) && SettledPattern(limits, Of(id, s))
    ensures ToAgg(limits)(Of(id, s)) == ToAgg(limits)(Of(id, t))
  {
    hide AggOf, Group;
    GroupPermutes(PatternOf(), id, s, t);
    PermutedLength(Of(id, s), Of(id, t));
    GroupNonEmpty(PatternOf(), id, s);
    SameMembers(Of(id, s), Of(id, t), Of(id, t)[0]);
    AggPermutes(limits, Of(id, s)[0].descriptor, Of(id, s), Of(id, t));
  }

  /** Settled rows: no permutation of the stream changes anything the run reports. */
  lemma OrderCannotMatter(limits: PatternLimits, s: seq<Entry>, t: seq<Entry>)
    requires limits.Usable() && multiset(s) == multiset(t) && Settled(limits, s)
    ensures OutcomeOf(limits, s) == OutcomeOf(limits, t)
  {
    hide SettledPattern, AggOf, GroupMap, Overflows, Group, HeldCount;
    forall id | id in Ids(s) ensures ToAgg(limits)(Of(id, s)) == ToAgg(limits)(Of(id, t)) {
      OwnPermutes(limits, id, s, t);
    }
    GroupMapPermutes(limits.maxPatterns, PatternOf(), ToAgg(limits), s, t);
    PermutedLength(s, t);
    AllHeldCount(limits.maxPatterns, PatternOf(), s);
    AllHeldCount(limits.maxPatterns, PatternOf(), t);
  }

  /** The entry moved to the head is admitted and opens its pattern. */
  lemma HeadEntry(limits: PatternLimits, rest: seq<Entry>, e: Entry)
    requires limits.Usable()
    ensures var s := [e] + rest;
      && e.pattern in PatternsOf(limits, s)
      && Of(e.pattern, s) == [e] + Of(e.pattern, rest)
      && PatternsOf(limits, s)[e.pattern] == AggOf(limits, e.descriptor, Of(e.pattern, s))
  {
    hide AggOf, GroupMap, Group, Admitted;
    var s := [e] + rest;
    GroupKeys(limits.maxPatterns, PatternOf(), ToAgg(limits), s);
    ApplyHead(PatternOf(), e, rest);
    HeadAdmitted(limits.maxPatterns, Ids(s));
    GroupHead(PatternOf(), e, rest);
  }

  lemma DatedHead(rest: seq<Entry>, e: Entry)
    requires e.row.eventTime.Some?
    ensures Dated([e] + rest) == [e] + Dated(rest)
  {
    FilterConcat(IsDated(), [e], rest);
    FilterSnoc(IsDated(), [], e);
    assert [] + [e] == [e];
  }

  lemma HeadDated(limits: PatternLimits, rest: seq<Entry>, e: Entry)
    requires limits.Usable() && e.row.eventTime.Some?
    ensures var s := [e] + rest;
      && Moments(s) == [At(e.row)] + Moments(rest)
      && Bucketed(limits, s) == [Keyed(BucketOf(limits, At(e.row).time), At(e.row))] + Bucketed(limits, rest)
      && Resourced(s) == [Keyed(e.row.resourceId, At(e.row))] + Resourced(rest)
  {
    DatedHead(rest, e);
    hide Dated;
    hide Apply;
    ApplyHead(AtOf(), e, Dated(rest));
    ApplyHead(ByBucket(limits), e, Dated(rest));
    ApplyHead(ByResource(), e, Dated(rest));
  }

  /** No reordering of `s` changes anything the run reports. */
  ghost predicate OrderFree(limits: PatternLimits, s: seq<Entry>)
    requires limits.Usable()
  {
    forall t :: multiset(t) == multiset(s) ==> OutcomeOf(limits, t) == OutcomeOf(limits, s)
  }

  lemma MoveToHead(limits: PatternLimits, s: seq<Entry>, e: Entry) returns (rest: seq<Entry>)
    requires limits.Usable() && OrderFree(limits, s) && e in s
    ensures multiset([e] + rest) == multiset(s)
    ensures e.pattern in PatternsOf(limits, s)
    ensures PatternsOf(limits, s)[e.pattern] == AggOf(limits, e.descriptor, Of(e.pattern, [e] + rest))
    ensures Of(e.pattern, [e] + rest) == [e] + Of(e.pattern, rest)
    ensures multiset(Of(e.pattern, [e] + rest)) == multiset(Of(e.pattern, s))
  {
    hide AggOf, PatternsOf;
    var i :| 0 <= i < |s| && s[i] == e;
    rest := Without(s, i);
    FrontedPermutes(s, i);
    assert OutcomeOf(limits, [e] + rest) == OutcomeOf(limits, s);
    HeadEntry(limits, rest, e);
    GroupPermutes(PatternOf(), e.pattern, [e] + rest, s);
  }

  /** Some reordering puts `x` first without changing the tally map. */
  ghost predicate Movable<K(!new)>(cap: nat, s: seq<Keyed<K>>, x: Keyed<K>) {
    exists t :: multiset([x] + t) == multiset(s) && CappedTally(cap, [x] + t) == CappedTally(cap, s)
  }

  lemma MovableIsUnrefused<K(!new)>(cap: nat, s: seq<Keyed<K>>)
    requires cap >= 1 && forall x :: x in s ==> Movable(cap, s, x)
    ensures !TallyOverflows(cap, s)
  {
    hide GroupMap, Admitted, Overflows;
    var keys := Apply(KeyOf(), s);
    GroupKeys(cap, KeyOf(), ToTally(), s);
    forall k | k in keys ensures k in Admitted(cap, keys) {
      var i :| 0 <= i < |s| && keys[i] == k;
      assert Movable(cap, s, s[i]);
      var t :| multiset([s[i]] + t) == multiset(s) && CappedTally(cap, [s[i]] + t) == CappedTally(cap, s);
      HeadTally(cap, t, s[i]);
    }
    AllHeld(cap, keys);
  }

  lemma MovableIsSettled<K(!new)>(cap: nat, s: seq<Keyed<K>>)
    requires cap >= 1 && forall x :: x in s ==> Movable(cap, s, x)
    ensures SettledTally(cap, s)
  {
    hide CappedTally, Movable, Points, Least, TallyOverflows;
    MovableIsUnrefused(cap, s);
    forall k | k in Apply(KeyOf(), s) ensures SoleLeast(Points(k, s)) {
      forall x | Least(x, Points(k, s)) ensures k in CappedTally(cap, s) && CappedTally(cap, s)[k].first == x {
        WinnerShows(cap, s, k, x);
      }
    }
  }

  lemma WinnerShows<K(!new)>(cap: nat, s: seq<Keyed<K>>, k: K, x: Extreme)
    requires cap >= 1 && Least(x, Points(k, s)) && forall y :: y in s ==> Movable(cap, s, y)
    ensures k in CappedTally(cap, s) && CappedTally(cap, s)[k].first == x
  {
    hide CappedTally;
    var j :| 0 <= j < |Points(k, s)| && Points(k, s)[j] == x;
    var y := Group(KeyOf(), k, s)[j];
    GroupMember(KeyOf(), k, s, y);
    assert y == Keyed(k, x);
    var t :| multiset([y] + t) == multiset(s) && CappedTally(cap, [y] + t) == CappedTally(cap, s);
    PointsPermute(k, [y] + t, s);
    forall z ensures z in Points(k, [y] + t) <==> z in Points(k, s) {
      SameMembers(Points(k, [y] + t), Points(k, s), z);
    }
    HeadTally(cap, t, y);
  }

  lemma AggFields(limits: PatternLimits, d: Descriptor, s: seq<Entry>)
    requires limits.Usable()
    ensures var a := AggOf(limits, d, s);
      && a.buckets == CappedTally(limits.maxBuckets, Bucketed(limits, s))
      && a.services == CappedTally(limits.maxServices, Resourced(s))
      && (Moments(s) != [] ==> a.earliest == Some(Earliest(Moments(s))) && a.latest == Some(Latest(Moments(s))))
  {
  }

  /** Every dated entry of a pattern can be moved to the head of the pattern's entries. */
  lemma MoveWithinPattern(limits: PatternLimits, s: seq<Entry>, e: Entry)
    requires limits.Usable() && OrderFree(limits, s) && e in s && e.row.eventTime.Some?
    ensures var own := Of(e.pattern, s);
      && Movable(limits.maxBuckets, Bucketed(limits, own), Keyed(BucketOf(limits, At(e.row).time), At(e.row)))
      && Movable(limits.maxServices, Resourced(own), Keyed(e.row.resourceId, At(e.row)))
    ensures e.pattern in PatternsOf(limits, s)
    ensures var own := Of(e.pattern, s);
      && (Least(At(e.row), Moments(own)) ==> PatternsOf(limits, s)[e.pattern].earliest == Some(At(e.row)))
      && (Greatest(At(e.row), Moments(own)) ==> PatternsOf(limits, s)[e.pattern].latest == Some(At(e.row)))
  {
    hide CappedTally, Bucketed, Resourced, Moments, Of, PatternsOf, AggOf, Dated, OrderFree;
    var rest := MoveToHead(limits, s, e);
    var own, tail := Of(e.pattern, s), Of(e.pattern, rest);
    EntriesPermute(limits, [e] + tail, own);
    HeadDated(limits, tail, e);
    HeldAgg(limits, s, e.pattern);
    AggFields(limits, e.descriptor, [e] + tail);
    AggFields(limits, PatternsOf(limits, s)[e.pattern].descriptor, own);
    var m := Moments([e] + tail);
    forall z ensures z in m <==> z in Moments(own) { SameMembers(m, Moments(own), z); }
    EarliestIsLeast(m);
    LatestIsGreatest(m);
  }

  lemma DatedWitness(limits: PatternLimits, id: string, s: seq<Entry>, i: nat) returns (e: Entry)
    requires limits.Usable() && i < |Dated(Of(id, s))|
    ensures e == Dated(Of(id, s))[i] && e in s && e.pattern == id && e.row.eventTime.Some?
    ensures Moments(Of(id, s))[i] == At(e.row)
    ensures Bucketed(limits, Of(id, s))[i] == Keyed(BucketOf(limits, At(e.row).time), At(e.row))
    ensures Resourced(Of(id, s))[i] == Keyed(e.row.resourceId, At(e.row))
  {
    e := Dated(Of(id, s))[i];
    FilterMember(IsDated(), Of(id, s), e);
    GroupMember(PatternOf(), id, s, e);
  }

  lemma PatternIsSettled(limits: PatternLimits, s: seq<Entry>, id: string)
    requires limits.Usable() && OrderFree(limits, s) && id in Ids(s)
    ensures SettledPattern(limits, Of(id, s))
  {
    hide Movable, Group, Dated, PatternsOf, OrderFree, SettledTally, Least, Greatest;
    var own := Of(id, s);
    GroupNonEmpty(PatternOf(), id, s);
    forall e ensures e in own <==> e in s && e.pattern == id { GroupMember(PatternOf(), id, s, e); }
    HeadDescriptor(limits, s, own[0]);
    forall e | e in own ensures e.descriptor == PatternsOf(limits, s)[id].descriptor {
      HeadDescriptor(limits, s, e);
    }
    forall x | Least(x, Moments(own)) ensures PatternsOf(limits, s)[id].earliest == Some(x) {
      var i := LeastIndex(x, Moments(own));
      var e := DatedWitness(limits, id, s, i);
      MoveWithinPattern(limits, s, e);
    }
    forall x | Greatest(x, Moments(own)) ensures PatternsOf(limits, s)[id].latest == Some(x) {
      var i := GreatestIndex(x, Moments(own));
      var e := DatedWitness(limits, id, s, i);
      MoveWithinPattern(limits, s, e);
    }
    TalliesAreSettled(limits, s, id);
  }

  lemma HeadDescriptor(limits: PatternLimits, s: seq<Entry>, e: Entry)
    requires limits.Usable() && OrderFree(limits, s) && e in s
    ensures e.pattern in PatternsOf(limits, s) && PatternsOf(limits, s)[e.pattern].descriptor == e.descriptor
  {
    hide PatternsOf, OrderFree;
    var rest := MoveToHead(limits, s, e);
  }

  lemma LeastIndex(x: Extreme, s: seq<Extreme>) returns (i: nat)
    requires Least(x, s)
    ensures i < |s| && s[i] == x
  {
    i :| 0 <= i < |s| && s[i] == x;
  }

  lemma GreatestIndex(x: Extreme, s: seq<Extreme>) returns (i: nat)
    requires Greatest(x, s)
    ensures i < |s| && s[i] == x
  {
    i :| 0 <= i < |s| && s[i] == x;
  }

  lemma TalliesAreSettled(limits: PatternLimits, s: seq<Entry>, id: string)
    requires limits.Usable() && OrderFree(limits, s)
    ensures SettledTally(limits.maxBuckets, Bucketed(limits, Of(id, s)))
    ensures SettledTally(limits.maxServices, Resourced(Of(id, s)))
  {
    hide Movable, Of, Dated, PatternsOf, OrderFree, SettledTally;
    var b, r := Bucketed(limits, Of(id, s)), Resourced(Of(id, s));
    forall x | x in b ensures Movable(limits.maxBuckets, b, x) {
      var i :| 0 <= i < |b| && b[i] == x;
      var e := DatedWitness(limits, id, s, i);
      MoveWithinPattern(limits, s, e);
    }
    forall x | x in r ensures Movable(limits.maxServices, r, x) {
      var i :| 0 <= i < |r| && r[i] == x;
      var e := DatedWitness(limits, id, s, i);
      MoveWithinPattern(limits, s, e);
    }
    MovableIsSettled(limits.maxBuckets, b);
    MovableIsSettled(limits.maxServices, r);
  }

  lemma NoPatternRefused(limits: PatternLimits, s: seq<Entry>)
    requires limits.Usable() && OrderFree(limits, s)
    ensures !Overflows(limits.maxPatterns, Ids(s))
  {
    hide OrderFree, AggOf, Overflows, GroupMap;
    GroupKeys(limits.maxPatterns, PatternOf(), ToAgg(limits), s);
    forall id | id in Ids(s) ensures id in Admitted(limits.maxPatterns, Ids(s)) {
      var i :| 0 <= i < |s| && Ids(s)[i] == id;
      var rest := MoveToHead(limits, s, s[i]);
    }
    AllHeld(limits.maxPatterns, Ids(s));
  }

  /** Input order can never change the outcome exactly when every cap holds everything,
      each pattern has one descriptor, and no two different records tie for a slot. */
  lemma OrderFreeIffSettled(limits: PatternLimits, s: seq<Entry>)
    requires limits.Usable()
    ensures OrderFree(limits, s) <==> Settled(limits, s)
  {
    hide OutcomeOf, SettledPattern;
    if Settled(limits, s) {
      forall t | multiset(t) == multiset(s) ensures OutcomeOf(limits, t) == OutcomeOf(limits, s) {
        OrderCannotMatter(limits, s, t);
      }
    }
    if OrderFree(limits, s) {
      NoPatternRefused(limits, s);
      forall id | id in Ids(s) ensures SettledPattern(limits, Of(id, s)) {
        PatternIsSettled(limits, s, id);
      }
    }
  }

  // ---- two streams whose order shows -------------------------------------------------------------

  lemma Shows(limits: PatternLimits, x: Entry, y: Entry)
    requires limits.Usable() && PatternsOf(limits, [x, y]) != PatternsOf(limits, [y, x])
    ensures multiset([x, y]) == multiset([y, x]) && !OrderFree(limits, [x, y])
  {
    hide PatternsOf;
    var s, t := [x, y], [y, x];
    assert multiset(t) == multiset(s);
    assert OutcomeOf(limits, t) != OutcomeOf(limits, s);
  }

  /** One slot and two patterns: the first arrival holds it. */
  lemma OneSlotReadsOrder(limits: PatternLimits, x: Entry, y: Entry)
    requires limits.Usable() && limits.maxPatterns == 1 && x.pattern != y.pattern
    ensures PatternsOf(limits, [x, y]).Keys == {x.pattern} && PatternsOf(limits, [y, x]).Keys == {y.pattern}
    ensures multiset([x, y]) == multiset([y, x]) && !OrderFree(limits, [x, y])
  {
    FirstHoldsTheSlot(limits, x, y);
    FirstHoldsTheSlot(limits, y, x);
    hide PatternsOf, OrderFree;
    Shows(limits, x, y);
  }

  lemma FirstHoldsTheSlot(limits: PatternLimits, x: Entry, y: Entry)
    requires limits.Usable() && limits.maxPatterns == 1
    ensures PatternsOf(limits, [x, y]).Keys == {x.pattern}
  {
    hide Admitted, AggOf, GroupMap;
    var s := [x, y];
    GroupKeys(1, PatternOf(), ToAgg(limits), s);
    HeadAdmitted(1, Ids(s));
    var held := Admitted(1, Ids(s));
    assert Ids(s)[0] == x.pattern && held == [x.pattern];
  }

  /** The same record id at the same time in two datasets: the slots show the dataset that came
      first. */
  lemma TieReadsOrder(limits: PatternLimits, x: Entry, y: Entry)
    requires limits.Usable() && x.pattern == y.pattern && x.row.datasetId != y.row.datasetId
    requires x.row.eventTime.Some? && x.row.eventTime == y.row.eventTime && x.row.recordId == y.row.recordId
    ensures x.pattern in PatternsOf(limits, [x, y]) && PatternsOf(limits, [x, y])[x.pattern].earliest == Some(At(x.row))
    ensures x.pattern in PatternsOf(limits, [y, x]) && PatternsOf(limits, [y, x])[x.pattern].earliest == Some(At(y.row))
    ensures multiset([x, y]) == multiset([y, x]) && !OrderFree(limits, [x, y])
  {
    FirstWinsTheTie(limits, x, y);
    FirstWinsTheTie(limits, y, x);
    hide PatternsOf, OrderFree;
    Shows(limits, x, y);
  }

  lemma FirstWinsTheTie(limits: PatternLimits, x: Entry, y: Entry)
    requires limits.Usable() && x.pattern == y.pattern
    requires x.row.eventTime.Some? && x.row.eventTime == y.row.eventTime && x.row.recordId == y.row.recordId
    ensures x.pattern in PatternsOf(limits, [x, y]) && PatternsOf(limits, [x, y])[x.pattern].earliest == Some(At(x.row))
  {
    var s := [x, y];
    TwoMoments(x, y);
    BeforeIsStrict(At(x.row), At(x.row), At(x.row));
    assert [At(x.row), At(y.row)][..1] == [At(x.row)];
    assert Earliest([At(x.row), At(y.row)]) == At(x.row);
    hide Admitted, AggOf, GroupMap, Of, Moments, PatternsOf;
    GroupKeys(limits.maxPatterns, PatternOf(), ToAgg(limits), s);
    HeadAdmitted(limits.maxPatterns, Ids(s));
    assert Ids(s)[0] == x.pattern;
    HeldAgg(limits, s, x.pattern);
    AggFields(limits, PatternsOf(limits, s)[x.pattern].descriptor, Of(x.pattern, s));
  }

  lemma TwoMoments(x: Entry, y: Entry)
    requires x.pattern == y.pattern && x.row.eventTime.Some? && y.row.eventTime.Some?
    ensures Of(x.pattern, [x, y]) == [x, y] && Moments([x, y]) == [At(x.row), At(y.row)]
  {
    FilterAll(KeyIs(PatternOf(), x.pattern), [x, y]);
    FilterAll(IsDated(), [x, y]);
    hide Filter;
  }
}
