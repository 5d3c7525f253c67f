/** What a published pattern summary says of the rows it was made from, in terms of the rows alone
    (crates/logscope-app/src/patterns.rs): counts, time span, buckets, resources, examples. */
module PatternMeaning {
  import opened CappedGroups
  import opened Ordering
  import opened Patterns
  import opened PatternOrder
  import opened PatternRun
  import opened Rows
  import opened Sequences
  import opened Sorting

  // ---- extremes ------------------------------------------------------------------------

  /** `x` is not later than `y`: by time, and by record id at the same time. */
  predicate NotLater(x: Extreme, time: int, recordId: string) {
    x.time <= time && (x.time == time ==> AtMost(x.recordId, recordId))
  }

  predicate NotEarlier(x: Extreme, time: int, recordId: string) {
    time <= x.time && (x.time == time ==> AtMost(recordId, x.recordId))
  }

  lemma EarliestMeans(s: seq<Extreme>, x: Extreme)
    requires x in s
    ensures NotLater(Earliest(s), x.time, x.recordId)
  {
    EarliestIsLeast(s);
    AtMostTotal(x.recordId, Earliest(s).recordId);
  }

  lemma LatestMeans(s: seq<Extreme>, x: Extreme)
    requires x in s
    ensures NotEarlier(Latest(s), x.time, x.recordId)
  {
    LatestIsGreatest(s);
    AtMostTotal(x.recordId, Latest(s).recordId);
  }

  lemma OwnGroup<K(!new)>(s: seq<Keyed<K>>, k: K)
    ensures Group(KeyOf(), k, s) == Filter(KeyIs(KeyOf(), k), s)
  {
  }

  /** A held tally counts the arrivals under its key and shows the first of them in time. */
  lemma TallyMeans<K(!new)>(cap: nat, s: seq<Keyed<K>>, k: K)
    requires k in CappedTally(cap, s)
    ensures var t := CappedTally(cap, s)[k];
      && t.count == |Filter(KeyIs(KeyOf(), k), s)|
      && Keyed(k, t.first) in s
      && forall x :: x in s && x.key == k ==> NotLater(t.first, x.at.time, x.at.recordId)
  {
    var own := Group(KeyOf(), k, s);
    var p := Apply(PointOf(), own);
    GroupNonEmpty(KeyOf(), k, s);
    GroupKeys(cap, KeyOf(), ToTally(), s);
    hide Group, GroupMap, Admitted, Earliest, NotLater;
    assert own == Filter(KeyIs(KeyOf(), k), s) by { OwnGroup(s, k); }
    assert CappedTally(cap, s)[k] == TallyOf(own);
    EarliestIsLeast(p);
    var j :| 0 <= j < |p| && p[j] == Earliest(p);
    GroupMember(KeyOf(), k, s, own[j]);
    assert own[j] == Keyed(k, p[j]);
    forall x | x in s && x.key == k ensures NotLater(Earliest(p), x.at.time, x.at.recordId) {
      GroupMember(KeyOf(), k, s, x);
      var i :| 0 <= i < |own| && own[i] == x;
      assert p[i] == x.at;
      EarliestMeans(p, x.at);
    }
  }

  // ---- the rows of one pattern ------------------------------------------------------------

  /** The row was identified as pattern `id`. */
  predicate IsMine(derive: LogRow -> Extraction, id: string, row: LogRow) {
    derive(row).Identified? && derive(row).id == id
  }

  /** The pattern's rows that satisfy `q`. */
  function Mine(derive: LogRow -> Extraction, id: string, q: LogRow -> bool): LogRow -> bool {
    (row: LogRow) => IsMine(derive, id, row) && q(row)
  }

  function OnRow(q: LogRow -> bool): Entry -> bool { (e: Entry) => q(e.row) }

  lemma {:induction false} OwnCount(derive: LogRow -> Extraction, rows: seq<LogRow>, id: string, q: LogRow -> bool)
    ensures |Filter(OnRow(q), Of(id, Entries(derive, rows)))| == |Filter(Mine(derive, id, q), rows)|
  {
    if rows != [] {
      var n := |rows| - 1;
      var front, row := rows[..n], rows[n];
      OwnCount(derive, front, id, q);
      assert rows == front + [row];
      hide Filter, Entries, Of;
      EntriesSnoc(derive, front, row);
      FilterSnoc(Mine(derive, id, q), front, row);
      match derive(row) {
        case Identified(k, d) =>
          GroupSnoc(PatternOf(), id, Entries(derive, front), Entry(k, d, row));
          FilterSnoc(OnRow(q), Of(id, Entries(derive, front)), Entry(k, d, row));
        case _ =>
      }
    }
  }

  /** The entries of a pattern are exactly its rows. */
  lemma OwnRows(derive: LogRow -> Extraction, rows: seq<LogRow>, id: string, row: LogRow)
    ensures (exists e :: e in Of(id, Entries(derive, rows)) && e.row == row) <==> row in rows && IsMine(derive, id, row)
  {
    CountedRows(derive, rows, id);
    FilterMember(DerivesTo(derive, id), rows, row);
    var own := Of(id, Entries(derive, rows));
    hide Of, Entries, Filter;
    if e :| e in own && e.row == row {
      var j :| 0 <= j < |own| && own[j] == e;
      assert Apply(RowOf(), own)[j] == row;
    }
    if row in rows && IsMine(derive, id, row) {
      var j :| 0 <= j < |own| && Apply(RowOf(), own)[j] == row;
      assert own[j] in own;
    }
  }

  // ---- one aggregate -------------------------------------------------------------------------

  /** The record behind a published point: a row of the pattern with that time, id and dataset. */
  predicate Shows(row: LogRow, x: Extreme) {
    row.eventTime == Some(x.time) && row.recordId == x.recordId && row.datasetId == x.datasetId
  }

  function Everything(): LogRow -> bool { (row: LogRow) => true }
  function Untimed(): LogRow -> bool { (row: LogRow) => row.eventTime.None? }
  function From(resource: string): LogRow -> bool { (row: LogRow) => row.eventTime.Some? && row.resourceId == resource }
  function During(start: int, end: int): LogRow -> bool {
    (row: LogRow) => row.eventTime.Some? && start <= row.eventTime.value < end
  }

  /** `slot` is the first, or the last, of the dated rows the pattern has among those `q` selects. */
  ghost predicate IsFirst(derive: LogRow -> Extraction, rows: seq<LogRow>, id: string, q: LogRow -> bool, slot: Extreme) {
    && (exists row :: row in rows && IsMine(derive, id, row) && q(row) && Shows(row, slot))
    && forall row :: row in rows && IsMine(derive, id, row) && q(row) && row.eventTime.Some? ==>
      NotLater(slot, row.eventTime.value, row.recordId)
  }

  ghost predicate IsLast(derive: LogRow -> Extraction, rows: seq<LogRow>, id: string, q: LogRow -> bool, slot: Extreme) {
    && (exists row :: row in rows && IsMine(derive, id, row) && q(row) && Shows(row, slot))
    && forall row :: row in rows && IsMine(derive, id, row) && q(row) && row.eventTime.Some? ==>
      NotEarlier(slot, row.eventTime.value, row.recordId)
  }

  /** No row of the pattern has a time. */
  ghost predicate AllUntimed(derive: LogRow -> Extraction, rows: seq<LogRow>, id: string) {
    forall row :: row in rows && IsMine(derive, id, row) ==> row.eventTime.None?
  }

  /** The moments of a pattern are the stamps of its dated rows. */
  lemma MomentRows(derive: LogRow -> Extraction, rows: seq<LogRow>, id: string)
    ensures var m := Moments(Of(id, Entries(derive, rows)));
      && (forall x :: x in m ==> exists row :: row in rows && IsMine(derive, id, row) && Shows(row, x))
      && (forall row :: row in rows && IsMine(derive, id, row) && row.eventTime.Some? ==> At(row) in m)
  {
    var own := Of(id, Entries(derive, rows));
    var dated := Dated(own);
    var m := Moments(own);
    hide Of, Entries, Filter;
    forall x | x in m ensures exists row :: row in rows && IsMine(derive, id, row) && Shows(row, x) {
      var j :| 0 <= j < |m| && m[j] == x;
      FilterMember(IsDated(), own, dated[j]);
      OwnRows(derive, rows, id, dated[j].row);
    }
    forall row | row in rows && IsMine(derive, id, row) && row.eventTime.Some? ensures At(row) in m {
      OwnRows(derive, rows, id, row);
      var e :| e in own && e.row == row;
      FilterMember(IsDated(), own, e);
      var j :| 0 <= j < |dated| && dated[j] == e;
      assert m[j] == At(row);
    }
  }

  /** Time span and counts of one pattern's aggregate. */
  lemma SpanMeans(limits: PatternLimits, derive: LogRow -> Extraction, rows: seq<LogRow>, id: string, d: Descriptor)
    requires limits.Usable()
    ensures var agg := AggOf(limits, d, Of(id, Entries(derive, rows)));
      && agg.count == |Filter(Mine(derive, id, Everything()), rows)|
      && agg.untimestamped == |Filter(Mine(derive, id, Untimed()), rows)|
      && (agg.earliest.None? <==> AllUntimed(derive, rows, id)) && (agg.latest.None? <==> AllUntimed(derive, rows, id))
      && (agg.earliest.Some? ==> IsFirst(derive, rows, id, Everything(), agg.earliest.value))
      && (agg.latest.Some? ==> IsLast(derive, rows, id, Everything(), agg.latest.value))
  {
    var own := Of(id, Entries(derive, rows));
    var m := Moments(own);
    MomentRows(derive, rows, id);
    OwnCount(derive, rows, id, Everything());
    OwnCount(derive, rows, id, Untimed());
    CountsSplit(own);
    AggFields(limits, d, own);
    hide Of, Entries, Filter, NotLater, NotEarlier, Moments, Earliest, Latest;
    AggCounts(limits, d, own);
    forall row | row in rows && IsMine(derive, id, row) && row.eventTime.Some? && m != []
      ensures NotLater(Earliest(m), row.eventTime.value, row.recordId) && NotEarlier(Latest(m), row.eventTime.value, row.recordId)
    {
      EarliestMeans(m, At(row));
      LatestMeans(m, At(row));
    }
    if m != [] { assert Earliest(m) in m && Latest(m) in m; }
  }

  lemma AggCounts(limits: PatternLimits, d: Descriptor, own: seq<Entry>)
    requires limits.Usable()
    ensures var agg := AggOf(limits, d, own);
      && agg.descriptor == d && agg.count == |own| && agg.untimestamped == |own| - |Dated(own)|
      && (Moments(own) == [] ==> agg.earliest.None? && agg.latest.None?)
  {
    hide CappedTally, TallyOverflows;
  }

  lemma {:induction false} CountsSplit(own: seq<Entry>)
    ensures |Filter(OnRow(Everything()), own)| == |own| && |Filter(OnRow(Untimed()), own)| == |own| - |Dated(own)|
  {
    if own != [] { CountsSplit(own[..|own|-1]); }
  }

  // ---- buckets and resources ----------------------------------------------------------------

  function ToEntryKey<K(==)>(f: Entry -> Keyed<K>, k: K): Entry -> bool { (e: Entry) => e.row.eventTime.Some? && f(e).key == k }

  /** The arrivals under a key are the dated entries with that key. */
  lemma KeyedRows<K(!new)>(f: Entry -> Keyed<K>, k: K, own: seq<Entry>)
    ensures |Filter(KeyIs(KeyOf(), k), Apply(f, Dated(own)))| == |Filter(ToEntryKey(f, k), own)|
  {
    var p := (e: Entry) => f(e).key == k;
    FilterApply(f, p, KeyIs(KeyOf(), k), Dated(own));
    hide Filter;
    DatedAnd(p, own);
    FilterAgrees(ToEntryKey(f, k), (e: Entry) => IsDated()(e) && p(e), own);
  }

  lemma {:induction false} DatedAnd(p: Entry -> bool, own: seq<Entry>)
    ensures Filter(p, Dated(own)) == Filter((e: Entry) => IsDated()(e) && p(e), own)
  {
    var both := (e: Entry) => IsDated()(e) && p(e);
    if own != [] {
      var front, e := own[..|own|-1], own[|own|-1];
      DatedAnd(p, front);
      assert own == front + [e];
      hide Filter;
      FilterSnoc(IsDated(), front, e);
      FilterSnoc(p, Dated(front), e);
      FilterSnoc(both, front, e);
    }
  }

  /** The tally of the pattern's rows that `q` selects. */
  ghost predicate TallyHolds(derive: LogRow -> Extraction, rows: seq<LogRow>, id: string, q: LogRow -> bool, t: Tally) {
    t.count == |Filter(Mine(derive, id, q), rows)| && IsFirst(derive, rows, id, q, t.first)
  }

  /** What a capped map of tallies over the rows of a pattern holds, when `q(k)` selects the rows
      of key `k`. */
  lemma HeldMeans<K(!new)>(derive: LogRow -> Extraction, rows: seq<LogRow>, id: string, cap: nat,
                           f: Entry -> Keyed<K>, q: LogRow -> bool, k: K)
    requires forall e: Entry :: f(e).at == At(e.row) && (ToEntryKey(f, k)(e) <==> q(e.row))
    requires k in CappedTally(cap, Apply(f, Dated(Of(id, Entries(derive, rows)))))
    ensures TallyHolds(derive, rows, id, q, CappedTally(cap, Apply(f, Dated(Of(id, Entries(derive, rows)))))[k])
  {
    var own := Of(id, Entries(derive, rows));
    var dated := Dated(own);
    var s := Apply(f, dated);
    hide Of, Entries, Filter, CappedTally, NotLater, At, DerivesTo;
    TallyMeans(cap, s, k);
    KeyedRows(f, k, own);
    OwnCount(derive, rows, id, q);
    FilterAgrees(ToEntryKey(f, k), OnRow(q), own);
    var t := CappedTally(cap, s)[k];
    var j :| 0 <= j < |s| && s[j] == Keyed(k, t.first);
    FilterMember(IsDated(), own, dated[j]);
    OwnRows(derive, rows, id, dated[j].row);
    ShownAt(dated[j], t.first);
    forall row | row in rows && IsMine(derive, id, row) && q(row) && row.eventTime.Some?
      ensures NotLater(t.first, row.eventTime.value, row.recordId)
    {
      OwnRows(derive, rows, id, row);
      var e :| e in own && e.row == row;
      FilterMember(IsDated(), own, e);
      var i :| 0 <= i < |dated| && dated[i] == e;
      assert s[i] == f(e) && ToEntryKey(f, k)(e);
      StampAt(row);
    }
  }

  lemma ShownAt(e: Entry, x: Extreme)
    requires e.row.eventTime.Some? && At(e.row) == x
    ensures Shows(e.row, x)
  {
  }

  lemma StampAt(row: LogRow)
    requires row.eventTime.Some?
    ensures At(row).time == row.eventTime.value && At(row).recordId == row.recordId
  {
  }

  /** A bucket in nanoseconds. */
  function Width(limits: PatternLimits): (w: int)
    requires limits.Usable()
    ensures w > 0
  {
    limits.bucketSeconds * 1_000_000_000
  }

  lemma InBucket(limits: PatternLimits, time: int, b: int)
    requires limits.Usable()
    ensures BucketOf(limits, time) == b <==> Covers(b, Width(limits), time)
  {
    FloorTo(time, Width(limits), b);
  }

  /** Bucket `b` of width `w` is aligned and holds the instant. */
  predicate Covers(b: int, w: int, time: int)
    requires w > 0
  {
    b % w == 0 && b <= time < b + w
  }

  lemma FloorTo(time: int, w: int, b: int)
    requires w > 0
    ensures time / w * w == b <==> b % w == 0 && b <= time < b + w
  {
    assert time == time / w * w + time % w;
    if b % w == 0 && b <= time < b + w {
      var q := b / w;
      assert b == q * w;
      QuotientIs(time, w, q);
    }
    if time / w * w == b { ProductDivides(time / w, w); }
  }

  lemma QuotientIs(n: int, d: int, q: int)
    requires d > 0 && q * d <= n < q * d + d
    ensures n / d == q
  {
    var p := n / d;
    assert n == p * d + n % d;
    Times(p + 1, q, d);
    Times(q + 1, p, d);
  }

  lemma Times(a: int, b: int, d: int)
    requires d > 0
    ensures a <= b ==> a * d <= b * d
  {
  }

  lemma ProductDivides(q: int, d: int)
    requires d > 0
    ensures (q * d) % d == 0
  {
    QuotientIs(q * d, d, q);
  }

  predicate Aligned(b: int, w: int)
    requires w > 0
  {
    b % w == 0
  }

  /** A held bucket covers one aligned stretch of time, counts the pattern's rows in it and shows
      the first of them. */
  lemma BucketMeans(limits: PatternLimits, derive: LogRow -> Extraction, rows: seq<LogRow>, id: string, b: int)
    requires limits.Usable() && b in CappedTally(limits.maxBuckets, Bucketed(limits, Of(id, Entries(derive, rows))))
    ensures Aligned(b, Width(limits))
    ensures TallyHolds(derive, rows, id, During(b, b + Width(limits)),
      CappedTally(limits.maxBuckets, Bucketed(limits, Of(id, Entries(derive, rows))))[b])
  {
    hide *;
    BucketAligned(limits, Of(id, Entries(derive, rows)), b);
    BucketTest(limits, b);
    BucketedIs(limits, Of(id, Entries(derive, rows)));
    HeldMeans(derive, rows, id, limits.maxBuckets, ByBucket(limits), During(b, b + Width(limits)), b);
  }

  lemma BucketedIs(limits: PatternLimits, own: seq<Entry>)
    requires limits.Usable()
    ensures Bucketed(limits, own) == Apply(ByBucket(limits), Dated(own)) && Resourced(own) == Apply(ByResource(), Dated(own))
  {
  }

  lemma BucketTest(limits: PatternLimits, b: int)
    requires limits.Usable() && Aligned(b, Width(limits))
    ensures forall e: Entry :: ByBucket(limits)(e).at == At(e.row)
    ensures forall e: Entry :: (ToEntryKey(ByBucket(limits), b)(e) <==> During(b, b + Width(limits))(e.row))
  {
    hide BucketOf, Width;
    forall e: Entry ensures ToEntryKey(ByBucket(limits), b)(e) <==> During(b, b + Width(limits))(e.row) {
      InBucket(limits, At(e.row).time, b);
    }
  }

  lemma BucketAligned(limits: PatternLimits, own: seq<Entry>, b: int)
    requires limits.Usable() && b in CappedTally(limits.maxBuckets, Bucketed(limits, own))
    ensures Aligned(b, Width(limits))
  {
    var s := Bucketed(limits, own);
    hide Filter, CappedTally, BucketOf, Dated, Width;
    TallyMeans(limits.maxBuckets, s, b);
    var j :| 0 <= j < |s| && s[j].key == b;
    InBucket(limits, At(Dated(own)[j].row).time, b);
  }

  /** A held resource counts the pattern's dated rows from it and shows the first of them. */
  lemma ServiceMeans(limits: PatternLimits, derive: LogRow -> Extraction, rows: seq<LogRow>, id: string, r: string)
    requires limits.Usable() && r in CappedTally(limits.maxServices, Resourced(Of(id, Entries(derive, rows))))
    ensures TallyHolds(derive, rows, id, From(r), CappedTally(limits.maxServices, Resourced(Of(id, Entries(derive, rows))))[r])
  {
    hide Of, Entries, Filter, CappedTally, Dated;
    HeldMeans(derive, rows, id, limits.maxServices, ByResource(), From(r), r);
  }

  // ---- which keys are held --------------------------------------------------------------------

  /** Every key is held, or the map is full and some key is not. */
  lemma KeysHeld<K(!new)>(cap: nat, s: seq<Keyed<K>>)
    ensures |CappedTally(cap, s)| <= cap
    ensures !TallyOverflows(cap, s) ==> forall x :: x in s ==> x.key in CappedTally(cap, s)
    ensures TallyOverflows(cap, s) ==> |CappedTally(cap, s)| == cap && exists x :: x in s && x.key !in CappedTally(cap, s)
  {
    var keys := Apply(KeyOf(), s);
    GroupKeys(cap, KeyOf(), ToTally(), s);
    if Overflows(cap, keys) {
      var k := RefusedWitness(cap, keys);
      var i :| 0 <= i < |keys| && keys[i] == k;
      hide Distinct, Admitted, GroupMap;
      assert s[i] in s;
    } else {
      hide Distinct, GroupMap;
      forall x | x in s ensures x.key in CappedTally(cap, s) {
        var i :| 0 <= i < |s| && s[i] == x;
        assert keys[i] == x.key;
      }
    }
  }

  /** The dated rows of a pattern are the arrivals its tallies see. */
  lemma ArrivalRows<K(!new)>(derive: LogRow -> Extraction, rows: seq<LogRow>, id: string, f: Entry -> Keyed<K>, row: LogRow)
    requires row in rows && IsMine(derive, id, row) && row.eventTime.Some?
    ensures exists e: Entry :: e.row == row && f(e) in Apply(f, Dated(Of(id, Entries(derive, rows))))
  {
    var own := Of(id, Entries(derive, rows));
    hide Of, Entries, Filter;
    OwnRows(derive, rows, id, row);
    var e :| e in own && e.row == row;
    FilterMember(IsDated(), own, e);
    var i :| 0 <= i < |Dated(own)| && Dated(own)[i] == e;
    assert Apply(f, Dated(own))[i] == f(e);
  }

  /** Every dated row of a pattern arrives under the bucket that covers it. */
  lemma CoveredRow(limits: PatternLimits, derive: LogRow -> Extraction, rows: seq<LogRow>, id: string, row: LogRow)
    requires limits.Usable() && row in rows && IsMine(derive, id, row) && row.eventTime.Some?
    ensures exists x :: x in Bucketed(limits, Of(id, Entries(derive, rows))) && Covers(x.key, Width(limits), row.eventTime.value)
  {
    hide *;
    BucketedIs(limits, Of(id, Entries(derive, rows)));
    ArrivalRows(derive, rows, id, ByBucket(limits), row);
    var e: Entry :| e.row == row && ByBucket(limits)(e) in Apply(ByBucket(limits), Dated(Of(id, Entries(derive, rows))));
    KeyCovers(limits, e);
  }

  lemma KeyCovers(limits: PatternLimits, e: Entry)
    requires limits.Usable() && e.row.eventTime.Some?
    ensures Covers(ByBucket(limits)(e).key, Width(limits), e.row.eventTime.value)
  {
    InBucket(limits, At(e.row).time, ByBucket(limits)(e).key);
    hide BucketOf, Width;
  }

  // ---- the stored aggregate --------------------------------------------------------------------

  ghost predicate SpanHolds(derive: LogRow -> Extraction, rows: seq<LogRow>, id: string, agg: PatternAgg) {
    && agg.count == |Filter(Mine(derive, id, Everything()), rows)|
    && agg.untimestamped == |Filter(Mine(derive, id, Untimed()), rows)|
    && (agg.earliest.None? <==> AllUntimed(derive, rows, id)) && (agg.latest.None? <==> AllUntimed(derive, rows, id))
    && (agg.earliest.Some? ==> IsFirst(derive, rows, id, Everything(), agg.earliest.value))
    && (agg.latest.Some? ==> IsLast(derive, rows, id, Everything(), agg.latest.value))
  }

  /** Bucket `b` is aligned to its width and holds the pattern's rows of that stretch. */
  ghost predicate BucketHolds(derive: LogRow -> Extraction, rows: seq<LogRow>, id: string, w: int, b: int, t: Tally)
    requires w > 0
  {
    Aligned(b, w) && TallyHolds(derive, rows, id, During(b, b + w), t)
  }

  ghost predicate InSomeBucket(buckets: map<int, Tally>, w: int, time: int)
    requires w > 0
  {
    exists b :: b in buckets && Covers(b, w, time)
  }

  /** Each bucket is exact, and unless some were refused every dated row is in one. */
  ghost predicate BucketsHold(limits: PatternLimits, derive: LogRow -> Extraction, rows: seq<LogRow>, id: string, agg: PatternAgg)
    requires limits.Usable()
  {
    var w := Width(limits);
    && |agg.buckets| <= limits.maxBuckets
    && (forall b :: b in agg.buckets ==> BucketHolds(derive, rows, id, w, b, agg.buckets[b]))
    && (agg.bucketsTruncated ==> |agg.buckets| == limits.maxBuckets)
    && (!agg.bucketsTruncated ==> forall row :: row in rows && IsMine(derive, id, row) && row.eventTime.Some? ==>
          InSomeBucket(agg.buckets, w, row.eventTime.value))
  }

  ghost predicate ServicesHold(limits: PatternLimits, derive: LogRow -> Extraction, rows: seq<LogRow>, id: string, agg: PatternAgg) {
    && |agg.services| <= limits.maxServices
    && (forall r :: r in agg.services ==> TallyHolds(derive, rows, id, From(r), agg.services[r]))
    && (agg.servicesTruncated ==> |agg.services| == limits.maxServices)
    && (!agg.servicesTruncated ==> forall row :: row in rows && IsMine(derive, id, row) && row.eventTime.Some? ==>
          row.resourceId in agg.services)
  }

  /** The first row of the pattern gave the descriptor. */
  ghost predicate DescriptorHolds(derive: LogRow -> Extraction, rows: seq<LogRow>, id: string, d: Descriptor) {
    exists j :: 0 <= j < |rows| && derive(rows[j]) == Identified(id, d) && forall k :: 0 <= k < j ==> !IsMine(derive, id, rows[k])
  }

  lemma {:induction false} FirstDescriptor(derive: LogRow -> Extraction, rows: seq<LogRow>, id: string)
    requires Of(id, Entries(derive, rows)) != []
    ensures DescriptorHolds(derive, rows, id, Of(id, Entries(derive, rows))[0].descriptor)
  {
    var n := |rows| - 1;
    if rows != [] {
      var front, row := rows[..n], rows[n];
      assert rows == front + [row];
      hide Entries, Of;
      EntriesSnoc(derive, front, row);
      match derive(row) {
        case Identified(k, d) => GroupSnoc(PatternOf(), id, Entries(derive, front), Entry(k, d, row));
        case _ =>
      }
      var own := Of(id, Entries(derive, front));
      if own != [] {
        FirstDescriptor(derive, front, id);
        var j :| 0 <= j < |front| && derive(front[j]) == Identified(id, own[0].descriptor) &&
          forall k :: 0 <= k < j ==> !IsMine(derive, id, front[k]);
        assert rows[j] == front[j] && forall k :: 0 <= k < j ==> rows[k] == front[k];
      } else {
        NoneMine(derive, front, id);
        assert derive(rows[n]) == Identified(id, Of(id, Entries(derive, rows))[0].descriptor);
        assert forall k :: 0 <= k < n ==> rows[k] == front[k];
      }
    }
  }

  lemma NoneMine(derive: LogRow -> Extraction, rows: seq<LogRow>, id: string)
    requires Of(id, Entries(derive, rows)) == []
    ensures forall k :: 0 <= k < |rows| ==> !IsMine(derive, id, rows[k])
  {
    hide Of, Entries;
    forall k | 0 <= k < |rows| ensures !IsMine(derive, id, rows[k]) { OwnRows(derive, rows, id, rows[k]); }
  }

  lemma BucketsMean(limits: PatternLimits, derive: LogRow -> Extraction, rows: seq<LogRow>, id: string, agg: PatternAgg)
    requires limits.Usable()
    requires var s := Bucketed(limits, Of(id, Entries(derive, rows)));
      agg.buckets == CappedTally(limits.maxBuckets, s) && agg.bucketsTruncated == TallyOverflows(limits.maxBuckets, s)
    ensures BucketsHold(limits, derive, rows, id, agg)
  {
    hide *;
    var s, w := Bucketed(limits, Of(id, Entries(derive, rows))), Width(limits);
    KeysHeld(limits.maxBuckets, s);
    forall b | b in agg.buckets ensures BucketHolds(derive, rows, id, w, b, agg.buckets[b]) { OneBucket(limits, derive, rows, id, b); }
    if !agg.bucketsTruncated {
      forall row | row in rows && IsMine(derive, id, row) && row.eventTime.Some?
        ensures InSomeBucket(agg.buckets, w, row.eventTime.value)
      {
        FindBucket(limits, derive, rows, id, row, agg.buckets);
      }
    }
    BucketsPacked(limits, derive, rows, id, agg, w);
  }

  lemma FindBucket(limits: PatternLimits, derive: LogRow -> Extraction, rows: seq<LogRow>, id: string, row: LogRow,
                   buckets: map<int, Tally>)
    requires limits.Usable() && row in rows && IsMine(derive, id, row) && row.eventTime.Some?
    requires forall x :: x in Bucketed(limits, Of(id, Entries(derive, rows))) ==> x.key in buckets
    ensures InSomeBucket(buckets, Width(limits), row.eventTime.value)
  {
    CoveredRow(limits, derive, rows, id, row);
    hide Bucketed, Of, Entries, Width, Covers;
  }

  lemma BucketsPacked(limits: PatternLimits, derive: LogRow -> Extraction, rows: seq<LogRow>, id: string, agg: PatternAgg, w: int)
    requires limits.Usable() && w == Width(limits)
    requires |agg.buckets| <= limits.maxBuckets && (agg.bucketsTruncated ==> |agg.buckets| == limits.maxBuckets)
    requires forall b :: b in agg.buckets ==> BucketHolds(derive, rows, id, w, b, agg.buckets[b])
    requires !agg.bucketsTruncated ==> forall row :: row in rows && IsMine(derive, id, row) && row.eventTime.Some? ==>
      InSomeBucket(agg.buckets, w, row.eventTime.value)
    ensures BucketsHold(limits, derive, rows, id, agg)
  {
    hide BucketHolds, InSomeBucket, IsMine, Width;
  }

  lemma OneBucket(limits: PatternLimits, derive: LogRow -> Extraction, rows: seq<LogRow>, id: string, b: int)
    requires limits.Usable() && b in CappedTally(limits.maxBuckets, Bucketed(limits, Of(id, Entries(derive, rows))))
    ensures BucketHolds(derive, rows, id, Width(limits), b,
      CappedTally(limits.maxBuckets, Bucketed(limits, Of(id, Entries(derive, rows))))[b])
  {
    BucketMeans(limits, derive, rows, id, b);
    hide Of, Entries, Bucketed, CappedTally, TallyHolds, Width, Aligned;
  }

  lemma ServicesMean(limits: PatternLimits, derive: LogRow -> Extraction, rows: seq<LogRow>, id: string, agg: PatternAgg)
    requires limits.Usable()
    requires var s := Resourced(Of(id, Entries(derive, rows)));
      agg.services == CappedTally(limits.maxServices, s) && agg.servicesTruncated == TallyOverflows(limits.maxServices, s)
    ensures ServicesHold(limits, derive, rows, id, agg)
  {
    hide *;
    var s := Resourced(Of(id, Entries(derive, rows)));
    KeysHeld(limits.maxServices, s);
    forall r | r in agg.services ensures TallyHolds(derive, rows, id, From(r), agg.services[r]) {
      ServiceMeans(limits, derive, rows, id, r);
    }
    forall row | row in rows && IsMine(derive, id, row) && row.eventTime.Some?
      ensures exists x :: x in s && x.key == row.resourceId
    {
      ResourceRow(limits, derive, rows, id, row);
    }
    ServicesPacked(limits, derive, rows, id, agg);
  }

  lemma ResourceRow(limits: PatternLimits, derive: LogRow -> Extraction, rows: seq<LogRow>, id: string, row: LogRow)
    requires limits.Usable() && row in rows && IsMine(derive, id, row) && row.eventTime.Some?
    ensures exists x :: x in Resourced(Of(id, Entries(derive, rows))) && x.key == row.resourceId
  {
    BucketedIs(limits, Of(id, Entries(derive, rows)));
    ArrivalRows(derive, rows, id, ByResource(), row);
    hide Of, Entries, Resourced;
    var e: Entry :| e.row == row && ByResource()(e) in Resourced(Of(id, Entries(derive, rows)));
  }

  lemma ServicesPacked(limits: PatternLimits, derive: LogRow -> Extraction, rows: seq<LogRow>, id: string, agg: PatternAgg)
    requires |agg.services| <= limits.maxServices && (agg.servicesTruncated ==> |agg.services| == limits.maxServices)
    requires forall r :: r in agg.services ==> TallyHolds(derive, rows, id, From(r), agg.services[r])
    requires !agg.servicesTruncated ==> forall row :: row in rows && IsMine(derive, id, row) && row.eventTime.Some? ==>
      row.resourceId in agg.services
    ensures ServicesHold(limits, derive, rows, id, agg)
  {
    hide TallyHolds, IsMine;
  }

  /** What the pass stores of a pattern, in terms of the rows: the counts, the first and the last
      dated row, each bucket and each resource, and the descriptor of the first row. */
  lemma StoredMeans(limits: PatternLimits, derive: LogRow -> Extraction, rows: seq<LogRow>, id: string)
    requires limits.Usable() && id in PatternsOf(limits, Entries(derive, rows))
    ensures var agg := PatternsOf(limits, Entries(derive, rows))[id];
      && SpanHolds(derive, rows, id, agg) && BucketsHold(limits, derive, rows, id, agg)
      && ServicesHold(limits, derive, rows, id, agg) && DescriptorHolds(derive, rows, id, agg.descriptor)
      && agg.count > 0
  {
    var own, agg := Of(id, Entries(derive, rows)), PatternsOf(limits, Entries(derive, rows))[id];
    HeldAgg(limits, Entries(derive, rows), id);
    FirstDescriptor(derive, rows, id);
    AggFields(limits, agg.descriptor, own);
    AggTruncated(limits, agg.descriptor, own);
    SpanMeans(limits, derive, rows, id, agg.descriptor);
    AggCounts(limits, agg.descriptor, own);
    hide *;
    BucketsMean(limits, derive, rows, id, agg);
    ServicesMean(limits, derive, rows, id, agg);
    SpanPacked(derive, rows, id, agg);
  }

  lemma AggTruncated(limits: PatternLimits, d: Descriptor, own: seq<Entry>)
    requires limits.Usable()
    ensures AggOf(limits, d, own).bucketsTruncated == TallyOverflows(limits.maxBuckets, Bucketed(limits, own))
    ensures AggOf(limits, d, own).servicesTruncated == TallyOverflows(limits.maxServices, Resourced(own))
  {
  }

  lemma SpanPacked(derive: LogRow -> Extraction, rows: seq<LogRow>, id: string, agg: PatternAgg)
    requires agg.count == |Filter(Mine(derive, id, Everything()), rows)|
    requires agg.untimestamped == |Filter(Mine(derive, id, Untimed()), rows)|
    requires (agg.earliest.None? <==> AllUntimed(derive, rows, id)) && (agg.latest.None? <==> AllUntimed(derive, rows, id))
    requires agg.earliest.Some? ==> IsFirst(derive, rows, id, Everything(), agg.earliest.value)
    requires agg.latest.Some? ==> IsLast(derive, rows, id, Everything(), agg.latest.value)
    ensures SpanHolds(derive, rows, id, agg)
  {
    hide Filter, IsFirst, IsLast, AllUntimed;
  }

  // ---- the published summary -------------------------------------------------------------------

  /** Time span of a summary, with the records its first two examples show. */
  ghost predicate SeenHolds(derive: LogRow -> Extraction, rows: seq<LogRow>, s: Summary) {
    && (s.firstSeen.None? <==> AllUntimed(derive, rows, s.patternId)) && (s.lastSeen.None? <==> AllUntimed(derive, rows, s.patternId))
    && (s.firstSeen.Some? ==>
          |s.examples| >= 2 && s.examples[0].role == "earliest" && s.examples[1].role == "latest"
          && s.firstSeen == Some(s.examples[0].at.time) && s.lastSeen == Some(s.examples[1].at.time)
          && IsFirst(derive, rows, s.patternId, Everything(), s.examples[0].at)
          && IsLast(derive, rows, s.patternId, Everything(), s.examples[1].at))
    && (s.firstSeen.None? ==> s.examples == [])
  }

  /** The peak is an aligned stretch; no held bucket has more rows, and none as full is earlier. */
  ghost predicate PeakHolds(limits: PatternLimits, derive: LogRow -> Extraction, rows: seq<LogRow>, s: Summary)
    requires limits.Usable()
  {
    var w := Width(limits);
    && (s.peak.NoPeak? <==> s.firstSeen.None?)
    && (s.peak.PeakAt? ==>
          && BucketHolds(derive, rows, s.patternId, w, s.peak.start, s.peak.tally)
          && |s.examples| >= 3 && s.examples[2] == Example("peak", s.peak.tally.first))
    && (s.peak.PeakAt? && !s.bucketsTruncated ==> forall b :: Aligned(b, w) ==> NoFuller(derive, rows, s.patternId, w, s.peak, b))
  }

  /** Resources by name, each with its number of dated rows; the first four are shown. */
  ghost predicate ResourcesHold(limits: PatternLimits, derive: LogRow -> Extraction, rows: seq<LogRow>, s: Summary) {
    && |s.services| <= limits.maxServices
    && (forall i, j :: 0 <= i < j < |s.services| ==> AtMost(s.services[i].0, s.services[j].0) && s.services[i].0 != s.services[j].0)
    && (forall i :: 0 <= i < |s.services| ==> s.services[i].1 == |Filter(Mine(derive, s.patternId, From(s.services[i].0)), rows)|)
    && (!s.servicesTruncated ==> forall row :: row in rows && IsMine(derive, s.patternId, row) && row.eventTime.Some? ==>
          exists i :: 0 <= i < |s.services| && s.services[i].0 == row.resourceId)
    && (s.firstSeen.Some? ==> |s.examples| == 3 + if |s.services| < 4 then |s.services| else 4)
    && (s.firstSeen.Some? ==> forall i :: 3 <= i < |s.examples| ==>
          s.examples[i].role == "resource" && IsFirst(derive, rows, s.patternId, From(s.services[i - 3].0), s.examples[i].at))
  }

  /** The fields and the examples of a summary, read off its aggregate. */
  ghost predicate Read(kind: string, id: string, agg: PatternAgg, ks: seq<string>, s: Summary) {
    && s.patternId == id && s.kind == kind && s.descriptor == agg.descriptor
    && s.count == agg.count && s.untimestamped == agg.untimestamped
    && s.bucketsTruncated == agg.bucketsTruncated && s.servicesTruncated == agg.servicesTruncated
    && s.firstSeen == TimeOf(agg.earliest) && s.lastSeen == TimeOf(agg.latest)
    && ListsNames(agg, ks, s)
  }

  ghost predicate ListsNames(agg: PatternAgg, ks: seq<string>, s: Summary) {
    && |s.services| == |ks| == |agg.services|
    && (forall i :: 0 <= i < |ks| ==> ks[i] in agg.services && s.services[i] == (ks[i], agg.services[ks[i]].count))
    && (forall r :: r in agg.services ==> exists i :: 0 <= i < |ks| && ks[i] == r)
    && (forall i, j :: 0 <= i < j < |ks| ==> AtMost(ks[i], ks[j]) && ks[i] != ks[j])
  }

  ghost predicate ListsExamples(agg: PatternAgg, ks: seq<string>, s: Summary) {
    if agg.earliest.None? then s.examples == []
    else
      && agg.latest.Some? && s.peak.PeakAt?
      && |s.examples| == 3 + (if |ks| < 4 then |ks| else 4)
      && s.examples[0] == Example("earliest", agg.earliest.value) && s.examples[1] == Example("latest", agg.latest.value)
      && s.examples[2] == Example("peak", s.peak.tally.first)
      && forall i :: 3 <= i < |s.examples| ==> ks[i - 3] in agg.services && s.examples[i] == Example("resource", agg.services[ks[i - 3]].first)
  }

  lemma SummaryRead(kind: string, id: string, agg: PatternAgg, ks: seq<string>, s: Summary)
    requires Summarises(kind, id, agg, ks, s)
    ensures Read(kind, id, agg, ks, s) && IsPeak(agg.buckets, s.peak)
  {
    NamesAscend(agg, ks);
    hide AtMost, IsPeak, Ascends;
  }

  lemma NamesAscend(agg: PatternAgg, ks: seq<string>)
    requires Ascends(ByName(), ks, agg.services.Keys)
    ensures forall i, j :: 0 <= i < j < |ks| ==> AtMost(ks[i], ks[j]) && ks[i] != ks[j]
    ensures |ks| == |agg.services| && forall r :: r in agg.services ==> exists i :: 0 <= i < |ks| && ks[i] == r
    ensures forall i :: 0 <= i < |ks| ==> ks[i] in agg.services
  {
    UniqueSetSize(ks);
    assert (set k | k in ks) == agg.services.Keys;
    forall i, j | 0 <= i < j < |ks| ensures AtMost(ks[i], ks[j]) { assert ByName()(ks[i], ks[j]); }
    hide AtMost;
  }

  lemma ExamplesRead(kind: string, id: string, agg: PatternAgg, ks: seq<string>, s: Summary)
    requires Summarises(kind, id, agg, ks, s)
    requires (agg.earliest.None? <==> agg.latest.None?) && (agg.earliest.None? <==> agg.buckets == map[])
    requires agg.earliest.None? ==> agg.services == map[]
    ensures ListsExamples(agg, ks, s)
  {
    NamesAscend(agg, ks);
    PeakThere(agg.buckets, s.peak);
    if agg.earliest.Some? { FourParts(agg, ks, s.peak); }
    hide AtMost, Ascends, IsPeak;
  }

  lemma PeakThere(buckets: map<int, Tally>, peak: Peak)
    requires IsPeak(buckets, peak)
    ensures peak.NoPeak? <==> buckets == map[]
  {
  }

  lemma FourParts(agg: PatternAgg, ks: seq<string>, peak: Peak)
    requires agg.earliest.Some? && agg.latest.Some? && peak.PeakAt? && forall k :: k in ks ==> k in agg.services
    ensures var x := Noted("earliest", agg.earliest) + Noted("latest", agg.latest) + PeakNote(peak) + ServiceNotes(ks, agg.services);
      && |x| == 3 + (if |ks| < 4 then |ks| else 4)
      && x[0] == Example("earliest", agg.earliest.value) && x[1] == Example("latest", agg.latest.value)
      && x[2] == Example("peak", peak.tally.first)
      && forall i :: 3 <= i < |x| ==> ks[i - 3] in agg.services && x[i] == Example("resource", agg.services[ks[i - 3]].first)
  {
    var notes := ServiceNotes(ks, agg.services);
    var head := [Example("earliest", agg.earliest.value), Example("latest", agg.latest.value), Example("peak", peak.tally.first)];
    assert Noted("earliest", agg.earliest) + Noted("latest", agg.latest) + PeakNote(peak) == head;
  }

  /** A pattern with a time has a bucket; one without has neither buckets nor resources. */
  lemma TimedHasBucket(limits: PatternLimits, derive: LogRow -> Extraction, rows: seq<LogRow>, id: string, agg: PatternAgg)
    requires limits.Usable() && BucketsHold(limits, derive, rows, id, agg) && ServicesHold(limits, derive, rows, id, agg)
    ensures agg.buckets == map[] <==> AllUntimed(derive, rows, id)
    ensures AllUntimed(derive, rows, id) ==> agg.services == map[]
  {
    hide Filter, NotLater, Covers, Width, Aligned;
    if AllUntimed(derive, rows, id) {
      forall b ensures b !in agg.buckets {}
      forall r ensures r !in agg.services {}
    } else {
      var row :| row in rows && IsMine(derive, id, row) && row.eventTime.Some?;
      if !agg.bucketsTruncated { assert InSomeBucket(agg.buckets, Width(limits), row.eventTime.value); }
    }
  }

  lemma OneCover(b: int, c: int, w: int, time: int)
    requires w > 0 && Covers(b, w, time) && Covers(c, w, time)
    ensures b == c
  {
    FloorTo(time, w, b);
    FloorTo(time, w, c);
  }

  lemma SomeRow(p: LogRow -> bool, rows: seq<LogRow>)
    ensures |Filter(p, rows)| > 0 <==> exists row :: row in rows && p(row)
  {
    if |Filter(p, rows)| > 0 { FilterMember(p, rows, Filter(p, rows)[0]); }
    if row :| row in rows && p(row) {
      FilterMember(p, rows, row);
      hide Filter;
    }
  }

  lemma PeakIsFullest(limits: PatternLimits, derive: LogRow -> Extraction, rows: seq<LogRow>, id: string, agg: PatternAgg, peak: Peak, b: int)
    requires limits.Usable() && BucketsHold(limits, derive, rows, id, agg) && !agg.bucketsTruncated
    requires IsPeak(agg.buckets, peak) && peak.PeakAt? && Aligned(b, Width(limits))
    ensures NoFuller(derive, rows, id, Width(limits), peak, b)
  {
    hide *;
    PeakBeats(agg.buckets, peak, b);
    BucketOwn(limits, derive, rows, id, agg, peak.start);
    BucketHas(derive, rows, id, Width(limits), peak.start, peak.tally);
    if |Filter(Mine(derive, id, During(b, b + Width(limits))), rows)| > 0 {
      var row := RowWithin(derive, rows, id, Width(limits), b);
      FoundBucket(limits, derive, rows, id, agg, row, b);
      BucketOwn(limits, derive, rows, id, agg, b);
      BucketCount(derive, rows, id, Width(limits), b, agg.buckets[b]);
    }
    NotFuller(derive, rows, id, Width(limits), peak, b);
  }

  lemma RowWithin(derive: LogRow -> Extraction, rows: seq<LogRow>, id: string, w: int, b: int) returns (row: LogRow)
    requires w > 0 && Aligned(b, w) && |Filter(Mine(derive, id, During(b, b + w)), rows)| > 0
    ensures row in rows && IsMine(derive, id, row) && row.eventTime.Some? && Covers(b, w, row.eventTime.value)
  {
    SomeRow(Mine(derive, id, During(b, b + w)), rows);
    hide Filter;
    row :| row in rows && Mine(derive, id, During(b, b + w))(row);
    InDuring(row, b, w);
  }

  lemma NotFuller(derive: LogRow -> Extraction, rows: seq<LogRow>, id: string, w: int, peak: Peak, b: int)
    requires peak.PeakAt?
    requires var n := |Filter(Mine(derive, id, During(b, b + w)), rows)|;
      n < peak.tally.count || (n == peak.tally.count && peak.start <= b)
    ensures NoFuller(derive, rows, id, w, peak, b)
  {
    hide Filter;
  }

  lemma PeakBeats(buckets: map<int, Tally>, peak: Peak, b: int)
    requires IsPeak(buckets, peak) && peak.PeakAt?
    ensures peak.start in buckets && buckets[peak.start] == peak.tally
    ensures b in buckets ==> buckets[b].count < peak.tally.count || (buckets[b].count == peak.tally.count && peak.start <= b)
  {
  }

  lemma BucketOwn(limits: PatternLimits, derive: LogRow -> Extraction, rows: seq<LogRow>, id: string, agg: PatternAgg, b: int)
    requires limits.Usable() && BucketsHold(limits, derive, rows, id, agg) && b in agg.buckets
    ensures BucketHolds(derive, rows, id, Width(limits), b, agg.buckets[b])
  {
    hide Width, BucketHolds, InSomeBucket;
  }

  ghost predicate NoFuller(derive: LogRow -> Extraction, rows: seq<LogRow>, id: string, w: int, peak: Peak, b: int)
    requires peak.PeakAt?
  {
    var n := |Filter(Mine(derive, id, During(b, b + w)), rows)|;
    n < peak.tally.count || (n == peak.tally.count && peak.start <= b)
  }

  lemma FoundBucket(limits: PatternLimits, derive: LogRow -> Extraction, rows: seq<LogRow>, id: string, agg: PatternAgg,
                    row: LogRow, b: int)
    requires limits.Usable() && BucketsHold(limits, derive, rows, id, agg) && !agg.bucketsTruncated
    requires row in rows && IsMine(derive, id, row) && row.eventTime.Some? && Covers(b, Width(limits), row.eventTime.value)
    ensures b in agg.buckets
  {
    hide Width, Covers, BucketHolds;
    assert InSomeBucket(agg.buckets, Width(limits), row.eventTime.value);
    var c :| c in agg.buckets && Covers(c, Width(limits), row.eventTime.value);
    OneCover(b, c, Width(limits), row.eventTime.value);
  }

  lemma BucketCount(derive: LogRow -> Extraction, rows: seq<LogRow>, id: string, w: int, b: int, t: Tally)
    requires w > 0 && BucketHolds(derive, rows, id, w, b, t)
    ensures t.count == |Filter(Mine(derive, id, During(b, b + w)), rows)|
  {
  }

  lemma InDuring(row: LogRow, b: int, w: int)
    requires w > 0 && During(b, b + w)(row) && Aligned(b, w)
    ensures row.eventTime.Some? && Covers(b, w, row.eventTime.value)
  {
  }

  lemma BucketHas(derive: LogRow -> Extraction, rows: seq<LogRow>, id: string, w: int, b: int, t: Tally)
    requires w > 0 && BucketHolds(derive, rows, id, w, b, t)
    ensures t.count > 0
  {
    SomeRow(Mine(derive, id, During(b, b + w)), rows);
    hide Filter, NotLater;
  }

  /** Every published summary, in terms of the rows. */
  lemma SummaryMeans(limits: PatternLimits, derive: LogRow -> Extraction, rows: seq<LogRow>, kind: string, id: string, s: Summary)
    requires limits.Usable() && id in PatternsOf(limits, Entries(derive, rows))
    requires IsSummary(kind, id, PatternsOf(limits, Entries(derive, rows))[id], s)
    ensures s.patternId == id && s.kind == kind && DescriptorHolds(derive, rows, id, s.descriptor)
    ensures s.count == |Filter(Mine(derive, id, Everything()), rows)| > 0
    ensures s.untimestamped == |Filter(Mine(derive, id, Untimed()), rows)|
    ensures SeenHolds(derive, rows, s) && PeakHolds(limits, derive, rows, s) && ResourcesHold(limits, derive, rows, s)
  {
    var agg := PatternsOf(limits, Entries(derive, rows))[id];
    var ks :| Summarises(kind, id, agg, ks, s);
    hide *;
    StoredMeans(limits, derive, rows, id);
    TimedHasBucket(limits, derive, rows, id, agg);
    SpanUnpacked(derive, rows, id, agg);
    SummaryRead(kind, id, agg, ks, s);
    ExamplesRead(kind, id, agg, ks, s);
    ReadCounts(kind, id, agg, ks, s);
    SeenMeans(derive, rows, kind, id, agg, ks, s);
    PeakMeans(limits, derive, rows, kind, id, agg, ks, s);
    ResourcesMean(limits, derive, rows, kind, id, agg, ks, s);
  }

  lemma SpanUnpacked(derive: LogRow -> Extraction, rows: seq<LogRow>, id: string, agg: PatternAgg)
    requires SpanHolds(derive, rows, id, agg)
    ensures (agg.earliest.None? <==> AllUntimed(derive, rows, id)) && (agg.latest.None? <==> AllUntimed(derive, rows, id))
    ensures agg.count == |Filter(Mine(derive, id, Everything()), rows)|
    ensures agg.untimestamped == |Filter(Mine(derive, id, Untimed()), rows)|
  {
    hide Filter, AllUntimed, IsFirst, IsLast;
  }

  lemma ReadCounts(kind: string, id: string, agg: PatternAgg, ks: seq<string>, s: Summary)
    requires Read(kind, id, agg, ks, s)
    ensures s.patternId == id && s.kind == kind && s.descriptor == agg.descriptor
    ensures s.count == agg.count && s.untimestamped == agg.untimestamped
  {
    hide ListsNames;
  }

  lemma SeenMeans(derive: LogRow -> Extraction, rows: seq<LogRow>, kind: string, id: string,
                  agg: PatternAgg, ks: seq<string>, s: Summary)
    requires Read(kind, id, agg, ks, s) && ListsExamples(agg, ks, s) && SpanHolds(derive, rows, id, agg)
    ensures SeenHolds(derive, rows, s)
  {
    hide ListsNames, IsFirst, IsLast, AllUntimed, Filter;
  }

  lemma PeakMeans(limits: PatternLimits, derive: LogRow -> Extraction, rows: seq<LogRow>, kind: string, id: string,
                  agg: PatternAgg, ks: seq<string>, s: Summary)
    requires limits.Usable() && Read(kind, id, agg, ks, s) && ListsExamples(agg, ks, s) && IsPeak(agg.buckets, s.peak)
    requires BucketsHold(limits, derive, rows, id, agg) && (agg.earliest.None? <==> agg.buckets == map[])
    ensures PeakHolds(limits, derive, rows, s)
  {
    PeakSeen(kind, id, agg, ks, s);
    if s.peak.PeakAt? {
      PeakBucket(limits, derive, rows, id, agg, s.peak);
      if !s.bucketsTruncated {
        forall b | Aligned(b, Width(limits)) ensures NoFuller(derive, rows, s.patternId, Width(limits), s.peak, b) {
          hide *;
          PeakIsFullest(limits, derive, rows, id, agg, s.peak, b);
        }
      }
    }
    hide Read, ListsExamples, ListsNames, IsPeak, BucketsHold, Width, BucketHolds, Aligned, NoFuller;
  }

  lemma PeakSeen(kind: string, id: string, agg: PatternAgg, ks: seq<string>, s: Summary)
    requires Read(kind, id, agg, ks, s) && ListsExamples(agg, ks, s) && IsPeak(agg.buckets, s.peak)
    requires agg.earliest.None? <==> agg.buckets == map[]
    ensures s.peak.NoPeak? <==> s.firstSeen.None?
    ensures s.peak.PeakAt? ==> |s.examples| >= 3 && s.examples[2] == Example("peak", s.peak.tally.first)
    ensures s.bucketsTruncated == agg.bucketsTruncated && s.patternId == id
  {
    hide ListsNames;
  }

  lemma PeakBucket(limits: PatternLimits, derive: LogRow -> Extraction, rows: seq<LogRow>, id: string, agg: PatternAgg, peak: Peak)
    requires limits.Usable() && BucketsHold(limits, derive, rows, id, agg) && IsPeak(agg.buckets, peak) && peak.PeakAt?
    ensures BucketHolds(derive, rows, id, Width(limits), peak.start, peak.tally)
  {
    hide Width, BucketHolds, BucketsHold;
    BucketOwn(limits, derive, rows, id, agg, peak.start);
  }

  lemma ResourcesMean(limits: PatternLimits, derive: LogRow -> Extraction, rows: seq<LogRow>, kind: string, id: string,
                      agg: PatternAgg, ks: seq<string>, s: Summary)
    requires Read(kind, id, agg, ks, s) && ListsExamples(agg, ks, s) && ServicesHold(limits, derive, rows, id, agg)
    ensures ResourcesHold(limits, derive, rows, s)
  {
    hide IsFirst, Filter, AtMost;
    if !s.servicesTruncated {
      forall row | row in rows && IsMine(derive, id, row) && row.eventTime.Some?
        ensures exists i :: 0 <= i < |s.services| && s.services[i].0 == row.resourceId
      {
        var i :| 0 <= i < |ks| && ks[i] == row.resourceId;
        assert s.services[i].0 == row.resourceId;
      }
    }
  }

  /** The published list: larger patterns first, ties by id, no pattern twice, each with its own
      summary; a pattern is missing only where the cap is reached. */
  lemma ReportMeans(limits: PatternLimits, derive: LogRow -> Extraction, rows: seq<LogRow>, kind: string, out: seq<Summary>)
    requires limits.Usable() && Reports(kind, PatternsOf(limits, Entries(derive, rows)), out)
    ensures forall i, j :: 0 <= i < j < |out| ==> out[i].patternId != out[j].patternId
    ensures forall i, j :: 0 <= i < j < |out| ==> LargerFirst(out[i], out[j])
    ensures |out| <= limits.maxPatterns
    ensures forall row :: row in rows && derive(row).Identified? && Unlisted(out, derive(row).id) ==> |out| == limits.maxPatterns
  {
    hide IsSummary, AtMost, Entries, PatternsOf;
    forall i, j | 0 <= i < j < |out| ensures LargerFirst(out[i], out[j]) { assert ByCount()(out[i], out[j]); }
    PatternsHeld(limits, Entries(derive, rows));
    ListSize(kind, PatternsOf(limits, Entries(derive, rows)), out);
    forall row | row in rows && derive(row).Identified? && Unlisted(out, derive(row).id) ensures |out| == limits.maxPatterns {
      RowHasEntry(derive, rows, row);
    }
  }

  predicate LargerFirst(a: Summary, b: Summary) { a.count > b.count || (a.count == b.count && AtMost(a.patternId, b.patternId)) }

  predicate Unlisted(out: seq<Summary>, id: string) { forall i :: 0 <= i < |out| ==> out[i].patternId != id }

  lemma RowHasEntry(derive: LogRow -> Extraction, rows: seq<LogRow>, row: LogRow)
    requires row in rows && derive(row).Identified?
    ensures exists e :: e in Entries(derive, rows) && e.pattern == derive(row).id
  {
    var id := derive(row).id;
    hide Entries, Of;
    OwnRows(derive, rows, id, row);
    var e :| e in Of(id, Entries(derive, rows)) && e.row == row;
    OwnEntry(id, Entries(derive, rows), e);
  }

  lemma OwnEntry(id: string, s: seq<Entry>, e: Entry)
    requires e in Of(id, s)
    ensures e in s && e.pattern == id
  {
    GroupMember(PatternOf(), id, s, e);
  }

  lemma ListSize(kind: string, patterns: map<string, PatternAgg>, out: seq<Summary>)
    requires Reports(kind, patterns, out)
    ensures |out| == |patterns|
  {
    hide IsSummary, ByCount;
    var ids := Apply(IdOf(), out);
    forall i, j | 0 <= i < j < |ids| ensures ids[i] != ids[j] { assert out[i].patternId != out[j].patternId; }
    UniqueSetSize(ids);
    forall id | id in patterns ensures id in ids { var i :| 0 <= i < |out| && out[i].patternId == id; assert ids[i] == id; }
    assert (set k | k in ids) == patterns.Keys;
  }

  lemma PatternsHeld(limits: PatternLimits, s: seq<Entry>)
    requires limits.Usable()
    ensures |PatternsOf(limits, s)| <= limits.maxPatterns
    ensures forall e :: e in s && e.pattern !in PatternsOf(limits, s) ==> |PatternsOf(limits, s)| == limits.maxPatterns
  {
    GroupKeys(limits.maxPatterns, PatternOf(), ToAgg(limits), s);
    hide GroupMap, AggOf, Distinct;
    forall e | e in s && e.pattern !in PatternsOf(limits, s) ensures |PatternsOf(limits, s)| == limits.maxPatterns {
      var i :| 0 <= i < |s| && s[i] == e;
      assert Ids(s)[i] == e.pattern;
    }
  }
}
