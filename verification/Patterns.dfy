/** Pattern aggregation (crates/logscope-app/src/patterns.rs): one bounded pass that
    folds a row stream into capped per-pattern summaries. */
module Patterns {
  import opened Ordering
  import opened CappedGroups
  import opened Sequences
  import opened Rows

  // ---- data model --------------------------------------------------------------

  datatype PatternLimits = PatternLimits(
    maxRecords: nat, maxPatterns: nat, bucketSeconds: nat, maxBuckets: nat, maxServices: nat)
  {
    /** `from_def` raises every limit to at least one. */
    predicate Usable() {
      maxRecords >= 1 && maxPatterns >= 1 && bucketSeconds >= 1 && maxBuckets >= 1 && maxServices >= 1
    }

    function BucketNanos(): (w: int) requires Usable() ensures w > 0 { bucketSeconds * 1_000_000_000 }
  }

  datatype Extreme = Extreme(time: int, recordId: string, datasetId: string)

  datatype Tally = Tally(count: nat, first: Extreme)

  /** What normalising a row's text yields, apart from its identity. */
  datatype Descriptor = Descriptor(template: string, exceptionType: Option<string>, quality: Option<string>)

  datatype PatternAgg = PatternAgg(
    descriptor: Descriptor,
    count: nat,
    untimestamped: nat,
    earliest: Option<Extreme>,
    latest: Option<Extreme>,
    buckets: map<int, Tally>,
    bucketsTruncated: bool,
    services: map<string, Tally>,
    servicesTruncated: bool)

  /** One call of `Accumulator::add`. */
  datatype Entry = Entry(pattern: string, descriptor: Descriptor, row: LogRow)

  /** `(a.time, a.record_id) < (b.time, b.record_id)`. The dataset plays no part. */
  predicate Before(a: Extreme, b: Extreme) {
    a.time < b.time || (a.time == b.time && Below(a.recordId, b.recordId))
  }

  predicate BetterEarliest(current: Option<Extreme>, cand: Extreme) {
    match current
    case None => true
    case Some(c) => Before(cand, c)
  }

  predicate BetterLatest(current: Option<Extreme>, cand: Extreme) {
    match current
    case None => true
    case Some(c) => Before(c, cand)
  }

  function At(row: LogRow): Extreme {
    Extreme(row.eventTime.GetOr(0), row.recordId, row.datasetId)
  }

  function BucketOf(limits: PatternLimits, time: int): int
    requires limits.Usable()
  {
    time / limits.BucketNanos() * limits.BucketNanos()
  }

  // ---- specification: what a stream of entries means ------------------------------

  function Earliest(s: seq<Extreme>): (e: Extreme)
    requires s != []
    ensures e in s
  {
    var n := |s| - 1;
    if n == 0 then s[0]
    else var e := Earliest(s[..n]); if Before(s[n], e) then s[n] else e
  }

  function Latest(s: seq<Extreme>): (e: Extreme)
    requires s != []
    ensures e in s
  {
    var n := |s| - 1;
    if n == 0 then s[0]
    else var e := Latest(s[..n]); if Before(e, s[n]) then s[n] else e
  }

  datatype Keyed<K> = Keyed(key: K, at: Extreme)

  function KeyOf<K>(): Keyed<K> -> K { (x: Keyed<K>) => x.key }
  function PointOf<K>(): Keyed<K> -> Extreme { (x: Keyed<K>) => x.at }

  /** The points filed under one key, in arrival order. */
  function Points<K(==)>(k: K, s: seq<Keyed<K>>): seq<Extreme> { Apply(PointOf(), Group(KeyOf(), k, s)) }

  function TallyOf<K>(s: seq<Keyed<K>>): Tally {
    var p := Apply(PointOf(), s);
    if p == [] then Tally(0, Extreme(0, "", "")) else Tally(|p|, Earliest(p))
  }

  ghost function ToTally<K>(): seq<Keyed<K>> -> Tally { (s: seq<Keyed<K>>) => TallyOf(s) }

  /** A capped map of tallies: exact for every admitted key, silent on the others. */
  ghost function CappedTally<K(!new)>(cap: nat, s: seq<Keyed<K>>): map<K, Tally> {
    GroupMap(cap, KeyOf(), ToTally(), s)
  }

  /** Whether some key was refused. */
  function TallyOverflows<K(==,!new)>(cap: nat, s: seq<Keyed<K>>): bool { Overflows(cap, Apply(KeyOf(), s)) }

  function IsDated(): Entry -> bool { (e: Entry) => e.row.eventTime.Some? }
  function PatternOf(): Entry -> string { (e: Entry) => e.pattern }
  function AtOf(): Entry -> Extreme { (e: Entry) => At(e.row) }
  function ByResource(): Entry -> Keyed<string> { (e: Entry) => Keyed(e.row.resourceId, At(e.row)) }
  function ByBucket(limits: PatternLimits): Entry -> Keyed<int>
    requires limits.Usable()
  {
    (e: Entry) => Keyed(BucketOf(limits, At(e.row).time), At(e.row))
  }

  function Dated(s: seq<Entry>): seq<Entry> { Filter(IsDated(), s) }
  function Moments(s: seq<Entry>): seq<Extreme> { Apply(AtOf(), Dated(s)) }
  function Bucketed(limits: PatternLimits, s: seq<Entry>): seq<Keyed<int>>
    requires limits.Usable()
  {
    Apply(ByBucket(limits), Dated(s))
  }
  function Resourced(s: seq<Entry>): seq<Keyed<string>> { Apply(ByResource(), Dated(s)) }

  /** The aggregate a pattern's entries deserve once it was opened with descriptor `d`. */
  ghost function AggOf(limits: PatternLimits, d: Descriptor, s: seq<Entry>): PatternAgg
    requires limits.Usable()
  {
    var m := Moments(s);
    PatternAgg(
      d,
      |s|,
      |s| - |Dated(s)|,
      if m == [] then None else Some(Earliest(m)),
      if m == [] then None else Some(Latest(m)),
      CappedTally(limits.maxBuckets, Bucketed(limits, s)),
      TallyOverflows(limits.maxBuckets, Bucketed(limits, s)),
      CappedTally(limits.maxServices, Resourced(s)),
      TallyOverflows(limits.maxServices, Resourced(s)))
  }

  const NOTHING := Descriptor("", None, None)

  /** A pattern takes its descriptor from its first entry. */
  ghost function ToAgg(limits: PatternLimits): seq<Entry> -> PatternAgg
    requires limits.Usable()
  {
    (s: seq<Entry>) => AggOf(limits, if s == [] then NOTHING else s[0].descriptor, s)
  }

  function Ids(s: seq<Entry>): seq<string> { Apply(PatternOf(), s) }
  function Of(id: string, s: seq<Entry>): seq<Entry> { Group(PatternOf(), id, s) }

  /** The pattern map a stream deserves: every admitted pattern exactly, no other at all. */
  ghost function PatternsOf(limits: PatternLimits, s: seq<Entry>): map<string, PatternAgg>
    requires limits.Usable()
  {
    GroupMap(limits.maxPatterns, PatternOf(), ToAgg(limits), s)
  }

  // ---- the accumulator ---------------------------------------------------------------

  function Bump(t: Tally, cand: Extreme): Tally {
    Tally(t.count + 1, if BetterEarliest(Some(t.first), cand) then cand else t.first)
  }

  lemma TallySnoc<K>(s: seq<Keyed<K>>, x: Keyed<K>)
    ensures TallyOf(s + [x]) == if s == [] then Tally(1, x.at) else Bump(TallyOf(s), x.at)
  {
    var p := Apply(PointOf(), s);
    ApplySnoc(PointOf(), s, x);
    assert (p + [x.at])[..|p|] == p;
  }

  /** The bucket step and the resource step: bump a held key, admit a new one while
      there is room, otherwise only remember that something was refused. */
  method TallyUp<K(==,!new)>(m: map<K, Tally>, cap: nat, key: K, cand: Extreme, ghost s: seq<Keyed<K>>)
    returns (m': map<K, Tally>, refused: bool)
    requires m == CappedTally(cap, s)
    ensures m' == CappedTally(cap, s + [Keyed(key, cand)])
    ensures TallyOverflows(cap, s + [Keyed(key, cand)]) <==> TallyOverflows(cap, s) || refused
  {
    hide GroupMap, Group, TallyOf, Overflows;
    ghost var x := Keyed(key, cand);
    refused := false;
    if key in m {
      GroupHeld(cap, KeyOf(), ToTally(), s, x);
      HeldIsNonEmpty(cap, s, key);
      TallySnoc(Group(KeyOf(), key, s), x);
      m' := m[key := Bump(m[key], cand)];
    } else if |m| >= cap {
      GroupRefused(cap, KeyOf(), ToTally(), s, x);
      m', refused := m, true;
    } else {
      GroupOpened(cap, KeyOf(), ToTally(), s, x);
      TallySnoc([], x);
      assert [] + [x] == [x];
      m' := m[key := Tally(1, cand)];
    }
  }

  lemma HeldIsNonEmpty<K(!new)>(cap: nat, s: seq<Keyed<K>>, key: K)
    requires key in CappedTally(cap, s)
    ensures Group(KeyOf(), key, s) != []
  {
    GroupNonEmpty(KeyOf(), key, s);
  }

  lemma DatedSnoc(limits: PatternLimits, s: seq<Entry>, e: Entry)
    requires limits.Usable()
    ensures e.row.eventTime.None? ==>
      Moments(s + [e]) == Moments(s) && Bucketed(limits, s + [e]) == Bucketed(limits, s) && Resourced(s + [e]) == Resourced(s)
    ensures e.row.eventTime.Some? ==>
      && Moments(s + [e]) == Moments(s) + [At(e.row)]
      && Bucketed(limits, s + [e]) == Bucketed(limits, s) + [Keyed(BucketOf(limits, At(e.row).time), At(e.row))]
      && Resourced(s + [e]) == Resourced(s) + [Keyed(e.row.resourceId, At(e.row))]
    ensures |Dated(s + [e])| == |Dated(s)| + if e.row.eventTime.Some? then 1 else 0
  {
    FilterSnoc(IsDated(), s, e);
    ApplySnoc(AtOf(), Dated(s), e);
    ApplySnoc(ByBucket(limits), Dated(s), e);
    ApplySnoc(ByResource(), Dated(s), e);
  }

  lemma ExtremeSnoc(s: seq<Extreme>, x: Extreme)
    ensures Earliest(s + [x]) == if s == [] || Before(x, Earliest(s)) then x else Earliest(s)
    ensures Latest(s + [x]) == if s == [] || Before(Latest(s), x) then x else Latest(s)
  {
    assert (s + [x])[..|s|] == s;
  }

  lemma AggUndated(limits: PatternLimits, d: Descriptor, s: seq<Entry>, e: Entry)
    requires limits.Usable() && e.row.eventTime.None?
    ensures var was := AggOf(limits, d, s);
      AggOf(limits, d, s + [e]) == was.(count := was.count + 1, untimestamped := was.untimestamped + 1)
  {
    DatedSnoc(limits, s, e);
  }

  lemma AggDated(limits: PatternLimits, d: Descriptor, s: seq<Entry>, e: Entry)
    requires limits.Usable() && e.row.eventTime.Some?
    ensures var was := AggOf(limits, d, s);
      var cand := At(e.row);
      var buckets := Bucketed(limits, s) + [Keyed(BucketOf(limits, cand.time), cand)];
      var services := Resourced(s) + [Keyed(e.row.resourceId, cand)];
      AggOf(limits, d, s + [e]) == was.(
        count := was.count + 1,
        earliest := if BetterEarliest(was.earliest, cand) then Some(cand) else was.earliest,
        latest := if BetterLatest(was.latest, cand) then Some(cand) else was.latest,
        buckets := CappedTally(limits.maxBuckets, buckets),
        bucketsTruncated := TallyOverflows(limits.maxBuckets, buckets),
        services := CappedTally(limits.maxServices, services),
        servicesTruncated := TallyOverflows(limits.maxServices, services))
    ensures var was := AggOf(limits, d, s);
      && was.buckets == CappedTally(limits.maxBuckets, Bucketed(limits, s))
      && was.bucketsTruncated == TallyOverflows(limits.maxBuckets, Bucketed(limits, s))
      && was.services == CappedTally(limits.maxServices, Resourced(s))
      && was.servicesTruncated == TallyOverflows(limits.maxServices, Resourced(s))
  {
    hide CappedTally, TallyOverflows, Dated, Moments, Bucketed, Resourced;
    DatedSnoc(limits, s, e);
    ExtremeSnoc(Moments(s), At(e.row));
  }

  /** One record folded into its pattern's aggregate. */
  method Absorb(limits: PatternLimits, agg: PatternAgg, row: LogRow, ghost s: seq<Entry>, ghost e: Entry)
    returns (agg': PatternAgg)
    requires limits.Usable() && e.row == row && agg == AggOf(limits, agg.descriptor, s)
    ensures agg' == AggOf(limits, agg.descriptor, s + [e])
  {
    hide AggOf, CappedTally, TallyOverflows, Bucketed, Resourced;
    agg' := agg.(count := agg.count + 1);
    match row.eventTime {
      case None =>
        AggUndated(limits, agg.descriptor, s, e);
        agg' := agg'.(untimestamped := agg.untimestamped + 1);
      case Some(t) =>
        var cand := At(row);
        AggDated(limits, agg.descriptor, s, e);
        if BetterEarliest(agg.earliest, cand) { agg' := agg'.(earliest := Some(cand)); }
        if BetterLatest(agg.latest, cand) { agg' := agg'.(latest := Some(cand)); }
        var buckets, over := TallyUp(agg.buckets, limits.maxBuckets, BucketOf(limits, t), cand, Bucketed(limits, s));
        var services, full := TallyUp(agg.services, limits.maxServices, row.resourceId, cand, Resourced(s));
        agg' := agg'.(buckets := buckets, bucketsTruncated := agg.bucketsTruncated || over,
                      services := services, servicesTruncated := agg.servicesTruncated || full);
    }
  }

  lemma FreshAgg(limits: PatternLimits, d: Descriptor)
    requires limits.Usable()
    ensures AggOf(limits, d, []) == PatternAgg(d, 0, 0, None, None, map[], false, map[], false)
  {
  }

  /** A held pattern's aggregate is the one its entries deserve. */
  lemma HeldAgg(limits: PatternLimits, s: seq<Entry>, id: string)
    requires limits.Usable() && id in PatternsOf(limits, s)
    ensures var held := PatternsOf(limits, s)[id]; held == AggOf(limits, held.descriptor, Of(id, s))
    ensures Of(id, s) != [] && PatternsOf(limits, s)[id].descriptor == Of(id, s)[0].descriptor
  {
    GroupNonEmpty(PatternOf(), id, s);
  }

  class Accumulator {
    var patterns: map<string, PatternAgg>
    var accepted: nat
    var excludedMissingField: nat
    var excludedOverPatternLimit: nat
    var stackMalformed: nat
    var patternsTruncated: bool
    ghost var seen: seq<Entry>

    /** The fields are exactly what the entries added so far deserve. */
    ghost predicate Valid(limits: PatternLimits)
      reads this
    {
      && limits.Usable()
      && patterns == PatternsOf(limits, seen)
      && patternsTruncated == Overflows(limits.maxPatterns, Ids(seen))
      && accepted == HeldCount(limits.maxPatterns, PatternOf(), seen)
      && excludedOverPatternLimit == |seen| - accepted
    }

    constructor (ghost limits: PatternLimits)
      requires limits.Usable()
      ensures Valid(limits) && seen == []
      ensures excludedMissingField == 0 && stackMalformed == 0
    {
      patterns, accepted, patternsTruncated := map[], 0, false;
      excludedMissingField, excludedOverPatternLimit, stackMalformed := 0, 0, 0;
      seen := [];
    }

    method Add(limits: PatternLimits, patternId: string, descriptor: Descriptor, row: LogRow)
      requires Valid(limits)
      modifies this
      ensures Valid(limits) && seen == old(seen) + [Entry(patternId, descriptor, row)]
      ensures excludedMissingField == old(excludedMissingField) && stackMalformed == old(stackMalformed)
    {
      hide AggOf, GroupMap, Group, Overflows, HeldCount;
      ghost var e := Entry(patternId, descriptor, row);
      HeldSnoc(limits.maxPatterns, PatternOf(), ToAgg(limits), seen, e);
      var entry;
      if patternId in patterns {
        GroupHeld(limits.maxPatterns, PatternOf(), ToAgg(limits), seen, e);
        HeldAgg(limits, seen, patternId);
        entry := patterns[patternId];
      } else {
        if |patterns| >= limits.maxPatterns {
          GroupRefused(limits.maxPatterns, PatternOf(), ToAgg(limits), seen, e);
          patternsTruncated := true;
          excludedOverPatternLimit := excludedOverPatternLimit + 1;
          seen := seen + [e];
          return;
        }
        GroupOpened(limits.maxPatterns, PatternOf(), ToAgg(limits), seen, e);
        FreshAgg(limits, descriptor);
        entry := PatternAgg(descriptor, 0, 0, None, None, map[], false, map[], false);
      }
      assert [] + [e] == [e];
      entry := Absorb(limits, entry, row, Of(patternId, seen), e);
      patterns := patterns[patternId := entry];
      accepted := accepted + 1;
      seen := seen + [e];
    }
  }
}
