/** Per-group signals (crates/logscope-app/src/correlation.rs): pair rules over consecutive
    members, over source order, and over digest buckets, all into one capped sink. */
module Signals {
  import opened CappedGroups
  import opened Correlation
  import opened Ordering
  import opened Sequences
  import opened Sorting
  import opened Rows

  // ---- data model --------------------------------------------------------------------

  datatype Signal = Signal(kind: string, from: Stamp, to: Stamp, reason: string)

  datatype DuplicateClass = Operational(signal: Signal) | Ingestion | Unrelated

  datatype SourceKey = SourceKey(datasetId: string, sourceId: string)

  type Pair = (Member, Member)

  /** A pair rule. */
  type Rule = Pair -> Option<Signal>

  /** The enabled rules; a disabled one is absent. */
  datatype Rules = Rules(retry: Option<Rule>, gap: Option<Rule>, skew: Option<Rule>, duplicate: Option<Pair -> DuplicateClass>)

  // ---- specification -----------------------------------------------------------------

  /** `windows(2)`. */
  function Windows(s: seq<Member>): (r: seq<Pair>)
    ensures |r| == if s == [] then 0 else |s| - 1
  {
    if |s| <= 1 then [] else seq(|s| - 1, i requires 0 <= i < |s| - 1 => (s[i], s[i + 1]))
  }

  function Fired(rule: Option<Rule>, p: Pair): seq<Signal> {
    if rule.None? then [] else match rule.value(p) case None => [] case Some(x) => [x]
  }

  function FiredDuplicate(rule: Pair -> DuplicateClass): Pair -> seq<Signal> {
    (p: Pair) => if rule(p).Operational? then [rule(p).signal] else []
  }

  function IsIngestion(rule: Pair -> DuplicateClass): Pair -> bool { (p: Pair) => rule(p).Ingestion? }

  function RetryThenGap(rules: Rules): Pair -> seq<Signal> { (p: Pair) => Fired(rules.retry, p) + Fired(rules.gap, p) }
  function Skewed(rules: Rules): Pair -> seq<Signal> { (p: Pair) => Fired(rules.skew, p) }

  /** Everything a rule says over the listed pairs, in order. */
  function Emit(rule: Pair -> seq<Signal>, pairs: seq<Pair>): seq<Signal> {
    if pairs == [] then [] else Emit(rule, pairs[..|pairs|-1]) + rule(pairs[|pairs|-1])
  }

  type Arrangement = seq<Member> -> seq<Member>

  /** The consecutive pairs of every bucket, bucket by bucket. */
  function BucketPairs<K(==)>(f: Member -> K, arrange: Arrangement, ks: seq<K>, ms: seq<Member>): seq<Pair> {
    if ks == [] then []
    else BucketPairs(f, arrange, ks[..|ks|-1], ms) + Windows(arrange(Group(f, ks[|ks|-1], ms)))
  }

  function SourceOf(): Member -> SourceKey { (m: Member) => SourceKey(m.datasetId, m.sourceId) }
  function DigestOf(): Member -> string { (m: Member) => m.digest }
  function Numbered(): Member -> bool { (m: Member) => m.recordNumber.Some? }
  function NotFlagged(): Member -> bool { (m: Member) => !m.ingestDuplicate }

  /** Source order: record number, then record id. */
  predicate PlacedBefore(a: Member, b: Member) {
    var x, y := a.recordNumber.GetOr(0), b.recordNumber.GetOr(0);
    x < y || (x == y && AtMost(a.stamp.recordId, b.stamp.recordId))
  }

  function ByPlace(): (Member, Member) -> bool { (a: Member, b: Member) => PlacedBefore(a, b) }
  function InPlace(): Arrangement { (s: seq<Member>) => SortBy(ByPlace(), s) }
  function AsIs(): Arrangement { (s: seq<Member>) => s }

  predicate SourceAtMost(a: SourceKey, b: SourceKey) {
    Below(a.datasetId, b.datasetId) || (a.datasetId == b.datasetId && AtMost(a.sourceId, b.sourceId))
  }

  function BySource(): (SourceKey, SourceKey) -> bool { (a: SourceKey, b: SourceKey) => SourceAtMost(a, b) }

  lemma BySourceIsOrder()
    ensures StrictOrder(BySource())
  {
    forall a: SourceKey, b: SourceKey, c: SourceKey
      ensures SourceAtMost(a, b) || SourceAtMost(b, a)
      ensures SourceAtMost(a, b) && SourceAtMost(b, c) ==> SourceAtMost(a, c)
      ensures SourceAtMost(a, b) && SourceAtMost(b, a) ==> a == b
    { SourcesCompare(a, b, c); }
  }

  lemma SourcesCompare(a: SourceKey, b: SourceKey, c: SourceKey)
    ensures SourceAtMost(a, b) || SourceAtMost(b, a)
    ensures SourceAtMost(a, b) && SourceAtMost(b, c) ==> SourceAtMost(a, c)
    ensures SourceAtMost(a, b) && SourceAtMost(b, a) ==> a == b
  {
    ByNameIsOrder();
    hide AtMost;
    assert forall x: string, y: string :: ByName()(x, y) == AtMost(x, y);
    assert ByName()(a.datasetId, b.datasetId) || ByName()(b.datasetId, a.datasetId);
    assert ByName()(b.datasetId, c.datasetId) || ByName()(c.datasetId, b.datasetId);
    assert ByName()(a.datasetId, c.datasetId) || ByName()(c.datasetId, a.datasetId);
    assert ByName()(a.sourceId, b.sourceId) || ByName()(b.sourceId, a.sourceId);
  }

  // ---- the sink -----------------------------------------------------------------------

  function KindOf(): Signal -> string { (x: Signal) => x.kind }

  class Sink {
    const cap: nat
    var out: seq<Signal>
    var perKind: multiset<string>
    var dropped: nat
    var excluded: nat
    ghost var produced: seq<Signal>

    /** The sink keeps the first `cap` signals produced and counts the others. */
    ghost predicate Valid()
      reads this
    {
      && out == Upto(cap, produced)
      && |out| + dropped == |produced|
      && perKind == multiset(Apply(KindOf(), out))
    }

    constructor (cap: nat)
      ensures Valid() && this.cap == cap && produced == [] && excluded == 0
    {
      this.cap := cap;
      out, perKind, dropped, excluded, produced := [], multiset{}, 0, 0, [];
      new;
      assert Apply(KindOf(), out) == [];
    }

    method Push(x: Signal)
      requires Valid()
      modifies this
      ensures Valid() && produced == old(produced) + [x] && excluded == old(excluded)
    {
      produced := produced + [x];
      if |out| >= cap {
        dropped := dropped + 1;
        return;
      }
      perKind := perKind + multiset{x.kind};
      ApplySnoc(KindOf(), out, x);
      out := out + [x];
    }

    method Exclude(n: nat)
      requires Valid()
      modifies this`excluded
      ensures Valid() && produced == old(produced) && excluded == old(excluded) + n
    {
      excluded := excluded + n;
    }

    method Offer(rule: Option<Rule>, p: Pair)
      requires Valid()
      modifies this
      ensures Valid() && produced == old(produced) + Fired(rule, p) && excluded == old(excluded)
    {
      if rule.Some? {
        match rule.value(p)
        case None =>
        case Some(x) => Push(x);
      }
    }

    method OfferDuplicate(rule: Pair -> DuplicateClass, p: Pair)
      requires Valid()
      modifies this
      ensures Valid() && produced == old(produced) + FiredDuplicate(rule)(p)
      ensures excluded == old(excluded) + if IsIngestion(rule)(p) then 1 else 0
    {
      match rule(p)
      case Operational(x) => Push(x);
      case Ingestion => excluded := excluded + 1;
      case Unrelated =>
    }
  }

  /** Per-kind counts sum to the signals emitted; emitted and dropped to those produced. */
  lemma KindsSumToEmitted(sink: Sink)
    requires sink.Valid()
    ensures |sink.perKind| == |sink.out| && |sink.out| + sink.dropped == |sink.produced| && |sink.out| <= sink.cap
    ensures sink.dropped > 0 ==> |sink.out| == sink.cap
  {
    assert |multiset(Apply(KindOf(), sink.out))| == |Apply(KindOf(), sink.out)|;
  }

  // ---- one group ----------------------------------------------------------------------

  lemma EmitSnoc(rule: Pair -> seq<Signal>, pairs: seq<Pair>, p: Pair)
    ensures Emit(rule, pairs + [p]) == Emit(rule, pairs) + rule(p)
  {
    assert (pairs + [p])[..|pairs|] == pairs;
  }

  lemma {:induction false} EmitConcat(rule: Pair -> seq<Signal>, s: seq<Pair>, t: seq<Pair>)
    ensures Emit(rule, s + t) == Emit(rule, s) + Emit(rule, t)
  {
    if t == [] {
      assert s + t == s;
    } else {
      hide Emit;
      var front, p := t[..|t|-1], t[|t|-1];
      EmitConcat(rule, s, front);
      SplitLast(s, t);
      SplitLast([], t);
      EmitSnoc(rule, s + front, p);
      EmitSnoc(rule, front, p);
    }
  }

  lemma BucketPairsSnoc<K>(f: Member -> K, arrange: Arrangement, ks: seq<K>, k: K, ms: seq<Member>)
    ensures BucketPairs(f, arrange, ks + [k], ms) == BucketPairs(f, arrange, ks, ms) + Windows(arrange(Group(f, k, ms)))
  {
    assert (ks + [k])[..|ks|] == ks;
  }

  /** One bucket per key that occurs, holding that key's members in arrival order. */
  ghost predicate Bucketed<K(!new)>(f: Member -> K, buckets: map<K, seq<Member>>, ms: seq<Member>) {
    && (forall k :: k in buckets <==> k in Apply(f, ms))
    && (forall k :: k in buckets ==> buckets[k] == Group(f, k, ms))
  }

  /** `entry(key).or_default().push(m)`. */
  method PutIn<K(==,!new)>(f: Member -> K, buckets: map<K, seq<Member>>, m: Member, ghost ms: seq<Member>)
    returns (buckets': map<K, seq<Member>>)
    requires Bucketed(f, buckets, ms)
    ensures Bucketed(f, buckets', ms + [m])
  {
    hide Group;
    ApplySnoc(f, ms, m);
    GroupNonEmpty(f, f(m), ms);
    forall k ensures Group(f, k, ms + [m]) == if f(m) == k then Group(f, k, ms) + [m] else Group(f, k, ms) {
      GroupSnoc(f, k, ms, m);
    }
    var held := if f(m) in buckets then buckets[f(m)] else [];
    buckets' := buckets[f(m) := held + [m]];
  }

  /** Fills the per-key buckets, skipping what `keep` refuses. */
  method Bucket<K(==,!new)>(f: Member -> K, keep: Member -> bool, ms: seq<Member>)
    returns (buckets: map<K, seq<Member>>, skipped: nat)
    ensures Bucketed(f, buckets, Filter(keep, ms))
    ensures skipped == |ms| - |Filter(keep, ms)|
  {
    buckets, skipped := map[], 0;
    var i := 0;
    assert ms[..0] == [];
    while i < |ms|
      invariant i <= |ms|
      invariant Bucketed(f, buckets, Filter(keep, ms[..i]))
      invariant skipped == i - |Filter(keep, ms[..i])|
    {
      hide Bucketed, Filter;
      assert ms[..i + 1] == ms[..i] + [ms[i]];
      FilterSnoc(keep, ms[..i], ms[i]);
      if keep(ms[i]) {
        buckets := PutIn(f, buckets, ms[i], Filter(keep, ms[..i]));
      } else {
        skipped := skipped + 1;
      }
      i := i + 1;
    }
    assert ms[..i] == ms;
  }

  /** The first pass: retry and gap over consecutive members. */
  method ReadSequence(rules: Rules, members: seq<Member>, sink: Sink)
    requires sink.Valid()
    modifies sink
    ensures sink.Valid() && sink.excluded == old(sink.excluded)
    ensures sink.produced == old(sink.produced) + Emit(RetryThenGap(rules), Windows(members))
  {
    var pairs, i := Windows(members), 0;
    ghost var base := sink.produced;
    NothingFired(rules, base);
    hide *;
    assert pairs[..0] == [];
    while i < |pairs|
      invariant i <= |pairs|
      invariant sink.Valid() && sink.excluded == old(sink.excluded)
      invariant sink.produced == base + Emit(RetryThenGap(rules), pairs[..i])
    {
      OneMorePair(rules, pairs, i, base);
      sink.Offer(rules.retry, pairs[i]);
      sink.Offer(rules.gap, pairs[i]);
      i := i + 1;
    }
    assert pairs[..i] == pairs;
  }

  lemma NothingFired(rules: Rules, base: seq<Signal>)
    ensures base + Emit(RetryThenGap(rules), []) == base
  {
  }

  lemma OneMorePair(rules: Rules, pairs: seq<Pair>, i: nat, base: seq<Signal>)
    requires i < |pairs|
    ensures base + Emit(RetryThenGap(rules), pairs[..i + 1]) ==
      base + Emit(RetryThenGap(rules), pairs[..i]) + Fired(rules.retry, pairs[i]) + Fired(rules.gap, pairs[i])
  {
    hide Emit, Fired;
    EmitSnoc(RetryThenGap(rules), pairs[..i], pairs[i]);
    assert pairs[..i + 1] == pairs[..i] + [pairs[i]];
  }

  method ReadSource(rules: Rules, inSource: seq<Member>, sink: Sink)
    requires sink.Valid()
    modifies sink
    ensures sink.Valid() && sink.excluded == old(sink.excluded)
    ensures sink.produced == old(sink.produced) + Emit(Skewed(rules), Windows(inSource))
  {
    hide Sink.Valid, Windows;
    var pairs, i := Windows(inSource), 0;
    while i < |pairs|
      invariant i <= |pairs| && sink.Valid() && sink.excluded == old(sink.excluded)
      invariant sink.produced == old(sink.produced) + Emit(Skewed(rules), pairs[..i])
    {
      EmitSnoc(Skewed(rules), pairs[..i], pairs[i]);
      assert pairs[..i + 1] == pairs[..i] + [pairs[i]];
      sink.Offer(rules.skew, pairs[i]);
      i := i + 1;
    }
    assert pairs[..i] == pairs;
  }

  /** The second pass: per source, members in the order the source wrote them. */
  method ReadSources(rules: Rules, members: seq<Member>, sink: Sink) returns (ghost ks: seq<SourceKey>)
    requires sink.Valid()
    modifies sink
    ensures sink.Valid() && sink.excluded == old(sink.excluded)
    ensures Lists(SourceOf(), BySource(), ks, Filter(Numbered(), members))
    ensures sink.produced == old(sink.produced)
      + Emit(Skewed(rules), BucketPairs(SourceOf(), InPlace(), ks, Filter(Numbered(), members)))
  {
    hide *;
    BySourceIsOrder();
    ghost var numbered, base, rule := Filter(Numbered(), members), sink.produced, Skewed(rules);
    var buckets, _ := Bucket(SourceOf(), Numbered(), members);
    var keys := Ascending(BySource(), buckets.Keys);
    ks := keys;
    BucketsListed(SourceOf(), BySource(), keys, buckets, numbered);
    var i := 0;
    NothingEmitted(rule, SourceOf(), InPlace(), keys, numbered, base);
    while i < |keys|
      invariant i <= |keys|
      invariant sink.Valid() && sink.excluded == old(sink.excluded)
      invariant sink.produced == base + Emit(rule, BucketPairs(SourceOf(), InPlace(), keys[..i], numbered))
    {
      EmitBucket(rule, SourceOf(), InPlace(), keys, i, numbered, base);
      SortedInPlace(buckets[keys[i]]);
      ReadSource(rules, SortBy(ByPlace(), buckets[keys[i]]), sink);
      i := i + 1;
    }
    assert keys[..i] == keys;
  }

  lemma SortedInPlace(s: seq<Member>)
    ensures InPlace()(s) == SortBy(ByPlace(), s)
  {
  }

  lemma BucketsListed<K(!new)>(f: Member -> K, le: (K, K) -> bool, ks: seq<K>, buckets: map<K, seq<Member>>, ms: seq<Member>)
    requires Bucketed(f, buckets, ms) && Ascends(le, ks, buckets.Keys)
    ensures Lists(f, le, ks, ms)
    ensures forall i :: 0 <= i < |ks| ==> ks[i] in buckets && buckets[ks[i]] == Group(f, ks[i], ms)
  {
    hide Group;
    forall i | 0 <= i < |ks| ensures ks[i] in buckets && buckets[ks[i]] == Group(f, ks[i], ms) {
      assert ks[i] in buckets.Keys;
    }
  }

  lemma NothingEmitted<K>(rule: Pair -> seq<Signal>, f: Member -> K, arrange: Arrangement, ks: seq<K>, ms: seq<Member>, base: seq<Signal>)
    ensures BucketPairs(f, arrange, ks[..0], ms) == []
    ensures base + Emit(rule, BucketPairs(f, arrange, ks[..0], ms)) == base
  {
  }

  /** One more bucket adds exactly what its consecutive pairs emit. */
  lemma EmitBucket<K>(rule: Pair -> seq<Signal>, f: Member -> K, arrange: Arrangement, ks: seq<K>, i: nat, ms: seq<Member>, base: seq<Signal>)
    requires i < |ks|
    ensures var windows := Windows(arrange(Group(f, ks[i], ms)));
      && BucketPairs(f, arrange, ks[..i + 1], ms) == BucketPairs(f, arrange, ks[..i], ms) + windows
      && base + Emit(rule, BucketPairs(f, arrange, ks[..i + 1], ms)) ==
        base + Emit(rule, BucketPairs(f, arrange, ks[..i], ms)) + Emit(rule, windows)
  {
    hide *;
    assert ks[..i + 1] == ks[..i] + [ks[i]];
    BucketPairsSnoc(f, arrange, ks[..i], ks[i], ms);
    EmitConcat(rule, BucketPairs(f, arrange, ks[..i], ms), Windows(arrange(Group(f, ks[i], ms))));
  }

  /** `ks` lists, in order and once each, the keys that occur in `ms`. */
  ghost predicate Lists<K(!new)>(f: Member -> K, le: (K, K) -> bool, ks: seq<K>, ms: seq<Member>) {
    && (forall k :: k in ks <==> k in Apply(f, ms))
    && SortedBy(le, ks)
    && (forall i, j :: 0 <= i < j < |ks| ==> ks[i] != ks[j])
  }

  method ReadBucket(rule: Pair -> DuplicateClass, bucket: seq<Member>, sink: Sink)
    requires sink.Valid()
    modifies sink
    ensures sink.Valid()
    ensures sink.produced == old(sink.produced) + Emit(FiredDuplicate(rule), Windows(bucket))
    ensures sink.excluded == old(sink.excluded) + |Filter(IsIngestion(rule), Windows(bucket))|
  {
    var pairs, i := Windows(bucket), 0;
    NoPairs(rule);
    hide *;
    assert pairs[..0] == [];
    while i < |pairs|
      invariant i <= |pairs|
      invariant sink.Valid()
      invariant sink.produced == old(sink.produced) + Emit(FiredDuplicate(rule), pairs[..i])
      invariant sink.excluded == old(sink.excluded) + |Filter(IsIngestion(rule), pairs[..i])|
    {
      EmitSnoc(FiredDuplicate(rule), pairs[..i], pairs[i]);
      FilterSnoc(IsIngestion(rule), pairs[..i], pairs[i]);
      assert pairs[..i + 1] == pairs[..i] + [pairs[i]];
      sink.OfferDuplicate(rule, pairs[i]);
      i := i + 1;
    }
    assert pairs[..i] == pairs;
  }

  /** The third pass: consecutive members of each digest bucket, ingest repeats left out. */
  method ReadDigests(rule: Pair -> DuplicateClass, members: seq<Member>, sink: Sink) returns (ghost ks: seq<string>)
    requires sink.Valid()
    modifies sink
    ensures sink.Valid()
    ensures var clean := Filter(NotFlagged(), members);
      && Lists(DigestOf(), ByName(), ks, clean)
      && sink.produced == old(sink.produced) + Emit(FiredDuplicate(rule), BucketPairs(DigestOf(), AsIs(), ks, clean))
      && sink.excluded == old(sink.excluded) + (|members| - |clean|)
        + |Filter(IsIngestion(rule), BucketPairs(DigestOf(), AsIs(), ks, clean))|
  {
    hide *;
    ghost var clean, base, fired := Filter(NotFlagged(), members), sink.produced, FiredDuplicate(rule);
    var buckets, flagged := Bucket(DigestOf(), NotFlagged(), members);
    sink.Exclude(flagged);
    var keys := NamesOf(buckets.Keys);
    ks := keys;
    BucketsListed(DigestOf(), ByName(), keys, buckets, clean);
    var i := 0;
    NothingEmitted(fired, DigestOf(), AsIs(), keys, clean, base);
    NoPairs(rule);
    while i < |keys|
      invariant i <= |keys|
      invariant sink.Valid()
      invariant sink.produced == base + Emit(fired, BucketPairs(DigestOf(), AsIs(), keys[..i], clean))
      invariant sink.excluded == old(sink.excluded) + flagged + |Filter(IsIngestion(rule), BucketPairs(DigestOf(), AsIs(), keys[..i], clean))|
    {
      var bucket := buckets[keys[i]];
      EmitBucket(fired, DigestOf(), AsIs(), keys, i, clean, base);
      AsItIs(bucket);
      FilterConcat(IsIngestion(rule), BucketPairs(DigestOf(), AsIs(), keys[..i], clean), Windows(bucket));
      if |bucket| >= 2 {
        ReadBucket(rule, bucket, sink);
      } else {
        NothingToCompare(rule, bucket);
      }
      i := i + 1;
    }
    assert keys[..i] == keys;
  }

  lemma AsItIs(s: seq<Member>)
    ensures AsIs()(s) == s
  {
  }

  lemma NothingToCompare(rule: Pair -> DuplicateClass, bucket: seq<Member>)
    requires |bucket| < 2
    ensures Emit(FiredDuplicate(rule), Windows(bucket)) == [] && Filter(IsIngestion(rule), Windows(bucket)) == []
  {
  }

  lemma NoPairs(rule: Pair -> DuplicateClass)
    ensures Filter(IsIngestion(rule), []) == [] && Emit(FiredDuplicate(rule), []) == []
  {
  }

  /** The whole of `signals_for_group`. */
  method SignalsForGroup(rules: Rules, members: seq<Member>, sink: Sink) returns (ghost sources: seq<SourceKey>, ghost digests: seq<string>)
    requires sink.Valid()
    modifies sink
    ensures sink.Valid()
    ensures rules.skew.Some? ==> Lists(SourceOf(), BySource(), sources, Filter(Numbered(), members))
    ensures rules.duplicate.Some? ==> Lists(DigestOf(), ByName(), digests, Filter(NotFlagged(), members))
    ensures sink.produced == old(sink.produced) + SignalsOf(rules, members, sources, digests)
    ensures sink.excluded == old(sink.excluded) + ExcludedOf(rules, members, digests)
  {
    sources, digests := [], [];
    hide Sink.Valid, Emit, Filter, Lists, BucketPairs, Windows;
    ghost var base := sink.produced;
    ghost var first := Emit(RetryThenGap(rules), Windows(members));
    ReadSequence(rules, members, sink);
    if rules.skew.Some? {
      sources := ReadSources(rules, members, sink);
    }
    ghost var second := SkewSignals(rules, members, sources);
    assert sink.produced == base + first + second;
    if rules.duplicate.Some? {
      digests := ReadDigests(rules.duplicate.value, members, sink);
    }
    assert base + (first + second + DuplicateSignals(rules, members, digests)) ==
      base + first + second + DuplicateSignals(rules, members, digests);
  }

  function SkewSignals(rules: Rules, members: seq<Member>, sources: seq<SourceKey>): seq<Signal> {
    if rules.skew.None? then []
    else Emit(Skewed(rules), BucketPairs(SourceOf(), InPlace(), sources, Filter(Numbered(), members)))
  }

  function DuplicateSignals(rules: Rules, members: seq<Member>, digests: seq<string>): seq<Signal> {
    if rules.duplicate.None? then []
    else Emit(FiredDuplicate(rules.duplicate.value), BucketPairs(DigestOf(), AsIs(), digests, Filter(NotFlagged(), members)))
  }

  function SignalsOf(rules: Rules, members: seq<Member>, sources: seq<SourceKey>, digests: seq<string>): seq<Signal> {
    Emit(RetryThenGap(rules), Windows(members)) + SkewSignals(rules, members, sources) + DuplicateSignals(rules, members, digests)
  }

  function ExcludedOf(rules: Rules, members: seq<Member>, digests: seq<string>): nat {
    if rules.duplicate.None? then 0
    else
      var clean := Filter(NotFlagged(), members);
      |members| - |clean| + |Filter(IsIngestion(rules.duplicate.value), BucketPairs(DigestOf(), AsIs(), digests, clean))|
  }

  /** The signal an enabled rule gives a pair is produced for that pair. */
  lemma {:induction false} FiredIsEmitted(rule: Pair -> seq<Signal>, pairs: seq<Pair>, p: Pair, x: Signal)
    requires p in pairs && x in rule(p)
    ensures x in Emit(rule, pairs)
  {
    if p in pairs[..|pairs|-1] { FiredIsEmitted(rule, pairs[..|pairs|-1], p, x); }
  }

  lemma {:induction false} EmittedWasFired(rule: Pair -> seq<Signal>, pairs: seq<Pair>, x: Signal) returns (p: Pair)
    requires x in Emit(rule, pairs)
    ensures p in pairs && x in rule(p)
  {
    var front, last := pairs[..|pairs|-1], pairs[|pairs|-1];
    if x in rule(last) { p := last; } else { p := EmittedWasFired(rule, front, x); }
  }

  /** The rule is enabled and says `x` of the pair. */
  predicate Says(rule: Option<Rule>, p: Pair, x: Signal) { rule.Some? && rule.value(p) == Some(x) }

  /** Both rules of the first pass are consulted on every consecutive pair, and it produces nothing
      that neither of them said. */
  lemma SequenceMeans(rules: Rules, members: seq<Member>, x: Signal)
    ensures x in Emit(RetryThenGap(rules), Windows(members)) <==>
      exists i :: 0 <= i < |members| - 1 && SaidOf(rules, members, i, x)
  {
    var pairs := Windows(members);
    hide Emit;
    if i :| 0 <= i < |members| - 1 && SaidOf(rules, members, i, x) {
      assert pairs[i] == (members[i], members[i + 1]);
      FiredIsEmitted(RetryThenGap(rules), pairs, pairs[i], x);
    }
    if x in Emit(RetryThenGap(rules), pairs) {
      var p := EmittedWasFired(RetryThenGap(rules), pairs, x);
      var i :| 0 <= i < |pairs| && pairs[i] == p;
      assert p == (members[i], members[i + 1]);
      assert SaidOf(rules, members, i, x);
    }
  }

  predicate SaidOf(rules: Rules, members: seq<Member>, i: int, x: Signal)
    requires 0 <= i < |members| - 1
  {
    Says(rules.retry, (members[i], members[i + 1]), x) || Says(rules.gap, (members[i], members[i + 1]), x)
  }

  /** The skew rule is consulted on every pair examined for it, and on no other. */
  lemma SkewMeans(rules: Rules, members: seq<Member>, sources: seq<SourceKey>, x: Signal)
    ensures x in SkewSignals(rules, members, sources) <==>
      exists p :: p in BucketPairs(SourceOf(), InPlace(), sources, Filter(Numbered(), members)) && Says(rules.skew, p, x)
  {
    var pairs := BucketPairs(SourceOf(), InPlace(), sources, Filter(Numbered(), members));
    hide Emit, BucketPairs, Filter;
    if p :| p in pairs && Says(rules.skew, p, x) { FiredIsEmitted(Skewed(rules), pairs, p, x); }
    if x in SkewSignals(rules, members, sources) { var p := EmittedWasFired(Skewed(rules), pairs, x); }
  }

  /** The rule is enabled and reports the pair as an operational duplicate. */
  predicate Reports(rule: Option<Pair -> DuplicateClass>, p: Pair, x: Signal) {
    rule.Some? && rule.value(p) == Operational(x)
  }

  /** The duplicate rule is consulted on every pair examined for it, and on no other. */
  lemma DuplicateMeans(rules: Rules, members: seq<Member>, digests: seq<string>, x: Signal)
    ensures x in DuplicateSignals(rules, members, digests) <==>
      exists p :: p in BucketPairs(DigestOf(), AsIs(), digests, Filter(NotFlagged(), members)) && Reports(rules.duplicate, p, x)
  {
    var pairs := BucketPairs(DigestOf(), AsIs(), digests, Filter(NotFlagged(), members));
    hide Emit, BucketPairs, Filter;
    if rules.duplicate.Some? {
      var rule := rules.duplicate.value;
      if p :| p in pairs && Reports(rules.duplicate, p, x) { FiredIsEmitted(FiredDuplicate(rule), pairs, p, x); }
      if x in DuplicateSignals(rules, members, digests) {
        var p := EmittedWasFired(FiredDuplicate(rule), pairs, x);
        assert Reports(rules.duplicate, p, x);
      }
    }
  }

  /** A group's signals are those of the three passes, in that order. */
  lemma SignalsMean(rules: Rules, members: seq<Member>, sources: seq<SourceKey>, digests: seq<string>, x: Signal)
    ensures x in SignalsOf(rules, members, sources, digests) <==>
      || (exists i :: 0 <= i < |members| - 1 && SaidOf(rules, members, i, x))
      || (exists p :: p in BucketPairs(SourceOf(), InPlace(), sources, Filter(Numbered(), members)) && Says(rules.skew, p, x))
      || (exists p :: p in BucketPairs(DigestOf(), AsIs(), digests, Filter(NotFlagged(), members)) && Reports(rules.duplicate, p, x))
  {
    SequenceMeans(rules, members, x);
    SkewMeans(rules, members, sources, x);
    DuplicateMeans(rules, members, digests, x);
    hide Emit, SkewSignals, DuplicateSignals, BucketPairs, Filter, SaidOf, Windows;
  }

  // ---- no relation is lost ------------------------------------------------------------

  /** A walk along examined pairs, in either direction. */
  ghost predicate Walk(pairs: seq<Pair>, w: seq<Member>) {
    w != [] && forall i :: 0 <= i < |w| - 1 ==> (w[i], w[i + 1]) in pairs || (w[i + 1], w[i]) in pairs
  }

  /** The reflexive, symmetric and transitive closure of the examined pairs. */
  ghost predicate Connected(pairs: seq<Pair>, a: Member, b: Member) {
    exists w :: Walk(pairs, w) && w[0] == a && w[|w|-1] == b
  }

  lemma {:induction false} PairsInside<K>(f: Member -> K, ks: seq<K>, ms: seq<Member>, p: Pair)
    requires p in BucketPairs(f, AsIs(), ks, ms)
    ensures f(p.0) == f(p.1)
  {
    var n := |ks| - 1;
    if p in BucketPairs(f, AsIs(), ks[..n], ms) {
      PairsInside(f, ks[..n], ms, p);
    } else {
      GroupMember(f, ks[n], ms, p.0);
      GroupMember(f, ks[n], ms, p.1);
    }
  }

  lemma {:induction false} BucketExamined<K>(f: Member -> K, ks: seq<K>, ms: seq<Member>, k: K, p: Pair)
    requires k in ks && p in Windows(Group(f, k, ms))
    ensures p in BucketPairs(f, AsIs(), ks, ms)
  {
    var n := |ks| - 1;
    LastBucket(f, ks, ms);
    if ks[n] != k { BucketExamined(f, ks[..n], ms, k, p); }
    hide BucketPairs, Windows, Group;
  }

  lemma LastBucket<K>(f: Member -> K, ks: seq<K>, ms: seq<Member>)
    requires ks != []
    ensures BucketPairs(f, AsIs(), ks, ms) == BucketPairs(f, AsIs(), ks[..|ks|-1], ms) + Windows(Group(f, ks[|ks|-1], ms))
  {
    hide Windows, Group;
  }

  lemma {:induction false} WalkKeeps<K>(f: Member -> K, ks: seq<K>, ms: seq<Member>, w: seq<Member>)
    requires Walk(BucketPairs(f, AsIs(), ks, ms), w)
    ensures f(w[0]) == f(w[|w|-1])
  {
    var n := |w| - 1;
    if n > 0 {
      var pairs := BucketPairs(f, AsIs(), ks, ms);
      var front := w[..n];
      forall i | 0 <= i < n - 1 ensures (front[i], front[i + 1]) in pairs || (front[i + 1], front[i]) in pairs {
        assert (w[i], w[i + 1]) in pairs || (w[i + 1], w[i]) in pairs;
      }
      WalkKeeps(f, ks, ms, front);
      assert (w[n-1], w[n-1 + 1]) in pairs || (w[n-1 + 1], w[n-1]) in pairs;
      PairsInside(f, ks, ms, if (w[n-1], w[n]) in pairs then (w[n-1], w[n]) else (w[n], w[n-1]));
    }
  }

  lemma BucketConnected<K>(f: Member -> K, ks: seq<K>, ms: seq<Member>, k: K, i: nat, j: nat)
    requires k in ks && i < |Group(f, k, ms)| && j < |Group(f, k, ms)|
    ensures Connected(BucketPairs(f, AsIs(), ks, ms), Group(f, k, ms)[i], Group(f, k, ms)[j])
  {
    var bucket, pairs := Group(f, k, ms), BucketPairs(f, AsIs(), ks, ms);
    hide Group, BucketPairs;
    forall n | 0 <= n < |bucket| - 1 ensures (bucket[n], bucket[n + 1]) in pairs {
      assert Windows(bucket)[n] == (bucket[n], bucket[n + 1]);
      BucketExamined(f, ks, ms, k, (bucket[n], bucket[n + 1]));
    }
    if i <= j { WalkForward(pairs, bucket, i, j); } else { WalkBack(pairs, bucket, i, j); }
  }

  ghost predicate Linked(pairs: seq<Pair>, bucket: seq<Member>) {
    forall n :: 0 <= n < |bucket| - 1 ==> (bucket[n], bucket[n + 1]) in pairs
  }

  lemma WalkForward(pairs: seq<Pair>, bucket: seq<Member>, i: nat, j: nat)
    requires Linked(pairs, bucket) && i <= j < |bucket|
    ensures Connected(pairs, bucket[i], bucket[j])
  {
    var w := bucket[i..j + 1];
    forall n | 0 <= n < |w| - 1 ensures (w[n], w[n + 1]) in pairs {
      assert w[n] == bucket[i + n] && w[n + 1] == bucket[i + n + 1];
    }
    assert Walk(pairs, w) && w[0] == bucket[i] && w[|w|-1] == bucket[j];
  }

  lemma WalkBack(pairs: seq<Pair>, bucket: seq<Member>, i: nat, j: nat)
    requires Linked(pairs, bucket) && j < i < |bucket|
    ensures Connected(pairs, bucket[i], bucket[j])
  {
    var w := seq(i - j + 1, n requires 0 <= n <= i - j => bucket[i - n]);
    forall n | 0 <= n < |w| - 1 ensures (w[n + 1], w[n]) in pairs {
      assert w[n] == bucket[i - n - 1 + 1] && w[n + 1] == bucket[i - n - 1];
    }
    assert Walk(pairs, w) && w[0] == bucket[i] && w[|w|-1] == bucket[j];
  }

  /** The consecutive pairs of each digest bucket tie together two members not flagged at ingest
      exactly when their messages are the same. What a rule then reports of those pairs is the
      subject of `Duplicates`. */
  lemma ExaminedPairsConnect(digests: seq<string>, members: seq<Member>, a: Member, b: Member)
    requires var clean := Filter(NotFlagged(), members);
      Lists(DigestOf(), ByName(), digests, clean) && a in clean && b in clean
    ensures Connected(BucketPairs(DigestOf(), AsIs(), digests, Filter(NotFlagged(), members)), a, b) <==> a.digest == b.digest
  {
    var f, clean := DigestOf(), Filter(NotFlagged(), members);
    var pairs := BucketPairs(f, AsIs(), digests, clean);
    hide Filter, Group, BucketPairs;
    if a.digest == b.digest {
      GroupMember(f, a.digest, clean, a);
      GroupMember(f, a.digest, clean, b);
      var bucket := Group(f, a.digest, clean);
      var i :| 0 <= i < |bucket| && bucket[i] == a;
      var j :| 0 <= j < |bucket| && bucket[j] == b;
      GroupNonEmpty(f, a.digest, clean);
      BucketConnected(f, digests, clean, a.digest, i, j);
    }
    if Connected(pairs, a, b) {
      var w :| Walk(pairs, w) && w[0] == a && w[|w|-1] == b;
      WalkKeeps(f, digests, clean, w);
    }
  }

  ghost predicate KeepsLength(arrange: Arrangement) {
    forall s {:trigger arrange(s)} :: |arrange(s)| == |s|
  }

  /** ... and costs n - 1 comparisons per bucket of n, never n(n-1)/2. */
  lemma {:induction false} PairsExamined<K(!new)>(f: Member -> K, arrange: Arrangement, ks: seq<K>, ms: seq<Member>)
    requires forall k :: k in ks ==> k in Apply(f, ms)
    requires KeepsLength(arrange)
    ensures |BucketPairs(f, arrange, ks, ms)| + |ks| == Sum(Apply(GroupSize(f, ms), ks))
  {
    if ks == [] {
      assert Apply(GroupSize(f, ms), ks) == [];
    } else {
      var front, k := ks[..|ks|-1], ks[|ks|-1];
      assert ks == front + [k];
      PairsExamined(f, arrange, front, ms);
      hide BucketPairs, Group, Sum;
      BucketPairsSnoc(f, arrange, front, k, ms);
      GroupNonEmpty(f, k, ms);
      ApplySnoc(GroupSize(f, ms), front, k);
      SumSnoc(Apply(GroupSize(f, ms), front), |Group(f, k, ms)|);
    }
  }

  /** Over a whole group: each pass examines one pair fewer per bucket than it has members. */
  lemma ComparisonsExamined(digests: seq<string>, sources: seq<SourceKey>, members: seq<Member>)
    requires Lists(DigestOf(), ByName(), digests, Filter(NotFlagged(), members))
    requires Lists(SourceOf(), BySource(), sources, Filter(Numbered(), members))
    ensures |BucketPairs(DigestOf(), AsIs(), digests, Filter(NotFlagged(), members))| + |digests| == |Filter(NotFlagged(), members)|
    ensures |BucketPairs(SourceOf(), InPlace(), sources, Filter(Numbered(), members))| + |sources| == |Filter(Numbered(), members)|
  {
    var clean, numbered := Filter(NotFlagged(), members), Filter(Numbered(), members);
    PairsExamined(DigestOf(), AsIs(), digests, clean);
    PairsExamined(SourceOf(), InPlace(), sources, numbered);
    AllListed(DigestOf(), digests, clean);
    AllListed(SourceOf(), sources, numbered);
  }

  lemma AllListed<K(!new)>(f: Member -> K, ks: seq<K>, ms: seq<Member>)
    requires forall k :: k in Apply(f, ms) ==> k in ks
    requires forall i, j :: 0 <= i < j < |ks| ==> ks[i] != ks[j]
    ensures Sum(Apply(GroupSize(f, ms), ks)) == |ms|
  {
    GroupSizesAdd(f, ks, ms);
    forall m | m in ms ensures InKeys(f, ks)(m) {
      var i :| 0 <= i < |ms| && ms[i] == m;
      assert Apply(f, ms)[i] == f(m);
    }
    FilterAll(InKeys(f, ks), ms);
  }

  lemma ByPlaceIsOrder()
    ensures TotalPreorder(ByPlace())
  {
    forall a: Member, b: Member, c: Member
      ensures (PlacedBefore(a, b) || PlacedBefore(b, a)) && (PlacedBefore(a, b) && PlacedBefore(b, c) ==> PlacedBefore(a, c))
    {
      var x, y, z := a.stamp.recordId, b.stamp.recordId, c.stamp.recordId;
      AtMostTotal(x, y);
      if AtMost(x, y) && AtMost(y, z) { AtMostTransitive(x, y, z); }
    }
  }

  lemma PlacedMeans(a: Member, b: Member)
    requires ByPlace()(a, b)
    ensures var x, y := a.recordNumber.GetOr(0), b.recordNumber.GetOr(0);
      x < y || (x == y && AtMost(a.stamp.recordId, b.stamp.recordId))
  {
  }

  /** Skew is read in the order the source wrote: both members of an examined pair come from
      one source, and the first stands before the second in it. */
  lemma {:induction false} SkewReadsSourceOrder(ks: seq<SourceKey>, ms: seq<Member>, p: Pair)
    requires p in BucketPairs(SourceOf(), InPlace(), ks, ms)
    ensures p.0 in ms && p.1 in ms && p.0.datasetId == p.1.datasetId && p.0.sourceId == p.1.sourceId
    ensures var x, y := p.0.recordNumber.GetOr(0), p.1.recordNumber.GetOr(0);
      x < y || (x == y && AtMost(p.0.stamp.recordId, p.1.stamp.recordId))
  {
    var n := |ks| - 1;
    if p in BucketPairs(SourceOf(), InPlace(), ks[..n], ms) {
      SkewReadsSourceOrder(ks[..n], ms, p);
    } else {
      var bucket := Group(SourceOf(), ks[n], ms);
      var placed := SortBy(ByPlace(), bucket);
      assert p in Windows(placed);
      hide BucketPairs, Group, PlacedBefore;
      var i :| 0 <= i < |Windows(placed)| && Windows(placed)[i] == p;
      ByPlaceIsOrder();
      SortSorts(ByPlace(), bucket);
      assert ByPlace()(placed[i], placed[i + 1]);
      PlacedMeans(p.0, p.1);
      SortMembers(ByPlace(), bucket, p.0);
      SortMembers(ByPlace(), bucket, p.1);
      GroupMember(SourceOf(), ks[n], ms, p.0);
      GroupMember(SourceOf(), ks[n], ms, p.1);
    }
  }

  /** A pair examined for skew: two numbered members of the group, from one source, the smaller number
      first. */
  lemma SkewPairs(members: seq<Member>, sources: seq<SourceKey>, p: Pair)
    requires p in BucketPairs(SourceOf(), InPlace(), sources, Filter(Numbered(), members))
    ensures p.0 in members && p.1 in members && p.0.recordNumber.Some? && p.1.recordNumber.Some?
    ensures p.0.datasetId == p.1.datasetId && p.0.sourceId == p.1.sourceId
    ensures p.0.recordNumber.value <= p.1.recordNumber.value
    ensures p.0.recordNumber == p.1.recordNumber ==> AtMost(p.0.stamp.recordId, p.1.stamp.recordId)
  {
    SkewReadsSourceOrder(sources, Filter(Numbered(), members), p);
    FilterMember(Numbered(), members, p.0);
    FilterMember(Numbered(), members, p.1);
    hide BucketPairs, AtMost, Filter;
  }

  /** A pair examined as a duplicate: two members of the group that ingestion did not flag, with one
      digest. */
  lemma DuplicatePairs(members: seq<Member>, digests: seq<string>, p: Pair)
    requires p in BucketPairs(DigestOf(), AsIs(), digests, Filter(NotFlagged(), members))
    ensures p.0 in members && p.1 in members && p.0.digest == p.1.digest
    ensures !p.0.ingestDuplicate && !p.1.ingestDuplicate
  {
    PairsInside(DigestOf(), digests, Filter(NotFlagged(), members), p);
    PairFrom(DigestOf(), digests, Filter(NotFlagged(), members), p);
    FilterMember(NotFlagged(), members, p.0);
    FilterMember(NotFlagged(), members, p.1);
    hide BucketPairs, Filter;
  }

  lemma {:induction false} PairFrom<K>(f: Member -> K, ks: seq<K>, ms: seq<Member>, p: Pair)
    requires p in BucketPairs(f, AsIs(), ks, ms)
    ensures p.0 in ms && p.1 in ms
  {
    var n := |ks| - 1;
    LastBucket(f, ks, ms);
    if p in BucketPairs(f, AsIs(), ks[..n], ms) {
      PairFrom(f, ks[..n], ms, p);
    } else {
      GroupMember(f, ks[n], ms, p.0);
      GroupMember(f, ks[n], ms, p.1);
    }
  }

  /** Sources are read by dataset and then by id, each once; every numbered member's source is read. */
  lemma SourcesInOrder(members: seq<Member>, sources: seq<SourceKey>)
    requires Lists(SourceOf(), BySource(), sources, Filter(Numbered(), members))
    ensures forall i, j :: 0 <= i < j < |sources| ==> sources[i] != sources[j] && AtMost(sources[i].datasetId, sources[j].datasetId)
    ensures forall i, j :: 0 <= i < j < |sources| && sources[i].datasetId == sources[j].datasetId ==>
      AtMost(sources[i].sourceId, sources[j].sourceId)
    ensures forall m :: m in members && m.recordNumber.Some? ==> SourceKey(m.datasetId, m.sourceId) in sources
  {
    hide Filter, AtMost;
    forall i, j | 0 <= i < j < |sources|
      ensures AtMost(sources[i].datasetId, sources[j].datasetId)
      ensures sources[i].datasetId == sources[j].datasetId ==> AtMost(sources[i].sourceId, sources[j].sourceId)
    {
      assert BySource()(sources[i], sources[j]);
      AtMostTotal(sources[i].datasetId, sources[j].datasetId);
      AtMostTotal(sources[i].datasetId, sources[i].datasetId);
    }
    var numbered := Filter(Numbered(), members);
    forall m | m in members && m.recordNumber.Some? ensures SourceKey(m.datasetId, m.sourceId) in sources {
      FilterMember(Numbered(), members, m);
      var i :| 0 <= i < |numbered| && numbered[i] == m;
      assert Apply(SourceOf(), numbered)[i] == SourceOf()(m);
    }
  }

  function Flagged(): Member -> bool { (m: Member) => m.ingestDuplicate }

  /** What the duplicate rule excludes: the members ingestion flagged, and the examined pairs it would
      have flagged. */
  lemma ExcludedMeans(rules: Rules, members: seq<Member>, digests: seq<string>)
    ensures ExcludedOf(rules, members, digests) ==
      if rules.duplicate.None? then 0
      else
        var pairs := BucketPairs(DigestOf(), AsIs(), digests, Filter(NotFlagged(), members));
        |Places(Flagged(), members)| + |Places((p: Pair) => rules.duplicate.value(p) == Ingestion, pairs)|
  {
    if rules.duplicate.Some? {
      var rule := rules.duplicate.value;
      var pairs := BucketPairs(DigestOf(), AsIs(), digests, Filter(NotFlagged(), members));
      hide BucketPairs, Filter;
      FlaggedSplit(members);
      FilterSize(Flagged(), members);
      FilterSize(IsIngestion(rule), pairs);
      assert Places(IsIngestion(rule), pairs) == Places((p: Pair) => rule(p) == Ingestion, pairs);
    }
  }

  lemma {:induction false} FlaggedSplit(members: seq<Member>)
    ensures |members| - |Filter(NotFlagged(), members)| == |Filter(Flagged(), members)|
  {
    if members != [] { FlaggedSplit(members[..|members|-1]); }
  }
}
