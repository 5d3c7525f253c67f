/** A pattern run end to end: the streaming pass, the published summaries, drill-down. */
module PatternRun {
  import opened CappedGroups
  import opened Ordering
  import opened Sequences
  import opened Sorting
  import opened Rows
  import opened Patterns
  import opened PatternOrder
  import Streaming

  // ---- the streaming pass -----------------------------------------------------------

  /** What text extraction and normalisation make of one row. */
  datatype Extraction = MissingField | MalformedStack | Identified(id: string, descriptor: Descriptor)

  function Entries(derive: LogRow -> Extraction, rows: seq<LogRow>): seq<Entry> {
    if rows == [] then []
    else
      var front := Entries(derive, rows[..|rows|-1]);
      var row := rows[|rows|-1];
      match derive(row)
      case Identified(id, d) => front + [Entry(id, d, row)]
      case _ => front
  }

  function IsMissing(derive: LogRow -> Extraction): LogRow -> bool { (row: LogRow) => derive(row).MissingField? }
  function IsMalformed(derive: LogRow -> Extraction): LogRow -> bool { (row: LogRow) => derive(row).MalformedStack? }

  lemma EntriesSnoc(derive: LogRow -> Extraction, rows: seq<LogRow>, row: LogRow)
    ensures Entries(derive, rows + [row]) == Entries(derive, rows) +
              (match derive(row) case Identified(id, d) => [Entry(id, d, row)] case _ => [])
    ensures |Filter(IsMissing(derive), rows + [row])| == |Filter(IsMissing(derive), rows)| + if derive(row).MissingField? then 1 else 0
    ensures |Filter(IsMalformed(derive), rows + [row])| == |Filter(IsMalformed(derive), rows)| + if derive(row).MalformedStack? then 1 else 0
  {
    assert (rows + [row])[..|rows|] == rows;
    FilterSnoc(IsMissing(derive), rows, row);
    FilterSnoc(IsMalformed(derive), rows, row);
  }

  lemma NothingYet(derive: LogRow -> Extraction, rows: seq<LogRow>)
    requires rows == []
    ensures Entries(derive, rows) == [] && Filter(IsMissing(derive), rows) == [] && Filter(IsMalformed(derive), rows) == []
  {
  }

  /** No row is lost without being counted. */
  lemma {:induction false} RowsAreConserved(derive: LogRow -> Extraction, rows: seq<LogRow>)
    ensures |rows| == |Entries(derive, rows)| + |Filter(IsMissing(derive), rows)| + |Filter(IsMalformed(derive), rows)|
  {
    if rows != [] {
      RowsAreConserved(derive, rows[..|rows|-1]);
    }
  }

  /** The body of `execute` up to publication. `cancelAt(n)` is the answer the job control
      gives at a checkpoint after `n` rows; checkpoints happen at 0 and at multiples of 4096. */
  method Scan(limits: PatternLimits, derive: LogRow -> Extraction, rows: seq<LogRow>, cancelAt: nat -> bool)
    returns (acc: Accumulator, cancelled: bool, truncatedRecords: bool)
    requires limits.Usable()
    ensures acc.Valid(limits)
    ensures cancelled <==> Streaming.Asked(cancelAt, 0, |Streamed(rows, limits.maxRecords)|)
    ensures !cancelled ==>
      && acc.excludedMissingField == |Filter(IsMissing(derive), Streamed(rows, limits.maxRecords))|
      && acc.stackMalformed == |Filter(IsMalformed(derive), Streamed(rows, limits.maxRecords))|
      && acc.seen == Entries(derive, Streamed(rows, limits.maxRecords))
      && truncatedRecords == (|rows| > limits.maxRecords)
      && |Streamed(rows, limits.maxRecords)| ==
           acc.accepted + acc.excludedOverPatternLimit + acc.excludedMissingField + acc.stackMalformed
  {
    assert Streaming.Asked(cancelAt, 0, 0) <==> cancelAt(0);
    hide Accumulator.Valid, Entries, Filter, Streaming.Asked, TalliesUpTo;
    acc := new Accumulator(limits);
    cancelled, truncatedRecords := cancelAt(0), false;
    if cancelled {
      Streaming.AskedMore(cancelAt, 0, 0, |Streamed(rows, limits.maxRecords)|);
      return;
    }
    var stream := Streamed(rows, limits.maxRecords + 1);
    var seen := 0;
    NothingTallied(derive, stream);
    while seen < |stream|
      invariant fresh(acc) && acc.Valid(limits) && !cancelled && !truncatedRecords
      invariant seen <= |stream| && seen <= limits.maxRecords
      invariant !Streaming.Asked(cancelAt, 0, seen)
      invariant TalliesUpTo(derive, stream, seen, acc.seen, acc.excludedMissingField, acc.stackMalformed)
    {
      if seen + 1 > limits.maxRecords {
        truncatedRecords := true;
        break;
      }
      Streaming.AskedLater(cancelAt, 0, seen);
      seen := seen + 1;
      if seen % 4096 == 0 && cancelAt(seen) {
        cancelled := true;
        Streaming.AskedMore(cancelAt, 0, seen, |Streamed(rows, limits.maxRecords)|);
        return;
      }
      TakeRow(limits, derive, acc, stream, seen - 1);
    }
    AllTallied(limits, derive, acc, stream, seen, Streamed(rows, limits.maxRecords));
  }

  /** What the accumulator holds of the first `i` rows. */
  ghost predicate TalliesUpTo(derive: LogRow -> Extraction, stream: seq<LogRow>, i: int,
                              seen: seq<Entry>, missing: nat, malformed: nat) {
    && 0 <= i <= |stream| && seen == Entries(derive, stream[..i])
    && missing == |Filter(IsMissing(derive), stream[..i])| && malformed == |Filter(IsMalformed(derive), stream[..i])|
  }

  lemma NothingTallied(derive: LogRow -> Extraction, stream: seq<LogRow>)
    ensures TalliesUpTo(derive, stream, 0, [], 0, 0)
  {
    NothingYet(derive, stream[..0]);
  }

  method TakeRow(limits: PatternLimits, derive: LogRow -> Extraction, acc: Accumulator, stream: seq<LogRow>, i: nat)
    requires i < |stream| && acc.Valid(limits)
    requires TalliesUpTo(derive, stream, i, acc.seen, acc.excludedMissingField, acc.stackMalformed)
    modifies acc
    ensures acc.Valid(limits) && TalliesUpTo(derive, stream, i + 1, acc.seen, acc.excludedMissingField, acc.stackMalformed)
  {
    EntriesSnoc(derive, stream[..i], stream[i]);
    assert stream[..i + 1] == stream[..i] + [stream[i]];
    hide Entries, Filter, PatternsOf, HeldCount, Overflows;
    match derive(stream[i]) {
      case MissingField => acc.excludedMissingField := acc.excludedMissingField + 1;
      case MalformedStack => acc.stackMalformed := acc.stackMalformed + 1;
      case Identified(id, d) => acc.Add(limits, id, d, stream[i]);
    }
  }

  lemma AllTallied(limits: PatternLimits, derive: LogRow -> Extraction, acc: Accumulator, stream: seq<LogRow>, i: nat, rows: seq<LogRow>)
    requires acc.Valid(limits) && i <= |stream| && rows <= stream && |rows| == i
    requires TalliesUpTo(derive, stream, i, acc.seen, acc.excludedMissingField, acc.stackMalformed)
    ensures acc.seen == Entries(derive, rows)
    ensures acc.excludedMissingField == |Filter(IsMissing(derive), rows)| && acc.stackMalformed == |Filter(IsMalformed(derive), rows)|
    ensures |rows| == acc.accepted + acc.excludedOverPatternLimit + acc.excludedMissingField + acc.stackMalformed
  {
    RowsAreConserved(derive, rows);
    hide Entries, Filter, PatternsOf, HeldCount, Overflows;
    assert rows == stream[..i];
  }

  // ---- drill-down ---------------------------------------------------------------------

  function DerivesTo(derive: LogRow -> Extraction, id: string): LogRow -> bool {
    (row: LogRow) => match derive(row) case Identified(i, _) => i == id case _ => false
  }

  function RowOf(): Entry -> LogRow { (e: Entry) => e.row }

  /** Re-streams the frozen scope and re-derives each row's identity. */
  method PatternRecords(limits: PatternLimits, derive: LogRow -> Extraction, rows: seq<LogRow>, id: string, limit: nat)
    returns (hits: seq<LogRow>)
    ensures hits == Upto(Streaming.Clamped(limit), Filter(DerivesTo(derive, id), Streamed(rows, limits.maxRecords)))
  {
    hits := Streaming.Matching(Streamed(rows, limits.maxRecords), DerivesTo(derive, id), limit);
  }

  /** The rows drill-down derives to a pattern are the rows the run counted for it. */
  lemma {:induction false} CountedRows(derive: LogRow -> Extraction, rows: seq<LogRow>, id: string)
    ensures Filter(DerivesTo(derive, id), rows) == Apply(RowOf(), Of(id, Entries(derive, rows)))
  {
    if rows != [] {
      var front, row := rows[..|rows|-1], rows[|rows|-1];
      CountedRows(derive, front, id);
      assert rows == front + [row];
      FilterSnoc(DerivesTo(derive, id), front, row);
      EntriesSnoc(derive, front, row);
      match derive(row) {
        case Identified(i, d) =>
          GroupSnoc(PatternOf(), id, Entries(derive, front), Entry(i, d, row));
          ApplySnoc(RowOf(), Of(id, Entries(derive, front)), Entry(i, d, row));
        case _ =>
      }
    }
  }

  /** Over an unchanged scope, drill-down into a stored pattern finds exactly its `count`
      records, however the caps cut the rest of the run. */
  lemma DrillDownAgrees(limits: PatternLimits, derive: LogRow -> Extraction, rows: seq<LogRow>, id: string)
    requires limits.Usable()
    requires id in PatternsOf(limits, Entries(derive, Streamed(rows, limits.maxRecords)))
    ensures |Filter(DerivesTo(derive, id), Streamed(rows, limits.maxRecords))| ==
            PatternsOf(limits, Entries(derive, Streamed(rows, limits.maxRecords)))[id].count
  {
    hide Entries, Filter, CappedTally;
    CountedRows(derive, Streamed(rows, limits.maxRecords), id);
    HeldAgg(limits, Entries(derive, Streamed(rows, limits.maxRecords)), id);
  }

  // ---- the published summaries ----------------------------------------------------------

  datatype Example = Example(role: string, at: Extreme)

  datatype Peak = NoPeak | PeakAt(start: int, tally: Tally)

  datatype Summary = Summary(
    patternId: string, kind: string, descriptor: Descriptor,
    count: nat, untimestamped: nat,
    firstSeen: Option<int>, lastSeen: Option<int>,
    peak: Peak,
    bucketsTruncated: bool, servicesTruncated: bool,
    services: seq<(string, nat)>, examples: seq<Example>)

  /** The fullest bucket; the earliest of the fullest. */
  ghost predicate IsPeak(buckets: map<int, Tally>, p: Peak) {
    match p
    case NoPeak => buckets == map[]
    case PeakAt(start, tally) =>
      && start in buckets && buckets[start] == tally
      && forall b :: b in buckets ==>
           buckets[b].count < tally.count || (buckets[b].count == tally.count && start <= b)
  }

  function Noted(role: string, e: Option<Extreme>): seq<Example> {
    match e case Some(x) => [Example(role, x)] case None => []
  }

  function PeakNote(p: Peak): seq<Example> {
    match p case PeakAt(_, t) => [Example("peak", t.first)] case NoPeak => []
  }

  function ServiceCounts(ks: seq<string>, m: map<string, Tally>): seq<(string, nat)>
    requires forall k :: k in ks ==> k in m
  {
    seq(|ks|, i requires 0 <= i < |ks| => (ks[i], m[ks[i]].count))
  }

  function ServiceNotes(ks: seq<string>, m: map<string, Tally>): seq<Example>
    requires forall k :: k in ks ==> k in m
  {
    var n := if |ks| < 4 then |ks| else 4;
    seq(n, i requires 0 <= i < n => Example("resource", m[ks[i]].first))
  }

  function TimeOf(e: Option<Extreme>): Option<int> {
    match e case Some(x) => Some(x.time) case None => None
  }

  /** `s` is the summary of `agg`; `ks` lists its resources in ascending order. */
  ghost predicate Summarises(kind: string, id: string, agg: PatternAgg, ks: seq<string>, s: Summary) {
    && Ascends(ByName(), ks, agg.services.Keys)
    && IsPeak(agg.buckets, s.peak)
    && s == Summary(id, kind, agg.descriptor, agg.count, agg.untimestamped,
                    TimeOf(agg.earliest), TimeOf(agg.latest), s.peak,
                    agg.bucketsTruncated, agg.servicesTruncated,
                    ServiceCounts(ks, agg.services),
                    Noted("earliest", agg.earliest) + Noted("latest", agg.latest) + PeakNote(s.peak) +
                    ServiceNotes(ks, agg.services))
  }

  ghost predicate IsSummary(kind: string, id: string, agg: PatternAgg, s: Summary) {
    exists ks :: Summarises(kind, id, agg, ks, s)
  }

  lemma SummaryUnique(kind: string, id: string, agg: PatternAgg, s: Summary, t: Summary)
    requires IsSummary(kind, id, agg, s) && IsSummary(kind, id, agg, t)
    ensures s == t
  {
    ByNameIsOrder();
    var ks :| Summarises(kind, id, agg, ks, s);
    var ls :| Summarises(kind, id, agg, ls, t);
    AscendsUnique(ByName(), ks, ls, agg.services.Keys);
  }

  method FindPeak(buckets: map<int, Tally>) returns (peak: Peak)
    ensures IsPeak(buckets, peak)
  {
    var starts := Ascending(ByNumber(), buckets.Keys);
    peak := NoPeak;
    var i := 0;
    while i < |starts|
      invariant i <= |starts|
      invariant peak.NoPeak? <==> i == 0
      invariant peak.PeakAt? ==>
        && peak.start in starts[..i] && buckets[peak.start] == peak.tally
        && forall j :: 0 <= j < i ==>
             buckets[starts[j]].count < peak.tally.count ||
             (buckets[starts[j]].count == peak.tally.count && peak.start <= starts[j])
    {
      var t := buckets[starts[i]];
      if peak.NoPeak? || t.count > peak.tally.count {
        peak := PeakAt(starts[i], t);
      } else {
        assert ByNumber()(peak.start, starts[i]);
      }
      i := i + 1;
    }
    if i == 0 { assert forall b :: b !in buckets; }
  }

  method Summarise(kind: string, id: string, agg: PatternAgg) returns (s: Summary)
    ensures IsSummary(kind, id, agg, s)
  {
    ByNameIsOrder();
    var peak := FindPeak(agg.buckets);
    var ks := Ascending(ByName(), agg.services.Keys);
    s := Summary(id, kind, agg.descriptor, agg.count, agg.untimestamped,
                 TimeOf(agg.earliest), TimeOf(agg.latest), peak,
                 agg.bucketsTruncated, agg.servicesTruncated,
                 ServiceCounts(ks, agg.services),
                 Noted("earliest", agg.earliest) + Noted("latest", agg.latest) + PeakNote(peak) +
                 ServiceNotes(ks, agg.services));
    assert Summarises(kind, id, agg, ks, s);
  }

  /** Count descending, then pattern id ascending. */
  function ByCount(): (Summary, Summary) -> bool {
    (a: Summary, b: Summary) => a.count > b.count || (a.count == b.count && AtMost(a.patternId, b.patternId))
  }

  lemma ByCountIsPreorder()
    ensures TotalPreorder(ByCount())
    ensures forall a, b :: ByCount()(a, b) && ByCount()(b, a) ==> a.patternId == b.patternId
  {
    forall a, b ensures ByCount()(a, b) || ByCount()(b, a) { AtMostTotal(a.patternId, b.patternId); }
    forall a, b, c | ByCount()(a, b) && ByCount()(b, c) ensures ByCount()(a, c) {
      if a.count == b.count == c.count { AtMostTransitive(a.patternId, b.patternId, c.patternId); }
    }
    forall a, b | ByCount()(a, b) && ByCount()(b, a) ensures a.patternId == b.patternId {
      AtMostAntisymmetric(a.patternId, b.patternId);
    }
  }

  /** `out` reports every pattern once, exactly, in the stored order. */
  ghost predicate Reports(kind: string, patterns: map<string, PatternAgg>, out: seq<Summary>) {
    && (forall i :: 0 <= i < |out| ==>
          out[i].patternId in patterns && IsSummary(kind, out[i].patternId, patterns[out[i].patternId], out[i]))
    && (forall id :: id in patterns ==> exists i :: 0 <= i < |out| && out[i].patternId == id)
    && (forall i, j :: 0 <= i < j < |out| ==> out[i].patternId != out[j].patternId)
    && SortedBy(ByCount(), out)
  }

  method IntoSummaries(kind: string, patterns: map<string, PatternAgg>) returns (out: seq<Summary>)
    ensures Reports(kind, patterns, out)
  {
    ByNameIsOrder();
    var ids := Ascending(ByName(), patterns.Keys);
    var listed: seq<Summary> := [];
    var i := 0;
    while i < |ids|
      invariant i <= |ids| && |listed| == i
      invariant forall j :: 0 <= j < i ==>
        listed[j].patternId == ids[j] && IsSummary(kind, ids[j], patterns[ids[j]], listed[j])
    {
      var s := Summarise(kind, ids[i], patterns[ids[i]]);
      listed := listed + [s];
      i := i + 1;
    }
    ListedReports(kind, patterns, ids, listed);
    out := SortBy(ByCount(), listed);
  }

  lemma {:induction false} ListedReports(kind: string, patterns: map<string, PatternAgg>, ids: seq<string>, listed: seq<Summary>)
    requires Ascends(ByName(), ids, patterns.Keys) && |listed| == |ids|
    requires forall j :: 0 <= j < |ids| ==>
      listed[j].patternId == ids[j] && IsSummary(kind, ids[j], patterns[ids[j]], listed[j])
    ensures Reports(kind, patterns, SortBy(ByCount(), listed))
  {
    hide IsSummary, SortBy;
    ByCountIsPreorder();
    var out := SortBy(ByCount(), listed);
    SortSorts(ByCount(), listed);
    SortPermutes(ByCount(), listed);
    forall s ensures s in out <==> s in listed { SortMembers(ByCount(), listed, s); }
    forall id | id in patterns ensures exists i :: 0 <= i < |out| && out[i].patternId == id {
      var j :| 0 <= j < |ids| && ids[j] == id;
      assert listed[j] in out;
    }
    forall i | 0 <= i < |out|
      ensures out[i].patternId in patterns && IsSummary(kind, out[i].patternId, patterns[out[i].patternId], out[i])
    {
      assert out[i] in listed;
    }
    SummaryIdsDistinct(ids, listed);
    DistinctSurvives(listed, out);
  }

  function IdOf(): Summary -> string { (s: Summary) => s.patternId }

  lemma SummaryIdsDistinct(ids: seq<string>, listed: seq<Summary>)
    requires |ids| == |listed| && forall j :: 0 <= j < |ids| ==> listed[j].patternId == ids[j]
    ensures Apply(IdOf(), listed) == ids
  {
  }

  /** Sorting keeps pattern ids distinct. */
  lemma DistinctSurvives(a: seq<Summary>, b: seq<Summary>)
    requires multiset(a) == multiset(b)
    requires forall i, j :: 0 <= i < j < |a| ==> Apply(IdOf(), a)[i] != Apply(IdOf(), a)[j]
    ensures forall i, j :: 0 <= i < j < |b| ==> b[i].patternId != b[j].patternId
  {
    ApplyPermutes(IdOf(), a, b);
    DistinctPermutation(Apply(IdOf(), a), Apply(IdOf(), b));
    forall i, j | 0 <= i < j < |b| ensures b[i].patternId != b[j].patternId {
      assert Apply(IdOf(), b)[i] != Apply(IdOf(), b)[j];
    }
  }

  /** A pattern map has exactly one report. */
  lemma ReportUnique(kind: string, patterns: map<string, PatternAgg>, a: seq<Summary>, b: seq<Summary>)
    requires Reports(kind, patterns, a) && Reports(kind, patterns, b)
    ensures a == b
  {
    hide IsSummary;
    ByCountIsPreorder();
    forall s ensures multiset(a)[s] == multiset(b)[s] {
      ReportMembers(kind, patterns, a, b, s);
      ReportMembers(kind, patterns, b, a, s);
      DistinctMultiset(a, s);
      DistinctMultiset(b, s);
    }
    SameCounts(multiset(a), multiset(b));
    forall x, y | x in a && y in a && ByCount()(x, y) && ByCount()(y, x) ensures x == y {
      SummaryUnique(kind, x.patternId, patterns[x.patternId], x, y);
    }
    SortedUnique(ByCount(), a, b);
  }

  lemma ReportMembers(kind: string, patterns: map<string, PatternAgg>, a: seq<Summary>, b: seq<Summary>, s: Summary)
    requires Reports(kind, patterns, a) && Reports(kind, patterns, b)
    ensures s in a ==> s in b
  {
    if s in a {
      var i :| 0 <= i < |a| && a[i] == s;
      var j :| 0 <= j < |b| && b[j].patternId == s.patternId;
      SummaryUnique(kind, s.patternId, patterns[s.patternId], s, b[j]);
    }
  }

  /** Two runs over the same rows in any two orders publish the same summaries, provided the
      rows are settled and fit the record cap. */
  lemma SummariesForgetOrder(limits: PatternLimits, kind: string, derive: LogRow -> Extraction,
                             rows: seq<LogRow>, other: seq<LogRow>, a: seq<Summary>, b: seq<Summary>)
    requires limits.Usable() && multiset(rows) == multiset(other) && |rows| <= limits.maxRecords
    requires Settled(limits, Entries(derive, rows))
    requires Reports(kind, PatternsOf(limits, Entries(derive, Streamed(rows, limits.maxRecords))), a)
    requires Reports(kind, PatternsOf(limits, Entries(derive, Streamed(other, limits.maxRecords))), b)
    ensures a == b
  {
    hide Settled, Entries, Reports;
    PermutedLength(rows, other);
    EntriesPermuteToo(derive, rows, other);
    OrderCannotMatter(limits, Entries(derive, rows), Entries(derive, other));
    ReportUnique(kind, PatternsOf(limits, Entries(derive, rows)), a, b);
  }

  function EntryOf(derive: LogRow -> Extraction): LogRow -> Entry {
    (row: LogRow) => match derive(row) case Identified(id, d) => Entry(id, d, row) case _ => Entry("", Descriptor("", None, None), row)
  }

  function IsIdentified(derive: LogRow -> Extraction): LogRow -> bool { (row: LogRow) => derive(row).Identified? }

  lemma {:induction false} EntriesAsImage(derive: LogRow -> Extraction, rows: seq<LogRow>)
    ensures Entries(derive, rows) == Apply(EntryOf(derive), Filter(IsIdentified(derive), rows))
  {
    if rows != [] {
      var front := rows[..|rows|-1];
      EntriesAsImage(derive, front);
      ApplySnoc(EntryOf(derive), Filter(IsIdentified(derive), front), rows[|rows|-1]);
    }
  }

  lemma EntriesPermuteToo(derive: LogRow -> Extraction, rows: seq<LogRow>, other: seq<LogRow>)
    requires multiset(rows) == multiset(other)
    ensures multiset(Entries(derive, rows)) == multiset(Entries(derive, other))
  {
    EntriesAsImage(derive, rows);
    EntriesAsImage(derive, other);
    FilterPermutes(IsIdentified(derive), rows, other);
    ApplyPermutes(EntryOf(derive), Filter(IsIdentified(derive), rows), Filter(IsIdentified(derive), other));
  }
}
