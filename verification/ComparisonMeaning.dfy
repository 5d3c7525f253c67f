/** What a published comparison row says of the rows of the two windows, in terms of the rows alone
    (crates/logscope-app/src/comparison.rs with crates/logscope-case/src/comparison.rs). */
module ComparisonMeaning {
  import opened CappedGroups
  import opened Classify
  import opened Comparison
  import opened Ordering
  import opened Rows
  import opened Sequences
  import opened Sorting

  // ---- one side -----------------------------------------------------------------------------

  function Inside(start: int, end: int): LogRow -> bool {
    (row: LogRow) => row.eventTime.Some? && start <= row.eventTime.value < end
  }

  function HasKey(derive: LogRow -> KeyOutcome, key: string): LogRow -> bool {
    (row: LogRow) => derive(row).Key? && derive(row).key == key
  }

  /** The rows of a window the pass reads: the first ones, up to the record cap. */
  function WindowRows(rows: seq<LogRow>, start: int, end: int, maxRecords: nat): seq<LogRow> {
    Upto(maxRecords, Filter(Inside(start, end), rows))
  }

  lemma WindowIs(rows: seq<LogRow>, start: int, end: int, maxRecords: nat)
    ensures SideRows(rows, start, end, maxRecords) == WindowRows(rows, start, end, maxRecords)
  {
    FilterAgrees(InWindow(start, end), Inside(start, end), rows);
    hide Filter;
  }

  /** The stored count of a key: its rows in the window, or nothing where the key was refused. */
  ghost predicate CountHolds(derive: LogRow -> KeyOutcome, side: seq<LogRow>, counts: map<string, nat>, maxKeys: nat, key: string, n: nat) {
    || n == |Filter(HasKey(derive, key), side)|
    || (n == 0 && key !in counts && |counts| == maxKeys)
  }

  lemma CountMeans(derive: LogRow -> KeyOutcome, side: seq<LogRow>, maxKeys: nat, key: string)
    ensures var counts := CountsOf(maxKeys, KeysOf(derive, side));
      && |counts| <= maxKeys
      && (key in counts ==> counts[key] == |Filter(HasKey(derive, key), side)| > 0)
      && CountHolds(derive, side, counts, maxKeys, key, if key in counts then counts[key] else 0)
  {
    var keys := KeysOf(derive, side);
    hide GroupMap, Group, KeysOf, Filter, Distinct;
    CountedRows(derive, side, key);
    FilterAgrees(DerivesTo(derive, key), HasKey(derive, key), side);
    GroupKeys(maxKeys, Itself(), Length(), keys);
    GroupNonEmpty(Itself(), key, keys);
    assert Apply(Itself(), keys) == keys;
  }

  // ---- the published rows ----------------------------------------------------------------------

  /** A published row: its counts are those of the two sides, and its classification is that of the
      baseline count against the suspect count. */
  lemma ShownMeans(b: map<string, nat>, s: map<string, nat>, classify: (nat, nat) -> Answer, topK: nat, r: Report, shown: ResultRow)
    requires IsReport(b, s, classify, topK, r) && shown in r.results
    ensures shown.key in b || shown.key in s
    ensures shown.baseline == (if shown.key in b then b[shown.key] else 0)
    ensures shown.suspect == (if shown.key in s then s[shown.key] else 0)
    ensures shown.classified == classify(shown.baseline, shown.suspect)
  {
    RowReads(b, s, classify, shown.key);
    hide SortedBy, Sum, RowFor;
    var rest :| ReportWith(b, s, classify, topK, r, rest);
    var i :| 0 <= i < |r.results| && r.results[i] == shown;
    var rows := r.results + rest;
    assert rows[i] == shown;
    assert Apply(KeyOfRow(), rows)[i] == shown.key;
  }

  lemma RowReads(b: map<string, nat>, s: map<string, nat>, classify: (nat, nat) -> Answer, key: string)
    ensures var x: nat, y: nat := if key in b then b[key] else 0, if key in s then s[key] else 0;
      RowFor(b, s, classify)(key) == ResultRow(key, x, y, classify(x, y))
  {
  }

  /** Published rows come by combined count, the heaviest first, then by key; a key is shown once. */
  lemma ShownInOrder(b: map<string, nat>, s: map<string, nat>, classify: (nat, nat) -> Answer, topK: nat, r: Report, i: nat, j: nat)
    requires IsReport(b, s, classify, topK, r) && i < j < |r.results|
    ensures var x, y := r.results[i], r.results[j];
      x.baseline + x.suspect > y.baseline + y.suspect || (x.baseline + x.suspect == y.baseline + y.suspect && AtMost(x.key, y.key))
    ensures r.results[i].key != r.results[j].key
  {
    hide Sum, AtMost, RowFor;
    var rest :| ReportWith(b, s, classify, topK, r, rest);
    var rows := r.results + rest;
    assert rows[i] == r.results[i] && rows[j] == r.results[j];
    assert ByWeight()(rows[i], rows[j]);
  }

  /** `classify` is the table at machine width for these windows. */
  ghost predicate IsTable(classify: (nat, nat) -> Answer, durB: I64, durS: I64, t: Thresholds) {
    forall x: U64, y: U64 :: classify(x, y) == Classify.Classify(x, y, durB, durS, t)
  }

  /** Nothing of the computation leaves its width. */
  predicate Small(x: U64, y: U64, durB: I64, durS: I64, t: Thresholds) {
    var scale := if t.relThresholdBp > 10_000 then t.relThresholdBp else 10_000;
    y * durB * scale < TWO_127 && x * durS * scale < TWO_127 && -TWO_63 <= y - x < TWO_63
  }

  /** What the published verdict of a key says of the rows of the two windows. */
  lemma VerdictMeans(derive: LogRow -> KeyOutcome, baseline: seq<LogRow>, suspect: seq<LogRow>, maxKeys: nat,
                     classify: (nat, nat) -> Answer, durB: I64, durS: I64, t: Thresholds, topK: nat, r: Report, shown: ResultRow)
    requires durB > 0 && durS > 0 && IsTable(classify, durB, durS, t)
    requires IsReport(CountsOf(maxKeys, KeysOf(derive, baseline)), CountsOf(maxKeys, KeysOf(derive, suspect)), classify, topK, r)
    requires shown in r.results && shown.baseline < TWO_64 && shown.suspect < TWO_64
    requires Small(shown.baseline, shown.suspect, durB, durS, t)
    ensures CountHolds(derive, baseline, CountsOf(maxKeys, KeysOf(derive, baseline)), maxKeys, shown.key, shown.baseline)
    ensures CountHolds(derive, suspect, CountsOf(maxKeys, KeysOf(derive, suspect)), maxKeys, shown.key, shown.suspect)
    ensures shown.classified.Ok? && shown.classified.value.countChange == shown.suspect - shown.baseline
    ensures shown.classified.value == Meant(shown.baseline, shown.suspect, durB, durS, t)
    ensures var c := shown.classified.value.classification;
      && (c == Increased ==> shown.suspect * durB > shown.baseline * durS && shown.baseline > 0)
      && (c == Decreased ==> shown.suspect * durB < shown.baseline * durS && shown.suspect > 0)
      && (c == New ==> shown.baseline == 0 && shown.suspect > 0)
      && (c == Disappeared ==> shown.suspect == 0 && shown.baseline > 0)
  {
    var b, s := CountsOf(maxKeys, KeysOf(derive, baseline)), CountsOf(maxKeys, KeysOf(derive, suspect));
    hide CountsOf, KeysOf, Classify.Classify, Meant, IsReport, CountHolds, Filter;
    ShownMeans(b, s, classify, topK, r, shown);
    CountMeans(derive, baseline, maxKeys, shown.key);
    CountMeans(derive, suspect, maxKeys, shown.key);
    NothingWraps(shown.baseline, shown.suspect, durB, durS, t);
    VerdictsMean(shown.baseline, shown.suspect, durB, durS, t);
  }
}
