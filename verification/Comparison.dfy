/** Baseline-versus-suspect comparison (crates/logscope-app/src/comparison.rs): two bounded
    passes, the exact union of their keys, and an honest top-K. */
module Comparison {
  import opened CappedGroups
  import opened Ordering
  import opened Sequences
  import opened Sorting
  import opened Rows
  import opened Classify
  import Streaming

  // ---- configuration -----------------------------------------------------------------

  datatype Windows = Windows(baselineStart: I64, baselineEnd: I64, suspectStart: I64, suspectEnd: I64)

  /** The window checks of `ComparisonConfig::parse`. */
  predicate Accepts(w: Windows) {
    && !(w.baselineEnd <= w.baselineStart || w.suspectEnd <= w.suspectStart)
    && !(w.baselineStart < w.suspectEnd && w.suspectStart < w.baselineEnd)
  }

  predicate Within(t: int, start: int, end: int) { start <= t < end }

  /** Accepted windows are the non-empty half-open ones that share no instant. */
  lemma AcceptsIffDisjoint(w: Windows)
    ensures Accepts(w) <==>
      && (exists t :: Within(t, w.baselineStart, w.baselineEnd))
      && (exists t :: Within(t, w.suspectStart, w.suspectEnd))
      && (forall t :: !(Within(t, w.baselineStart, w.baselineEnd) && Within(t, w.suspectStart, w.suspectEnd)))
  {
    if w.baselineStart < w.baselineEnd { assert Within(w.baselineStart, w.baselineStart, w.baselineEnd); }
    if w.suspectStart < w.suspectEnd { assert Within(w.suspectStart, w.suspectStart, w.suspectEnd); }
    var t := if w.baselineStart > w.suspectStart then w.baselineStart else w.suspectStart;
    if w.baselineStart < w.baselineEnd && w.suspectStart < w.suspectEnd && !Accepts(w) {
      assert Within(t, w.baselineStart, w.baselineEnd) && Within(t, w.suspectStart, w.suspectEnd);
    }
  }

  /** What `classify` receives for a window: its length, wrapped to 64 bits. */
  function Length64(start: I64, end: I64): I64 { WrapI64(end - start) }

  lemma PositiveIff(start: I64, end: I64)
    requires start < end
    ensures Length64(start, end) > 0 <==> end - start < TWO_63
  {
  }

  /** An accepted pair of windows can be classified exactly when both are shorter than 2^63; a
      longer one wraps to a negative length and is refused. */
  lemma ClassifiableIff(w: Windows, b: U64, s: U64, t: Thresholds)
    requires Accepts(w)
    ensures Classify.Classify(b, s, Length64(w.baselineStart, w.baselineEnd), Length64(w.suspectStart, w.suspectEnd), t).Ok?
      <==> w.baselineEnd - w.baselineStart < TWO_63 && w.suspectEnd - w.suspectStart < TWO_63
  {
    PositiveIff(w.baselineStart, w.baselineEnd);
    PositiveIff(w.suspectStart, w.suspectEnd);
    AnswersIff(b, s, Length64(w.baselineStart, w.baselineEnd), Length64(w.suspectStart, w.suspectEnd), t);
    hide Classify.Classify, Length64;
  }

  // ---- one side ------------------------------------------------------------------------

  datatype KeyOutcome = Missing | MalformedStack | Key(key: string)

  function InWindow(start: int, end: int): LogRow -> bool {
    (row: LogRow) => row.eventTime.Some? && Within(row.eventTime.value, start, end)
  }

  /** The rows one pass sees: the window's rows, up to the record cap. */
  function SideRows(rows: seq<LogRow>, start: int, end: int, maxRecords: nat): seq<LogRow> {
    Streamed(Filter(InWindow(start, end), rows), maxRecords)
  }

  function KeysOf(derive: LogRow -> KeyOutcome, rows: seq<LogRow>): seq<string> {
    if rows == [] then []
    else
      var front := KeysOf(derive, rows[..|rows|-1]);
      match derive(rows[|rows|-1])
      case Key(k) => front + [k]
      case _ => front
  }

  function Itself(): string -> string { (k: string) => k }
  ghost function Length(): seq<string> -> nat { (s: seq<string>) => |s| }

  /** The exact count of every admitted key. */
  ghost function CountsOf(cap: nat, keys: seq<string>): map<string, nat> {
    GroupMap(cap, Itself(), Length(), keys)
  }

  class SideCounts {
    var counts: map<string, nat>
    var accepted: nat
    var excludedMissingField: nat
    var stackMalformed: nat
    var keysTruncated: bool
    var excludedOverKeyLimit: nat
    ghost var keys: seq<string>

    ghost predicate Valid(cap: nat)
      reads this
    {
      && counts == CountsOf(cap, keys)
      && accepted == |keys|
      && keysTruncated == Overflows(cap, Apply(Itself(), keys))
      && excludedOverKeyLimit == |keys| - HeldCount(cap, Itself(), keys)
    }

    constructor ()
      ensures forall cap :: Valid(cap)
      ensures keys == [] && excludedMissingField == 0 && stackMalformed == 0
    {
      counts, accepted, excludedMissingField, stackMalformed := map[], 0, 0, 0;
      keysTruncated, excludedOverKeyLimit, keys := false, 0, [];
    }

    method Count(cap: nat, key: string)
      requires Valid(cap)
      modifies this
      ensures Valid(cap) && keys == old(keys) + [key]
      ensures excludedMissingField == old(excludedMissingField) && stackMalformed == old(stackMalformed)
    {
      hide GroupMap, Group, Overflows, HeldCount;
      HeldSnoc(cap, Itself(), Length(), keys, key);
      if key in counts {
        GroupHeld(cap, Itself(), Length(), keys, key);
        counts := counts[key := counts[key] + 1];
      } else if |counts| >= cap {
        GroupRefused(cap, Itself(), Length(), keys, key);
        keysTruncated := true;
        excludedOverKeyLimit := excludedOverKeyLimit + 1;
      } else {
        GroupOpened(cap, Itself(), Length(), keys, key);
        counts := counts[key := 1];
      }
      accepted := accepted + 1;
      keys := keys + [key];
    }
  }

  lemma KeysSnoc(derive: LogRow -> KeyOutcome, rows: seq<LogRow>, row: LogRow)
    ensures KeysOf(derive, rows + [row]) == KeysOf(derive, rows) + (match derive(row) case Key(k) => [k] case _ => [])
  {
    assert (rows + [row])[..|rows|] == rows;
  }

  lemma NoKeys(derive: LogRow -> KeyOutcome)
    ensures KeysOf(derive, []) == [] && Filter(Lacks(derive), []) == []
  {
  }

  function Lacks(derive: LogRow -> KeyOutcome): LogRow -> bool { (row: LogRow) => derive(row).Missing? }

  lemma NothingAsked(cancelAt: nat -> bool)
    ensures !Streaming.Asked(cancelAt, 1, 0)
  {
  }

  /** One bounded pass over one window. `cancelAt(n)` answers the checkpoint after `n` rows. */
  method StreamSide(derive: LogRow -> KeyOutcome, rows: seq<LogRow>, start: int, end: int,
                    maxRecords: nat, maxKeys: nat, cancelAt: nat -> bool)
    returns (side: SideCounts, cancelled: bool)
    ensures side.Valid(maxKeys)
    ensures cancelled <==> Streaming.Asked(cancelAt, 1, |SideRows(rows, start, end, maxRecords)|)
    ensures !cancelled ==> side.keys == KeysOf(derive, SideRows(rows, start, end, maxRecords))
    ensures !cancelled ==> side.excludedMissingField == |Filter(Lacks(derive), SideRows(rows, start, end, maxRecords))|
    ensures !cancelled ==> side.accepted + side.excludedMissingField + side.stackMalformed == |SideRows(rows, start, end, maxRecords)|
  {
    hide CountsOf, Overflows, HeldCount, KeysOf, SideRows, Streamed, Filter, Streaming.Asked;
    side := new SideCounts();
    cancelled := false;
    var stream := SideRows(rows, start, end, maxRecords);
    var seen := 0;
    assert stream[..0] == [];
    NoKeys(derive);
    NothingAsked(cancelAt);
    while seen < |stream|
      invariant fresh(side) && side.Valid(maxKeys) && seen <= |stream|
      invariant side.keys == KeysOf(derive, stream[..seen])
      invariant side.excludedMissingField == |Filter(Lacks(derive), stream[..seen])|
      invariant !Streaming.Asked(cancelAt, 1, seen)
      invariant side.accepted + side.excludedMissingField + side.stackMalformed == seen
    {
      var row := stream[seen];
      KeysSnoc(derive, stream[..seen], row);
      FilterSnoc(Lacks(derive), stream[..seen], row);
      Streaming.AskedLater(cancelAt, 1, seen);
      assert stream[..seen + 1] == stream[..seen] + [row];
      seen := seen + 1;
      if seen % 4096 == 0 && cancelAt(seen) {
        cancelled := true;
        Streaming.AskedMore(cancelAt, 1, seen, |stream|);
        return;
      }
      match derive(row) {
        case Missing => side.excludedMissingField := side.excludedMissingField + 1;
        case MalformedStack => side.stackMalformed := side.stackMalformed + 1;
        case Key(k) => side.Count(maxKeys, k);
      }
    }
    assert stream[..seen] == stream;
  }

  /** A side's stored counts and its over-limit counter add up to what it accepted. */
  lemma SideIsConserved(cap: nat, keys: seq<string>, ks: seq<string>)
    requires Ascends(ByName(), ks, CountsOf(cap, keys).Keys)
    ensures Sum(Apply(CountIn(CountsOf(cap, keys)), ks)) == HeldCount(cap, Itself(), keys)
  {
    hide GroupMap, Group;
    GroupKeys(cap, Itself(), Length(), keys);
    HeldSizesAdd(cap, Itself(), keys, ks);
    assert Apply(CountIn(CountsOf(cap, keys)), ks) == Apply(GroupSize(Itself(), keys), ks);
  }

  // ---- the union and the top-K --------------------------------------------------------------

  /** A key's stored count; a key the side never held counts as zero. */
  function CountIn(m: map<string, nat>): string -> int { (k: string) => if k in m then m[k] else 0 }

  datatype ResultRow = ResultRow(key: string, baseline: nat, suspect: nat, classified: Answer)

  function RowFor(b: map<string, nat>, s: map<string, nat>, classify: (nat, nat) -> Answer): string -> ResultRow {
    (k: string) =>
      var x: nat, y: nat := if k in b then b[k] else 0, if k in s then s[k] else 0;
      ResultRow(k, x, y, classify(x, y))
  }

  /** Combined count descending, then key ascending. */
  function ByWeight(): (ResultRow, ResultRow) -> bool {
    (p: ResultRow, q: ResultRow) =>
      p.baseline + p.suspect > q.baseline + q.suspect ||
      (p.baseline + p.suspect == q.baseline + q.suspect && Ordering.AtMost(p.key, q.key))
  }

  lemma ByWeightIsPreorder()
    ensures TotalPreorder(ByWeight())
    ensures forall p, q :: ByWeight()(p, q) && ByWeight()(q, p) ==> p.key == q.key
  {
    forall p, q ensures ByWeight()(p, q) || ByWeight()(q, p) { AtMostTotal(p.key, q.key); }
    forall p, q, r | ByWeight()(p, q) && ByWeight()(q, r) ensures ByWeight()(p, r) {
      if p.baseline + p.suspect == q.baseline + q.suspect == r.baseline + r.suspect { AtMostTransitive(p.key, q.key, r.key); }
    }
    forall p, q | ByWeight()(p, q) && ByWeight()(q, p) ensures p.key == q.key { AtMostAntisymmetric(p.key, q.key); }
  }

  function KeyOfRow(): ResultRow -> string { (r: ResultRow) => r.key }
  function BaselineOf(): ResultRow -> int { (r: ResultRow) => r.baseline }
  function SuspectOf(): ResultRow -> int { (r: ResultRow) => r.suspect }

  /** `rows` lists every key of either side once, with its exact pair of counts, in stored order. */
  ghost predicate ListsUnion(b: map<string, nat>, s: map<string, nat>, classify: (nat, nat) -> Answer, rows: seq<ResultRow>) {
    && SortedBy(ByWeight(), rows)
    && (forall k :: k in Apply(KeyOfRow(), rows) <==> k in b || k in s)
    && (forall i, j :: 0 <= i < j < |rows| ==> rows[i].key != rows[j].key)
    && (forall r :: r in rows ==> r == RowFor(b, s, classify)(r.key))
  }

  /** The published part, and what the aggregated remainder says about the rest. */
  datatype Report = Report(results: seq<ResultRow>, distinctKeys: nat, remainderKeys: nat, remainderBaseline: nat, remainderSuspect: nat)

  ghost predicate ReportWith(b: map<string, nat>, s: map<string, nat>, classify: (nat, nat) -> Answer, topK: nat, r: Report, rest: seq<ResultRow>) {
    && ListsUnion(b, s, classify, r.results + rest)
    && |r.results| == (if r.distinctKeys <= topK then r.distinctKeys else topK)
    && r.distinctKeys == |r.results| + |rest|
    && r.remainderKeys == |rest|
    && r.remainderBaseline == Sum(Apply(BaselineOf(), rest))
    && r.remainderSuspect == Sum(Apply(SuspectOf(), rest))
  }

  ghost predicate IsReport(b: map<string, nat>, s: map<string, nat>, classify: (nat, nat) -> Answer, topK: nat, r: Report) {
    exists rest :: ReportWith(b, s, classify, topK, r, rest)
  }

  lemma RowForKey(b: map<string, nat>, s: map<string, nat>, classify: (nat, nat) -> Answer, ks: seq<string>)
    ensures Apply(KeyOfRow(), Apply(RowFor(b, s, classify), ks)) == ks
    ensures forall r :: r in Apply(RowFor(b, s, classify), ks) ==> r == RowFor(b, s, classify)(r.key)
  {
  }

  lemma DistinctRows(rows: seq<ResultRow>)
    requires forall i, j :: 0 <= i < j < |rows| ==> Apply(KeyOfRow(), rows)[i] != Apply(KeyOfRow(), rows)[j]
    ensures forall i, j :: 0 <= i < j < |rows| ==> rows[i].key != rows[j].key
  {
    forall i, j | 0 <= i < j < |rows| ensures rows[i].key != rows[j].key {
      assert Apply(KeyOfRow(), rows)[i] != Apply(KeyOfRow(), rows)[j];
    }
  }

  lemma SortedUnion(b: map<string, nat>, s: map<string, nat>, classify: (nat, nat) -> Answer, ks: seq<string>)
    requires Ascends(ByName(), ks, b.Keys + s.Keys)
    ensures ListsUnion(b, s, classify, SortBy(ByWeight(), Apply(RowFor(b, s, classify), ks)))
  {
    hide SortBy, RowFor, Apply, SortedBy, ByWeight, AtMost;
    var rows := Apply(RowFor(b, s, classify), ks);
    var sorted := SortBy(ByWeight(), rows);
    RowForKey(b, s, classify, ks);
    assert TotalPreorder(ByWeight()) by { ByWeightIsPreorder(); }
    SortSorts(ByWeight(), rows);
    SortPermutes(ByWeight(), rows);
    ApplyPermutes(KeyOfRow(), rows, sorted);
    hide TotalPreorder;
    UnionListed(b, s, classify, ks, rows, sorted);
  }

  /** A permutation of the rows of all keys, once sorted, lists the union. */
  lemma UnionListed(b: map<string, nat>, s: map<string, nat>, classify: (nat, nat) -> Answer, ks: seq<string>,
                    rows: seq<ResultRow>, sorted: seq<ResultRow>)
    requires Ascends(ByName(), ks, b.Keys + s.Keys) && SortedBy(ByWeight(), sorted)
    requires multiset(rows) == multiset(sorted) && multiset(ks) == multiset(Apply(KeyOfRow(), sorted))
    requires forall r :: r in rows ==> r == RowFor(b, s, classify)(r.key)
    ensures ListsUnion(b, s, classify, sorted)
  {
    hide RowFor, Apply, SortedBy, ByWeight, AtMost;
    forall k ensures k in Apply(KeyOfRow(), sorted) <==> k in ks { SameMembers(ks, Apply(KeyOfRow(), sorted), k); }
    forall r | r in sorted ensures r == RowFor(b, s, classify)(r.key) { SameMembers(rows, sorted, r); }
    DistinctPermutation(ks, Apply(KeyOfRow(), sorted));
    DistinctRows(sorted);
  }

  method ClassifyAll(b: map<string, nat>, s: map<string, nat>, classify: (nat, nat) -> Answer, ks: seq<string>)
    returns (rows: seq<ResultRow>)
    ensures rows == Apply(RowFor(b, s, classify), ks)
  {
    hide *;
    rows := [];
    var i := 0;
    while i < |ks|
      invariant i <= |ks| && rows == Apply(RowFor(b, s, classify), ks[..i])
    {
      ApplySnoc(RowFor(b, s, classify), ks[..i], ks[i]);
      assert ks[..i + 1] == ks[..i] + [ks[i]];
      rows := rows + [RowFor(b, s, classify)(ks[i])];
      i := i + 1;
    }
    assert ks[..i] == ks;
  }

  /** Everything after the two passes: union, classify, sort, split. */
  method Assemble(b: map<string, nat>, s: map<string, nat>, classify: (nat, nat) -> Answer, topK: nat) returns (r: Report)
    ensures IsReport(b, s, classify, topK, r)
  {
    assert StrictOrder(ByName()) by { ByNameIsOrder(); }
    hide *;
    var ks := Ascending(ByName(), b.Keys + s.Keys);
    var rows := ClassifyAll(b, s, classify, ks);
    SortedUnion(b, s, classify, ks);
    r := SplitOff(SortBy(ByWeight(), rows), topK, b, s, classify);
  }

  /** `split_off` at `top_k`, with the tail summed instead of dropped. */
  method SplitOff(sorted: seq<ResultRow>, topK: nat, ghost b: map<string, nat>, ghost s: map<string, nat>, ghost classify: (nat, nat) -> Answer)
    returns (r: Report)
    requires ListsUnion(b, s, classify, sorted)
    ensures IsReport(b, s, classify, topK, r)
  {
    hide ListsUnion;
    var cut := if |sorted| <= topK then |sorted| else topK;
    var results, rest := sorted[..cut], sorted[cut..];
    r := Report(results, |sorted|, |rest|, Total(BaselineOf(), rest), Total(SuspectOf(), rest));
    assert results + rest == sorted;
    assert ReportWith(b, s, classify, topK, r, rest);
  }

  /** `iter().map(..).sum()`; counts are never negative. */
  function Total(f: ResultRow -> int, rows: seq<ResultRow>): (n: nat)
    requires forall r :: r in rows ==> f(r) >= 0
    ensures n == Sum(Apply(f, rows))
  {
    Sum(Apply(f, rows))
  }

  /** Shown plus remainder is everything either side stored. */
  lemma ReportIsHonest(b: map<string, nat>, s: map<string, nat>, classify: (nat, nat) -> Answer, topK: nat, r: Report, ks: seq<string>)
    requires IsReport(b, s, classify, topK, r) && Ascends(ByName(), ks, b.Keys + s.Keys)
    ensures Sum(Apply(BaselineOf(), r.results)) + r.remainderBaseline == Sum(Apply(CountIn(b), ks))
    ensures Sum(Apply(SuspectOf(), r.results)) + r.remainderSuspect == Sum(Apply(CountIn(s), ks))
    ensures r.distinctKeys == |ks|
  {
    hide ListsUnion;
    var rest :| ReportWith(b, s, classify, topK, r, rest);
    var rows := r.results + rest;
    RowsMatchKeys(b, s, classify, rows, ks);
    ApplyConcat(BaselineOf(), r.results, rest);
    ApplyConcat(SuspectOf(), r.results, rest);
    SumConcat(Apply(BaselineOf(), r.results), Apply(BaselineOf(), rest));
    SumConcat(Apply(SuspectOf(), r.results), Apply(SuspectOf(), rest));
  }

  lemma NamesPermute(b: map<string, nat>, s: map<string, nat>, classify: (nat, nat) -> Answer, rows: seq<ResultRow>, ks: seq<string>)
    requires ListsUnion(b, s, classify, rows) && Ascends(ByName(), ks, b.Keys + s.Keys)
    ensures multiset(Apply(KeyOfRow(), rows)) == multiset(ks)
  {
    hide SortedBy, RowFor;
    SameSetPermutes(Apply(KeyOfRow(), rows), ks);
  }

  lemma RowsProject(b: map<string, nat>, s: map<string, nat>, classify: (nat, nat) -> Answer, rows: seq<ResultRow>)
    requires ListsUnion(b, s, classify, rows)
    ensures Apply(BaselineOf(), rows) == Apply(CountIn(b), Apply(KeyOfRow(), rows))
    ensures Apply(SuspectOf(), rows) == Apply(CountIn(s), Apply(KeyOfRow(), rows))
  {
    hide SortedBy;
    forall i | 0 <= i < |rows| ensures rows[i] == RowFor(b, s, classify)(rows[i].key) { assert rows[i] in rows; }
  }

  lemma RowsMatchKeys(b: map<string, nat>, s: map<string, nat>, classify: (nat, nat) -> Answer, rows: seq<ResultRow>, ks: seq<string>)
    requires ListsUnion(b, s, classify, rows) && Ascends(ByName(), ks, b.Keys + s.Keys)
    ensures |rows| == |ks|
    ensures Sum(Apply(BaselineOf(), rows)) == Sum(Apply(CountIn(b), ks))
    ensures Sum(Apply(SuspectOf(), rows)) == Sum(Apply(CountIn(s), ks))
  {
    hide ListsUnion, Ascends;
    var names := Apply(KeyOfRow(), rows);
    NamesPermute(b, s, classify, rows, ks);
    RowsProject(b, s, classify, rows);
    PermutedLength(names, ks);
    ApplyPermutes(CountIn(b), names, ks);
    ApplyPermutes(CountIn(s), names, ks);
    SumPermutes(Apply(CountIn(b), names), Apply(CountIn(b), ks));
    SumPermutes(Apply(CountIn(s), names), Apply(CountIn(s), ks));
  }

  /** No row of the remainder outweighs, or is tied and named before, a shown row. */
  lemma TopKIsTop(b: map<string, nat>, s: map<string, nat>, classify: (nat, nat) -> Answer, topK: nat, r: Report, k: string)
    requires IsReport(b, s, classify, topK, r) && (k in b || k in s)
    requires k !in Apply(KeyOfRow(), r.results)
    ensures forall shown :: shown in r.results ==> ByWeight()(shown, RowFor(b, s, classify)(k))
  {
    hide RowFor, ByWeight, Sum, ListsUnion;
    var rest :| ReportWith(b, s, classify, topK, r, rest);
    var rows := r.results + rest;
    var j := RowOf(b, s, classify, rows, k);
    assert forall i :: 0 <= i < |r.results| ==> Apply(KeyOfRow(), r.results)[i] == rows[i].key;
    forall shown | shown in r.results ensures ByWeight()(shown, rows[j]) {
      var i :| 0 <= i < |r.results| && r.results[i] == shown;
      assert rows[i] == shown;
      HeavierFirst(b, s, classify, rows, i, j);
    }
  }

  lemma HeavierFirst(b: map<string, nat>, s: map<string, nat>, classify: (nat, nat) -> Answer, rows: seq<ResultRow>, i: nat, j: nat)
    requires ListsUnion(b, s, classify, rows) && i < j < |rows|
    ensures ByWeight()(rows[i], rows[j])
  {
    hide RowFor, ByWeight;
  }

  lemma RowOf(b: map<string, nat>, s: map<string, nat>, classify: (nat, nat) -> Answer, rows: seq<ResultRow>, k: string) returns (j: nat)
    requires ListsUnion(b, s, classify, rows) && (k in b || k in s)
    ensures j < |rows| && rows[j].key == k && rows[j] == RowFor(b, s, classify)(k)
  {
    hide SortedBy, RowFor;
    j :| 0 <= j < |rows| && Apply(KeyOfRow(), rows)[j] == k;
    assert rows[j] in rows;
  }

  /** The two count maps and the cut decide the whole report. */
  lemma ReportUnique(b: map<string, nat>, s: map<string, nat>, classify: (nat, nat) -> Answer, topK: nat, p: Report, q: Report)
    requires IsReport(b, s, classify, topK, p) && IsReport(b, s, classify, topK, q)
    ensures p == q
  {
    hide ListsUnion;
    var x :| ReportWith(b, s, classify, topK, p, x);
    var y :| ReportWith(b, s, classify, topK, q, y);
    ListsUnionUnique(b, s, classify, p.results + x, q.results + y);
    SplitAlike(p.results, x, q.results, y);
  }

  lemma SplitAlike<T>(a: seq<T>, x: seq<T>, b: seq<T>, y: seq<T>)
    requires a + x == b + y && |a| == |b|
    ensures a == b && x == y
  {
    assert a == (a + x)[..|a|] && b == (b + y)[..|b|];
    assert x == (a + x)[|a|..] && y == (b + y)[|b|..];
  }

  lemma ListsUnionUnique(b: map<string, nat>, s: map<string, nat>, classify: (nat, nat) -> Answer, p: seq<ResultRow>, q: seq<ResultRow>)
    requires ListsUnion(b, s, classify, p) && ListsUnion(b, s, classify, q)
    ensures p == q
  {
    ByWeightIsPreorder();
    forall r ensures multiset(p)[r] == multiset(q)[r] {
      UnionMember(b, s, classify, p, r);
      UnionMember(b, s, classify, q, r);
      DistinctMultiset(p, r);
      DistinctMultiset(q, r);
    }
    SameCounts(multiset(p), multiset(q));
    SortedUnique(ByWeight(), p, q);
  }

  lemma UnionMember(b: map<string, nat>, s: map<string, nat>, classify: (nat, nat) -> Answer, rows: seq<ResultRow>, r: ResultRow)
    requires ListsUnion(b, s, classify, rows)
    ensures r in rows <==> (r.key in b || r.key in s) && r == RowFor(b, s, classify)(r.key)
  {
    if r in rows {
      var i :| 0 <= i < |rows| && rows[i] == r;
      assert Apply(KeyOfRow(), rows)[i] == r.key;
    }
    if r.key in Apply(KeyOfRow(), rows) {
      var i :| 0 <= i < |rows| && Apply(KeyOfRow(), rows)[i] == r.key;
      assert rows[i] in rows;
    }
  }

  // ---- stream order ---------------------------------------------------------------------------

  /** A side that fits its key cap forgets the order its rows came in. */
  lemma CountsForgetOrder(cap: nat, a: seq<string>, c: seq<string>)
    requires multiset(a) == multiset(c) && !Overflows(cap, Apply(Itself(), a))
    ensures CountsOf(cap, a) == CountsOf(cap, c)
  {
    hide GroupMap, Group, Overflows;
    forall k | k in Apply(Itself(), a) ensures Length()(Group(Itself(), k, a)) == Length()(Group(Itself(), k, c)) {
      GroupPermutes(Itself(), k, a, c);
      PermutedLength(Group(Itself(), k, a), Group(Itself(), k, c));
    }
    GroupMapPermutes(cap, Itself(), Length(), a, c);
  }

  // ---- drill-down -------------------------------------------------------------------------------

  function DerivesTo(derive: LogRow -> KeyOutcome, key: string): LogRow -> bool {
    (row: LogRow) => match derive(row) case Key(k) => k == key case _ => false
  }

  method ComparisonRecords(derive: LogRow -> KeyOutcome, rows: seq<LogRow>, start: int, end: int,
                           maxRecords: nat, key: string, limit: nat) returns (hits: seq<LogRow>)
    ensures hits == Upto(Streaming.Clamped(limit), Filter(DerivesTo(derive, key), SideRows(rows, start, end, maxRecords)))
  {
    hits := Streaming.Matching(SideRows(rows, start, end, maxRecords), DerivesTo(derive, key), limit);
  }

  lemma {:induction false} CountedRows(derive: LogRow -> KeyOutcome, rows: seq<LogRow>, key: string)
    ensures |Filter(DerivesTo(derive, key), rows)| == |Group(Itself(), key, KeysOf(derive, rows))|
  {
    if rows != [] {
      var front, row := rows[..|rows|-1], rows[|rows|-1];
      CountedRows(derive, front, key);
      assert rows == front + [row];
      FilterSnoc(DerivesTo(derive, key), front, row);
      KeysSnoc(derive, front, row);
      match derive(row) {
        case Key(k) => GroupSnoc(Itself(), key, KeysOf(derive, front), k);
        case _ =>
      }
    }
  }

  /** Drill-down into a key finds exactly the stored side count if and only if the side's keys
      lack the key or fewer than `maxKeys` other keys come before its first occurrence. Otherwise
      the count reads zero while the records are there. */
  lemma DrillDownAgreesIff(derive: LogRow -> KeyOutcome, rows: seq<LogRow>, start: int, end: int,
                           maxRecords: nat, maxKeys: nat, key: string)
    ensures var keys := KeysOf(derive, SideRows(rows, start, end, maxRecords));
      |Filter(DerivesTo(derive, key), SideRows(rows, start, end, maxRecords))| == CountIn(CountsOf(maxKeys, keys))(key)
      <==> key !in keys || |Distinct(keys[..FirstOf(keys, key)])| < maxKeys
  {
    hide GroupMap, Group, KeysOf, SideRows, Filter, Distinct, FirstOf;
    var keys := KeysOf(derive, SideRows(rows, start, end, maxRecords));
    CountedRows(derive, SideRows(rows, start, end, maxRecords), key);
    GroupKeys(maxKeys, Itself(), Length(), keys);
    GroupNonEmpty(Itself(), key, keys);
    assert Apply(Itself(), keys) == keys;
    if key in keys { AdmittedIff(maxKeys, keys, key); }
  }

  function ByMessage(): LogRow -> KeyOutcome { (row: LogRow) => Key(row.message) }

  function Event(id: string, message: string): LogRow { LogRow(id, "d", "s", "r", Some(0), None, message, map[]) }

  lemma TwoRows(first: LogRow, second: LogRow)
    requires InWindow(0, 1)(first) && InWindow(0, 1)(second)
    ensures SideRows([first, second], 0, 1, 10) == [first, second]
  {
    FilterSnoc(InWindow(0, 1), [], first);
    FilterSnoc(InWindow(0, 1), [first], second);
    assert [] + [first] == [first] && [first] + [second] == [first, second];
  }

  lemma TwoKeys(first: LogRow, second: LogRow)
    ensures KeysOf(ByMessage(), [first, second]) == [first.message, second.message]
  {
    KeysSnoc(ByMessage(), [], first);
    KeysSnoc(ByMessage(), [first], second);
    assert [] + [first] == [first] && [first] + [second] == [first, second];
  }

  lemma OneHit(derive: LogRow -> KeyOutcome, key: string, first: LogRow, second: LogRow)
    requires !DerivesTo(derive, key)(first) && DerivesTo(derive, key)(second)
    ensures |Filter(DerivesTo(derive, key), [first, second])| == 1
  {
    FilterSnoc(DerivesTo(derive, key), [], first);
    FilterSnoc(DerivesTo(derive, key), [first], second);
    assert [] + [first] == [first] && [first] + [second] == [first, second];
  }

  /** Two rows with different keys under a cap of one: the second key is refused, its count reads
      zero, and drill-down finds its record. */
  lemma RefusedKeyReadsZero()
    ensures var rows := [Event("log-1", "a"), Event("log-2", "b")];
      var keys := KeysOf(ByMessage(), SideRows(rows, 0, 1, 10));
      && keys == ["a", "b"]
      && |Filter(DerivesTo(ByMessage(), "b"), SideRows(rows, 0, 1, 10))| == 1
      && CountIn(CountsOf(1, keys))("b") == 0
  {
    var first, second := Event("log-1", "a"), Event("log-2", "b");
    TwoRows(first, second);
    TwoKeys(first, second);
    OneHit(ByMessage(), "b", first, second);
    hide GroupMap, Filter, SideRows, KeysOf, CountIn, DerivesTo;
    OneHeld();
  }

  lemma OneHeld()
    ensures CountIn(CountsOf(1, ["a", "b"]))("b") == 0
  {
    var keys := ["a", "b"];
    GroupKeys(1, Itself(), Length(), keys);
    assert Apply(Itself(), keys) == keys;
    hide GroupMap;
    HeadAdmitted(1, keys);
    assert "b" !in Admitted(1, keys) by {
      var held := Admitted(1, keys);
      assert "a" in held && "a" != "b" && |held| <= 1;
    }
  }
}
