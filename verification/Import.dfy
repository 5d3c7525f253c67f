/** The import pipeline (crates/logscope-app/src/import.rs): files, batches, items. */
module Import {
  import opened Sequences
  import opened Rows

  // ---- data model ------------------------------------------------------------------

  datatype Record = Record(recordId: string, eventTime: Option<int>, body: string)

  /** What a reader yields: a parsed record or a malformed one, with its number if known. */
  datatype Item =
    | Parsed(number: Option<nat>, raw: string)
    | Malformed(number: Option<nat>)

  datatype LedgerCounts = LedgerCounts(accepted: nat, rejected: nat, unparsed: nat, duplicate: nat) {
    function Plus(o: LedgerCounts): LedgerCounts {
      LedgerCounts(accepted + o.accepted, rejected + o.rejected, unparsed + o.unparsed, duplicate + o.duplicate)
    }
    function Total(): nat { accepted + rejected + unparsed + duplicate }
  }

  const ZERO := LedgerCounts(0, 0, 0, 0)

  datatype LedgerEntry = LedgerEntry(lastRecordNumber: nat, counts: LedgerCounts)

  type Key = seq<int>

  /** `batch_size.clamp(64, 65_536)`. */
  function BatchSize(requested: nat): (n: nat)
    ensures 64 <= n <= 65_536 && (64 <= requested <= 65_536 ==> n == requested)
    ensures (requested < 64 ==> n == 64) && (requested > 65_536 ==> n == 65_536)
  {
    if requested < 64 then 64 else if requested > 65_536 then 65_536 else requested
  }

  /** `segment_max_rows.clamp(1_024, 4_000_000)`. */
  function SegmentMaxRows(requested: nat): (n: nat)
    ensures 1_024 <= n <= 4_000_000 && (1_024 <= requested <= 4_000_000 ==> n == requested)
    ensures (requested < 1_024 ==> n == 1_024) && (requested > 4_000_000 ==> n == 4_000_000)
  {
    if requested < 1_024 then 1_024 else if requested > 4_000_000 then 4_000_000 else requested
  }

  // ---- specification: first occurrence wins on the flat record stream -----------------

  /** Normalisation of one raw record of one file: a record, or a reject. */
  type Normalizer = (nat, string) -> Option<Record>

  datatype Verdict = Good(record: Record) | Rejected | Unparsed

  function Judge(normalize: Normalizer, file: nat, item: Item): Verdict {
    match item
    case Malformed(_) => Unparsed
    case Parsed(_, raw) =>
      match normalize(file, raw)
      case Some(r) => Good(r)
      case None => Rejected
  }

  function IsRejected(normalize: Normalizer, file: nat): Item -> bool {
    (item: Item) => Judge(normalize, file, item).Rejected?
  }
  function IsUnparsed(): Item -> bool { (item: Item) => item.Malformed? }

  function GoodRecords(normalize: Normalizer, file: nat, items: seq<Item>): seq<Record> {
    if items == [] then []
    else
      var front := GoodRecords(normalize, file, items[..|items|-1]);
      match Judge(normalize, file, items[|items|-1])
      case Good(r) => front + [r]
      case _ => front
  }

  /** Every good record of every file, in reading order. */
  function FlatRecords(normalize: Normalizer, files: seq<seq<Item>>): seq<Record> {
    if files == [] then []
    else
      var n := |files| - 1;
      FlatRecords(normalize, files[..n]) + GoodRecords(normalize, n, files[n])
  }

  /** The records whose key no earlier record had. */
  function Kept(key: Record -> Key, s: seq<Record>): (r: seq<Record>)
    ensures |r| <= |s|
  {
    if s == [] then []
    else
      var n := |s| - 1;
      if key(s[n]) in Apply(key, s[..n]) then Kept(key, s[..n]) else Kept(key, s[..n]) + [s[n]]
  }

  lemma KeptSnoc(key: Record -> Key, s: seq<Record>, r: Record)
    ensures Kept(key, s + [r]) == if key(r) in Apply(key, s) then Kept(key, s) else Kept(key, s) + [r]
  {
    assert (s + [r])[..|s|] == s;
  }

  /** The kept keys are the distinct keys of the stream, in order of first occurrence. */
  lemma {:induction false} KeptKeys(key: Record -> Key, s: seq<Record>)
    ensures Apply(key, Kept(key, s)) == Distinct(Apply(key, s))
  {
    if s != [] {
      var n := |s| - 1;
      KeptKeys(key, s[..n]);
      assert s == s[..n] + [s[n]];
      ApplySnoc(key, s[..n], s[n]);
      ApplySnoc(key, Kept(key, s[..n]), s[n]);
      DistinctSnoc(Apply(key, s[..n]), key(s[n]));
    }
  }

  /** Position `i` holds `r`, and no earlier position holds its key. */
  ghost predicate FirstAt(key: Record -> Key, s: seq<Record>, i: int, r: Record) {
    0 <= i < |s| && s[i] == r && key(r) !in Apply(key, s[..i])
  }

  /** A record is kept exactly when some occurrence of it is the first with its key. */
  lemma {:induction false} KeptAreFirsts(key: Record -> Key, s: seq<Record>, r: Record)
    ensures r in Kept(key, s) <==> exists i :: FirstAt(key, s, i, r)
  {
    if s != [] {
      var n := |s| - 1;
      KeptAreFirsts(key, s[..n], r);
      forall i | 0 <= i < n ensures FirstAt(key, s, i, r) <==> FirstAt(key, s[..n], i, r) {
        assert s[..n][..i] == s[..i];
      }
      assert FirstAt(key, s, n, s[n]) <==> key(s[n]) !in Apply(key, s[..n]);
    }
  }

  /** Listing the same files again adds nothing. */
  lemma {:induction false} KeptAgain(key: Record -> Key, s: seq<Record>, t: seq<Record>)
    requires forall r :: r in t ==> key(r) in Apply(key, s)
    ensures Kept(key, s + t) == Kept(key, s)
  {
    if t == [] {
      assert s + t == s;
    } else {
      var n := |t| - 1;
      KeptAgain(key, s, t[..n]);
      assert s + t == (s + t[..n]) + [t[n]];
      KeptSnoc(key, s + t[..n], t[n]);
      ApplyConcat(key, s, t[..n]);
    }
  }

  /** What file `i` adds to the job, given the files before it. */
  function FileCounts(normalize: Normalizer, key: Record -> Key, files: seq<seq<Item>>, i: nat): LedgerCounts
    requires i < |files|
  {
    var good := GoodRecords(normalize, i, files[i]);
    var before := FlatRecords(normalize, files[..i]);
    KeptGrows(key, before, good);
    var news := |Kept(key, before + good)| - |Kept(key, before)|;
    LedgerCounts(
      news,
      |Filter(IsRejected(normalize, i), files[i])|,
      |Filter(IsUnparsed(), files[i])|,
      |good| - news)
  }

  lemma {:induction false} KeptGrows(key: Record -> Key, s: seq<Record>, t: seq<Record>)
    ensures |Kept(key, s)| <= |Kept(key, s + t)| <= |Kept(key, s)| + |t|
  {
    if t == [] {
      assert s + t == s;
    } else {
      var n := |t| - 1;
      KeptGrows(key, s, t[..n]);
      assert s + t == (s + t[..n]) + [t[n]];
      KeptSnoc(key, s + t[..n], t[n]);
    }
  }

  function LastNumber(items: seq<Item>): nat {
    if items == [] then 0
    else
      match items[|items|-1].number
      case Some(n) => n
      case None => LastNumber(items[..|items|-1])
  }

  lemma GoodSnoc(normalize: Normalizer, file: nat, items: seq<Item>, item: Item)
    ensures GoodRecords(normalize, file, items + [item]) == GoodRecords(normalize, file, items) +
              (match Judge(normalize, file, item) case Good(r) => [r] case _ => [])
    ensures |Filter(IsRejected(normalize, file), items + [item])| ==
            |Filter(IsRejected(normalize, file), items)| + if Judge(normalize, file, item).Rejected? then 1 else 0
    ensures |Filter(IsUnparsed(), items + [item])| == |Filter(IsUnparsed(), items)| + if item.Malformed? then 1 else 0
    ensures LastNumber(items + [item]) == match item.number case Some(n) => n case None => LastNumber(items)
  {
    assert (items + [item])[..|items|] == items;
    FilterSnoc(IsRejected(normalize, file), items, item);
    FilterSnoc(IsUnparsed(), items, item);
  }

  /** Every item of a file is exactly one of good, rejected, unparsed. */
  lemma {:induction false} ItemsAreConserved(normalize: Normalizer, file: nat, items: seq<Item>)
    ensures |items| == |GoodRecords(normalize, file, items)| + |Filter(IsRejected(normalize, file), items)| + |Filter(IsUnparsed(), items)|
  {
    if items != [] {
      ItemsAreConserved(normalize, file, items[..|items|-1]);
    }
  }

  // ---- the innermost loop: one batch -----------------------------------------------

  /** The state of one file part-way through: `done` is every good record of the earlier
      files, `items` the items of this file read so far. */
  ghost predicate FileState(normalize: Normalizer, key: Record -> Key, file: nat, done: seq<Record>, items: seq<Item>,
                            seen: set<Key>, kept: seq<Record>, counts: LedgerCounts, pending: nat, last: nat)
  {
    var flat := done + GoodRecords(normalize, file, items);
    && (forall k :: k in seen <==> k in Apply(key, flat))
    && kept == Kept(key, flat)
    && counts.accepted + pending == |kept| - |Kept(key, done)|
    && counts.duplicate == |flat| - |done| - (counts.accepted + pending)
    && counts.rejected == |Filter(IsRejected(normalize, file), items)|
    && counts.unparsed == |Filter(IsUnparsed(), items)|
    && last == LastNumber(items)
  }

  /** One item: normalise it, then accept it, or count why not. */
  method TakeItem(normalize: Normalizer, key: Record -> Key, file: nat, item: Item,
                  seen: set<Key>, batch: seq<Record>, counts: LedgerCounts, last: nat,
                  ghost done: seq<Record>, ghost items: seq<Item>, ghost written: seq<Record>)
    returns (seen': set<Key>, batch': seq<Record>, counts': LedgerCounts, last': nat)
    requires FileState(normalize, key, file, done, items, seen, written + batch, counts, |batch|, last)
    ensures FileState(normalize, key, file, done, items + [item], seen', written + batch', counts', |batch'|, last')
    ensures |batch'| <= |batch| + 1 && counts'.accepted == counts.accepted
  {
    ghost var flat := done + GoodRecords(normalize, file, items);
    GoodSnoc(normalize, file, items, item);
    hide Filter, LastNumber, GoodRecords, Kept, IsRejected, IsUnparsed;
    seen', batch', counts', last' := seen, batch, counts, last;
    if item.number.Some? { last' := item.number.value; }
    match Judge(normalize, file, item) {
      case Good(record) =>
        assert done + GoodRecords(normalize, file, items + [item]) == flat + [record];
        KeptSnoc(key, flat, record);
        ApplySnoc(key, flat, record);
        if key(record) !in seen {
          seen', batch' := seen + {key(record)}, batch + [record];
          assert written + batch' == written + batch + [record];
        } else {
          counts' := counts.(duplicate := counts.duplicate + 1);
        }
      case Rejected =>
        assert done + GoodRecords(normalize, file, items + [item]) == flat;
        counts' := counts.(rejected := counts.rejected + 1);
      case Unparsed =>
        assert done + GoodRecords(normalize, file, items + [item]) == flat;
        counts' := counts.(unparsed := counts.unparsed + 1);
    }
  }

  method TakeBatch(normalize: Normalizer, key: Record -> Key, file: nat, items: seq<Item>, from: nat, to: nat,
                   seen: set<Key>, counts: LedgerCounts, last: nat,
                   ghost done: seq<Record>, ghost written: seq<Record>)
    returns (seen': set<Key>, batch: seq<Record>, counts': LedgerCounts, last': nat)
    requires from <= to <= |items|
    requires FileState(normalize, key, file, done, items[..from], seen, written, counts, 0, last)
    ensures FileState(normalize, key, file, done, items[..to], seen', written + batch, counts', |batch|, last')
    ensures |batch| <= to - from
  {
    hide FileState;
    seen', batch, counts', last' := seen, [], counts, last;
    assert written + [] == written;
    var i := from;
    while i < to
      invariant from <= i <= to
      invariant FileState(normalize, key, file, done, items[..i], seen', written + batch, counts', |batch|, last')
      invariant |batch| <= i - from
    {
      seen', batch, counts', last' :=
        TakeItem(normalize, key, file, items[i], seen', batch, counts', last', done, items[..i], written);
      assert items[..i + 1] == items[..i] + [items[i]];
      i := i + 1;
    }
  }

  // ---- segments ----------------------------------------------------------------------

  datatype Writer = Writer(staged: seq<seq<Record>>, current: Option<seq<Record>>) {
    function Written(): seq<Record> {
      Flatten(staged) + (match current case Some(rows) => rows case None => [])
    }

    /** Every rotated segment reached the threshold with its last batch; the open one has not. */
    ghost predicate Shaped(segmentMax: nat, batchSize: nat) {
      && (forall seg :: seg in staged ==> segmentMax <= |seg| < segmentMax + batchSize)
      && (current.Some? ==> 0 < |current.value| < segmentMax)
    }
  }

  /** Appends one non-empty batch to the open segment and rotates it when full. */
  method WriteBatch(w: Writer, batch: seq<Record>, segmentMax: nat, ghost batchSize: nat) returns (w': Writer)
    requires w.Shaped(segmentMax, batchSize) && 0 < |batch| <= batchSize && segmentMax > 0
    ensures w'.Shaped(segmentMax, batchSize)
    ensures w'.Written() == w.Written() + batch
  {
    var rows := (match w.current case Some(rows) => rows case None => []) + batch;
    hide Flatten;
    if |rows| >= segmentMax {
      FlattenSnoc(w.staged, rows);
      w' := Writer(w.staged + [rows], None);
    } else {
      w' := w.(current := Some(rows));
    }
  }

  // ---- one file ----------------------------------------------------------------------

  /** How many reads a file of `n` items takes from position `from` on, the empty one that ends it
      included. */
  function Reads(from: nat, n: nat, batchSize: nat): nat
    requires batchSize > 0
    decreases n - from
  {
    if from >= n then 1 else 1 + Reads(from + batchSize, n, batchSize)
  }

  /** One of those reads starts at `i`. */
  predicate ReadAt(i: nat, from: nat, n: nat, batchSize: nat)
    requires batchSize > 0
    decreases n - from
  {
    if from >= n then i == n else i == from || ReadAt(i, from + batchSize, n, batchSize)
  }

  /** Where a batch that starts at `i` ends. */
  function BatchEnd(i: nat, n: nat, batchSize: nat): (next: nat)
    requires i <= n && batchSize > 0
    ensures i <= next <= n && next - i <= batchSize && (next == i <==> i == n)
  {
    if n - i <= batchSize then n else i + batchSize
  }

  lemma NextRead(i: nat, next: nat, n: nat, batchSize: nat)
    requires batchSize > 0 && i < n && next == BatchEnd(i, n, batchSize)
    ensures Reads(i, n, batchSize) == 1 + Reads(next, n, batchSize)
    ensures forall j: nat :: ReadAt(j, i, n, batchSize) <==> j == i || ReadAt(j, next, n, batchSize)
  {
  }

  lemma LastRead(n: nat, batchSize: nat)
    requires batchSize > 0
    ensures Reads(n, n, batchSize) == 1 && forall j: nat :: ReadAt(j, n, n, batchSize) <==> j == n
  {
  }

  lemma Multiples(k: int, m: int, d: nat)
    requires d > 0
    ensures (k + 1) * d == k * d + d && (k - 1) * d == k * d - d
    ensures m > k ==> m * d >= k * d + d
  {
    if m > k { assert m * d == k * d + d + (m - k - 1) * d; }
  }

  predicate MultipleFrom(i: nat, k: nat, d: nat) { exists m: nat :: k <= m <= i && i == m * d }

  /** A file is read at the multiples of the batch size in front of its end, and at its end. */
  lemma {:induction false} ReadsStand(i: nat, k: nat, n: nat, batchSize: nat)
    requires batchSize > 0 && k * batchSize <= n + batchSize
    ensures ReadAt(i, k * batchSize, n, batchSize) <==> i == n || (i < n && MultipleFrom(i, k, batchSize))
    decreases n + batchSize - k * batchSize
  {
    var from := k * batchSize;
    Multiples(k, k, batchSize);
    if from < n { ReadsStand(i, k + 1, n, batchSize); }
    MultiplesStep(i, k, batchSize);
    hide MultipleFrom;
  }

  lemma MultiplesStep(i: nat, k: nat, d: nat)
    requires d > 0
    ensures MultipleFrom(i, k, d) <==> i == k * d || MultipleFrom(i, k + 1, d)
    ensures MultipleFrom(i, k, d) ==> i >= k * d
  {
    if m: nat :| k <= m <= i && i == m * d { Multiples(k, m, d); }
    if i == k * d { assert k <= i by { if k > 0 { Multiples(0, k, d); AtLeast(k, d); } } }
  }

  lemma AtLeast(k: nat, d: nat)
    requires d > 0
    ensures k <= k * d
  {
    assert k * d == k + k * (d - 1);
  }

  /** As many reads as it takes to cover the file, and one. */
  lemma {:induction false} ReadsCover(from: nat, n: nat, batchSize: nat)
    requires batchSize > 0 && from <= n
    ensures var r := Reads(from, n, batchSize) - 1;
      n - from <= r * batchSize && (r > 0 ==> (r - 1) * batchSize < n - from)
    decreases n - from
  {
    if from < n {
      var r := Reads(from, n, batchSize) - 1;
      Multiples(r - 1, r, batchSize);
      Multiples(r - 2, r, batchSize);
      if from + batchSize <= n { ReadsCover(from + batchSize, n, batchSize); }
    }
  }

  datatype Stop = Running | Cancelled | ReadFailed

  /** Between two reads: `i` items are read, every checkpoint since `checks` went through, and so did
      every read in front of `i`. */
  ghost predicate ReadUpTo(file: nat, n: nat, batchSize: nat, cancelAt: nat -> bool, failsAt: (nat, nat) -> bool,
                           i: nat, checks: nat, now: nat)
    requires batchSize > 0
  {
    && now + Reads(i, n, batchSize) == checks + Reads(0, n, batchSize) && checks <= now
    && (forall m: nat :: checks < m <= now ==> !cancelAt(m))
    && (forall j: nat :: ReadAt(j, i, n, batchSize) ==> ReadAt(j, 0, n, batchSize))
    && (forall j: nat :: ReadAt(j, 0, n, batchSize) && failsAt(file, j) ==> ReadAt(j, i, n, batchSize))
  }

  ghost predicate ReadFails(file: nat, n: nat, batchSize: nat, failsAt: (nat, nat) -> bool)
    requires batchSize > 0
  {
    exists i: nat :: ReadAt(i, 0, n, batchSize) && failsAt(file, i)
  }

  /** How reading a file ends: through every checkpoint and every read, at a checkpoint that asked for
      it, or at a read that failed. */
  ghost predicate ReadAs(stop: Stop, file: nat, n: nat, batchSize: nat, cancelAt: nat -> bool, failsAt: (nat, nat) -> bool,
                         checks: nat, now: nat)
    requires batchSize > 0
  {
    match stop
    case Running =>
      && now == checks + Reads(0, n, batchSize) && !ReadFails(file, n, batchSize, failsAt)
      && forall m: nat :: checks < m <= now ==> !cancelAt(m)
    case Cancelled => checks < now <= checks + Reads(0, n, batchSize) && cancelAt(now)
    case ReadFailed => ReadFails(file, n, batchSize, failsAt)
  }

  lemma ReadNothing(file: nat, n: nat, batchSize: nat, cancelAt: nat -> bool, failsAt: (nat, nat) -> bool, checks: nat)
    requires batchSize > 0
    ensures ReadUpTo(file, n, batchSize, cancelAt, failsAt, 0, checks, checks)
  {
  }

  lemma ReadOne(file: nat, n: nat, batchSize: nat, cancelAt: nat -> bool, failsAt: (nat, nat) -> bool,
                i: nat, next: nat, checks: nat, now: nat)
    requires batchSize > 0 && i <= n && next == BatchEnd(i, n, batchSize)
    requires ReadUpTo(file, n, batchSize, cancelAt, failsAt, i, checks, now)
    ensures cancelAt(now + 1) ==> ReadAs(Cancelled, file, n, batchSize, cancelAt, failsAt, checks, now + 1)
    ensures failsAt(file, i) ==> ReadAs(ReadFailed, file, n, batchSize, cancelAt, failsAt, checks, now + 1)
    ensures !cancelAt(now + 1) && !failsAt(file, i) ==>
      if i < n then ReadUpTo(file, n, batchSize, cancelAt, failsAt, next, checks, now + 1)
      else ReadAs(Running, file, n, batchSize, cancelAt, failsAt, checks, now + 1)
  {
    if i < n { NextRead(i, next, n, batchSize); } else { LastRead(n, batchSize); }
    hide Reads, ReadAt;
  }

  /** Between two batches: `i` items are taken, and what they left is written. */
  ghost predicate Holding(normalize: Normalizer, key: Record -> Key, file: nat, done: seq<Record>, items: seq<Item>, i: nat,
                          batchSize: nat, segmentMax: nat, seen: set<Key>, w: Writer, counts: LedgerCounts, last: nat) {
    && i <= |items| && w.Shaped(segmentMax, batchSize)
    && FileState(normalize, key, file, done, items[..i], seen, w.Written(), counts, 0, last)
  }

  /** The whole file is in. */
  ghost predicate Imported(normalize: Normalizer, key: Record -> Key, file: nat, done: seq<Record>, items: seq<Item>,
                           batchSize: nat, segmentMax: nat, seen: set<Key>, w: Writer, entry: LedgerEntry) {
    && w.Shaped(segmentMax, batchSize)
    && FileState(normalize, key, file, done, items, seen, w.Written(), entry.counts, 0, entry.lastRecordNumber)
  }

  lemma HoldsNothing(normalize: Normalizer, key: Record -> Key, file: nat, done: seq<Record>, items: seq<Item>,
                     batchSize: nat, segmentMax: nat, seen: set<Key>, w: Writer)
    requires w.Shaped(segmentMax, batchSize) && FileState(normalize, key, file, done, [], seen, w.Written(), ZERO, 0, 0)
    ensures Holding(normalize, key, file, done, items, 0, batchSize, segmentMax, seen, w, ZERO, 0)
  {
    hide FileState;
    assert items[..0] == [];
  }

  lemma HoldsAll(normalize: Normalizer, key: Record -> Key, file: nat, done: seq<Record>, items: seq<Item>,
                 batchSize: nat, segmentMax: nat, seen: set<Key>, w: Writer, counts: LedgerCounts, last: nat)
    requires Holding(normalize, key, file, done, items, |items|, batchSize, segmentMax, seen, w, counts, last)
    ensures Imported(normalize, key, file, done, items, batchSize, segmentMax, seen, w, LedgerEntry(last, counts))
  {
    hide FileState;
    assert items[..|items|] == items;
  }

  /** One batch: its items, then its records, if any, into the open segment. */
  method ImportBatch(normalize: Normalizer, key: Record -> Key, file: nat, items: seq<Item>, from: nat, to: nat,
                     batchSize: nat, segmentMax: nat, seen: set<Key>, w: Writer, counts: LedgerCounts, last: nat,
                     ghost done: seq<Record>)
    returns (seen': set<Key>, w': Writer, counts': LedgerCounts, last': nat)
    requires from < to <= |items| && to - from <= batchSize && segmentMax > 0
    requires Holding(normalize, key, file, done, items, from, batchSize, segmentMax, seen, w, counts, last)
    ensures Holding(normalize, key, file, done, items, to, batchSize, segmentMax, seen', w', counts', last')
  {
    hide FileState, Writer.Shaped;
    var batch;
    w' := w;
    ghost var before := w.Written();
    seen', batch, counts', last' := TakeBatch(normalize, key, file, items, from, to, seen, counts, last, done, before);
    if batch != [] {
      w' := WriteBatch(w, batch, segmentMax, batchSize);
      AcceptPending(normalize, key, file, done, items[..to], seen', before + batch, counts', |batch|, last');
      counts' := counts'.(accepted := counts'.accepted + |batch|);
    } else {
      assert before + batch == before;
    }
  }

  /** The batch loop over one file. `cancelAt(n)` answers the n-th checkpoint of the job,
      `failsAt(f, i)` says whether reading file `f` at item `i` fails. */
  method ImportFile(normalize: Normalizer, key: Record -> Key, file: nat, items: seq<Item>,
                    batchSize: nat, segmentMax: nat, cancelAt: nat -> bool, failsAt: (nat, nat) -> bool,
                    checks: nat, seen: set<Key>, w: Writer, ghost done: seq<Record>)
    returns (stop: Stop, checks': nat, seen': set<Key>, w': Writer, entry: LedgerEntry)
    requires batchSize > 0 && segmentMax > 0 && w.Shaped(segmentMax, batchSize)
    requires FileState(normalize, key, file, done, [], seen, w.Written(), ZERO, 0, 0)
    ensures stop.Running? ==> Imported(normalize, key, file, done, items, batchSize, segmentMax, seen', w', entry)
    ensures ReadAs(stop, file, |items|, batchSize, cancelAt, failsAt, checks, checks')
  {
    ReadNothing(file, |items|, batchSize, cancelAt, failsAt, checks);
    HoldsNothing(normalize, key, file, done, items, batchSize, segmentMax, seen, w);
    hide BatchEnd, Holding, Imported, FileState, ReadUpTo, ReadAs, Writer.Shaped, Writer.Written;
    stop, checks', seen', w' := Running, checks, seen, w;
    var counts, last, i := ZERO, 0, 0;
    entry := LedgerEntry(0, ZERO);
    while true
      invariant i <= |items|
      invariant Holding(normalize, key, file, done, items, i, batchSize, segmentMax, seen', w', counts, last)
      invariant ReadUpTo(file, |items|, batchSize, cancelAt, failsAt, i, checks, checks')
      decreases |items| - i
    {
      checks' := checks' + 1;
      var next := BatchEnd(i, |items|, batchSize);
      ReadOne(file, |items|, batchSize, cancelAt, failsAt, i, next, checks, checks' - 1);
      if cancelAt(checks') { stop := Cancelled; return; }
      if failsAt(file, i) { stop := ReadFailed; return; }
      if next == i { break; }
      seen', w', counts, last :=
        ImportBatch(normalize, key, file, items, i, next, batchSize, segmentMax, seen', w', counts, last, done);
      i := next;
    }
    HoldsAll(normalize, key, file, done, items, batchSize, segmentMax, seen', w', counts, last);
    entry := LedgerEntry(last, counts);
  }

  lemma AcceptPending(normalize: Normalizer, key: Record -> Key, file: nat, done: seq<Record>, items: seq<Item>,
                      seen: set<Key>, kept: seq<Record>, counts: LedgerCounts, pending: nat, last: nat)
    requires FileState(normalize, key, file, done, items, seen, kept, counts, pending, last)
    ensures FileState(normalize, key, file, done, items, seen, kept, counts.(accepted := counts.accepted + pending), 0, last)
  {
  }

  // ---- the whole job -------------------------------------------------------------------

  datatype ImportResult =
    | Published(segments: seq<seq<Record>>, ledger: seq<LedgerEntry>, totals: LedgerCounts)
    | Aborted(why: Stop)

  function SumCounts(ledger: seq<LedgerEntry>): LedgerCounts {
    if ledger == [] then ZERO else SumCounts(ledger[..|ledger|-1]).Plus(ledger[|ledger|-1].counts)
  }

  /** How many items the files hold. */
  function ItemCount(files: seq<seq<Item>>): nat {
    if files == [] then 0 else ItemCount(files[..|files|-1]) + |files[|files|-1]|
  }

  ghost predicate JobState(normalize: Normalizer, key: Record -> Key, files: seq<seq<Item>>, i: nat,
                           seen: set<Key>, kept: seq<Record>, ledger: seq<LedgerEntry>, totals: LedgerCounts)
    requires i <= |files|
  {
    && FileState(normalize, key, i, FlatRecords(normalize, files[..i]), [], seen, kept, ZERO, 0, 0)
    && |ledger| == i
    && (forall j :: 0 <= j < i ==>
          ledger[j] == LedgerEntry(LastNumber(files[j]), FileCounts(normalize, key, files, j)))
    && totals == SumCounts(ledger)
    && totals.accepted == |kept|
    && totals.Total() == ItemCount(files[..i])
  }

  lemma JobStart(normalize: Normalizer, key: Record -> Key, files: seq<seq<Item>>)
    ensures JobState(normalize, key, files, 0, {}, [], [], ZERO)
  {
    assert files[..0] == [];
  }

  lemma FlatSnoc(normalize: Normalizer, files: seq<seq<Item>>, i: nat)
    requires i < |files|
    ensures FlatRecords(normalize, files[..i+1]) == FlatRecords(normalize, files[..i]) + GoodRecords(normalize, i, files[i])
    ensures ItemCount(files[..i+1]) == ItemCount(files[..i]) + |files[i]|
  {
    assert files[..i+1][..i] == files[..i] && files[..i+1][i] == files[i];
  }

  /** The counts a file ends with are the ones the flat stream assigns to it. */
  lemma EntryIsExact(normalize: Normalizer, key: Record -> Key, files: seq<seq<Item>>, i: nat,
                     seen: set<Key>, kept: seq<Record>, entry: LedgerEntry)
    requires i < |files|
    requires FileState(normalize, key, i, FlatRecords(normalize, files[..i]), files[i], seen, kept, entry.counts, 0, entry.lastRecordNumber)
    ensures entry == LedgerEntry(LastNumber(files[i]), FileCounts(normalize, key, files, i))
    ensures entry.counts.Total() == |files[i]|
    ensures entry.counts.accepted == |kept| - |Kept(key, FlatRecords(normalize, files[..i]))|
  {
    hide Kept, GoodRecords, Filter, Apply, FlatRecords;
    FlatSnoc(normalize, files, i);
    ItemsAreConserved(normalize, i, files[i]);
  }

  /** The flat stream so far is the starting point of the next file. */
  lemma NextFile(normalize: Normalizer, key: Record -> Key, files: seq<seq<Item>>, i: nat,
                 seen: set<Key>, kept: seq<Record>, entry: LedgerEntry)
    requires i < |files|
    requires FileState(normalize, key, i, FlatRecords(normalize, files[..i]), files[i], seen, kept, entry.counts, 0, entry.lastRecordNumber)
    ensures FileState(normalize, key, i + 1, FlatRecords(normalize, files[..i+1]), [], seen, kept, ZERO, 0, 0)
  {
    hide Kept, FlatRecords, Apply;
    FlatSnoc(normalize, files, i);
    EmptyFile(normalize, i + 1);
    var flat := FlatRecords(normalize, files[..i+1]);
    assert flat + [] == flat;
  }

  lemma KeptSoFar(normalize: Normalizer, key: Record -> Key, file: nat, done: seq<Record>, seen: set<Key>, kept: seq<Record>)
    requires FileState(normalize, key, file, done, [], seen, kept, ZERO, 0, 0)
    ensures kept == Kept(key, done)
  {
    EmptyFile(normalize, file);
    assert done + [] == done;
  }

  lemma SumCountsSnoc(ledger: seq<LedgerEntry>, entry: LedgerEntry)
    ensures SumCounts(ledger + [entry]) == SumCounts(ledger).Plus(entry.counts)
  {
    assert (ledger + [entry])[..|ledger|] == ledger;
  }

  /** A finished file becomes a ledger line, and its records part of the flat stream. */
  lemma FileDone(normalize: Normalizer, key: Record -> Key, files: seq<seq<Item>>, i: nat,
                 seen: set<Key>, kept: seq<Record>, ledger: seq<LedgerEntry>, totals: LedgerCounts,
                 seen': set<Key>, kept': seq<Record>, entry: LedgerEntry)
    requires i < |files| && JobState(normalize, key, files, i, seen, kept, ledger, totals)
    requires FileState(normalize, key, i, FlatRecords(normalize, files[..i]), files[i], seen', kept', entry.counts, 0, entry.lastRecordNumber)
    ensures JobState(normalize, key, files, i + 1, seen', kept', ledger + [entry], totals.Plus(entry.counts))
  {
    hide Kept, FileState, FlatRecords, FileCounts, LastNumber, SumCounts, ItemCount;
    EntryIsExact(normalize, key, files, i, seen', kept', entry);
    NextFile(normalize, key, files, i, seen', kept', entry);
    KeptSoFar(normalize, key, i, FlatRecords(normalize, files[..i]), seen, kept);
    FlatSnoc(normalize, files, i);
    SumCountsSnoc(ledger, entry);
  }

  lemma EmptyFile(normalize: Normalizer, file: nat)
    ensures GoodRecords(normalize, file, []) == []
    ensures Filter(IsRejected(normalize, file), []) == []
    ensures Filter(IsUnparsed(), []) == []
    ensures LastNumber([]) == 0
  {
  }

  lemma FlattenNothing()
    ensures Flatten<Record>([]) == []
  {
  }

  lemma JobOpensFile(normalize: Normalizer, key: Record -> Key, files: seq<seq<Item>>, i: nat,
                     seen: set<Key>, kept: seq<Record>, ledger: seq<LedgerEntry>, totals: LedgerCounts)
    requires i <= |files| && JobState(normalize, key, files, i, seen, kept, ledger, totals)
    ensures FileState(normalize, key, i, FlatRecords(normalize, files[..i]), [], seen, kept, ZERO, 0, 0)
  {
  }

  lemma JobEnd(normalize: Normalizer, key: Record -> Key, files: seq<seq<Item>>,
               seen: set<Key>, kept: seq<Record>, ledger: seq<LedgerEntry>, totals: LedgerCounts)
    requires JobState(normalize, key, files, |files|, seen, kept, ledger, totals)
    ensures kept == Kept(key, FlatRecords(normalize, files))
    ensures |ledger| == |files| && forall j :: 0 <= j < |files| ==>
      ledger[j] == LedgerEntry(LastNumber(files[j]), FileCounts(normalize, key, files, j))
    ensures totals == SumCounts(ledger) && totals.accepted == |kept| && totals.Total() == ItemCount(files)
  {
    assert files[..|files|] == files;
    KeptSoFar(normalize, key, |files|, FlatRecords(normalize, files), seen, kept);
  }

  /** The checkpoints a job passes before the last one: one in front of each file and one for each read. */
  function Checkpoints(files: seq<seq<Item>>, batchSize: nat): nat
    requires batchSize > 0
  {
    if files == [] then 0
    else Checkpoints(files[..|files|-1], batchSize) + 1 + Reads(0, |files[|files|-1]|, batchSize)
  }

  lemma {:induction false} CheckpointsGrow(files: seq<seq<Item>>, i: nat, batchSize: nat)
    requires batchSize > 0 && i < |files|
    ensures Checkpoints(files[..i], batchSize) + 1 + Reads(0, |files[i]|, batchSize) == Checkpoints(files[..i + 1], batchSize)
    ensures Checkpoints(files[..i + 1], batchSize) <= Checkpoints(files, batchSize)
    decreases |files|
  {
    var n := |files| - 1;
    if i < n {
      CheckpointsGrow(files[..n], i, batchSize);
      assert files[..n][..i] == files[..i] && files[..n][..i + 1] == files[..i + 1];
    } else {
      assert files[..i + 1] == files;
    }
  }

  lemma NoCheckpoints(batchSize: nat)
    requires batchSize > 0
    ensures Checkpoints([], batchSize) == 0
  {
  }

  /** A read of one of the files fails. */
  ghost predicate SomeReadFails(files: seq<seq<Item>>, batchSize: nat, failsAt: (nat, nat) -> bool)
    requires batchSize > 0
  {
    exists f: nat :: f < |files| && ReadFails(f, |files[f]|, batchSize, failsAt)
  }

  /** The job is asked to stop at one of its checkpoints. */
  ghost predicate SomeCancel(files: seq<seq<Item>>, batchSize: nat, cancelAt: nat -> bool)
    requires batchSize > 0
  {
    exists n: nat :: 0 < n <= Checkpoints(files, batchSize) + 1 && cancelAt(n)
  }

  /** `run_import_inner` up to publication. */
  method RunImport(normalize: Normalizer, key: Record -> Key, files: seq<seq<Item>>,
                   requestedBatch: nat, requestedMax: nat, cancelAt: nat -> bool, failsAt: (nat, nat) -> bool)
    returns (r: ImportResult)
    ensures r.Published? ==> Flatten(r.segments) == Kept(key, FlatRecords(normalize, files))
    ensures r.Published? ==>
      && |r.ledger| == |files|
      && (forall j :: 0 <= j < |files| ==>
            r.ledger[j] == LedgerEntry(LastNumber(files[j]), FileCounts(normalize, key, files, j)))
      && r.totals == SumCounts(r.ledger)
      && r.totals.accepted == |Kept(key, FlatRecords(normalize, files))|
      && r.totals.Total() == ItemCount(files)
    ensures r.Published? ==> forall i :: 0 <= i < |r.segments| ==>
      && 0 < |r.segments[i]| < SegmentMaxRows(requestedMax) + BatchSize(requestedBatch)
      && (i < |r.segments| - 1 ==> SegmentMaxRows(requestedMax) <= |r.segments[i]|)
    ensures r.Published? <==>
      !SomeCancel(files, BatchSize(requestedBatch), cancelAt) && !SomeReadFails(files, BatchSize(requestedBatch), failsAt)
    ensures r.Aborted? ==> r.why.Cancelled? || r.why.ReadFailed?
    ensures r.Aborted? && r.why.Cancelled? ==> SomeCancel(files, BatchSize(requestedBatch), cancelAt)
    ensures r.Aborted? && r.why.ReadFailed? ==> SomeReadFails(files, BatchSize(requestedBatch), failsAt)
  {
    hide JobState, FileState, Flatten, FlatRecords, Kept, FileCounts, SumCounts, ItemCount, Checkpoints, Reads, ReadAt;
    var batchSize, segmentMax := BatchSize(requestedBatch), SegmentMaxRows(requestedMax);
    FlattenNothing();
    var checks, seen, w, ledger, totals := 0, {}, Writer([], None), [], ZERO;
    JobStart(normalize, key, files);
    NoCheckpoints(batchSize);
    assert w.Written() == [] && files[..0] == [];
    var i := 0;
    while i < |files|
      invariant i <= |files| && w.Shaped(segmentMax, batchSize)
      invariant checks == Checkpoints(files[..i], batchSize)
      invariant forall n: nat :: 0 < n <= checks ==> !cancelAt(n)
      invariant forall f: nat :: f < i ==> !ReadFails(f, |files[f]|, batchSize, failsAt)
      invariant JobState(normalize, key, files, i, seen, w.Written(), ledger, totals)
    {
      CheckpointsGrow(files, i, batchSize);
      checks := checks + 1;
      if cancelAt(checks) { return Aborted(Cancelled); }
      ghost var was := w.Written();
      JobOpensFile(normalize, key, files, i, seen, was, ledger, totals);
      var stop, seen', entry;
      stop, checks, seen', w, entry := ImportFile(normalize, key, i, files[i], batchSize, segmentMax, cancelAt, failsAt,
                                                  checks, seen, w, FlatRecords(normalize, files[..i]));
      if !stop.Running? { return Aborted(stop); }
      FileDone(normalize, key, files, i, seen, was, ledger, totals, seen', w.Written(), entry);
      seen, ledger, totals := seen', ledger + [entry], totals.Plus(entry.counts);
      i := i + 1;
    }
    var staged := w.staged;
    if w.current.Some? {
      FlattenSnoc(staged, w.current.value);
      staged := staged + [w.current.value];
    }
    assert files[..i] == files;
    checks := checks + 1;
    if cancelAt(checks) { return Aborted(Cancelled); }
    JobEnd(normalize, key, files, seen, w.Written(), ledger, totals);
    r := Published(staged, ledger, totals);
  }
}
