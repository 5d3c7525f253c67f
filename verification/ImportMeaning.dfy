/** What import's ledger and record stream say about the items of the files
    (crates/logscope-app/src/import.rs), read off the items alone. */
module ImportMeaning {
  import opened Import
  import opened Rows
  import opened Sequences

  // ---- items ---------------------------------------------------------------------------

  /** The item was read and normalised. */
  function Normalizes(normalize: Normalizer, file: nat): Item -> bool {
    (item: Item) => item.Parsed? && normalize(file, item.raw).Some?
  }

  /** The item was read and not normalised. */
  function Refuses(normalize: Normalizer, file: nat): Item -> bool {
    (item: Item) => item.Parsed? && normalize(file, item.raw).None?
  }

  function Unreadable(): Item -> bool { (item: Item) => item.Malformed? }

  function RecordOf(normalize: Normalizer, file: nat): Item -> Record {
    (item: Item) =>
      if Normalizes(normalize, file)(item) then normalize(file, item.raw).value else Record("", None, "")
  }

  /** The good records of a file are its normalised items, in order. */
  lemma {:induction false} GoodMeans(normalize: Normalizer, file: nat, items: seq<Item>)
    ensures GoodRecords(normalize, file, items) == Apply(RecordOf(normalize, file), Filter(Normalizes(normalize, file), items))
  {
    if items != [] {
      var front, x := items[..|items|-1], items[|items|-1];
      GoodMeans(normalize, file, front);
      assert items == front + [x];
      FilterSnoc(Normalizes(normalize, file), front, x);
      ApplySnoc(RecordOf(normalize, file), Filter(Normalizes(normalize, file), front), x);
      hide Filter, Apply;
    }
  }

  lemma GoodCount(normalize: Normalizer, file: nat, items: seq<Item>)
    ensures |GoodRecords(normalize, file, items)| == |Places(Normalizes(normalize, file), items)|
  {
    GoodMeans(normalize, file, items);
    FilterSize(Normalizes(normalize, file), items);
    hide Filter, GoodRecords;
  }

  function PerFile(normalize: Normalizer, files: seq<seq<Item>>): (r: seq<seq<Record>>)
    ensures |r| == |files|
    ensures forall i :: 0 <= i < |files| ==> r[i] == Apply(RecordOf(normalize, i), Filter(Normalizes(normalize, i), files[i]))
  {
    seq(|files|, i requires 0 <= i < |files| => Apply(RecordOf(normalize, i), Filter(Normalizes(normalize, i), files[i])))
  }

  /** The record stream of a job: file by file, the normalised items of each in order. */
  lemma {:induction false} StreamMeans(normalize: Normalizer, files: seq<seq<Item>>)
    ensures FlatRecords(normalize, files) == Flatten(PerFile(normalize, files))
  {
    if files != [] {
      var n := |files| - 1;
      StreamMeans(normalize, files[..n]);
      GoodMeans(normalize, n, files[n]);
      hide Filter, Apply, GoodRecords;
      assert PerFile(normalize, files) == PerFile(normalize, files[..n]) + [PerFile(normalize, files)[n]];
      FlattenSnoc(PerFile(normalize, files[..n]), PerFile(normalize, files)[n]);
    }
  }

  /** The last number any item of the file carries, zero if none does. */
  lemma {:induction false} LastMeans(items: seq<Item>)
    ensures (forall i :: 0 <= i < |items| ==> items[i].number.None?) ==> LastNumber(items) == 0
    ensures forall i :: 0 <= i < |items| && items[i].number.Some? && (forall j :: i < j < |items| ==> items[j].number.None?) ==>
      LastNumber(items) == items[i].number.value
  {
    if items != [] { LastMeans(items[..|items|-1]); }
  }

  // ---- the ledger ------------------------------------------------------------------------

  /** Where a record of `t` is the first with its key, in `s` and then `t`. */
  function News(key: Record -> Key, s: seq<Record>, t: seq<Record>): set<int> {
    set p | 0 <= p < |t| && key(t[p]) !in Apply(key, s + t[..p])
  }

  lemma NewsSnoc(key: Record -> Key, s: seq<Record>, t: seq<Record>, x: Record)
    ensures News(key, s, t + [x]) == if key(x) in Apply(key, s + t) then News(key, s, t) else News(key, s, t) + {|t|}
    ensures |t| !in News(key, s, t)
  {
    forall p | 0 <= p < |t| ensures (t + [x])[p] == t[p] && (t + [x])[..p] == t[..p] {}
    assert (t + [x])[..|t|] == t;
  }

  lemma {:induction false} KeptBeyond(key: Record -> Key, s: seq<Record>, t: seq<Record>)
    ensures |Kept(key, s + t)| == |Kept(key, s)| + |News(key, s, t)|
  {
    hide Kept, News, Apply;
    if t == [] {
      assert s + t == s;
      NoNews(key, s);
    } else {
      var front, x := t[..|t|-1], t[|t|-1];
      KeptBeyond(key, s, front);
      assert t == front + [x] && s + t == (s + front) + [x];
      KeptSnoc(key, s + front, x);
      NewsSnoc(key, s, front, x);
    }
  }

  lemma NoNews(key: Record -> Key, s: seq<Record>)
    ensures News(key, s, []) == {}
  {
  }

  /** A file's ledger line, count by count: the items that could not be read, those that could not be
      normalised, the records whose key nothing before them had, and the other records. */
  lemma LedgerMeans(normalize: Normalizer, key: Record -> Key, files: seq<seq<Item>>, i: nat)
    requires i < |files|
    ensures var c := FileCounts(normalize, key, files, i);
      var before, good := FlatRecords(normalize, files[..i]), Apply(RecordOf(normalize, i), Filter(Normalizes(normalize, i), files[i]));
      && c.unparsed == |Places(Unreadable(), files[i])|
      && c.rejected == |Places(Refuses(normalize, i), files[i])|
      && c.accepted == |News(key, before, good)|
      && c.accepted + c.duplicate == |Places(Normalizes(normalize, i), files[i])|
  {
    var good := GoodRecords(normalize, i, files[i]);
    GoodMeans(normalize, i, files[i]);
    GoodCount(normalize, i, files[i]);
    KeptBeyond(key, FlatRecords(normalize, files[..i]), good);
    FilterSize(IsRejected(normalize, i), files[i]);
    FilterSize(IsUnparsed(), files[i]);
    RefusedPlaces(normalize, i, files[i]);
    hide Filter, Apply, Kept, News, GoodRecords, FlatRecords, Places;
  }

  lemma RefusedPlaces(normalize: Normalizer, file: nat, items: seq<Item>)
    ensures Places(IsRejected(normalize, file), items) == Places(Refuses(normalize, file), items)
    ensures Places(IsUnparsed(), items) == Places(Unreadable(), items)
  {
  }

  function AcceptedIn(): LedgerEntry -> int { (e: LedgerEntry) => e.counts.accepted }
  function RejectedIn(): LedgerEntry -> int { (e: LedgerEntry) => e.counts.rejected }
  function UnparsedIn(): LedgerEntry -> int { (e: LedgerEntry) => e.counts.unparsed }
  function DuplicateIn(): LedgerEntry -> int { (e: LedgerEntry) => e.counts.duplicate }

  /** The totals of a job are the sums over its ledger, count by count. */
  lemma {:induction false} TotalsMean(ledger: seq<LedgerEntry>)
    ensures SumCounts(ledger).accepted == Sum(Apply(AcceptedIn(), ledger))
    ensures SumCounts(ledger).rejected == Sum(Apply(RejectedIn(), ledger))
    ensures SumCounts(ledger).unparsed == Sum(Apply(UnparsedIn(), ledger))
    ensures SumCounts(ledger).duplicate == Sum(Apply(DuplicateIn(), ledger))
  {
    if ledger != [] {
      var front, x := ledger[..|ledger|-1], ledger[|ledger|-1];
      TotalsMean(front);
      assert ledger == front + [x];
      SumMore(AcceptedIn(), front, x);
      SumMore(RejectedIn(), front, x);
      SumMore(UnparsedIn(), front, x);
      SumMore(DuplicateIn(), front, x);
      hide Sum, Apply;
    }
  }

  lemma SumMore(f: LedgerEntry -> int, s: seq<LedgerEntry>, x: LedgerEntry)
    ensures Sum(Apply(f, s + [x])) == Sum(Apply(f, s)) + f(x)
  {
    ApplySnoc(f, s, x);
    SumSnoc(Apply(f, s), f(x));
    hide Sum, Apply;
  }
}
