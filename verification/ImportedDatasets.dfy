/** What import (crates/logscope-app/src/import.rs) leaves in a dataset, and what its readers may
    rely on: a record id occurs once, and none is lost within one prefix. */
module ImportedDatasets {
  import Evidence
  import opened Import
  import opened RecordKeys
  import opened Rows
  import opened Sequences

  /** The dedup key of a record: a function of its id. */
  function KeyIn(digest: string -> seq<int>): Record -> Key {
    (r: Record) => if |digest(r.recordId)| == 32 then KeyOf(r.recordId, digest) else digest(r.recordId)
  }

  function RecordId(): Record -> string { (r: Record) => r.recordId }

  /** The record ids a dataset holds after an import whose files yield the records `s`. */
  function ImportedIds(digest: string -> seq<int>, s: seq<Record>): seq<string> {
    Apply(RecordId(), Kept(KeyIn(digest), s))
  }

  lemma {:induction false} AtMostOnce<T>(s: seq<T>, x: T)
    requires forall i, j :: 0 <= i < j < |s| ==> s[i] != s[j]
    ensures multiset(s)[x] <= 1
  {
    if s != [] {
      var n := |s| - 1;
      AtMostOnce(s[..n], x);
      assert s == s[..n] + [s[n]];
      assert s[n] !in multiset(s[..n]);
    }
  }

  /** No id is written twice. */
  lemma IdsAreUnique(digest: string -> seq<int>, s: seq<Record>, id: string)
    ensures multiset(ImportedIds(digest, s))[id] <= 1
  {
    var key, kept := KeyIn(digest), Kept(KeyIn(digest), s);
    KeptKeys(key, s);
    hide Kept, Distinct;
    forall i, j | 0 <= i < j < |kept| ensures kept[i].recordId != kept[j].recordId {
      assert Apply(key, kept)[i] != Apply(key, kept)[j];
    }
    AtMostOnce(ImportedIds(digest, s), id);
  }

  /** Every dataset of the world was written by an import, and its rows come in any order. */
  ghost predicate AllImported(world: Evidence.World, digest: string -> seq<int>, files: string -> seq<Record>) {
    forall d :: d in world.rows ==> multiset(world.rows[d]) == multiset(ImportedIds(digest, files(d)))
  }

  /** Over imported datasets the shared lookup budget never bites: batching changes no verdict. */
  lemma ImportedBatchedIsAlone(world: Evidence.World, digest: string -> seq<int>, files: string -> seq<Record>, batch: seq<Evidence.Work>, w: Evidence.Work)
    requires AllImported(world, digest, files) && w in batch
    ensures Evidence.InBatch(world, batch, w) == Evidence.Alone(world, w)
  {
    hide Evidence.InBatch, Evidence.Alone, ImportedIds;
    forall d, r | d in world.rows ensures multiset(world.rows[d])[r] <= 4 {
      IdsAreUnique(digest, files(d), r);
    }
    Evidence.BatchedIsAlone(world, batch, w);
  }

  // ---- which ids survive -------------------------------------------------------------------

  /** Different ids of the stream have different keys. */
  ghost predicate KeysTellIdsApart(digest: string -> seq<int>, s: seq<Record>) {
    forall a, b :: a in s && b in s && KeyIn(digest)(a) == KeyIn(digest)(b) ==> a.recordId == b.recordId
  }

  lemma {:induction false} EveryIdKept(digest: string -> seq<int>, s: seq<Record>)
    requires KeysTellIdsApart(digest, s)
    ensures ImportedIds(digest, s) == Distinct(Apply(RecordId(), s))
  {
    if s != [] {
      var n, key := |s| - 1, KeyIn(digest);
      EveryIdKept(digest, s[..n]);
      assert s == s[..n] + [s[n]];
      KeyAndId(digest, s, n);
      KeptSnoc(key, s[..n], s[n]);
      ApplySnoc(RecordId(), s[..n], s[n]);
      ApplySnoc(RecordId(), Kept(key, s[..n]), s[n]);
      DistinctSnoc(Apply(RecordId(), s[..n]), s[n].recordId);
    }
    hide *;
  }

  lemma KeyAndId(digest: string -> seq<int>, s: seq<Record>, n: nat)
    requires KeysTellIdsApart(digest, s) && n < |s|
    ensures KeyIn(digest)(s[n]) in Apply(KeyIn(digest), s[..n]) <==> s[n].recordId in Apply(RecordId(), s[..n])
  {
    var key := KeyIn(digest);
    if key(s[n]) in Apply(key, s[..n]) {
      var i :| 0 <= i < n && Apply(key, s[..n])[i] == key(s[n]);
      assert s[i] in s && s[n] in s;
      assert Apply(RecordId(), s[..n])[i] == s[n].recordId;
    }
    if s[n].recordId in Apply(RecordId(), s[..n]) {
      var i :| 0 <= i < n && Apply(RecordId(), s[..n])[i] == s[n].recordId;
      assert Apply(key, s[..n])[i] == key(s[n]);
    }
  }

  lemma KeptIdOf(digest: string -> seq<int>, s: seq<Record>, a: Record) returns (i: nat)
    requires ImportedIds(digest, s) == Distinct(Apply(RecordId(), s)) && a in s
    ensures i < |Kept(KeyIn(digest), s)| && Kept(KeyIn(digest), s)[i].recordId == a.recordId
  {
    hide Kept, Distinct;
    var k :| 0 <= k < |s| && s[k] == a;
    assert Apply(RecordId(), s)[k] == a.recordId;
    assert a.recordId in ImportedIds(digest, s);
    i :| 0 <= i < |ImportedIds(digest, s)| && ImportedIds(digest, s)[i] == a.recordId;
  }

  lemma SameKeySamePlace(key: Record -> Key, s: seq<Record>, i: nat, j: nat)
    requires i < |Kept(key, s)| && j < |Kept(key, s)| && key(Kept(key, s)[i]) == key(Kept(key, s)[j])
    ensures i == j
  {
    KeptKeys(key, s);
    hide Kept, Distinct;
    assert Apply(key, Kept(key, s))[i] == Apply(key, Kept(key, s))[j];
  }

  /** Import keeps the first occurrence of every record id if and only if different ids of its
      files have different keys. */
  lemma EveryIdKeptIff(digest: string -> seq<int>, s: seq<Record>)
    ensures ImportedIds(digest, s) == Distinct(Apply(RecordId(), s)) <==> KeysTellIdsApart(digest, s)
  {
    hide Kept, Distinct, ImportedIds;
    if KeysTellIdsApart(digest, s) {
      EveryIdKept(digest, s);
    } else if ImportedIds(digest, s) == Distinct(Apply(RecordId(), s)) {
      var key := KeyIn(digest);
      var a, b :| a in s && b in s && key(a) == key(b) && a.recordId != b.recordId;
      var i := KeptIdOf(digest, s, a);
      var j := KeptIdOf(digest, s, b);
      SameKeySamePlace(key, s, i, j);
    }
  }

  /** A canonical id of the given prefix. */
  ghost predicate Canonical(prefix: string, id: string) {
    exists bytes: seq<Byte> :: |bytes| == 16 && id == prefix + "-" + Hex(bytes)
  }

  /** Within one prefix of canonical ids no id is lost, whatever the digest. */
  lemma OnePrefixLosesNothing(prefix: string, digest: string -> seq<int>, s: seq<Record>)
    requires '-' !in prefix && forall r :: r in s ==> Canonical(prefix, r.recordId) && |digest(r.recordId)| == 32
    ensures ImportedIds(digest, s) == Distinct(Apply(RecordId(), s))
  {
    hide Kept, Distinct, ImportedIds, KeyOf, Hex;
    forall a, b | a in s && b in s && KeyIn(digest)(a) == KeyIn(digest)(b) ensures a.recordId == b.recordId {
      var x: seq<Byte> :| |x| == 16 && a.recordId == prefix + "-" + Hex(x);
      var y: seq<Byte> :| |y| == 16 && b.recordId == prefix + "-" + Hex(y);
      KeyDecidesId(prefix, x, y, digest);
    }
    EveryIdKeptIff(digest, s);
  }

  /** Across prefixes the second of two ids with the same bytes is lost. */
  lemma OtherPrefixIsLost(bytes: seq<Byte>, digest: string -> seq<int>, body: string)
    requires |bytes| == 16 && |digest("log-" + Hex(bytes))| == 32 && |digest("trc-" + Hex(bytes))| == 32
    ensures var s := [Record("log-" + Hex(bytes), None, body), Record("trc-" + Hex(bytes), None, body)];
      ImportedIds(digest, s) == ["log-" + Hex(bytes)]
  {
    var a, b := Record("log-" + Hex(bytes), None, body), Record("trc-" + Hex(bytes), None, body);
    assert "log-" == "log" + "-" && "trc-" == "trc" + "-";
    PrefixIsForgotten("log", "trc", bytes, digest);
    var key := KeyIn(digest);
    hide Hex, KeyOf;
    KeptSnoc(key, [], a);
    KeptSnoc(key, [a], b);
    assert [] + [a] == [a] && [a] + [b] == [a, b];
  }
}
