/** Comparing consecutive members of a duplicate bucket against comparing every pair
    (`signals_for_group` in crates/logscope-app/src/correlation.rs), for any rule and for
    `classify_duplicate` (crates/logscope-case/src/signals.rs). */
module Duplicates {
  import opened Rows

  // ---- which members the reported pairs tie together ------------------------------------------

  /** The pairs a rule reports when every pair of the bucket is compared. */
  predicate AnyPair<T>(bucket: seq<T>, fires: (T, T) -> bool, i: int, j: int) {
    0 <= i < j < |bucket| && fires(bucket[i], bucket[j])
  }

  /** The pairs it reports when only neighbours are compared. */
  predicate NextPair<T>(bucket: seq<T>, fires: (T, T) -> bool, i: int, j: int) {
    j == i + 1 && AnyPair(bucket, fires, i, j)
  }

  ghost predicate Edge<T>(bucket: seq<T>, fires: (T, T) -> bool, near: bool, i: int, j: int) {
    if near then NextPair(bucket, fires, i, j) || NextPair(bucket, fires, j, i)
    else AnyPair(bucket, fires, i, j) || AnyPair(bucket, fires, j, i)
  }

  ghost predicate Walk<T>(bucket: seq<T>, fires: (T, T) -> bool, near: bool, w: seq<int>) {
    w != [] && forall k :: 0 <= k < |w| - 1 ==> Edge(bucket, fires, near, w[k], w[k + 1])
  }

  /** A chain of reported pairs leads from one member to the other. */
  ghost predicate Tied<T>(bucket: seq<T>, fires: (T, T) -> bool, near: bool, i: int, j: int) {
    exists w :: Walk(bucket, fires, near, w) && w[0] == i && w[|w|-1] == j
  }

  /** Member `k` and its next neighbour are reported. */
  predicate Joined<T>(bucket: seq<T>, fires: (T, T) -> bool, k: int) { NextPair(bucket, fires, k, k + 1) }

  /** Every pair of neighbours from `i` to `j` is reported. */
  predicate Unbroken<T>(bucket: seq<T>, fires: (T, T) -> bool, i: int, j: int) {
    forall k :: i <= k < j ==> Joined(bucket, fires, k)
  }

  predicate SameRun<T>(bucket: seq<T>, fires: (T, T) -> bool, i: int, j: int) {
    Unbroken(bucket, fires, if i < j then i else j, if i < j then j else i)
  }

  lemma SameRunTransitive<T>(bucket: seq<T>, fires: (T, T) -> bool, i: int, j: int, k: int)
    requires SameRun(bucket, fires, i, j) && SameRun(bucket, fires, j, k)
    ensures SameRun(bucket, fires, i, k)
  {
    hide Joined;
  }

  /** Tied members lie in one run of reported neighbours, if every reported pair does. */
  lemma {:induction false} WalkStaysInRun<T>(bucket: seq<T>, fires: (T, T) -> bool, near: bool, w: seq<int>)
    requires Walk(bucket, fires, near, w)
    requires forall i, j :: Edge(bucket, fires, near, i, j) ==> SameRun(bucket, fires, i, j)
    ensures SameRun(bucket, fires, w[0], w[|w|-1])
  {
    var n := |w| - 1;
    if n > 0 {
      hide SameRun, Edge;
      WalkStaysInRun(bucket, fires, near, w[..n]);
      assert Edge(bucket, fires, near, w[n - 1], w[n - 1 + 1]);
      SameRunTransitive(bucket, fires, w[0], w[n - 1], w[n]);
    }
  }

  lemma NextPairInRun<T>(bucket: seq<T>, fires: (T, T) -> bool, i: int, j: int)
    requires Edge(bucket, fires, true, i, j)
    ensures SameRun(bucket, fires, i, j)
  {
    hide AnyPair;
  }

  lemma {:induction false} RunIsTied<T>(bucket: seq<T>, fires: (T, T) -> bool, i: int, j: int)
    requires i <= j && Unbroken(bucket, fires, i, j)
    ensures Tied(bucket, fires, true, i, j) && Tied(bucket, fires, true, j, i)
    decreases j - i
  {
    hide NextPair;
    var up := seq(j - i + 1, k => i + k);
    var down := seq(j - i + 1, k => j - k);
    forall k | 0 <= k < j - i ensures Edge(bucket, fires, true, up[k], up[k + 1]) {
      assert Joined(bucket, fires, i + k);
    }
    forall k | 0 <= k < j - i ensures Edge(bucket, fires, true, down[k], down[k + 1]) {
      assert Joined(bucket, fires, j - k - 1);
    }
    assert Walk(bucket, fires, true, up) && up[0] == i && up[|up|-1] == j;
    assert Walk(bucket, fires, true, down) && down[0] == j && down[|down|-1] == i;
  }

  /** Neighbours tie together exactly the runs. */
  lemma TiedByNextIff<T>(bucket: seq<T>, fires: (T, T) -> bool, i: int, j: int)
    ensures Tied(bucket, fires, true, i, j) <==> SameRun(bucket, fires, i, j)
  {
    if Tied(bucket, fires, true, i, j) {
      var w :| Walk(bucket, fires, true, w) && w[0] == i && w[|w|-1] == j;
      forall x, y | Edge(bucket, fires, true, x, y) ensures SameRun(bucket, fires, x, y) { NextPairInRun(bucket, fires, x, y); }
      hide SameRun, Edge;
      WalkStaysInRun(bucket, fires, true, w);
    }
    if SameRun(bucket, fires, i, j) {
      if i < j { RunIsTied(bucket, fires, i, j); } else { RunIsTied(bucket, fires, j, i); }
    }
  }

  lemma OnePairTies<T>(bucket: seq<T>, fires: (T, T) -> bool, i: int, j: int)
    requires AnyPair(bucket, fires, i, j)
    ensures Tied(bucket, fires, false, i, j)
  {
    var w := [i, j];
    assert Walk(bucket, fires, false, w);
  }

  lemma {:induction false} NearIsAny<T>(bucket: seq<T>, fires: (T, T) -> bool, i: int, j: int)
    requires Tied(bucket, fires, true, i, j)
    ensures Tied(bucket, fires, false, i, j)
  {
    var w :| Walk(bucket, fires, true, w) && w[0] == i && w[|w|-1] == j;
    assert Walk(bucket, fires, false, w);
  }

  /** Comparing neighbours only ties together what comparing every pair ties together, if and
      only if no reported pair spans a pair of neighbours that is not reported. */
  lemma NeighboursSufficeIff<T>(bucket: seq<T>, fires: (T, T) -> bool)
    ensures (forall i, j :: Tied(bucket, fires, true, i, j) <==> Tied(bucket, fires, false, i, j))
      <==> (forall i, j :: AnyPair(bucket, fires, i, j) ==> Unbroken(bucket, fires, i, j))
  {
    hide Walk, Unbroken;
    if forall i, j :: AnyPair(bucket, fires, i, j) ==> Unbroken(bucket, fires, i, j) {
      forall i, j ensures Tied(bucket, fires, true, i, j) <==> Tied(bucket, fires, false, i, j) {
        TiedByNextIff(bucket, fires, i, j);
        if Tied(bucket, fires, false, i, j) { AnyStaysInRun(bucket, fires, i, j); }
        if Tied(bucket, fires, true, i, j) { NearIsAny(bucket, fires, i, j); }
      }
    } else {
      var i, j :| AnyPair(bucket, fires, i, j) && !Unbroken(bucket, fires, i, j);
      OnePairTies(bucket, fires, i, j);
      TiedByNextIff(bucket, fires, i, j);
    }
  }

  lemma AnyStaysInRun<T>(bucket: seq<T>, fires: (T, T) -> bool, i: int, j: int)
    requires Tied(bucket, fires, false, i, j)
    requires forall x, y :: AnyPair(bucket, fires, x, y) ==> Unbroken(bucket, fires, x, y)
    ensures SameRun(bucket, fires, i, j)
  {
    var w :| Walk(bucket, fires, false, w) && w[0] == i && w[|w|-1] == j;
    forall x, y | Edge(bucket, fires, false, x, y) ensures SameRun(bucket, fires, x, y) {
      hide Unbroken;
    }
    hide SameRun, Edge, Unbroken;
    WalkStaysInRun(bucket, fires, false, w);
  }

  // ---- the rule itself -------------------------------------------------------------------------

  /** What `classify_duplicate` reads of one record. */
  datatype Facts = Facts(datasetId: string, sourceId: string, recordNumber: Option<int>, message: string,
                         messageId: Option<string>, operation: Option<string>)

  datatype Class = Operational | Ingestion | Different

  predicate Conflict(a: Option<string>, b: Option<string>) { a.Some? && b.Some? && a.value != b.value }

  function ClassifyDuplicate(a: Facts, b: Facts): Class {
    var sameSource := a.datasetId == b.datasetId && a.sourceId == b.sourceId;
    if sameSource && a.recordNumber.Some? && a.recordNumber == b.recordNumber then Ingestion
    else if sameSource && a.recordNumber.None? && b.recordNumber.None? then Ingestion
    else if a.message != b.message then Different
    else if Conflict(a.messageId, b.messageId) || Conflict(a.operation, b.operation) then Different
    else Operational
  }

  /** The three classes, exactly: one line of one source read twice, or two unnumbered lines of it,
      is ingestion; otherwise the same message is operational unless both records carry different
      message ids or different operations. */
  lemma ClassesMean(a: Facts, b: Facts)
    ensures var c := ClassifyDuplicate(a, b);
      var twice := a.datasetId == b.datasetId && a.sourceId == b.sourceId && a.recordNumber == b.recordNumber;
      var apart := (a.messageId != None && b.messageId != None && a.messageId != b.messageId)
        || (a.operation != None && b.operation != None && a.operation != b.operation);
      && (c == Ingestion <==> twice)
      && (c == Operational <==> !twice && a.message == b.message && !apart)
      && ClassifyDuplicate(b, a) == c
  {
  }

  function Reported(): (Facts, Facts) -> bool { (a: Facts, b: Facts) => ClassifyDuplicate(a, b).Operational? }

  function Sighting(number: int, messageId: string): Facts { Facts("d", "s", Some(number), "m", Some(messageId), None) }

  /** Message ids 1, 2, 1: no neighbours are reported, while the first and the third would be. */
  lemma ThirdSightingIsMissed()
    ensures var bucket := [Sighting(1, "1"), Sighting(2, "2"), Sighting(3, "1")];
      && (forall i, j :: !NextPair(bucket, Reported(), i, j))
      && Tied(bucket, Reported(), false, 0, 2) && !Tied(bucket, Reported(), true, 0, 2)
  {
    var bucket := [Sighting(1, "1"), Sighting(2, "2"), Sighting(3, "1")];
    assert "1" != "2" by { assert "1"[0] != "2"[0]; }
    assert !Reported()(bucket[0], bucket[1]) && !Reported()(bucket[1], bucket[2]) && Reported()(bucket[0], bucket[2]);
    hide ClassifyDuplicate;
    forall i, j ensures !NextPair(bucket, Reported(), i, j) {
      assert i == 0 || i == 1 || !NextPair(bucket, Reported(), i, j);
    }
    OnePairTies(bucket, Reported(), 0, 2);
    TiedByNextIff(bucket, Reported(), 0, 2);
    assert !Joined(bucket, Reported(), 0);
  }
}
