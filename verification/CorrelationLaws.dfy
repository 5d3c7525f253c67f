/** What a completed correlation run promises about its stored output
    (crates/logscope-app/src/correlation.rs): nothing is lost, every chain survives the
    final sort, and drill-down returns the records that were counted. */
module CorrelationLaws {
  import opened CappedGroups
  import opened Correlation
  import opened CorrelationGroups
  import opened Ordering
  import opened Sequences
  import opened Sorting
  import opened Rows
  import Streaming

  // ---- conservation --------------------------------------------------------------------

  function TotalOf(): GroupRow -> int { (r: GroupRow) => r.Total() }

  lemma RowTotal(name: Naming, key: string, groups: map<string, GroupAcc>, edgeCount: nat)
    requires key in groups
    ensures RowFor(name, key, groups[key], edgeCount).Total() == SizeIn(groups)(key)
  {
  }

  /** Every admitted group is either stored with its full size or counted as a singleton key. */
  lemma {:induction false} SizesSplit(limits: Limits, name: Naming, groups: map<string, GroupAcc>, ks: seq<string>)
    requires forall k :: k in ks ==> k in groups
    ensures var rows, small := GroupRows(limits, name, groups, ks), Filter(Small(limits, groups), ks);
      && |rows| + |small| == |ks|
      && Sum(Apply(TotalOf(), rows)) + Sum(Apply(SizeIn(groups), small)) == Sum(Apply(SizeIn(groups), ks))
  {
    if ks == [] {
      assert Apply(TotalOf(), []) == [] && Apply(SizeIn(groups), []) == [];
    } else {
      var front, k := ks[..|ks|-1], ks[|ks|-1];
      assert ks == front + [k];
      SizesSplit(limits, name, groups, front);
      var here := Room(limits, |Edges(limits, name, groups, front)|, |ChainFor(name, k, groups[k])|);
      RowTotal(name, k, groups, here);
      Sized(limits, groups, k);
      var row := RowFor(name, k, groups[k], here);
      assert TotalOf()(row) == SizeIn(groups)(k);
      hide Edges, GroupRows, Filter, Sum, Apply, RowFor, ChainFor, Room, Large, Small, SizeIn, GroupRow.Total, GroupAcc.Size, TotalOf;
      BuildSnoc(limits, name, groups, front, k);
      FilterSnoc(Small(limits, groups), front, k);
      ApplySnoc(SizeIn(groups), front, k);
      SumSnoc(Apply(SizeIn(groups), front), SizeIn(groups)(k));
      ApplySnoc(SizeIn(groups), Filter(Small(limits, groups), front), k);
      SumSnoc(Apply(SizeIn(groups), Filter(Small(limits, groups), front)), SizeIn(groups)(k));
      ApplySnoc(TotalOf(), GroupRows(limits, name, groups, front), row);
      SumSnoc(Apply(TotalOf(), GroupRows(limits, name, groups, front)), TotalOf()(row));
    }
  }

  /** The admitted groups hold exactly the keyed records that were not refused. */
  lemma AdmittedSizes(limits: Limits, detail: Detail, wantsDetail: bool, hits: seq<Hit>, ks: seq<string>)
    requires Ascends(ByName(), ks, GroupsOf(limits, wantsDetail, detail, hits).Keys)
    ensures Sum(Apply(SizeIn(GroupsOf(limits, wantsDetail, detail, hits)), ks)) == HeldCount(limits.maxGroups, KeyOfHit(), hits)
  {
    var groups := GroupsOf(limits, wantsDetail, detail, hits);
    var f, v, cap := KeyOfHit(), ToAcc(limits, wantsDetail, detail), limits.maxGroups;
    GroupKeys(cap, f, v, hits);
    forall i | 0 <= i < |ks| ensures Apply(SizeIn(groups), ks)[i] == Apply(GroupSize(f, hits), ks)[i] {
      assert ks[i] in groups;
      AccSize(limits, wantsDetail, detail, Group(f, ks[i], hits));
    }
    assert Apply(SizeIn(groups), ks) == Apply(GroupSize(f, hits), ks);
    HeldSizesAdd(cap, f, hits, ks);
  }

  lemma {:induction false} EdgesCapped(limits: Limits, name: Naming, groups: map<string, GroupAcc>, ks: seq<string>)
    requires forall k :: k in ks ==> k in groups
    ensures |Edges(limits, name, groups, ks)| <= limits.maxTotalEdges
  {
    if ks != [] {
      EdgesCapped(limits, name, groups, ks[..|ks|-1]);
      BuildSnoc(limits, name, groups, ks[..|ks|-1], ks[|ks|-1]);
      assert ks == ks[..|ks|-1] + [ks[|ks|-1]];
    }
  }

  /** Conservation. Every scanned record was rejected, refused with its key, counted in a
      stored group row, or belongs to a key too small to store; every consecutive pair of a
      stored group is an edge or a counted drop. */
  lemma RecordsAreConserved(limits: Limits, wantsDetail: bool, detail: Detail, name: Naming, scan: GroupScan, ks: seq<string>,
                            rows: seq<GroupRow>, edges: seq<Edge>, singletons: nat, dropped: nat)
    requires scan.Valid(limits, wantsDetail, detail)
    requires Ascends(ByName(), ks, scan.groups.Keys) && Stored(limits, name, scan.groups, ks, rows, edges, singletons, dropped)
    ensures scan.scanned == |scan.rejected| + scan.groupsTruncated + Sum(Apply(TotalOf(), rows))
      + Sum(Apply(SizeIn(scan.groups), Filter(Small(limits, scan.groups), ks)))
    ensures |rows| + singletons == |ks|
    ensures |edges| + dropped == Sum(Apply(LinksIn(scan.groups), Filter(Large(limits, scan.groups), ks)))
    ensures |edges| <= limits.maxTotalEdges
  {
    var built := GroupRows(limits, name, scan.groups, ks);
    hide SortBy, GroupRows, Edges, Filter, Sum, Apply, GroupsOf, HeldCount, GroupRow.Total, Ascends, AtMost;
    EdgesCapped(limits, name, scan.groups, ks);
    SizesSplit(limits, name, scan.groups, ks);
    AdmittedSizes(limits, detail, wantsDetail, scan.hits, ks);
    SortPermutes(BySize(), built);
    ApplyPermutes(TotalOf(), rows, built);
    SumPermutes(Apply(TotalOf(), rows), Apply(TotalOf(), built));
  }

  lemma {:induction false} LargeKeyHasRow(limits: Limits, name: Naming, groups: map<string, GroupAcc>, ks: seq<string>, k: string)
    requires (forall k :: k in ks ==> k in groups) && k in ks && groups[k].Size() >= limits.minGroupSize
    ensures exists row :: row in GroupRows(limits, name, groups, ks) && row.key == k && row.Total() == groups[k].Size()
  {
    var front, last := ks[..|ks|-1], ks[|ks|-1];
    assert ks == front + [last];
    BuildSnoc(limits, name, groups, front, last);
    Sized(limits, groups, last);
    var here := Room(limits, |Edges(limits, name, groups, front)|, |ChainFor(name, last, groups[last])|);
    var row := RowFor(name, last, groups[last], here);
    assert row.key == last && row.Total() == groups[last].Size();
    hide GroupRows, Edges, RowFor, Room, ChainFor, GroupRow.Total, GroupAcc.Size, Large;
    if k != last {
      LargeKeyHasRow(limits, name, groups, front, k);
      var was :| was in GroupRows(limits, name, groups, front) && was.key == k && was.Total() == groups[k].Size();
      assert was in GroupRows(limits, name, groups, ks);
    } else {
      assert row in GroupRows(limits, name, groups, ks);
    }
  }

  /** Every admitted key with enough members is stored with its full size, and the stored rows
      run from the largest group to the smallest, ties by key. */
  lemma StoredInOrder(limits: Limits, name: Naming, groups: map<string, GroupAcc>, ks: seq<string>,
                      rows: seq<GroupRow>, edges: seq<Edge>, singletons: nat, dropped: nat, k: string)
    requires Ascends(ByName(), ks, groups.Keys) && Stored(limits, name, groups, ks, rows, edges, singletons, dropped)
    ensures forall i, j :: 0 <= i < j < |rows| ==> rows[i].Total() >= rows[j].Total()
    ensures forall i, j :: 0 <= i < j < |rows| && rows[i].Total() == rows[j].Total() ==> AtMost(rows[i].key, rows[j].key)
    ensures k in groups && groups[k].Size() >= limits.minGroupSize ==>
      exists row :: row in rows && row.key == k && row.Total() == groups[k].Size()
  {
    var built := GroupRows(limits, name, groups, ks);
    BySizeIsOrder();
    SortSorts(BySize(), built);
    hide SortBy, GroupRows, Edges, GroupRow.Total, GroupAcc.Size, AtMost, Built, TotalPreorder;
    forall i, j | 0 <= i < j < |rows|
      ensures rows[i].Total() >= rows[j].Total() && (rows[i].Total() == rows[j].Total() ==> AtMost(rows[i].key, rows[j].key))
    {
      assert BySize()(rows[i], rows[j]);
    }
    if k in groups && groups[k].Size() >= limits.minGroupSize {
      LargeKeyHasRow(limits, name, groups, ks, k);
      var row :| row in built && row.key == k && row.Total() == groups[k].Size();
      SortMembers(BySize(), built, row);
    }
  }

  // ---- chains after the final sort ------------------------------------------------------

  function InGroup(groupId: string): Edge -> bool { (e: Edge) => e.groupId == groupId }

  /** Every unsorted edge names the group of some listed key. */
  lemma {:induction false} EdgesNameGroups(limits: Limits, name: Naming, groups: map<string, GroupAcc>, ks: seq<string>, e: Edge)
    requires (forall k :: k in ks ==> k in groups) && e in Edges(limits, name, groups, ks)
    ensures exists k :: k in ks && e.groupId == IdFor(name, k, groups[k])
  {
    var front, k := ks[..|ks|-1], ks[|ks|-1];
    assert ks == front + [k];
    hide GroupRows, IdFor, Canonical, Edges, Room, Chain, Large;
    BuildSnoc(limits, name, groups, front, k);
    if e in Edges(limits, name, groups, front) {
      EdgesNameGroups(limits, name, groups, front, e);
    } else {
      ChainNames(name, k, groups[k], e);
    }
  }

  lemma ChainNames(name: Naming, k: string, acc: GroupAcc, e: Edge)
    requires e in ChainFor(name, k, acc)
    ensures e.groupId == IdFor(name, k, acc)
  {
  }

  /** Before the sort, the edges of a stored row are the prefix of its chain it counts. */
  lemma {:induction false} RowOwnsPrefix(limits: Limits, name: Naming, groups: map<string, GroupAcc>, ks: seq<string>, row: GroupRow)
    requires NamesKeys(name) && (forall k :: k in ks ==> k in groups)
    requires forall i, j :: 0 <= i < j < |ks| ==> ks[i] != ks[j]
    requires row in GroupRows(limits, name, groups, ks)
    ensures row.key in ks && row == RowFor(name, row.key, groups[row.key], row.edgeCount)
    ensures groups[row.key].Size() >= limits.minGroupSize
    ensures var chain := ChainFor(name, row.key, groups[row.key]);
      && row.edgeCount <= |chain|
      && (row.edgeCount == |chain| || row.edgeCount == limits.maxEdgesPerEvent || |Edges(limits, name, groups, ks)| >= limits.maxTotalEdges)
      && Filter(InGroup(row.groupId), Edges(limits, name, groups, ks)) == chain[..row.edgeCount]
  {
    var front, k := ks[..|ks|-1], ks[|ks|-1];
    assert ks == front + [k];
    var edges, chain := Edges(limits, name, groups, front), ChainFor(name, k, groups[k]);
    var here := Room(limits, |edges|, |chain|);
    RowForFields(name, k, groups[k], here);
    Sized(limits, groups, k);
    hide GroupRows, Edges, RowFor, Canonical, IdFor, ChainFor, Large, GroupAcc.Size;
    BuildSnoc(limits, name, groups, front, k);
    FilterConcat(InGroup(row.groupId), edges, chain[..here]);
    if row in GroupRows(limits, name, groups, front) {
      RowOwnsPrefix(limits, name, groups, front, row);
      assert row.key != k;
      RowForFields(name, row.key, groups[row.key], row.edgeCount);
      IdsDiffer(name, groups, row.key, k);
      forall e | e in chain[..here] ensures !InGroup(row.groupId)(e) { ChainNames(name, k, groups[k], e); }
      FilterNone(InGroup(row.groupId), chain[..here]);
    } else {
      assert row == RowFor(name, k, groups[k], here);
      forall e | e in edges ensures !InGroup(row.groupId)(e) {
        EdgesNameGroups(limits, name, groups, front, e);
        var k' :| k' in front && e.groupId == IdFor(name, k', groups[k']);
        IdsDiffer(name, groups, k', k);
      }
      FilterNone(InGroup(row.groupId), edges);
      forall e | e in chain[..here] ensures InGroup(row.groupId)(e) { ChainNames(name, k, groups[k], e); }
      FilterAll(InGroup(row.groupId), chain[..here]);
    }
  }

  lemma RowForFields(name: Naming, k: string, acc: GroupAcc, n: nat)
    ensures var row := RowFor(name, k, acc, n); row.key == k && row.edgeCount == n && row.groupId == IdFor(name, k, acc)
  {
  }

  lemma IdsDiffer(name: Naming, groups: map<string, GroupAcc>, k: string, k': string)
    requires NamesKeys(name) && k in groups && k' in groups && k != k'
    ensures IdFor(name, k, groups[k]) != IdFor(name, k', groups[k'])
  {
  }

  /** After the global sort, the edges stored under a group's id are still the prefix of its
      chain the row counts: a connected path with non-negative deltas that telescope to last
      minus first kept time, cut short only by a cap that was reached. Ties in (time, id) do not break it, because the sort is stable. */
  lemma ChainSurvivesSort(limits: Limits, name: Naming, groups: map<string, GroupAcc>, ks: seq<string>,
                          rows: seq<GroupRow>, edges: seq<Edge>, singletons: nat, dropped: nat, row: GroupRow)
    requires NamesKeys(name) && Ascends(ByName(), ks, groups.Keys)
    requires Stored(limits, name, groups, ks, rows, edges, singletons, dropped) && row in rows
    ensures row.key in groups
    ensures var path, dated := Filter(InGroup(row.groupId), edges), Canonical(groups[row.key]);
      && |path| == row.edgeCount <= |Chain(row.groupId, dated)|
      && (|path| == |Chain(row.groupId, dated)| || |path| == limits.maxEdgesPerEvent || |edges| >= limits.maxTotalEdges)
      && path == Chain(row.groupId, dated)[..row.edgeCount]
      && Path(row.groupId, dated, path)
      && (dated != [] ==> Sum(Apply(DeltaOf(), path)) == dated[row.edgeCount].time - dated[0].time)
  {
    var built, links := GroupRows(limits, name, groups, ks), Edges(limits, name, groups, ks);
    assert row in built by { SortMembers(BySize(), built, row); }
    var id := row.groupId;
    assert (forall i, j :: 0 <= i < j < |ks| ==> ks[i] != ks[j]) && edges == SortBy(ByGroup(), links);
    RowOwnsPrefix(limits, name, groups, ks, row);
    RowForFields(name, row.key, groups[row.key], row.edgeCount);
    var dated := Canonical(groups[row.key]);
    CanonicalSorted(groups[row.key]);
    assert ChainFor(name, row.key, groups[row.key]) == Chain(id, dated);
    hide *;
    ByGroupIsOrder();
    SortFilter(ByGroup(), InGroup(id), links);
    var path := Filter(InGroup(id), links);
    ChainIsPath(id, dated, row.edgeCount);
    PathIsSorted(id, dated, path);
    SortIdentity(ByGroup(), path);
    if dated != [] { DeltasTelescope(id, dated, row.edgeCount); }
  }

  lemma CanonicalSorted(acc: GroupAcc)
    ensures SortedBy(ByStamp(), Canonical(acc))
  {
    ByStampIsOrder();
    hide NotAfter;
    SortSorts(ByStamp(), acc.dated);
  }

  // ---- drill-down -----------------------------------------------------------------------

  function DerivesKey(derive: LogRow -> KeyOutcome, key: string): LogRow -> bool {
    (row: LogRow) => derive(row).Keyed? && derive(row).key == key
  }

  function RowIn(): Hit -> LogRow { (h: Hit) => h.row }
  function RowStamp(): LogRow -> Stamp { (row: LogRow) => Stamp(row.eventTime.GetOr(0), row.recordId) }
  function IsDated(): LogRow -> bool { (row: LogRow) => row.eventTime.Some? }

  /** Dated rows in canonical order, undated ones behind them by id. */
  predicate DrillNotAfter(a: LogRow, b: LogRow) {
    match (a.eventTime, b.eventTime)
    case (Some(x), Some(y)) => NotAfter(Stamp(x, a.recordId), Stamp(y, b.recordId))
    case (Some(_), None) => true
    case (None, Some(_)) => false
    case (None, None) => AtMost(a.recordId, b.recordId)
  }

  function ByDrill(): (LogRow, LogRow) -> bool { (a: LogRow, b: LogRow) => DrillNotAfter(a, b) }

  lemma ByDrillIsOrder()
    ensures TotalPreorder(ByDrill())
  {
    forall a: LogRow, b: LogRow, c: LogRow
      ensures (DrillNotAfter(a, b) || DrillNotAfter(b, a)) && (DrillNotAfter(a, b) && DrillNotAfter(b, c) ==> DrillNotAfter(a, c))
    {
      NotAfterIsOrder(RowStamp()(a), RowStamp()(b), RowStamp()(c));
      hide NotAfter;
      AtMostTotal(a.recordId, b.recordId);
      if AtMost(a.recordId, b.recordId) && AtMost(b.recordId, c.recordId) { AtMostTransitive(a.recordId, b.recordId, c.recordId); }
    }
  }

  method CorrelationRecords(derive: LogRow -> KeyOutcome, rows: seq<LogRow>, maxRecords: nat, key: string, limit: nat)
    returns (hits: seq<LogRow>)
    ensures hits == SortBy(ByDrill(),
      Upto(Streaming.Clamped(limit), Filter(DerivesKey(derive, key), Streamed(rows, maxRecords))))
    ensures forall i, j :: 0 <= i < j < |hits| ==> ShownBefore(hits[i], hits[j])
  {
    hits := Streaming.Matching(Streamed(rows, maxRecords), DerivesKey(derive, key), limit);
    ByDrillIsOrder();
    SortSorts(ByDrill(), hits);
    hits := SortBy(ByDrill(), hits);
    forall i, j | 0 <= i < j < |hits| ensures ShownBefore(hits[i], hits[j]) { assert ByDrill()(hits[i], hits[j]); }
  }

  /** Earlier records first, ties by id; records without a time behind all others, by id. */
  predicate ShownBefore(a: LogRow, b: LogRow) {
    && (a.eventTime.None? ==> b.eventTime.None?)
    && (a.eventTime.Some? && b.eventTime.Some? ==> a.eventTime.value <= b.eventTime.value)
    && (a.eventTime == b.eventTime ==> AtMost(a.recordId, b.recordId))
  }

  /** The rows drill-down derives to a key are the rows the run filed under it. */
  lemma {:induction false} FiledRows(derive: LogRow -> KeyOutcome, rows: seq<LogRow>, key: string)
    ensures Filter(DerivesKey(derive, key), rows) == Apply(RowIn(), Group(KeyOfHit(), key, Hits(derive, rows)))
  {
    if rows != [] {
      var front, row := rows[..|rows|-1], rows[|rows|-1];
      FiledRows(derive, front, key);
      assert rows == front + [row];
      hide Hits, Rejections, Filter, Group;
      FilterSnoc(DerivesKey(derive, key), front, row);
      RowsSnoc(derive, front, row);
      match derive(row) {
        case Keyed(k, a) =>
          GroupSnoc(KeyOfHit(), key, Hits(derive, front), Hit(k, a, row));
          ApplySnoc(RowIn(), Group(KeyOfHit(), key, Hits(derive, front)), Hit(k, a, row));
        case Rejected(_) =>
      }
    }
  }

  /** Over an unchanged scope, the records behind a stored group number exactly its event,
      undated and truncated counts together. */
  lemma DrillDownAgrees(limits: Limits, wantsDetail: bool, detail: Detail, derive: LogRow -> KeyOutcome, stream: seq<LogRow>, key: string)
    requires key in GroupsOf(limits, wantsDetail, detail, Hits(derive, stream))
    ensures |Filter(DerivesKey(derive, key), stream)| == GroupsOf(limits, wantsDetail, detail, Hits(derive, stream))[key].Size()
  {
    var hits := Hits(derive, stream);
    hide AccOf, Hits, Filter, Group, GroupAcc.Size;
    FiledRows(derive, stream, key);
    GroupKeys(limits.maxGroups, KeyOfHit(), ToAcc(limits, wantsDetail, detail), hits);
    AccSize(limits, wantsDetail, detail, Group(KeyOfHit(), key, hits));
  }

  /** Drill-down shows a group no cap cut in the very order its chain was built in: its dated
      rows first, in the group's canonical sequence. */
  lemma DrillDownOrder(limits: Limits, wantsDetail: bool, detail: Detail, derive: LogRow -> KeyOutcome, stream: seq<LogRow>, key: string)
    requires key in GroupsOf(limits, wantsDetail, detail, Hits(derive, stream))
    requires GroupsOf(limits, wantsDetail, detail, Hits(derive, stream))[key].truncated == 0
    ensures var shown := SortBy(ByDrill(), Filter(DerivesKey(derive, key), stream));
      && SortedBy(ByDrill(), shown)
      && Apply(RowStamp(), Filter(IsDated(), shown)) == Canonical(GroupsOf(limits, wantsDetail, detail, Hits(derive, stream))[key])
  {
    var hits, rows := Hits(derive, stream), Filter(DerivesKey(derive, key), stream);
    var filed := Group(KeyOfHit(), key, hits);
    var dated := Filter(HasTime(), filed);
    assert GroupsOf(limits, wantsDetail, detail, hits)[key] == AccOf(limits, wantsDetail, detail, filed);
    FiledRows(derive, stream, key);
    UntruncatedDated(limits, wantsDetail, detail, filed);
    hide Filter, Group, Hits, AccOf, GroupsOf, SortBy, NotAfter, GroupMap, DrillNotAfter, AtMost, Upto;
    ByDrillIsOrder();
    SortSorts(ByDrill(), rows);
    SortFilter(ByDrill(), IsDated(), rows);
    FilterApply(RowIn(), HasTime(), IsDated(), filed);
    StampsRead(dated);
    DatedSort(Apply(RowIn(), dated));
  }

  lemma StampsRead(dated: seq<Hit>)
    ensures Apply(RowStamp(), Apply(RowIn(), dated)) == Apply(StampOf(), dated)
  {
  }

  lemma UntruncatedDated(limits: Limits, wantsDetail: bool, detail: Detail, s: seq<Hit>)
    requires AccOf(limits, wantsDetail, detail, s).truncated == 0
    ensures AccOf(limits, wantsDetail, detail, s).dated == Apply(StampOf(), Filter(HasTime(), s))
    ensures forall h :: h in Filter(HasTime(), s) ==> h.row.eventTime.Some?
  {
    forall h | h in Filter(HasTime(), s) ensures h.row.eventTime.Some? { FilterMember(HasTime(), s, h); }
  }

  function ByRowStamp(): (LogRow, LogRow) -> bool { (a: LogRow, b: LogRow) => NotAfter(RowStamp()(a), RowStamp()(b)) }

  lemma DatedOrder(a: LogRow, b: LogRow)
    requires a.eventTime.Some? && b.eventTime.Some?
    ensures DrillNotAfter(a, b) == NotAfter(RowStamp()(a), RowStamp()(b))
  {
    assert RowStamp()(a) == Stamp(a.eventTime.value, a.recordId);
    assert RowStamp()(b) == Stamp(b.eventTime.value, b.recordId);
  }

  lemma DatedSort(rows: seq<LogRow>)
    requires forall r :: r in rows ==> r.eventTime.Some?
    ensures Apply(RowStamp(), SortBy(ByDrill(), rows)) == SortBy(ByStamp(), Apply(RowStamp(), rows))
  {
    hide SortBy, NotAfter;
    forall a, b | a in rows && b in rows ensures ByDrill()(a, b) == ByRowStamp()(a, b) {
      DatedOrder(a, b);
    }
    SortAgrees(ByDrill(), ByRowStamp(), rows);
    SortApply(ByRowStamp(), ByStamp(), RowStamp(), rows);
  }
}
