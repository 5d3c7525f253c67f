/** What a stored correlation group and its edges say of the rows they were made from, in terms of
    the rows alone (crates/logscope-app/src/correlation.rs). */
module GroupMeaning {
  import opened CappedGroups
  import opened Correlation
  import opened CorrelationGroups
  import opened CorrelationLaws
  import opened Ordering
  import opened Rows
  import opened Sequences
  import opened Sorting

  // ---- the rows of one key -----------------------------------------------------------------

  predicate Carries(derive: LogRow -> KeyOutcome, key: string, row: LogRow) {
    derive(row).Keyed? && derive(row).key == key
  }

  function Timed(derive: LogRow -> KeyOutcome, key: string): LogRow -> bool {
    (row: LogRow) => Carries(derive, key, row) && row.eventTime.Some?
  }

  function Untimed(derive: LogRow -> KeyOutcome, key: string): LogRow -> bool {
    (row: LogRow) => Carries(derive, key, row) && row.eventTime.None?
  }

  /** The rows a group keeps: the first dated ones, up to the cap. */
  function KeptRows(limits: Limits, derive: LogRow -> KeyOutcome, rows: seq<LogRow>, key: string): seq<LogRow> {
    Upto(limits.maxEventsPerGroup, Filter(Timed(derive, key), rows))
  }

  lemma {:induction false} HitRows(derive: LogRow -> KeyOutcome, rows: seq<LogRow>, key: string)
    ensures var own := Group(KeyOfHit(), key, Hits(derive, rows));
      && Apply(RowIn(), Filter(HasTime(), own)) == Filter(Timed(derive, key), rows)
      && |own| == |Filter(HasTime(), own)| + |Filter(Untimed(derive, key), rows)|
  {
    if rows != [] {
      var front, row := rows[..|rows|-1], rows[|rows|-1];
      HitRows(derive, front, key);
      assert rows == front + [row];
      HitRowsSnoc(derive, front, row, key);
      hide *;
    }
  }

  lemma HitRowsSnoc(derive: LogRow -> KeyOutcome, front: seq<LogRow>, row: LogRow, key: string)
    requires var own := Group(KeyOfHit(), key, Hits(derive, front));
      && Apply(RowIn(), Filter(HasTime(), own)) == Filter(Timed(derive, key), front)
      && |own| == |Filter(HasTime(), own)| + |Filter(Untimed(derive, key), front)|
    ensures var own := Group(KeyOfHit(), key, Hits(derive, front + [row]));
      && Apply(RowIn(), Filter(HasTime(), own)) == Filter(Timed(derive, key), front + [row])
      && |own| == |Filter(HasTime(), own)| + |Filter(Untimed(derive, key), front + [row])|
  {
    hide Hits, Rejections, Filter, Group, Apply;
    FilterSnoc(Timed(derive, key), front, row);
    FilterSnoc(Untimed(derive, key), front, row);
    RowsSnoc(derive, front, row);
    match derive(row) {
      case Keyed(k, a) =>
        var own := Group(KeyOfHit(), key, Hits(derive, front));
        GroupSnoc(KeyOfHit(), key, Hits(derive, front), Hit(k, a, row));
        FilterSnoc(HasTime(), own, Hit(k, a, row));
        ApplySnoc(RowIn(), Filter(HasTime(), own), Hit(k, a, row));
      case Rejected(_) => assert Hits(derive, front) + [] == Hits(derive, front);
    }
  }

  predicate StampsRow(s: Stamp, row: LogRow) { row.eventTime == Some(s.time) && row.recordId == s.recordId }

  /** A group's accumulated fields, in terms of its rows. */
  ghost predicate AccHolds(limits: Limits, derive: LogRow -> KeyOutcome, rows: seq<LogRow>, key: string, acc: GroupAcc) {
    var kept := KeptRows(limits, derive, rows, key);
    && |acc.dated| == |kept| && (forall i :: 0 <= i < |kept| ==> StampsRow(acc.dated[i], kept[i]))
    && acc.undated == |Filter(Untimed(derive, key), rows)|
    && |acc.dated| + acc.truncated == |Filter(Timed(derive, key), rows)|
  }

  lemma AccMeans(limits: Limits, wantsDetail: bool, detail: Detail, derive: LogRow -> KeyOutcome, rows: seq<LogRow>, key: string)
    requires key in GroupsOf(limits, wantsDetail, detail, Hits(derive, rows))
    ensures AccHolds(limits, derive, rows, key, GroupsOf(limits, wantsDetail, detail, Hits(derive, rows))[key])
  {
    var hits := Hits(derive, rows);
    var own := Group(KeyOfHit(), key, hits);
    GroupKeys(limits.maxGroups, KeyOfHit(), ToAcc(limits, wantsDetail, detail), hits);
    HitRows(derive, rows, key);
    hide Hits, Group, Filter, Distinct, AppliedIn;
    var kept := KeptRows(limits, derive, rows, key);
    forall i | 0 <= i < |kept| ensures StampsRow(StampOf()(Kept(limits, own)[i]), kept[i]) {
      assert Apply(RowIn(), Filter(HasTime(), own))[i] == kept[i];
      FilterMember(HasTime(), own, Filter(HasTime(), own)[i]);
    }
  }

  // ---- stored rows -------------------------------------------------------------------------

  /** Counts and time span of a stored group. */
  ghost predicate GroupRowHolds(limits: Limits, derive: LogRow -> KeyOutcome, rows: seq<LogRow>, r: GroupRow) {
    var kept := KeptRows(limits, derive, rows, r.key);
    && r.eventCount == |kept|
    && r.undated == |Filter(Untimed(derive, r.key), rows)|
    && r.eventCount + r.truncated == |Filter(Timed(derive, r.key), rows)|
    && r.eventCount + r.undated + r.truncated >= limits.minGroupSize
    && (r.firstTime.None? <==> kept == []) && (r.lastTime.None? <==> kept == [])
    && (forall row :: row in kept ==> row.eventTime.Some? && r.firstTime.value <= row.eventTime.value <= r.lastTime.value)
    && (kept != [] ==> (exists row :: row in kept && row.eventTime == r.firstTime) && exists row :: row in kept && row.eventTime == r.lastTime)
  }

  lemma CanonicalMeans(limits: Limits, derive: LogRow -> KeyOutcome, rows: seq<LogRow>, key: string, acc: GroupAcc)
    requires AccHolds(limits, derive, rows, key, acc)
    ensures var kept, dated := KeptRows(limits, derive, rows, key), Canonical(acc);
      && |dated| == |kept|
      && (forall s :: s in dated ==> exists row :: row in kept && StampsRow(s, row))
      && (forall row :: row in kept ==> exists s :: s in dated && StampsRow(s, row))
      && (forall i, j :: 0 <= i < j < |dated| ==> dated[i].time <= dated[j].time)
      && (forall i, j :: 0 <= i < j < |dated| && dated[i].time == dated[j].time ==> AtMost(dated[i].recordId, dated[j].recordId))
  {
    var kept, dated := KeptRows(limits, derive, rows, key), Canonical(acc);
    CanonicalSorted(acc);
    SortPermutes(ByStamp(), acc.dated);
    PermutedLength(acc.dated, dated);
    assert dated == SortBy(ByStamp(), acc.dated);
    hide SortBy, KeptRows, AtMost, Canonical;
    forall s ensures s in dated <==> s in acc.dated { SortMembers(ByStamp(), acc.dated, s); }
    forall s | s in dated ensures exists row :: row in kept && StampsRow(s, row) {
      var i :| 0 <= i < |acc.dated| && acc.dated[i] == s;
      assert StampsRow(s, kept[i]);
    }
    forall row | row in kept ensures exists s :: s in dated && StampsRow(s, row) {
      var i :| 0 <= i < |kept| && kept[i] == row;
      assert StampsRow(acc.dated[i], row);
    }
    forall i, j | 0 <= i < j < |dated| ensures NotAfter(dated[i], dated[j]) { assert ByStamp()(dated[i], dated[j]); }
  }

  /** Every stored group row, in terms of the rows of its key. */
  lemma StoredRowMeans(limits: Limits, wantsDetail: bool, detail: Detail, derive: LogRow -> KeyOutcome, rows: seq<LogRow>, name: Naming,
                       ks: seq<string>, out: seq<GroupRow>, edges: seq<Edge>, singletons: nat, dropped: nat, r: GroupRow)
    requires var groups := GroupsOf(limits, wantsDetail, detail, Hits(derive, rows));
      NamesKeys(name) && Ascends(ByName(), ks, groups.Keys) && Stored(limits, name, groups, ks, out, edges, singletons, dropped)
    requires r in out
    ensures GroupRowHolds(limits, derive, rows, r)
  {
    var groups := GroupsOf(limits, wantsDetail, detail, Hits(derive, rows));
    var built := GroupRows(limits, name, groups, ks);
    hide GroupsOf, Hits, Edges, GroupRows, SortBy, Canonical, KeptRows;
    assert r in built by { SortMembers(BySize(), built, r); }
    RowOwnsPrefix(limits, name, groups, ks, r);
    AccMeans(limits, wantsDetail, detail, derive, rows, r.key);
    RowSpan(limits, derive, rows, name, groups[r.key], r);
  }

  lemma RowSpan(limits: Limits, derive: LogRow -> KeyOutcome, rows: seq<LogRow>, name: Naming, acc: GroupAcc, r: GroupRow)
    requires AccHolds(limits, derive, rows, r.key, acc) && r == RowFor(name, r.key, acc, r.edgeCount)
    requires acc.Size() >= limits.minGroupSize
    ensures GroupRowHolds(limits, derive, rows, r)
  {
    var kept, dated := KeptRows(limits, derive, rows, r.key), Canonical(acc);
    CanonicalMeans(limits, derive, rows, r.key, acc);
    hide KeptRows, Canonical, Filter, AtMost;
    forall row | row in kept ensures row.eventTime.Some? && r.firstTime.value <= row.eventTime.value <= r.lastTime.value {
      var s :| s in dated && StampsRow(s, row);
    }
    if kept != [] { assert dated[0] in dated && dated[|dated|-1] in dated; }
  }

  // ---- stored edges -----------------------------------------------------------------------

  /** An edge leads from one kept row of the key to a later one, in canonical order. */
  ghost predicate EdgeHolds(kept: seq<LogRow>, groupId: string, e: Edge) {
    && e.groupId == groupId && e.delta == e.to.time - e.from.time >= 0
    && (e.delta == 0 ==> AtMost(e.from.recordId, e.to.recordId))
    && (exists row :: row in kept && StampsRow(e.from, row)) && (exists row :: row in kept && StampsRow(e.to, row))
  }

  /** No kept row lies strictly between the ends of an edge. */
  ghost predicate NothingBetween(kept: seq<LogRow>, e: Edge) {
    forall row :: row in kept ==> row.eventTime.Some? && (row.eventTime.value <= e.from.time || e.to.time <= row.eventTime.value)
  }

  /** The edges of a stored group: they join one to the next, from its first kept row onwards, and
      when no cap cut them they end at its last. */
  ghost predicate PathHolds(limits: Limits, derive: LogRow -> KeyOutcome, rows: seq<LogRow>, r: GroupRow, path: seq<Edge>) {
    var kept := KeptRows(limits, derive, rows, r.key);
    && |path| == r.edgeCount <= limits.maxEdgesPerEvent
    && (forall i :: 0 <= i < |path| ==> EdgeHolds(kept, r.groupId, path[i]) && NothingBetween(kept, path[i]))
    && Joined(r, kept, path)
  }

  ghost predicate Joined(r: GroupRow, kept: seq<LogRow>, path: seq<Edge>) {
    && (forall i :: 0 <= i < |path| - 1 ==> path[i].to == path[i + 1].from)
    && (path != [] ==> r.firstTime == Some(path[0].from.time))
    && (path != [] && |path| == |kept| - 1 ==> r.lastTime == Some(path[|path|-1].to.time))
  }

  lemma ChainMeans(limits: Limits, derive: LogRow -> KeyOutcome, rows: seq<LogRow>, name: Naming, acc: GroupAcc, r: GroupRow, path: seq<Edge>)
    requires AccHolds(limits, derive, rows, r.key, acc) && r == RowFor(name, r.key, acc, r.edgeCount)
    requires r.edgeCount <= |Chain(r.groupId, Canonical(acc))| && r.edgeCount <= limits.maxEdgesPerEvent
    requires path == Chain(r.groupId, Canonical(acc))[..r.edgeCount]
    ensures PathHolds(limits, derive, rows, r, path)
  {
    var kept, dated := KeptRows(limits, derive, rows, r.key), Canonical(acc);
    CanonicalMeans(limits, derive, rows, r.key, acc);
    RowEnds(name, acc, r);
    hide *;
    forall i | 0 <= i < |path| ensures IsLink(r.groupId, dated, i, path[i]) { LinkOfChain(r.groupId, dated, i); }
    PathOfLinks(limits, kept, dated, r, path);
    PathPacked(limits, derive, rows, r, path, kept);
  }

  lemma RowEnds(name: Naming, acc: GroupAcc, r: GroupRow)
    requires r == RowFor(name, r.key, acc, r.edgeCount)
    ensures Canonical(acc) != [] ==>
      r.firstTime == Some(Canonical(acc)[0].time) && r.lastTime == Some(Canonical(acc)[|Canonical(acc)|-1].time)
  {
    hide Canonical;
  }

  predicate IsLink(groupId: string, dated: seq<Stamp>, i: int, e: Edge) {
    0 <= i && i + 1 < |dated| && e == EdgeOf(groupId, dated[i], dated[i + 1])
  }

  lemma LinkOfChain(groupId: string, dated: seq<Stamp>, i: nat)
    requires i < |Chain(groupId, dated)|
    ensures IsLink(groupId, dated, i, Chain(groupId, dated)[i])
  {
    ChainAt(groupId, dated, i);
  }

  lemma PathOfLinks(limits: Limits, kept: seq<LogRow>, dated: seq<Stamp>, r: GroupRow, path: seq<Edge>)
    requires |dated| == |kept|
    requires forall s :: s in dated ==> exists row :: row in kept && StampsRow(s, row)
    requires forall row :: row in kept ==> exists s :: s in dated && StampsRow(s, row)
    requires forall i, j :: 0 <= i < j < |dated| ==> dated[i].time <= dated[j].time
    requires forall i, j :: 0 <= i < j < |dated| && dated[i].time == dated[j].time ==> AtMost(dated[i].recordId, dated[j].recordId)
    requires forall i :: 0 <= i < |path| ==> IsLink(r.groupId, dated, i, path[i])
    requires dated != [] ==> r.firstTime == Some(dated[0].time) && r.lastTime == Some(dated[|dated|-1].time)
    ensures forall i :: 0 <= i < |path| ==> EdgeHolds(kept, r.groupId, path[i]) && NothingBetween(kept, path[i])
    ensures Joined(r, kept, path)
  {
    hide EdgeHolds, NothingBetween, StampsRow, AtMost;
    forall i | 0 <= i < |path| ensures EdgeHolds(kept, r.groupId, path[i]) && NothingBetween(kept, path[i]) {
      assert IsLink(r.groupId, dated, i, path[i]);
      LinkMeans(kept, dated, r.groupId, i);
    }
    forall i | 0 <= i < |path| - 1 ensures path[i].to == path[i + 1].from {
      assert IsLink(r.groupId, dated, i, path[i]) && IsLink(r.groupId, dated, i + 1, path[i + 1]);
    }
    if path != [] { assert IsLink(r.groupId, dated, 0, path[0]) && IsLink(r.groupId, dated, |path| - 1, path[|path|-1]); }
  }

  lemma PathPacked(limits: Limits, derive: LogRow -> KeyOutcome, rows: seq<LogRow>, r: GroupRow, path: seq<Edge>, kept: seq<LogRow>)
    requires kept == KeptRows(limits, derive, rows, r.key) && |path| == r.edgeCount <= limits.maxEdgesPerEvent
    requires forall i :: 0 <= i < |path| ==> EdgeHolds(kept, r.groupId, path[i]) && NothingBetween(kept, path[i])
    requires Joined(r, kept, path)
    ensures PathHolds(limits, derive, rows, r, path)
  {
    hide EdgeHolds, NothingBetween, KeptRows, Joined;
  }

  lemma LinkMeans(kept: seq<LogRow>, dated: seq<Stamp>, groupId: string, i: nat)
    requires i + 1 < |dated|
    requires forall s :: s in dated ==> exists row :: row in kept && StampsRow(s, row)
    requires forall row :: row in kept ==> exists s :: s in dated && StampsRow(s, row)
    requires forall i, j :: 0 <= i < j < |dated| ==> dated[i].time <= dated[j].time
    requires forall i, j :: 0 <= i < j < |dated| && dated[i].time == dated[j].time ==> AtMost(dated[i].recordId, dated[j].recordId)
    ensures EdgeHolds(kept, groupId, EdgeOf(groupId, dated[i], dated[i + 1]))
    ensures NothingBetween(kept, EdgeOf(groupId, dated[i], dated[i + 1]))
  {
    hide AtMost;
    assert dated[i] in dated && dated[i + 1] in dated;
    forall row | row in kept
      ensures row.eventTime.Some? && (row.eventTime.value <= dated[i].time || dated[i + 1].time <= row.eventTime.value)
    {
      var s :| s in dated && StampsRow(s, row);
      var j :| 0 <= j < |dated| && dated[j] == s;
      if j < i { assert dated[j].time <= dated[i].time; }
      if j > i + 1 { assert dated[i + 1].time <= dated[j].time; }
    }
  }

  lemma {:induction false} RowUnderCap(limits: Limits, name: Naming, groups: map<string, GroupAcc>, ks: seq<string>, r: GroupRow)
    requires (forall k :: k in ks ==> k in groups) && r in GroupRows(limits, name, groups, ks)
    ensures r.edgeCount <= limits.maxEdgesPerEvent
  {
    var front, k := ks[..|ks|-1], ks[|ks|-1];
    assert ks == front + [k];
    hide GroupRows, Edges, Canonical, ChainFor, Large;
    BuildSnoc(limits, name, groups, front, k);
    if r in GroupRows(limits, name, groups, front) { RowUnderCap(limits, name, groups, front, r); }
  }

  /** The edges stored under a group's id, wherever the final sort put them among the others. */
  lemma StoredPathMeans(limits: Limits, wantsDetail: bool, detail: Detail, derive: LogRow -> KeyOutcome, rows: seq<LogRow>, name: Naming,
                        ks: seq<string>, out: seq<GroupRow>, edges: seq<Edge>, singletons: nat, dropped: nat, r: GroupRow)
    requires var groups := GroupsOf(limits, wantsDetail, detail, Hits(derive, rows));
      NamesKeys(name) && Ascends(ByName(), ks, groups.Keys) && Stored(limits, name, groups, ks, out, edges, singletons, dropped)
    requires r in out
    ensures PathHolds(limits, derive, rows, r, Filter(InGroup(r.groupId), edges))
    ensures r.edgeCount == |KeptRows(limits, derive, rows, r.key)| - 1 || r.edgeCount == limits.maxEdgesPerEvent
      || |edges| >= limits.maxTotalEdges || KeptRows(limits, derive, rows, r.key) == []
  {
    var groups := GroupsOf(limits, wantsDetail, detail, Hits(derive, rows));
    var built := GroupRows(limits, name, groups, ks);
    ChainSurvivesSort(limits, name, groups, ks, out, edges, singletons, dropped, r);
    hide GroupsOf, Hits, Edges, GroupRows, SortBy, Canonical, KeptRows, Chain;
    assert r in built by { SortMembers(BySize(), built, r); }
    RowOwnsPrefix(limits, name, groups, ks, r);
    RowUnderCap(limits, name, groups, ks, r);
    AccMeans(limits, wantsDetail, detail, derive, rows, r.key);
    CanonicalMeans(limits, derive, rows, r.key, groups[r.key]);
    ChainMeans(limits, derive, rows, name, groups[r.key], r, Filter(InGroup(r.groupId), edges));
  }

  /** All stored edges: by group, and inside a group by the record they leave. */
  lemma EdgesInOrder(limits: Limits, name: Naming, groups: map<string, GroupAcc>, ks: seq<string>,
                     out: seq<GroupRow>, edges: seq<Edge>, singletons: nat, dropped: nat, i: nat, j: nat)
    requires Stored(limits, name, groups, ks, out, edges, singletons, dropped) && i < j < |edges|
    ensures AtMost(edges[i].groupId, edges[j].groupId)
    ensures edges[i].groupId == edges[j].groupId ==> edges[i].from.time <= edges[j].from.time
    ensures edges[i].groupId == edges[j].groupId && edges[i].from.time == edges[j].from.time ==>
      AtMost(edges[i].from.recordId, edges[j].from.recordId)
  {
    ByGroupIsOrder();
    SortSorts(ByGroup(), Edges(limits, name, groups, ks));
    hide SortBy, Edges, GroupRows, AtMost;
    assert ByGroup()(edges[i], edges[j]);
    AtMostTotal(edges[i].groupId, edges[j].groupId);
    AtMostTotal(edges[i].groupId, edges[i].groupId);
  }

  // ---- resources and details --------------------------------------------------------------

  /** A group names the resources of its rows, all of them unless 32 were reached. */
  ghost predicate ResourcesHold(derive: LogRow -> KeyOutcome, rows: seq<LogRow>, key: string, acc: GroupAcc) {
    && |acc.resources| <= 32
    && (forall r :: r in acc.resources ==> exists row :: row in rows && Carries(derive, key, row) && row.resourceId == r)
    && (acc.resourcesTruncated ==> |acc.resources| == 32)
    && (!acc.resourcesTruncated ==> forall row :: row in rows && Carries(derive, key, row) ==> row.resourceId in acc.resources)
  }

  lemma ResourcesMean(limits: Limits, wantsDetail: bool, detail: Detail, derive: LogRow -> KeyOutcome, rows: seq<LogRow>, key: string)
    requires key in GroupsOf(limits, wantsDetail, detail, Hits(derive, rows))
    ensures ResourcesHold(derive, rows, key, GroupsOf(limits, wantsDetail, detail, Hits(derive, rows))[key])
  {
    var hits := Hits(derive, rows);
    var own := Group(KeyOfHit(), key, hits);
    GroupKeys(limits.maxGroups, KeyOfHit(), ToAcc(limits, wantsDetail, detail), hits);
    FiledRows(derive, rows, key);
    OwnRows(derive, rows, key);
    HeldResources(Apply(ResourceOf(), own));
    ResourceRows(own);
    hide Hits, Group, Filter, AppliedIn, Kept, Admitted, Overflows, Apply;
  }

  /** The hits of a key are the rows that carry it. */
  lemma OwnRows(derive: LogRow -> KeyOutcome, rows: seq<LogRow>, key: string)
    ensures var own := Group(KeyOfHit(), key, Hits(derive, rows));
      forall row :: (row in rows && Carries(derive, key, row)) <==> exists h :: h in own && h.row == row
  {
    var own := Group(KeyOfHit(), key, Hits(derive, rows));
    FiledRows(derive, rows, key);
    hide Hits, Group, Filter;
    forall row ensures (row in rows && Carries(derive, key, row)) <==> exists h :: h in own && h.row == row {
      FilterMember(DerivesKey(derive, key), rows, row);
      if row in Apply(RowIn(), own) {
        var i :| 0 <= i < |own| && Apply(RowIn(), own)[i] == row;
        assert own[i] in own;
      }
      if h :| h in own && h.row == row {
        var i :| 0 <= i < |own| && own[i] == h;
        assert Apply(RowIn(), own)[i] == row;
      }
    }
  }

  lemma HeldResources(s: seq<string>)
    ensures var held := set r | r in Admitted(MAX_RESOURCES, s);
      && |held| <= 32 && (forall r :: r in held ==> r in s)
      && (Overflows(MAX_RESOURCES, s) ==> |held| == 32) && (!Overflows(MAX_RESOURCES, s) ==> forall r :: r in s ==> r in held)
  {
    AdmittedSetSize(MAX_RESOURCES, s);
  }

  lemma ResourceRows(own: seq<Hit>)
    ensures forall r :: r in Apply(ResourceOf(), own) <==> exists h :: h in own && h.row.resourceId == r
  {
    forall r ensures r in Apply(ResourceOf(), own) <==> exists h :: h in own && h.row.resourceId == r {
      if r in Apply(ResourceOf(), own) {
        var i :| 0 <= i < |own| && Apply(ResourceOf(), own)[i] == r;
        assert own[i] in own;
      }
      if h :| h in own && h.row.resourceId == r {
        var i :| 0 <= i < |own| && own[i] == h;
        assert Apply(ResourceOf(), own)[i] == r;
      }
    }
  }
}
