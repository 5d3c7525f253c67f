/** From admitted groups to stored groups and edges (crates/logscope-app/src/correlation.rs):
    every group is put in canonical order, chained under two caps, and all edges are sorted
    once more at the end. */
module CorrelationGroups {
  import opened CappedGroups
  import opened Correlation
  import opened Ordering
  import opened Sequences
  import opened Sorting
  import opened Rows

  // ---- data model --------------------------------------------------------------------

  datatype Edge = Edge(groupId: string, from: Stamp, to: Stamp, delta: int)

  datatype GroupRow = GroupRow(
    groupId: string, key: string, eventCount: nat, undated: nat, truncated: nat,
    firstTime: Option<int>, lastTime: Option<int>, edgeCount: nat)
  {
    function Total(): nat { eventCount + undated + truncated }
  }

  // ---- orders --------------------------------------------------------------------------

  /** Canonical order inside a group: event time, then record id. */
  predicate NotAfter(a: Stamp, b: Stamp) {
    a.time < b.time || (a.time == b.time && AtMost(a.recordId, b.recordId))
  }

  function ByStamp(): (Stamp, Stamp) -> bool { (a: Stamp, b: Stamp) => NotAfter(a, b) }
  function ByMemberStamp(): (Member, Member) -> bool { (a: Member, b: Member) => NotAfter(a.stamp, b.stamp) }
  function StampIn(): Member -> Stamp { (m: Member) => m.stamp }

  /** Stored edge order: group id, then the stamp the edge leaves from. */
  predicate EdgeNotAfter(a: Edge, b: Edge) {
    Below(a.groupId, b.groupId) || (a.groupId == b.groupId && NotAfter(a.from, b.from))
  }

  function ByGroup(): (Edge, Edge) -> bool { (a: Edge, b: Edge) => EdgeNotAfter(a, b) }

  /** Stored group order: larger groups first, then key. */
  predicate RowNotAfter(a: GroupRow, b: GroupRow) {
    a.Total() > b.Total() || (a.Total() == b.Total() && AtMost(a.key, b.key))
  }

  function BySize(): (GroupRow, GroupRow) -> bool { (a: GroupRow, b: GroupRow) => RowNotAfter(a, b) }

  lemma NotAfterIsOrder(a: Stamp, b: Stamp, c: Stamp)
    ensures NotAfter(a, b) || NotAfter(b, a)
    ensures NotAfter(a, b) && NotAfter(b, c) ==> NotAfter(a, c)
    ensures NotAfter(a, b) && NotAfter(b, a) ==> a == b
  {
    AtMostTotal(a.recordId, b.recordId);
    if AtMost(a.recordId, b.recordId) && AtMost(b.recordId, c.recordId) { AtMostTransitive(a.recordId, b.recordId, c.recordId); }
    if AtMost(a.recordId, b.recordId) && AtMost(b.recordId, a.recordId) { AtMostAntisymmetric(a.recordId, b.recordId); }
  }

  lemma ByStampIsOrder()
    ensures TotalPreorder(ByStamp()) && TotalPreorder(ByMemberStamp())
  {
    hide NotAfter;
    forall a: Stamp, b: Stamp, c: Stamp
      ensures (NotAfter(a, b) || NotAfter(b, a)) && (NotAfter(a, b) && NotAfter(b, c) ==> NotAfter(a, c))
    { NotAfterIsOrder(a, b, c); }
  }

  lemma EdgeNotAfterIsOrder(a: Edge, b: Edge, c: Edge)
    ensures EdgeNotAfter(a, b) || EdgeNotAfter(b, a)
    ensures EdgeNotAfter(a, b) && EdgeNotAfter(b, c) ==> EdgeNotAfter(a, c)
  {
    NotAfterIsOrder(a.from, b.from, c.from);
    hide NotAfter;
    AtMostTotal(a.groupId, b.groupId);
    AtMostTotal(b.groupId, c.groupId);
    AtMostTotal(a.groupId, c.groupId);
    if AtMost(a.groupId, b.groupId) && AtMost(b.groupId, a.groupId) { AtMostAntisymmetric(a.groupId, b.groupId); }
    if AtMost(b.groupId, c.groupId) && AtMost(c.groupId, b.groupId) { AtMostAntisymmetric(b.groupId, c.groupId); }
    if AtMost(c.groupId, a.groupId) && AtMost(a.groupId, b.groupId) { AtMostTransitive(c.groupId, a.groupId, b.groupId); }
    if AtMost(b.groupId, c.groupId) && AtMost(c.groupId, a.groupId) { AtMostTransitive(b.groupId, c.groupId, a.groupId); }
  }

  lemma ByGroupIsOrder()
    ensures TotalPreorder(ByGroup())
  {
    hide EdgeNotAfter;
    forall a: Edge, b: Edge, c: Edge
      ensures (EdgeNotAfter(a, b) || EdgeNotAfter(b, a)) && (EdgeNotAfter(a, b) && EdgeNotAfter(b, c) ==> EdgeNotAfter(a, c))
    { EdgeNotAfterIsOrder(a, b, c); }
  }

  lemma BySizeIsOrder()
    ensures TotalPreorder(BySize())
  {
    forall a: GroupRow, b: GroupRow, c: GroupRow
      ensures (RowNotAfter(a, b) || RowNotAfter(b, a)) && (RowNotAfter(a, b) && RowNotAfter(b, c) ==> RowNotAfter(a, c))
    {
      AtMostTotal(a.key, b.key);
      if AtMost(a.key, b.key) && AtMost(b.key, c.key) { AtMostTransitive(a.key, b.key, c.key); }
    }
  }

  // ---- the two sorted arrays ----------------------------------------------------------

  /** The dated list and the member list are sorted separately, yet stay in lockstep: with
      detail on, the i-th member is the i-th dated record. */
  lemma SortedInLockstep(limits: Limits, detail: Detail, s: seq<Hit>)
    ensures var acc := AccOf(limits, true, detail, s);
      Apply(StampIn(), SortBy(ByMemberStamp(), acc.members)) == SortBy(ByStamp(), acc.dated)
  {
    var acc := AccOf(limits, true, detail, s);
    MembersCarryStamps(limits, detail, s);
    hide AccOf, NotAfter, SortBy;
    SortApply(ByMemberStamp(), ByStamp(), StampIn(), acc.members);
  }

  lemma MembersCarryStamps(limits: Limits, detail: Detail, s: seq<Hit>)
    ensures var acc := AccOf(limits, true, detail, s); Apply(StampIn(), acc.members) == acc.dated
  {
  }

  // ---- chains --------------------------------------------------------------------------

  function EdgeOf(groupId: string, a: Stamp, b: Stamp): Edge {
    Edge(groupId, a, b, b.time - a.time)
  }

  /** One edge per consecutive pair, never one per pair. */
  function Chain(groupId: string, dated: seq<Stamp>): (r: seq<Edge>)
    ensures |r| == if dated == [] then 0 else |dated| - 1
  {
    if |dated| <= 1 then []
    else seq(|dated| - 1, i requires 0 <= i < |dated| - 1 => EdgeOf(groupId, dated[i], dated[i + 1]))
  }

  /** How much of a chain both caps leave, when `used` edges are already stored. */
  function Room(limits: Limits, used: nat, length: nat): (n: nat)
    ensures n <= length && n <= limits.maxEdgesPerEvent
    ensures used + n <= limits.maxTotalEdges || n == 0
    ensures n == length || n == limits.maxEdgesPerEvent || used + n >= limits.maxTotalEdges
  {
    var total := if used < limits.maxTotalEdges then limits.maxTotalEdges - used else 0;
    var cap := if limits.maxEdgesPerEvent < total then limits.maxEdgesPerEvent else total;
    if length < cap then length else cap
  }

  /** The chaining loop of one group: under the caps it keeps a prefix and counts the rest. */
  method LinkGroup(limits: Limits, groupId: string, dated: seq<Stamp>, stored: seq<Edge>)
    returns (edges: seq<Edge>, here: nat, dropped: nat)
    ensures here == Room(limits, |stored|, |Chain(groupId, dated)|)
    ensures edges == stored + Chain(groupId, dated)[..here]
    ensures here + dropped == |Chain(groupId, dated)|
  {
    edges, here, dropped := stored, 0, 0;
    ghost var chain := Chain(groupId, dated);
    var i := 0;
    while i + 1 < |dated|
      invariant i <= |chain| && here + dropped == i
      invariant here == Room(limits, |stored|, i)
      invariant edges == stored + chain[..here]
    {
      if |edges| >= limits.maxTotalEdges || here >= limits.maxEdgesPerEvent {
        dropped := dropped + 1;
      } else {
        edges := edges + [EdgeOf(groupId, dated[i], dated[i + 1])];
        here := here + 1;
      }
      i := i + 1;
    }
  }

  /** A kept prefix is a path: each edge leaves where the one before arrived, never backwards. */
  ghost predicate Path(groupId: string, dated: seq<Stamp>, edges: seq<Edge>) {
    && (edges == [] || |edges| < |dated|)
    && forall i :: 0 <= i < |edges| ==>
      edges[i].groupId == groupId && edges[i].from == dated[i] && edges[i].to == dated[i + 1] && edges[i].delta >= 0
  }

  lemma ChainAt(groupId: string, dated: seq<Stamp>, i: nat)
    requires i < |Chain(groupId, dated)|
    ensures i + 1 < |dated| && Chain(groupId, dated)[i] == EdgeOf(groupId, dated[i], dated[i + 1])
  {
  }

  lemma ChainIsPath(groupId: string, dated: seq<Stamp>, n: nat)
    requires SortedBy(ByStamp(), dated) && n <= |Chain(groupId, dated)|
    ensures Path(groupId, dated, Chain(groupId, dated)[..n])
  {
    var path := Chain(groupId, dated)[..n];
    hide NotAfter, Chain;
    forall i | 0 <= i < n
      ensures path[i].groupId == groupId && path[i].from == dated[i] && path[i].to == dated[i + 1] && path[i].delta >= 0
    {
      ChainAt(groupId, dated, i);
      InOrder(dated, i, i + 1);
    }
  }

  lemma PathIsSorted(groupId: string, dated: seq<Stamp>, path: seq<Edge>)
    requires SortedBy(ByStamp(), dated) && Path(groupId, dated, path)
    ensures SortedBy(ByGroup(), path)
  {
    hide NotAfter, AtMost;
    forall i, j | 0 <= i < j < |path| ensures ByGroup()(path[i], path[j]) {
      InOrder(dated, i, j);
    }
  }

  lemma InOrder(dated: seq<Stamp>, i: nat, j: nat)
    requires SortedBy(ByStamp(), dated) && i < j < |dated|
    ensures NotAfter(dated[i], dated[j]) && dated[i].time <= dated[j].time
  {
    assert ByStamp()(dated[i], dated[j]);
  }

  function DeltaOf(): Edge -> int { (e: Edge) => e.delta }

  /** Deltas telescope: together they span first to last kept record. */
  lemma {:induction false} DeltasTelescope(groupId: string, dated: seq<Stamp>, n: nat)
    requires n <= |Chain(groupId, dated)| && dated != []
    ensures Sum(Apply(DeltaOf(), Chain(groupId, dated)[..n])) == dated[n].time - dated[0].time
  {
    if n > 0 {
      DeltasTelescope(groupId, dated, n - 1);
      var chain := Chain(groupId, dated);
      ChainAt(groupId, dated, n - 1);
      hide Chain, Sum, Apply;
      assert chain[..n] == chain[..n - 1] + [chain[n - 1]];
      ApplySnoc(DeltaOf(), chain[..n - 1], chain[n - 1]);
      SumSnoc(Apply(DeltaOf(), chain[..n - 1]), chain[n - 1].delta);
    } else {
      assert Apply(DeltaOf(), Chain(groupId, dated)[..0]) == [];
    }
  }

  // ---- building every group -----------------------------------------------------------

  /** Derives a group id from the key and the ordered participants: a hash of both. */
  type Naming = (string, seq<Stamp>) -> string

  /** Hashes do not collide: the id determines the key. */
  ghost predicate NamesKeys(name: Naming) {
    forall k, p, k', p' :: name(k, p) == name(k', p') ==> k == k'
  }

  function Canonical(acc: GroupAcc): seq<Stamp> { SortBy(ByStamp(), acc.dated) }

  function IdFor(name: Naming, key: string, acc: GroupAcc): string { name(key, Canonical(acc)) }

  function ChainFor(name: Naming, key: string, acc: GroupAcc): seq<Edge> {
    Chain(IdFor(name, key, acc), Canonical(acc))
  }

  function RowFor(name: Naming, key: string, acc: GroupAcc, edgeCount: nat): GroupRow {
    var dated := Canonical(acc);
    GroupRow(IdFor(name, key, acc), key, |dated|, acc.undated, acc.truncated,
      if dated == [] then None else Some(dated[0].time),
      if dated == [] then None else Some(dated[|dated|-1].time), edgeCount)
  }

  function SizeIn(groups: map<string, GroupAcc>): string -> int {
    (k: string) => if k in groups then groups[k].Size() else 0
  }

  function LinksIn(groups: map<string, GroupAcc>): string -> int {
    (k: string) => if k in groups && groups[k].dated != [] then |groups[k].dated| - 1 else 0
  }

  function Large(limits: Limits, groups: map<string, GroupAcc>): string -> bool {
    (k: string) => SizeIn(groups)(k) >= limits.minGroupSize
  }

  function Small(limits: Limits, groups: map<string, GroupAcc>): string -> bool {
    (k: string) => SizeIn(groups)(k) < limits.minGroupSize
  }

  lemma Sized(limits: Limits, groups: map<string, GroupAcc>, k: string)
    requires k in groups
    ensures Large(limits, groups)(k) <==> groups[k].Size() >= limits.minGroupSize
    ensures Small(limits, groups)(k) <==> groups[k].Size() < limits.minGroupSize
  {
    assert SizeIn(groups)(k) == groups[k].Size();
  }

  /** The unsorted rows and edges of the listed keys. */
  function Edges(limits: Limits, name: Naming, groups: map<string, GroupAcc>, ks: seq<string>): seq<Edge>
    requires forall k :: k in ks ==> k in groups
  {
    if ks == [] then []
    else
      var front, k := Edges(limits, name, groups, ks[..|ks|-1]), ks[|ks|-1];
      if !Large(limits, groups)(k) then front
      else
        var chain := ChainFor(name, k, groups[k]);
        front + chain[..Room(limits, |front|, |chain|)]
  }

  function GroupRows(limits: Limits, name: Naming, groups: map<string, GroupAcc>, ks: seq<string>): seq<GroupRow>
    requires forall k :: k in ks ==> k in groups
  {
    if ks == [] then []
    else
      var used, k := |Edges(limits, name, groups, ks[..|ks|-1])|, ks[|ks|-1];
      var front := GroupRows(limits, name, groups, ks[..|ks|-1]);
      if !Large(limits, groups)(k) then front
      else front + [RowFor(name, k, groups[k], Room(limits, used, |ChainFor(name, k, groups[k])|))]
  }

  lemma BuildSnoc(limits: Limits, name: Naming, groups: map<string, GroupAcc>, ks: seq<string>, k: string)
    requires forall k :: k in ks ==> k in groups
    requires k in groups
    ensures var edges, chain := Edges(limits, name, groups, ks), ChainFor(name, k, groups[k]);
      var here := Room(limits, |edges|, |chain|);
      && Edges(limits, name, groups, ks + [k]) == (if Large(limits, groups)(k) then edges + chain[..here] else edges)
      && GroupRows(limits, name, groups, ks + [k]) ==
        GroupRows(limits, name, groups, ks) + (if Large(limits, groups)(k) then [RowFor(name, k, groups[k], here)] else [])
  {
    assert (ks + [k])[..|ks|] == ks;
  }

  /** What the loop over the groups must have built after the keys `ks`. */
  ghost predicate Built(limits: Limits, name: Naming, groups: map<string, GroupAcc>, ks: seq<string>,
                        rows: seq<GroupRow>, edges: seq<Edge>, singletons: nat, dropped: nat) {
    && (forall k :: k in ks ==> k in groups)
    && rows == GroupRows(limits, name, groups, ks)
    && edges == Edges(limits, name, groups, ks)
    && singletons == |Filter(Small(limits, groups), ks)|
    && |edges| + dropped == Sum(Apply(LinksIn(groups), Filter(Large(limits, groups), ks)))
  }

  lemma BuiltSmall(limits: Limits, name: Naming, groups: map<string, GroupAcc>, ks: seq<string>, k: string,
                   rows: seq<GroupRow>, edges: seq<Edge>, singletons: nat, dropped: nat)
    requires Built(limits, name, groups, ks, rows, edges, singletons, dropped)
    requires k in groups && groups[k].Size() < limits.minGroupSize
    ensures Built(limits, name, groups, ks + [k], rows, edges, singletons + 1, dropped)
  {
    Sized(limits, groups, k);
    hide Edges, GroupRows, Filter, Sum, ChainFor, Large, Small, SizeIn, LinksIn, Room, RowFor, GroupAcc.Size, Apply;
    BuildSnoc(limits, name, groups, ks, k);
    FilterSnoc(Small(limits, groups), ks, k);
    FilterSnoc(Large(limits, groups), ks, k);
  }

  lemma BuiltLarge(limits: Limits, name: Naming, groups: map<string, GroupAcc>, ks: seq<string>, k: string,
                   rows: seq<GroupRow>, edges: seq<Edge>, singletons: nat, dropped: nat,
                   edges': seq<Edge>, here: nat, over: nat)
    requires Built(limits, name, groups, ks, rows, edges, singletons, dropped)
    requires k in groups && groups[k].Size() >= limits.minGroupSize
    requires var chain := ChainFor(name, k, groups[k]);
      here == Room(limits, |edges|, |chain|) && edges' == edges + chain[..here] && here + over == |chain|
    ensures Built(limits, name, groups, ks + [k], rows + [RowFor(name, k, groups[k], here)], edges', singletons, dropped + over)
  {
    ChainForLength(name, k, groups);
    Sized(limits, groups, k);
    hide Edges, GroupRows, Filter, Sum, ChainFor, Large, Small, SizeIn, LinksIn, Room, RowFor, GroupAcc.Size, Apply;
    BuildSnoc(limits, name, groups, ks, k);
    FilterSnoc(Small(limits, groups), ks, k);
    FilterSnoc(Large(limits, groups), ks, k);
    ApplySnoc(LinksIn(groups), Filter(Large(limits, groups), ks), k);
    SumSnoc(Apply(LinksIn(groups), Filter(Large(limits, groups), ks)), LinksIn(groups)(k));
  }

  lemma BuiltNothing(limits: Limits, name: Naming, groups: map<string, GroupAcc>)
    ensures Built(limits, name, groups, [], [], [], 0, 0)
  {
    assert Apply(LinksIn(groups), []) == [];
  }

  /** One group: skipped as a singleton key, or ordered, chained and stored. */
  method BuildOne(limits: Limits, name: Naming, groups: map<string, GroupAcc>, key: string, ghost ks: seq<string>,
                  rows: seq<GroupRow>, edges: seq<Edge>, singletons: nat, dropped: nat)
    returns (rows': seq<GroupRow>, edges': seq<Edge>, singletons': nat, dropped': nat)
    requires Built(limits, name, groups, ks, rows, edges, singletons, dropped) && key in groups
    ensures Built(limits, name, groups, ks + [key], rows', edges', singletons', dropped')
  {
    var acc := groups[key];
    rows', edges', singletons', dropped' := rows, edges, singletons, dropped;
    if acc.Size() < limits.minGroupSize {
      BuiltSmall(limits, name, groups, ks, key, rows, edges, singletons, dropped);
      singletons' := singletons + 1;
    } else {
      ChainForIs(name, key, acc);
      hide Chain, ChainFor, Built, RowFor, IdFor, Canonical, Room, SortBy;
      var dated := SortBy(ByStamp(), acc.dated);
      var here, over;
      edges', here, over := LinkGroup(limits, name(key, dated), dated, edges);
      BuiltLarge(limits, name, groups, ks, key, rows, edges, singletons, dropped, edges', here, over);
      rows' := rows + [RowFor(name, key, acc, here)];
      dropped' := dropped + over;
    }
  }

  /** The loop over the admitted groups and the final sorts. */
  method BuildGroups(limits: Limits, name: Naming, groups: map<string, GroupAcc>)
    returns (rows: seq<GroupRow>, edges: seq<Edge>, singletons: nat, dropped: nat)
    ensures forall ks :: Ascends(ByName(), ks, groups.Keys) ==> Stored(limits, name, groups, ks, rows, edges, singletons, dropped)
  {
    hide *;
    var keys := NamesOf(groups.Keys);
    rows, edges, singletons, dropped := [], [], 0, 0;
    BuiltNothing(limits, name, groups);
    var i := 0;
    assert keys[..0] == [];
    while i < |keys|
      invariant i <= |keys|
      invariant Built(limits, name, groups, keys[..i], rows, edges, singletons, dropped)
    {
      assert keys[..i + 1] == keys[..i] + [keys[i]];
      rows, edges, singletons, dropped := BuildOne(limits, name, groups, keys[i], keys[..i], rows, edges, singletons, dropped);
      i := i + 1;
    }
    assert keys[..i] == keys;
    StoredFrom(limits, name, groups, keys, rows, edges, singletons, dropped);
    rows, edges := SortBy(BySize(), rows), SortBy(ByGroup(), edges);
    ByNameStrict();
    forall ks | Ascends(ByName(), ks, groups.Keys) ensures ks == keys {
      AscendsUnique(ByName(), ks, keys, groups.Keys);
    }
  }

  /** What is written out: the built rows and edges, each sorted once more. */
  ghost predicate Stored(limits: Limits, name: Naming, groups: map<string, GroupAcc>, ks: seq<string>,
                         rows: seq<GroupRow>, edges: seq<Edge>, singletons: nat, dropped: nat) {
    && (forall k :: k in ks ==> k in groups)
    && rows == SortBy(BySize(), GroupRows(limits, name, groups, ks))
    && edges == SortBy(ByGroup(), Edges(limits, name, groups, ks))
    && Built(limits, name, groups, ks, GroupRows(limits, name, groups, ks), Edges(limits, name, groups, ks), singletons, dropped)
  }

  lemma StoredFrom(limits: Limits, name: Naming, groups: map<string, GroupAcc>, ks: seq<string>,
                   rows: seq<GroupRow>, edges: seq<Edge>, singletons: nat, dropped: nat)
    requires Built(limits, name, groups, ks, rows, edges, singletons, dropped)
    ensures Stored(limits, name, groups, ks, SortBy(BySize(), rows), SortBy(ByGroup(), edges), singletons, dropped)
  {
    hide SortBy;
  }

  lemma ChainForIs(name: Naming, key: string, acc: GroupAcc)
    ensures ChainFor(name, key, acc) == Chain(IdFor(name, key, acc), SortBy(ByStamp(), acc.dated))
    ensures IdFor(name, key, acc) == name(key, SortBy(ByStamp(), acc.dated))
  {
  }

  lemma ChainForLength(name: Naming, key: string, groups: map<string, GroupAcc>)
    requires key in groups
    ensures |ChainFor(name, key, groups[key])| == LinksIn(groups)(key)
  {
  }
}
