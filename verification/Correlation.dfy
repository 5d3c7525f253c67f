/** Correlation grouping (crates/logscope-app/src/correlation.rs): one bounded pass that
    partitions records by a validated key, then an ordered chain per group. */
module Correlation {
  import opened CappedGroups
  import opened Ordering
  import opened Sequences
  import opened Sorting
  import opened Rows
  import Streaming

  // ---- data model --------------------------------------------------------------------

  datatype Limits = Limits(minGroupSize: nat, maxEventsPerGroup: nat, maxGroups: nat, maxEdgesPerEvent: nat, maxTotalEdges: nat)

  const MAX_RESOURCES := 32

  datatype Stamp = Stamp(time: int, recordId: string)

  /** The columns the signal rules read, next to the stamp the sequence is ordered by;
      `facts` stands for the attempt, operation, outcome, message id and time quality. */
  datatype Member = Member(
    stamp: Stamp, datasetId: string, sourceId: string, recordNumber: Option<int>,
    digest: string, ingestDuplicate: bool, facts: map<string, string>)

  datatype GroupAcc = GroupAcc(
    dated: seq<Stamp>, members: seq<Member>, undated: nat, truncated: nat,
    resources: set<string>, resourcesTruncated: bool, applied: set<string>)
  {
    /** `dated.len() + undated + truncated`. */
    function Size(): nat { |dated| + undated + truncated }
  }

  datatype KeyOutcome = Rejected(reason: string) | Keyed(key: string, applied: set<string>)

  /** A row that got a key. */
  datatype Hit = Hit(key: string, applied: set<string>, row: LogRow)

  // ---- specification ------------------------------------------------------------------

  function Hits(derive: LogRow -> KeyOutcome, rows: seq<LogRow>): seq<Hit> {
    if rows == [] then []
    else
      var front, row := Hits(derive, rows[..|rows|-1]), rows[|rows|-1];
      match derive(row)
      case Keyed(k, a) => front + [Hit(k, a, row)]
      case Rejected(_) => front
  }

  function Rejections(derive: LogRow -> KeyOutcome, rows: seq<LogRow>): multiset<string> {
    if rows == [] then multiset{}
    else
      var front, row := Rejections(derive, rows[..|rows|-1]), rows[|rows|-1];
      match derive(row)
      case Keyed(_, _) => front
      case Rejected(reason) => front + multiset{reason}
  }

  function KeyOfHit(): Hit -> string { (h: Hit) => h.key }
  function HasTime(): Hit -> bool { (h: Hit) => h.row.eventTime.Some? }
  function ResourceOf(): Hit -> string { (h: Hit) => h.row.resourceId }
  function StampOf(): Hit -> Stamp { (h: Hit) => Stamp(h.row.eventTime.GetOr(0), h.row.recordId) }

  /** Reads a row's member detail; the stamp is always the row's own. */
  type Detail = LogRow -> Member
  function MemberOf(detail: Detail): Hit -> Member { (h: Hit) => detail(h.row).(stamp := StampOf()(h)) }

  function AppliedIn(s: seq<Hit>): set<string> {
    if s == [] then {} else AppliedIn(s[..|s|-1]) + s[|s|-1].applied
  }

  /** What a group with hits `s` must hold: the first dated ones up to the cap, and a count
      of everything else. */
  ghost function AccOf(limits: Limits, wantsDetail: bool, detail: Detail, s: seq<Hit>): GroupAcc {
    var dated := Filter(HasTime(), s);
    var kept := Kept(limits, s);
    GroupAcc(
      Apply(StampOf(), kept),
      if wantsDetail then Apply(MemberOf(detail), kept) else [],
      |s| - |dated|,
      |dated| - |kept|,
      (set r | r in Admitted(MAX_RESOURCES, Apply(ResourceOf(), s))),
      Overflows(MAX_RESOURCES, Apply(ResourceOf(), s)),
      AppliedIn(s))
  }

  ghost function ToAcc(limits: Limits, wantsDetail: bool, detail: Detail): seq<Hit> -> GroupAcc {
    (s: seq<Hit>) => AccOf(limits, wantsDetail, detail, s)
  }

  ghost function GroupsOf(limits: Limits, wantsDetail: bool, detail: Detail, hits: seq<Hit>): map<string, GroupAcc> {
    GroupMap(limits.maxGroups, KeyOfHit(), ToAcc(limits, wantsDetail, detail), hits)
  }

  /** A group's size counts every record that carried its key. */
  lemma AccSize(limits: Limits, wantsDetail: bool, detail: Detail, s: seq<Hit>)
    ensures AccOf(limits, wantsDetail, detail, s).Size() == |s|
  {
  }

  // ---- the streaming pass ---------------------------------------------------------------

  lemma ResourcesSnoc(s: seq<string>, r: string)
    ensures var held := set x | x in Admitted(MAX_RESOURCES, s);
      var held' := set x | x in Admitted(MAX_RESOURCES, s + [r]);
      && held' == (if |held| < MAX_RESOURCES then held + {r} else held)
      && (Overflows(MAX_RESOURCES, s + [r]) <==> Overflows(MAX_RESOURCES, s) || (|held| >= MAX_RESOURCES && r !in held))
  {
    AdmittedSetSize(MAX_RESOURCES, s);
    AdmittedSnoc(MAX_RESOURCES, s, r);
  }

  lemma AccSnoc(limits: Limits, wantsDetail: bool, detail: Detail, s: seq<Hit>, h: Hit)
    ensures var was := AccOf(limits, wantsDetail, detail, s);
      var dated := h.row.eventTime.Some?;
      var room := |was.dated| < limits.maxEventsPerGroup;
      AccOf(limits, wantsDetail, detail, s + [h]) == GroupAcc(
        if dated && room then was.dated + [StampOf()(h)] else was.dated,
        if dated && room && wantsDetail then was.members + [MemberOf(detail)(h)] else was.members,
        if dated then was.undated else was.undated + 1,
        if dated && !room then was.truncated + 1 else was.truncated,
        if |was.resources| < MAX_RESOURCES then was.resources + {h.row.resourceId} else was.resources,
        was.resourcesTruncated || (|was.resources| >= MAX_RESOURCES && h.row.resourceId !in was.resources),
        was.applied + h.applied)
  {
    KeptSnoc(limits, s, h);
    ApplySnoc(StampOf(), Kept(limits, s), h);
    ApplySnoc(MemberOf(detail), Kept(limits, s), h);
    ApplySnoc(ResourceOf(), s, h);
    ResourcesSnoc(Apply(ResourceOf(), s), h.row.resourceId);
    AppliedSnoc(s, h);
    hide Distinct, Admitted, Overflows, Filter, Kept, AppliedIn;
  }

  /** The dated hits a group keeps. */
  function Kept(limits: Limits, s: seq<Hit>): seq<Hit> { Upto(limits.maxEventsPerGroup, Filter(HasTime(), s)) }

  lemma KeptSnoc(limits: Limits, s: seq<Hit>, h: Hit)
    ensures Kept(limits, s + [h]) ==
      if h.row.eventTime.Some? && |Kept(limits, s)| < limits.maxEventsPerGroup then Kept(limits, s) + [h] else Kept(limits, s)
    ensures |Filter(HasTime(), s + [h])| == |Filter(HasTime(), s)| + if h.row.eventTime.Some? then 1 else 0
    ensures |Kept(limits, s)| == if |Filter(HasTime(), s)| < limits.maxEventsPerGroup then |Filter(HasTime(), s)| else limits.maxEventsPerGroup
  {
    hide Filter;
    FilterSnoc(HasTime(), s, h);
    UptoSnoc(limits.maxEventsPerGroup, Filter(HasTime(), s), h);
  }

  lemma AppliedSnoc(s: seq<Hit>, h: Hit)
    ensures AppliedIn(s + [h]) == AppliedIn(s) + h.applied
  {
    assert (s + [h])[..|s|] == s;
  }

  method Absorb(limits: Limits, wantsDetail: bool, detail: Detail, acc: GroupAcc, applied: set<string>, row: LogRow,
                ghost s: seq<Hit>, ghost h: Hit) returns (acc': GroupAcc)
    requires acc == AccOf(limits, wantsDetail, detail, s) && h.row == row && h.applied == applied
    ensures acc' == AccOf(limits, wantsDetail, detail, s + [h])
  {
    AccSnoc(limits, wantsDetail, detail, s, h);
    hide AccOf;
    acc' := acc.(applied := acc.applied + applied);
    if |acc'.resources| < MAX_RESOURCES {
      acc' := acc'.(resources := acc'.resources + {row.resourceId});
    } else if row.resourceId !in acc'.resources {
      acc' := acc'.(resourcesTruncated := true);
    }
    match row.eventTime {
      case None => acc' := acc'.(undated := acc'.undated + 1);
      case Some(t) =>
        if |acc'.dated| >= limits.maxEventsPerGroup {
          acc' := acc'.(truncated := acc'.truncated + 1);
        } else {
          var stamp := Stamp(t, row.recordId);
          acc' := acc'.(dated := acc'.dated + [stamp]);
          if wantsDetail { acc' := acc'.(members := acc'.members + [detail(row).(stamp := stamp)]); }
        }
    }
  }

  lemma RowsSnoc(derive: LogRow -> KeyOutcome, rows: seq<LogRow>, row: LogRow)
    ensures Hits(derive, rows + [row]) == Hits(derive, rows) + (match derive(row) case Keyed(k, a) => [Hit(k, a, row)] case Rejected(_) => [])
    ensures Rejections(derive, rows + [row]) == Rejections(derive, rows) + (match derive(row) case Keyed(_, _) => multiset{} case Rejected(reason) => multiset{reason})
  {
    assert (rows + [row])[..|rows|] == rows;
  }

  /** What the pass must hold after the keyed rows `hits`. */
  ghost predicate Tallied(limits: Limits, wantsDetail: bool, detail: Detail, hits: seq<Hit>, groups: map<string, GroupAcc>,
                          scanned: nat, keyed: nat, rejected: multiset<string>, groupsTruncated: nat) {
    && groups == GroupsOf(limits, wantsDetail, detail, hits)
    && keyed == |hits|
    && scanned == keyed + |rejected|
    && groupsTruncated == |hits| - HeldCount(limits.maxGroups, KeyOfHit(), hits)
  }

  lemma GroupsTallied(limits: Limits, wantsDetail: bool, detail: Detail, hits: seq<Hit>, groups: map<string, GroupAcc>,
                      scanned: nat, keyed: nat, rejected: multiset<string>, groupsTruncated: nat)
    requires Tallied(limits, wantsDetail, detail, hits, groups, scanned, keyed, rejected, groupsTruncated)
    ensures groups == GroupsOf(limits, wantsDetail, detail, hits)
  {
  }

  lemma TalliedRejected(limits: Limits, wantsDetail: bool, detail: Detail, hits: seq<Hit>, groups: map<string, GroupAcc>,
                        scanned: nat, keyed: nat, rejected: multiset<string>, groupsTruncated: nat, reason: string)
    requires Tallied(limits, wantsDetail, detail, hits, groups, scanned, keyed, rejected, groupsTruncated)
    ensures Tallied(limits, wantsDetail, detail, hits, groups, scanned + 1, keyed, rejected + multiset{reason}, groupsTruncated)
  {
    hide GroupsOf, HeldCount;
  }

  lemma TalliedKeyed(limits: Limits, wantsDetail: bool, detail: Detail, hits: seq<Hit>, groups: map<string, GroupAcc>,
                     scanned: nat, keyed: nat, rejected: multiset<string>, groupsTruncated: nat, h: Hit,
                     groups': map<string, GroupAcc>, refused: bool)
    requires Tallied(limits, wantsDetail, detail, hits, groups, scanned, keyed, rejected, groupsTruncated)
    requires groups' == GroupsOf(limits, wantsDetail, detail, hits + [h])
    requires HeldCount(limits.maxGroups, KeyOfHit(), hits + [h]) ==
      HeldCount(limits.maxGroups, KeyOfHit(), hits) + if refused then 0 else 1
    ensures Tallied(limits, wantsDetail, detail, hits + [h], groups', scanned + 1, keyed + 1, rejected,
      groupsTruncated + if refused then 1 else 0)
  {
    hide GroupsOf, HeldCount;
  }

  class GroupScan {
    var groups: map<string, GroupAcc>
    var scanned: nat
    var keyed: nat
    var rejected: multiset<string>
    var groupsTruncated: nat
    ghost var hits: seq<Hit>

    ghost predicate Valid(limits: Limits, wantsDetail: bool, detail: Detail)
      reads this
    {
      Tallied(limits, wantsDetail, detail, hits, groups, scanned, keyed, rejected, groupsTruncated)
    }

    constructor ()
      ensures forall limits, wantsDetail, detail :: Valid(limits, wantsDetail, detail)
      ensures hits == [] && scanned == 0 && rejected == multiset{}
    {
      groups, scanned, keyed, rejected, groupsTruncated := map[], 0, 0, multiset{}, 0;
      hits := [];
    }

    /** The streaming callback on one row. */
    method Take(limits: Limits, wantsDetail: bool, detail: Detail, derive: LogRow -> KeyOutcome, row: LogRow)
      requires Valid(limits, wantsDetail, detail)
      modifies this
      ensures Valid(limits, wantsDetail, detail) && scanned == old(scanned) + 1
      ensures hits == old(hits) + (match derive(row) case Keyed(k, a) => [Hit(k, a, row)] case Rejected(_) => [])
      ensures rejected == old(rejected) + (match derive(row) case Keyed(_, _) => multiset{} case Rejected(reason) => multiset{reason})
    {
      hide Tallied, GroupsOf, HeldCount;
      GroupsTallied(limits, wantsDetail, detail, hits, groups, scanned, keyed, rejected, groupsTruncated);
      scanned := scanned + 1;
      match derive(row) {
        case Rejected(reason) =>
          TalliedRejected(limits, wantsDetail, detail, hits, groups, scanned - 1, keyed, rejected, groupsTruncated, reason);
          rejected := rejected + multiset{reason};
        case Keyed(key, applied) =>
          var refused;
          keyed := keyed + 1;
          ghost var h := Hit(key, applied, row);
          ghost var before, over := groups, groupsTruncated;
          groups, refused := File(limits, wantsDetail, detail, groups, key, applied, row, hits, h);
          if refused { groupsTruncated := groupsTruncated + 1; }
          TalliedKeyed(limits, wantsDetail, detail, hits, before, scanned - 1, keyed - 1, rejected, over, h, groups, refused);
          hits := hits + [h];
      }
    }
  }

  /** One keyed record: into its group, into a new group, or refused for want of room. */
  method File(limits: Limits, wantsDetail: bool, detail: Detail, groups: map<string, GroupAcc>,
              key: string, applied: set<string>, row: LogRow, ghost hits: seq<Hit>, ghost h: Hit)
    returns (groups': map<string, GroupAcc>, refused: bool)
    requires groups == GroupsOf(limits, wantsDetail, detail, hits) && h == Hit(key, applied, row)
    ensures groups' == GroupsOf(limits, wantsDetail, detail, hits + [h])
    ensures HeldCount(limits.maxGroups, KeyOfHit(), hits + [h]) ==
      HeldCount(limits.maxGroups, KeyOfHit(), hits) + if refused then 0 else 1
  {
    hide AccOf, GroupMap, Group, HeldCount;
    ghost var f, v, cap := KeyOfHit(), ToAcc(limits, wantsDetail, detail), limits.maxGroups;
    HeldSnoc(cap, f, v, hits, h);
    refused := key !in groups && |groups| >= limits.maxGroups;
    if refused {
      GroupRefused(cap, f, v, hits, h);
      return groups, refused;
    }
    var acc;
    ghost var filed: seq<Hit>;
    if key in groups {
      GroupHeld(cap, f, v, hits, h);
      acc, filed := groups[key], Group(f, key, hits);
    } else {
      GroupOpened(cap, f, v, hits, h);
      EmptyAcc(limits, wantsDetail, detail);
      acc, filed := GroupAcc([], [], 0, 0, {}, false, {}), [];
      assert [] + [h] == [h];
    }
    acc := Absorb(limits, wantsDetail, detail, acc, applied, row, filed, h);
    groups' := groups[key := acc];
  }

  lemma EmptyAcc(limits: Limits, wantsDetail: bool, detail: Detail)
    ensures AccOf(limits, wantsDetail, detail, []) == GroupAcc([], [], 0, 0, {}, false, {})
  {
  }

  /** The whole pass. `cancelAt(n)` answers the checkpoint after `n` rows, the first before any. */
  method Scan(limits: Limits, wantsDetail: bool, detail: Detail, derive: LogRow -> KeyOutcome,
              rows: seq<LogRow>, maxRecords: nat, cancelAt: nat -> bool)
    returns (scan: GroupScan, cancelled: bool)
    ensures scan.Valid(limits, wantsDetail, detail)
    ensures cancelled <==> Streaming.Asked(cancelAt, 0, |Streamed(rows, maxRecords)|)
    ensures !cancelled ==> scan.hits == Hits(derive, Streamed(rows, maxRecords))
    ensures !cancelled ==> scan.rejected == Rejections(derive, Streamed(rows, maxRecords))
    ensures !cancelled ==> scan.scanned == |Streamed(rows, maxRecords)|
  {
    assert Streaming.Asked(cancelAt, 0, 0) <==> cancelAt(0);
    hide GroupScan.Valid, Streaming.Asked, Hits, Rejections, Streamed, ScannedSoFar;
    scan := new GroupScan();
    var stream := Streamed(rows, maxRecords);
    cancelled := cancelAt(0);
    if cancelled {
      Streaming.AskedMore(cancelAt, 0, 0, |stream|);
      return;
    }
    var i := 0;
    NothingScanned(derive, stream);
    while i < |stream|
      invariant fresh(scan) && scan.Valid(limits, wantsDetail, detail) && i <= |stream|
      invariant ScannedSoFar(derive, stream, i, scan.hits, scan.rejected, scan.scanned)
      invariant !Streaming.Asked(cancelAt, 0, i)
    {
      ScanOne(derive, stream, i, scan.hits, scan.rejected, scan.scanned);
      Streaming.AskedLater(cancelAt, 0, i);
      if (i + 1) % 4096 == 0 && cancelAt(i + 1) {
        cancelled := true;
        Streaming.AskedMore(cancelAt, 0, i + 1, |stream|);
        return;
      }
      scan.Take(limits, wantsDetail, detail, derive, stream[i]);
      i := i + 1;
    }
    AllScanned(derive, stream, scan.hits, scan.rejected, scan.scanned);
  }

  ghost predicate ScannedSoFar(derive: LogRow -> KeyOutcome, stream: seq<LogRow>, i: int,
                               hits: seq<Hit>, rejected: multiset<string>, scanned: nat) {
    0 <= i <= |stream| && hits == Hits(derive, stream[..i]) && rejected == Rejections(derive, stream[..i]) && scanned == i
  }

  lemma NothingScanned(derive: LogRow -> KeyOutcome, stream: seq<LogRow>)
    ensures ScannedSoFar(derive, stream, 0, [], multiset{}, 0)
  {
  }

  lemma ScanOne(derive: LogRow -> KeyOutcome, stream: seq<LogRow>, i: nat, hits: seq<Hit>, rejected: multiset<string>, scanned: nat)
    requires i < |stream| && ScannedSoFar(derive, stream, i, hits, rejected, scanned)
    ensures match derive(stream[i])
      case Keyed(k, a) => ScannedSoFar(derive, stream, i + 1, hits + [Hit(k, a, stream[i])], rejected, scanned + 1)
      case Rejected(reason) => ScannedSoFar(derive, stream, i + 1, hits, rejected + multiset{reason}, scanned + 1)
  {
    RowsSnoc(derive, stream[..i], stream[i]);
    hide Hits, Rejections;
    assert stream[..i + 1] == stream[..i] + [stream[i]];
  }

  lemma AllScanned(derive: LogRow -> KeyOutcome, stream: seq<LogRow>, hits: seq<Hit>, rejected: multiset<string>, scanned: nat)
    requires ScannedSoFar(derive, stream, |stream|, hits, rejected, scanned)
    ensures hits == Hits(derive, stream) && rejected == Rejections(derive, stream) && scanned == |stream|
  {
    assert stream[..|stream|] == stream;
  }
}
