/** The verification run itself (crates/logscope-app/src/case.rs): decode is done, lookups and
    verdicts follow, and a cancel between items leaves the rest exactly as it was. */
module EvidenceRun {
  import opened Evidence
  import opened IdLookup
  import opened Ordering
  import opened Rows
  import opened Sequences
  import opened Sorting

  datatype Item = Item(evidenceId: string, work: Work)

  datatype Report = Report(total: nat, updated: nat, cancelled: bool, lookups: nat, states: multiset<State>, outcomes: seq<(string, State)>)

  function WorkOf(): Item -> Work { (i: Item) => i.work }

  // ---- the probe cache -----------------------------------------------------------------

  /** Source files are stat'ed and hashed at most once per run. */
  class ProbeCache {
    var cache: map<string, Option<Probe>>
    var built: nat

    ghost predicate Valid(world: World)
      reads this
    {
      (forall f :: f in cache ==> cache[f] == world.source(f)) && built == |cache|
    }

    constructor ()
      ensures forall world :: Valid(world)
      ensures cache == map[]
    {
      cache, built := map[], 0;
    }

    method Lookup(world: World, fileId: string) returns (probe: Option<Probe>)
      requires Valid(world)
      modifies this
      ensures Valid(world) && probe == world.source(fileId)
      ensures cache.Keys == old(cache.Keys) + {fileId}
    {
      if fileId !in cache {
        cache, built := cache[fileId := world.source(fileId)], built + 1;
      }
      probe := cache[fileId];
    }

    /** `resolve_event` through the cache gives the verdict of the sources themselves. */
    method EventVerdict(world: World, found: Lookups, e: EventRef) returns (verdict: Verdict)
      requires Valid(world)
      modifies this
      ensures Valid(world) && verdict == ResolveEvent(world, found, e)
      ensures cache.Keys <= old(cache.Keys) + (if e.sourceFileId.Some? then {e.sourceFileId.value} else {})
    {
      var fact := world.FactOf(e.datasetId);
      if !fact.exists_ || fact.revision.None? {
        return Verdict(DatasetRevisionUnavailable, "dataset", [], 0, []);
      }
      if !Holds(found, e.datasetId, e.recordId) {
        return Verdict(DatasetRevisionUnavailable, "record", [], 0, [e.recordId]);
      }
      var state, cause := CanonicalAvailableSourceUnavailable, "no_source_reference";
      if e.sourceFileId.Some? {
        var probe := Lookup(world, e.sourceFileId.value);
        var (s, c) := SourceVerdict(probe, e.contentHash);
        state, cause := s, c;
      }
      verdict := Verdict(state, cause, Drifts(fact, e), 1, []);
    }
  }

  method MissingDatasets(world: World, datasets: seq<DatasetRef>) returns (gone: seq<string>)
    ensures gone == Apply(IdOf(), Filter(Unavailable(world), datasets))
  {
    gone := [];
    var i := 0;
    assert datasets[..0] == [];
    while i < |datasets|
      invariant i <= |datasets|
      invariant gone == Apply(IdOf(), Filter(Unavailable(world), datasets[..i]))
    {
      hide Filter, Apply;
      assert datasets[..i + 1] == datasets[..i] + [datasets[i]];
      FilterSnoc(Unavailable(world), datasets[..i], datasets[i]);
      ApplySnoc(IdOf(), Filter(Unavailable(world), datasets[..i]), datasets[i]);
      if !world.Available(datasets[i].datasetId) {
        gone := gone + [datasets[i].datasetId];
      }
      i := i + 1;
    }
    assert datasets[..i] == datasets;
  }

  method MissingIds(found: Lookups, s: SelectionRef) returns (missing: seq<string>)
    ensures missing == Filter(Absent(found, s.datasets), s.recordIds)
  {
    missing := [];
    var i := 0;
    assert s.recordIds[..0] == [];
    while i < |s.recordIds|
      invariant i <= |s.recordIds|
      invariant missing == Filter(Absent(found, s.datasets), s.recordIds[..i])
    {
      hide Filter;
      assert s.recordIds[..i + 1] == s.recordIds[..i] + [s.recordIds[i]];
      FilterSnoc(Absent(found, s.datasets), s.recordIds[..i], s.recordIds[i]);
      if !(exists d :: d in s.datasets && Holds(found, d.datasetId, s.recordIds[i])) {
        missing := missing + [s.recordIds[i]];
      }
      i := i + 1;
    }
    assert s.recordIds[..i] == s.recordIds;
  }

  /** `resolve_selection`. */
  method SelectionVerdict(world: World, found: Lookups, s: SelectionRef) returns (verdict: Verdict)
    ensures verdict == ResolveSelection(world, found, s)
  {
    var gone := MissingDatasets(world, s.datasets);
    if gone != [] { return Verdict(DatasetRevisionUnavailable, "datasets", [], 0, gone); }
    var missing := MissingIds(found, s);
    var secondary := Apply(IdOf(), Filter(Advanced(world), s.datasets));
    if missing == [] {
      return Verdict(Verified, "", secondary, |s.recordIds|, []);
    }
    return Verdict(PartiallyResolved, "", secondary, |s.recordIds| - |missing|, if |missing| <= 20 then missing else missing[..20]);
  }

  // ---- phases 2 and 3: one lookup per dataset ---------------------------------------------

  method CollectWanted(items: seq<Item>) returns (wanted: Lookups)
    ensures wanted == WantedIds(Apply(WorkOf(), items))
  {
    wanted := map[];
    ghost var batch := Apply(WorkOf(), items);
    var i := 0;
    while i < |items|
      invariant i <= |items| && wanted == WantedIds(batch[..i])
    {
      assert batch[..i + 1][..i] == batch[..i];
      match items[i].work {
        case Event(e) => wanted := Wanting(wanted, e.datasetId, {e.recordId});
        case Selection(s) =>
          ghost var before := wanted;
          var ids := set r | r in s.recordIds;
          var j := 0;
          assert s.datasets[..0] == [];
          while j < |s.datasets|
            invariant j <= |s.datasets| && wanted == WantingAll(before, s.datasets[..j], ids)
          {
            assert s.datasets[..j + 1][..j] == s.datasets[..j];
            wanted := Wanting(wanted, s.datasets[j].datasetId, ids);
            j := j + 1;
          }
          assert s.datasets[..j] == s.datasets;
        case _ =>
      }
      i := i + 1;
    }
    assert batch[..i] == batch;
  }

  /** One of the first `many` checkpoints asks to stop. */
  ghost predicate CancelsWithin(cancel: nat -> bool, many: nat) { exists n: nat :: n < many && cancel(n) }

  /** Looks every wanted dataset up once; `cancel(n)` answers the n-th checkpoint. */
  method LookUp(world: World, wanted: Lookups, cancel: nat -> bool) returns (found: Lookups, lookups: nat, cancelled: bool)
    ensures lookups <= |wanted|
    ensures !cancelled ==> found == FoundIn(world, wanted)
    ensures cancelled <==> CancelsWithin(cancel, |wanted|)
  {
    hide Found, World.RowsOf, Ascends, FoundIn;
    var ids := NamesOf(wanted.Keys);
    found, lookups, cancelled := map[], 0, false;
    var i := 0;
    assert LookedUp(world, wanted, ids[..0], found);
    hide LookedUp;
    while i < |ids|
      invariant i <= |ids| && lookups <= i && !cancelled
      invariant LookedUp(world, wanted, ids[..i], found)
      invariant forall n: nat :: n < i ==> !cancel(n)
    {
      if cancel(i) {
        cancelled := true;
        return;
      }
      var existing := {};
      if world.RowsOf(ids[i]) != [] {
        existing := LookupExistingIds(wanted[ids[i]], world.RowsOf(ids[i]));
        lookups := lookups + 1;
      } else {
        NothingThere(wanted[ids[i]]);
      }
      OneMoreLookedUp(world, wanted, ids, i, found);
      found := found[ids[i] := existing];
      i := i + 1;
    }
    assert ids[..i] == ids;
    AllLookedUp(world, wanted, ids, found);
  }

  lemma AllLookedUp(world: World, wanted: Lookups, ids: seq<string>, found: Lookups)
    requires LookedUp(world, wanted, ids, found) && forall d :: d in ids <==> d in wanted
    ensures found == FoundIn(world, wanted)
  {
    hide Found;
  }

  ghost predicate LookedUp(world: World, wanted: Lookups, ids: seq<string>, found: Lookups) {
    && (forall d :: d in found <==> d in ids)
    && (forall d :: d in found ==> d in wanted && found[d] == Found(wanted[d], world.RowsOf(d)))
  }

  lemma OneMoreLookedUp(world: World, wanted: Lookups, ids: seq<string>, i: nat, found: Lookups)
    requires i < |ids| && ids[i] in wanted && LookedUp(world, wanted, ids[..i], found)
    ensures LookedUp(world, wanted, ids[..i + 1], found[ids[i] := Found(wanted[ids[i]], world.RowsOf(ids[i]))])
  {
    hide Found;
    assert ids[..i + 1] == ids[..i] + [ids[i]];
  }

  lemma NothingThere(ids: set<string>)
    ensures Found(ids, []) == {}
  {
    assert Stream(ids, []) == [];
  }

  // ---- phase 4: one verdict per item ------------------------------------------------------

  function StateOf(world: World, found: Lookups): Item -> State { (i: Item) => Resolve(world, found, i.work).state }

  function Outcome(world: World, found: Lookups): Item -> (string, State) {
    (i: Item) => (i.evidenceId, Resolve(world, found, i.work).state)
  }

  /** The resolver columns after the listed items were written in order. */
  function Written(world: World, found: Lookups, columns: map<string, Verdict>, items: seq<Item>): map<string, Verdict> {
    if items == [] then columns
    else
      var last := items[|items|-1];
      Written(world, found, columns, items[..|items|-1])[last.evidenceId := Resolve(world, found, last.work)]
  }

  lemma {:induction false} WrittenOnly(world: World, found: Lookups, columns: map<string, Verdict>, items: seq<Item>, id: string)
    requires forall i, j :: 0 <= i < j < |items| ==> items[i].evidenceId != items[j].evidenceId
    ensures forall i :: 0 <= i < |items| && items[i].evidenceId == id ==>
      id in Written(world, found, columns, items) && Written(world, found, columns, items)[id] == Resolve(world, found, items[i].work)
    ensures (forall i :: 0 <= i < |items| ==> items[i].evidenceId != id) ==>
      (id in Written(world, found, columns, items) <==> id in columns)
      && (id in columns ==> Written(world, found, columns, items)[id] == columns[id])
  {
    if items != [] { WrittenOnly(world, found, columns, items[..|items|-1], id); }
  }

  lemma WrittenSnoc(world: World, found: Lookups, columns: map<string, Verdict>, items: seq<Item>, item: Item)
    ensures Written(world, found, columns, items + [item]) ==
      Written(world, found, columns, items)[item.evidenceId := Resolve(world, found, item.work)]
  {
    assert (items + [item])[..|items|] == items;
  }

  class EvidenceStore {
    /** The resolver columns; snapshots and references are never touched. */
    var columns: map<string, Verdict>

    /** One verdict per item, written in list order; checkpoint `first + i` comes before item `i`. */
    method WriteVerdicts(world: World, found: Lookups, items: seq<Item>, first: nat, cancel: nat -> bool)
      returns (done: nat, outcomes: seq<(string, State)>, states: multiset<State>)
      modifies this
      ensures Progress(world, found, old(columns), items, done, columns, outcomes, states)
      ensures done <= |items| && (done < |items| ==> cancel(first + done))
      ensures forall n: nat :: first <= n < first + done ==> !cancel(n)
    {
      hide *;
      ghost var before := columns;
      var probes := new ProbeCache();
      outcomes, states, done := [], multiset{}, 0;
      NoProgress(world, found, columns, items);
      while done < |items|
        invariant done <= |items| && fresh(probes) && probes.Valid(world)
        invariant Progress(world, found, before, items, done, columns, outcomes, states)
        invariant forall n: nat :: first <= n < first + done ==> !cancel(n)
      {
        if cancel(first + done) { return; }
        var item := items[done];
        var verdict := VerdictOf(world, found, item.work, probes);
        MoreProgress(world, found, before, items, done, columns, outcomes, states);
        columns := columns[item.evidenceId := verdict];
        states := states + multiset{verdict.state};
        outcomes := outcomes + [(item.evidenceId, verdict.state)];
        done := done + 1;
      }
    }

    /** `verify_evidence`. A cancel before the lookups are through writes nothing; a later one stops
        in front of the item whose checkpoint asked for it. */
    method VerifyEvidence(world: World, items: seq<Item>, cancel: nat -> bool) returns (report: Report)
      modifies this
      ensures report.total == |items| && report.updated <= report.total
      ensures report.cancelled <==> report.updated < report.total
      ensures var first := |WantedIds(Apply(WorkOf(), items))|;
        && (CancelsWithin(cancel, first) ==> report.updated == 0)
        && (!CancelsWithin(cancel, first) ==>
          !CancelsWithin(cancel, first + report.updated) && (report.cancelled ==> cancel(first + report.updated)))
      ensures var found, done := FoundIn(world, WantedIds(Apply(WorkOf(), items))), items[..report.updated];
        && columns == Written(world, found, old(columns), done)
        && report.outcomes == Apply(Outcome(world, found), done)
        && report.states == multiset(Apply(StateOf(world, found), done))
      ensures |report.states| == report.updated
      ensures report.lookups <= |WantedIds(Apply(WorkOf(), items))|
    {
      var wanted := CollectWanted(items);
      if items == [] { NothingWanted(); NothingToCancel(cancel); }
      hide *;
      var found, lookups, cancelled := LookUp(world, wanted, cancel);
      ghost var exact, before := FoundIn(world, wanted), columns;
      var states, outcomes, done: nat := multiset{}, [], 0;
      NoProgress(world, exact, columns, items);
      if !cancelled {
        done, outcomes, states := WriteVerdicts(world, found, items, |wanted|, cancel);
        NoneWithin(cancel, |wanted|, done);
      }
      ProgressMeans(world, exact, before, items, done, columns, outcomes, states);
      report := Report(|items|, done, done < |items|, lookups, states, outcomes);
    }
  }

  /** What the run has written and counted after its first `n` items. */
  ghost predicate Progress(world: World, found: Lookups, before: map<string, Verdict>, items: seq<Item>, n: nat,
                           columns: map<string, Verdict>, outcomes: seq<(string, State)>, states: multiset<State>) {
    && n <= |items|
    && columns == Written(world, found, before, items[..n])
    && outcomes == Apply(Outcome(world, found), items[..n])
    && states == multiset(Apply(StateOf(world, found), items[..n]))
  }

  lemma NoProgress(world: World, found: Lookups, before: map<string, Verdict>, items: seq<Item>)
    ensures Progress(world, found, before, items, 0, before, [], multiset{})
  {
    assert items[..0] == [];
    NothingWritten(world, found, before);
  }

  lemma MoreProgress(world: World, found: Lookups, before: map<string, Verdict>, items: seq<Item>, n: nat,
                     columns: map<string, Verdict>, outcomes: seq<(string, State)>, states: multiset<State>)
    requires n < |items| && Progress(world, found, before, items, n, columns, outcomes, states)
    ensures var v := Resolve(world, found, items[n].work);
      Progress(world, found, before, items, n + 1, columns[items[n].evidenceId := v],
        outcomes + [(items[n].evidenceId, v.state)], states + multiset{v.state})
  {
    hide Written, Resolve, Apply;
    assert items[..n + 1] == items[..n] + [items[n]];
    WrittenSnoc(world, found, before, items[..n], items[n]);
    ApplySnoc(Outcome(world, found), items[..n], items[n]);
    ApplySnoc(StateOf(world, found), items[..n], items[n]);
  }

  lemma ProgressMeans(world: World, found: Lookups, before: map<string, Verdict>, items: seq<Item>, n: nat,
                      columns: map<string, Verdict>, outcomes: seq<(string, State)>, states: multiset<State>)
    requires Progress(world, found, before, items, n, columns, outcomes, states)
    ensures n <= |items| && columns == Written(world, found, before, items[..n])
    ensures outcomes == Apply(Outcome(world, found), items[..n])
    ensures states == multiset(Apply(StateOf(world, found), items[..n])) && |states| == n
  {
    hide Written;
    assert |multiset(Apply(StateOf(world, found), items[..n]))| == n;
  }

  lemma NoneWithin(cancel: nat -> bool, first: nat, more: nat)
    requires !CancelsWithin(cancel, first) && forall n: nat :: first <= n < first + more ==> !cancel(n)
    ensures !CancelsWithin(cancel, first + more)
  {
  }

  lemma NothingToCancel(cancel: nat -> bool)
    ensures !CancelsWithin(cancel, 0)
  {
  }

  lemma NothingWanted()
    ensures WantedIds(Apply(WorkOf(), [])) == map[]
  {
  }

  lemma NothingWritten(world: World, found: Lookups, columns: map<string, Verdict>)
    ensures Written(world, found, columns, []) == columns
    ensures Apply(Outcome(world, found), []) == [] && Apply(StateOf(world, found), []) == []
  {
  }

  method VerdictOf(world: World, found: Lookups, w: Work, probes: ProbeCache) returns (verdict: Verdict)
    requires probes.Valid(world)
    modifies probes
    ensures probes.Valid(world) && verdict == Resolve(world, found, w)
  {
    match w
    case Settled(v) => verdict := v;
    case Event(e) => verdict := probes.EventVerdict(world, found, e);
    case Selection(s) => verdict := SelectionVerdict(world, found, s);
    case Rerun(r) => verdict := world.rerun(r);
  }
}
