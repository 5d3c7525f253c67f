/** Batched, cancellable evidence verification (crates/logscope-app/src/case.rs): one id
    lookup per dataset, then one verdict per item, written in list order. */
module Evidence {
  import opened IdLookup
  import opened Ordering
  import opened Rows
  import opened Sequences
  import opened Sorting

  // ---- data model --------------------------------------------------------------------

  datatype State = Verified | CanonicalAvailableSourceUnavailable | SourceChanged | SourceMissing
    | DatasetRevisionUnavailable | PartiallyResolved | QueryDrift | UnsupportedReferenceVersion | Broken

  /** What accompanies a state: its cause, drifts that do not change it, and missing ids. */
  datatype Verdict = Verdict(state: State, cause: string, secondary: seq<string>, resolved: nat, missing: seq<string>)

  datatype DatasetRef = DatasetRef(datasetId: string, revision: string)

  datatype EventRef = EventRef(
    datasetId: string, recordId: string, revision: string, parserVersion: string, profileVersion: Option<string>,
    sourceFileId: Option<string>, contentHash: Option<string>)

  datatype SelectionRef = SelectionRef(recordIds: seq<string>, datasets: seq<DatasetRef>)

  /** `Settled` was decided while decoding; `Rerun` stands for queries, groups, intervals and
      items, whose verdict does not read the looked-up ids. */
  datatype Work = Settled(verdict: Verdict) | Event(event: EventRef) | Selection(selection: SelectionRef) | Rerun(reference: string)

  datatype Fact = Fact(exists_: bool, revision: Option<string>, parserVersion: Option<string>, profileVersion: Option<string>)

  datatype Probe = Probe(exists_: bool, sizeMatches: bool, currentHash: Option<string>)

  /** Everything outside the run: dataset facts, record ids per dataset, source files, and the
      query service. It does not change while a run reads it. */
  datatype World = World(
    facts: map<string, Fact>, rows: map<string, seq<string>>, source: string -> Option<Probe>, rerun: string -> Verdict)
  {
    function FactOf(d: string): Fact { if d in facts then facts[d] else Fact(false, None, None, None) }
    function RowsOf(d: string): seq<string> { if FactOf(d).exists_ && d in rows then rows[d] else [] }
    predicate Available(d: string) { FactOf(d).exists_ && FactOf(d).revision.Some? }
  }

  type Lookups = map<string, set<string>>

  predicate Holds(found: Lookups, d: string, r: string) { d in found && r in found[d] }

  // ---- verdicts ----------------------------------------------------------------------

  function Drifts(fact: Fact, e: EventRef): seq<string> {
    (if fact.revision.GetOr("") != e.revision then ["dataset_revision_advanced"] else [])
    + (if fact.parserVersion.Some? && fact.parserVersion.value != e.parserVersion then ["parser_version_current"] else [])
    + (if e.profileVersion.Some? && fact.profileVersion.Some? && e.profileVersion != fact.profileVersion
       then ["profile_version_current"] else [])
  }

  function SourceVerdict(probe: Option<Probe>, hash: Option<string>): (State, string) {
    match probe
    case None => (CanonicalAvailableSourceUnavailable, "source_registration_missing")
    case Some(p) =>
      if !p.exists_ then (SourceMissing, "")
      else if !p.sizeMatches then (SourceChanged, "size")
      else match (hash, p.currentHash)
        case (None, _) => (CanonicalAvailableSourceUnavailable, "no_captured_hash")
        case (Some(expected), Some(current)) => if expected != current then (SourceChanged, "content_hash") else (Verified, "")
        case (Some(_), None) => (CanonicalAvailableSourceUnavailable, "hash_unavailable")
  }

  function ResolveEvent(world: World, found: Lookups, e: EventRef): Verdict {
    var fact := world.FactOf(e.datasetId);
    if !fact.exists_ || fact.revision.None? then Verdict(DatasetRevisionUnavailable, "dataset", [], 0, [])
    else if !Holds(found, e.datasetId, e.recordId) then Verdict(DatasetRevisionUnavailable, "record", [], 0, [e.recordId])
    else
      var (state, cause) :=
        if e.sourceFileId.None? then (CanonicalAvailableSourceUnavailable, "no_source_reference")
        else SourceVerdict(world.source(e.sourceFileId.value), e.contentHash);
      Verdict(state, cause, Drifts(fact, e), 1, [])
  }

  function Unavailable(world: World): DatasetRef -> bool { (d: DatasetRef) => !world.Available(d.datasetId) }

  function Advanced(world: World): DatasetRef -> bool {
    (d: DatasetRef) => world.FactOf(d.datasetId).revision.Some? && world.FactOf(d.datasetId).revision.value != d.revision
  }

  function IdOf(): DatasetRef -> string { (d: DatasetRef) => d.datasetId }

  function Absent(found: Lookups, datasets: seq<DatasetRef>): string -> bool {
    (r: string) => forall d :: d in datasets ==> !Holds(found, d.datasetId, r)
  }

  /** A selection resolves when every one of its ids is in one of its datasets. */
  function ResolveSelection(world: World, found: Lookups, s: SelectionRef): Verdict {
    var gone := Filter(Unavailable(world), s.datasets);
    if gone != [] then Verdict(DatasetRevisionUnavailable, "datasets", [], 0, Apply(IdOf(), gone))
    else
      var missing := Filter(Absent(found, s.datasets), s.recordIds);
      var secondary := Apply(IdOf(), Filter(Advanced(world), s.datasets));
      if missing == [] then Verdict(Verified, "", secondary, |s.recordIds|, [])
      else Verdict(PartiallyResolved, "", secondary, |s.recordIds| - |missing|, if |missing| <= 20 then missing else missing[..20])
  }

  function Resolve(world: World, found: Lookups, w: Work): Verdict {
    match w
    case Settled(v) => v
    case Event(e) => ResolveEvent(world, found, e)
    case Selection(s) => ResolveSelection(world, found, s)
    case Rerun(r) => world.rerun(r)
  }

  /** An event is verified exactly when its dataset and record are there and its source file
      still has the size and the hash captured with the pin. */
  lemma VerifiedEventIff(world: World, found: Lookups, e: EventRef)
    ensures ResolveEvent(world, found, e).state.Verified? <==>
      && world.Available(e.datasetId) && Holds(found, e.datasetId, e.recordId)
      && e.sourceFileId.Some? && e.contentHash.Some?
      && world.source(e.sourceFileId.value) == Some(Probe(true, true, e.contentHash))
  {
  }

  /** A selection is verified exactly when its datasets are there and every id is in one of
      them; otherwise it says how many ids were found and lists the first that were not. */
  lemma SelectionMeans(world: World, found: Lookups, s: SelectionRef)
    ensures var v := ResolveSelection(world, found, s);
      var all := forall d :: d in s.datasets ==> world.Available(d.datasetId);
      && (v.state.DatasetRevisionUnavailable? <==> !all)
      && (v.state.Verified? <==> all && forall r :: r in s.recordIds ==> exists d :: d in s.datasets && Holds(found, d.datasetId, r))
      && (v.state.Verified? || v.state.PartiallyResolved? || v.state.DatasetRevisionUnavailable?)
      && (v.state.PartiallyResolved? ==> 0 < |v.missing| <= 20 && v.resolved + |v.missing| <= |s.recordIds|)
      && (v.state.PartiallyResolved? ==> forall r :: r in v.missing ==> r in s.recordIds && Absent(found, s.datasets)(r))
  {
    var gone, missing := Filter(Unavailable(world), s.datasets), Filter(Absent(found, s.datasets), s.recordIds);
    forall d ensures d in gone <==> d in s.datasets && !world.Available(d.datasetId) { FilterMember(Unavailable(world), s.datasets, d); }
    forall r ensures r in missing <==> r in s.recordIds && Absent(found, s.datasets)(r) { FilterMember(Absent(found, s.datasets), s.recordIds, r); }
    hide Filter;
    assert gone != [] ==> gone[0] in gone;
    assert missing != [] ==> missing[0] in missing;
  }

  /** The dataset is known, there, and at some revision. */
  predicate DatasetThere(world: World, d: string) {
    d in world.facts && world.facts[d].exists_ && world.facts[d].revision.Some?
  }

  predicate RecordThere(found: Lookups, d: string, r: string) { d in found && r in found[d] }

  /** What the source file of an event says, if it names one. */
  function ProbeOf(world: World, e: EventRef): Option<Probe> {
    if e.sourceFileId.None? then None else world.source(e.sourceFileId.value)
  }

  /** Both hashes are known and they differ. */
  predicate Differs(e: EventRef, probe: Probe) {
    e.contentHash.Some? && probe.currentHash.Some? && e.contentHash.value != probe.currentHash.value
  }

  /** Every state of an event, exactly: the dataset or the record is gone; the source file is
      missing; its size or its content changed; it cannot be compared; or it is verified. */
  lemma EventStates(world: World, found: Lookups, e: EventRef)
    ensures var v, probe := ResolveEvent(world, found, e), ProbeOf(world, e);
      var here := DatasetThere(world, e.datasetId) && RecordThere(found, e.datasetId, e.recordId);
      var same := probe.Some? && probe.value.exists_ && probe.value.sizeMatches;
      var compared := same && e.contentHash.Some? && probe.value.currentHash.Some?;
      && (v.state == DatasetRevisionUnavailable <==> !here)
      && (v.state == SourceMissing <==> here && probe.Some? && !probe.value.exists_)
      && (v.state == SourceChanged <==> here && probe.Some? && probe.value.exists_ && !(same && !Differs(e, probe.value)))
      && (v.state == CanonicalAvailableSourceUnavailable <==> here && (probe.None? || (same && !compared)))
      && (v.state == Verified <==> here && compared && e.contentHash == probe.value.currentHash)
      && v.resolved == (if here then 1 else 0)
      && v.missing == (if DatasetThere(world, e.datasetId) && !here then [e.recordId] else [])
  {
  }

  /** Why an event's source cannot be compared. */
  function Obstacle(e: EventRef, probe: Option<Probe>): string {
    if e.sourceFileId.None? then "no_source_reference" else if probe.None? then "source_registration_missing"
    else if e.contentHash.None? then "no_captured_hash" else "hash_unavailable"
  }

  /** The cause an event's state is given. */
  lemma EventCauses(world: World, found: Lookups, e: EventRef)
    ensures var v, probe := ResolveEvent(world, found, e), ProbeOf(world, e);
      && (!DatasetThere(world, e.datasetId) ==> v.cause == "dataset")
      && (DatasetThere(world, e.datasetId) && !RecordThere(found, e.datasetId, e.recordId) ==> v.cause == "record")
      && (v.state == SourceChanged ==> v.cause == if probe.value.sizeMatches then "content_hash" else "size")
      && (v.state == CanonicalAvailableSourceUnavailable ==> v.cause == Obstacle(e, probe))
      && (v.state == Verified || v.state == SourceMissing ==> v.cause == "")
  {
  }

  /** The drifts an event is reported with; none of them changes its state. */
  lemma EventDrifts(world: World, found: Lookups, e: EventRef)
    requires DatasetThere(world, e.datasetId) && RecordThere(found, e.datasetId, e.recordId)
    ensures var v, fact := ResolveEvent(world, found, e), world.facts[e.datasetId];
      && ("dataset_revision_advanced" in v.secondary <==> fact.revision != Some(e.revision))
      && ("parser_version_current" in v.secondary <==> fact.parserVersion.Some? && fact.parserVersion.value != e.parserVersion)
      && ("profile_version_current" in v.secondary <==>
            e.profileVersion.Some? && fact.profileVersion.Some? && e.profileVersion.value != fact.profileVersion.value)
  {
    assert |"dataset_revision_advanced"| != |"parser_version_current"| && |"dataset_revision_advanced"| != |"profile_version_current"|;
    assert |"parser_version_current"| != |"profile_version_current"|;
    hide SourceVerdict;
  }

  /** A selection names the datasets that are gone. */
  lemma SelectionGone(world: World, found: Lookups, s: SelectionRef, id: string)
    ensures var v := ResolveSelection(world, found, s);
      v.state == DatasetRevisionUnavailable ==>
        (id in v.missing <==> exists d :: d in s.datasets && d.datasetId == id && !DatasetThere(world, id))
  {
    var gone := Filter(Unavailable(world), s.datasets);
    if id in Apply(IdOf(), gone) {
      var i :| 0 <= i < |gone| && gone[i].datasetId == id;
      FilterMember(Unavailable(world), s.datasets, gone[i]);
    }
    if d :| d in s.datasets && d.datasetId == id && !DatasetThere(world, id) {
      FilterMember(Unavailable(world), s.datasets, d);
      var i :| 0 <= i < |gone| && gone[i] == d;
      assert Apply(IdOf(), gone)[i] == id;
    }
    SelectionMeans(world, found, s);
    hide Filter;
  }

  predicate Moved(world: World, d: DatasetRef) {
    DatasetThere(world, d.datasetId) && world.facts[d.datasetId].revision.value != d.revision
  }

  predicate Lacks(found: Lookups, datasets: seq<DatasetRef>, r: string) {
    forall d :: d in datasets ==> !RecordThere(found, d.datasetId, r)
  }

  function Lacking(found: Lookups, datasets: seq<DatasetRef>): string -> bool { (r: string) => Lacks(found, datasets, r) }

  /** A selection over datasets that are all there: how many of its ids were found, the first twenty
      that were not, in order, and the datasets that moved on. */
  lemma SelectionCounts(world: World, found: Lookups, s: SelectionRef)
    requires forall d :: d in s.datasets ==> DatasetThere(world, d.datasetId)
    ensures var v, lost := ResolveSelection(world, found, s), Filter(Lacking(found, s.datasets), s.recordIds);
      && v.state == (if lost == [] then Verified else PartiallyResolved)
      && v.resolved == |s.recordIds| - |lost|
      && v.missing == Upto(20, lost)
      && forall id :: id in v.secondary <==>
        exists d :: d in s.datasets && d.datasetId == id && Moved(world, d)
  {
    FilterNone(Unavailable(world), s.datasets);
    FilterAgrees(Absent(found, s.datasets), Lacking(found, s.datasets), s.recordIds);
    var moved := Filter(Advanced(world), s.datasets);
    hide Filter;
    forall id ensures id in Apply(IdOf(), moved) <==>
      exists d :: d in s.datasets && d.datasetId == id && Moved(world, d)
    {
      if id in Apply(IdOf(), moved) {
        var i :| 0 <= i < |moved| && moved[i].datasetId == id;
        FilterMember(Advanced(world), s.datasets, moved[i]);
      }
      if d :| d in s.datasets && d.datasetId == id && Moved(world, d) {
        FilterMember(Advanced(world), s.datasets, d);
        var i :| 0 <= i < |moved| && moved[i] == d;
        assert Apply(IdOf(), moved)[i] == id;
      }
    }
  }

  // ---- what the batch wants ------------------------------------------------------------

  function Wanting(wanted: Lookups, d: string, ids: set<string>): Lookups {
    wanted[d := (if d in wanted then wanted[d] else {}) + ids]
  }

  function WantingAll(wanted: Lookups, datasets: seq<DatasetRef>, ids: set<string>): Lookups {
    if datasets == [] then wanted
    else Wanting(WantingAll(wanted, datasets[..|datasets|-1], ids), datasets[|datasets|-1].datasetId, ids)
  }

  function Wants(wanted: Lookups, w: Work): Lookups {
    match w
    case Event(e) => Wanting(wanted, e.datasetId, {e.recordId})
    case Selection(s) => WantingAll(wanted, s.datasets, set r | r in s.recordIds)
    case _ => wanted
  }

  /** Per dataset, the ids any item of the batch refers to. */
  function WantedIds(batch: seq<Work>): Lookups {
    if batch == [] then map[] else Wants(WantedIds(batch[..|batch|-1]), batch[|batch|-1])
  }

  /** The result of one lookup per wanted dataset. */
  ghost function FoundIn(world: World, wanted: Lookups): Lookups {
    map d | d in wanted :: Found(wanted[d], world.RowsOf(d))
  }

  /** The verdict an item gets in a batch, and the one it gets alone. */
  ghost function InBatch(world: World, batch: seq<Work>, w: Work): Verdict {
    Resolve(world, FoundIn(world, WantedIds(batch)), w)
  }

  ghost function Alone(world: World, w: Work): Verdict { InBatch(world, [w], w) }

  // ---- batched refines one-at-a-time ----------------------------------------------------

  /** No record id occurs more than four times in a dataset. */
  ghost predicate FewCopies(world: World) {
    forall d, r :: d in world.rows ==> multiset(world.rows[d])[r] <= 4
  }

  lemma {:induction false} WantingAllHas(wanted: Lookups, datasets: seq<DatasetRef>, ids: set<string>)
    ensures forall d :: d in wanted ==> d in WantingAll(wanted, datasets, ids) && wanted[d] <= WantingAll(wanted, datasets, ids)[d]
    ensures forall x :: x in datasets ==> x.datasetId in WantingAll(wanted, datasets, ids) && ids <= WantingAll(wanted, datasets, ids)[x.datasetId]
  {
    if datasets != [] { WantingAllHas(wanted, datasets[..|datasets|-1], ids); }
  }

  lemma WantsGrow(wanted: Lookups, w: Work)
    ensures forall d :: d in wanted ==> d in Wants(wanted, w) && wanted[d] <= Wants(wanted, w)[d]
    ensures w.Event? ==> var e := w.event; e.datasetId in Wants(wanted, w) && e.recordId in Wants(wanted, w)[e.datasetId]
    ensures w.Selection? ==> forall x, r :: x in w.selection.datasets && r in w.selection.recordIds ==>
      x.datasetId in Wants(wanted, w) && r in Wants(wanted, w)[x.datasetId]
  {
    if w.Selection? {
      WantingAllHas(wanted, w.selection.datasets, set r | r in w.selection.recordIds);
    }
  }

  /** Every id an item refers to is looked up in every dataset it may live in. */
  ghost predicate Asked(wanted: Lookups, w: Work) {
    && (w.Event? ==> w.event.datasetId in wanted && w.event.recordId in wanted[w.event.datasetId])
    && (w.Selection? ==> forall x, r :: x in w.selection.datasets && r in w.selection.recordIds ==>
      x.datasetId in wanted && r in wanted[x.datasetId])
  }

  lemma {:induction false} BatchAsks(batch: seq<Work>, w: Work)
    requires w in batch
    ensures Asked(WantedIds(batch), w)
  {
    var n := |batch| - 1;
    WantsGrow(WantedIds(batch[..n]), batch[n]);
    if batch[n] != w {
      BatchAsks(batch[..n], w);
      hide Wants, WantedIds;
      var before, after := WantedIds(batch[..n]), Wants(WantedIds(batch[..n]), batch[n]);
      if w.Selection? {
        forall x, r | x in w.selection.datasets && r in w.selection.recordIds
          ensures x.datasetId in after && r in after[x.datasetId]
        { assert r in before[x.datasetId]; }
      }
    }
  }

  /** The verdict read off the rows themselves, with no lookup in between. */
  ghost predicate Exact(world: World, found: Lookups, w: Work) {
    && (w.Event? ==> (Holds(found, w.event.datasetId, w.event.recordId) <==> w.event.recordId in world.RowsOf(w.event.datasetId)))
    && (w.Selection? ==> forall x, r :: x in w.selection.datasets && r in w.selection.recordIds ==>
      (Holds(found, x.datasetId, r) <==> r in world.RowsOf(x.datasetId)))
  }

  lemma FoundIsExact(world: World, wanted: Lookups, w: Work)
    requires Asked(wanted, w)
    requires forall d :: d in wanted ==> Found(wanted[d], world.RowsOf(d)) == Existing(wanted[d], world.RowsOf(d))
    ensures Exact(world, FoundIn(world, wanted), w)
  {
    hide Found;
    var found := FoundIn(world, wanted);
    forall d, r | d in wanted && r in wanted[d] ensures Holds(found, d, r) <==> r in world.RowsOf(d) {
      assert found[d] == Existing(wanted[d], world.RowsOf(d));
    }
  }

  /** Two exact lookups give the same verdict. */
  lemma ExactDecides(world: World, found: Lookups, other: Lookups, w: Work)
    requires Exact(world, found, w) && Exact(world, other, w)
    ensures Resolve(world, found, w) == Resolve(world, other, w)
  {
    if w.Selection? {
      var s := w.selection;
      forall r | r in s.recordIds ensures Absent(found, s.datasets)(r) == Absent(other, s.datasets)(r) {
        forall x | x in s.datasets ensures Holds(found, x.datasetId, r) <==> Holds(other, x.datasetId, r) {}
      }
      FilterAgrees(Absent(found, s.datasets), Absent(other, s.datasets), s.recordIds);
    }
  }

  /** Batching changes no verdict: sharing one lookup per dataset gives every item what it
      would get verified alone. */
  lemma BatchedIsAlone(world: World, batch: seq<Work>, w: Work)
    requires FewCopies(world) && w in batch
    ensures InBatch(world, batch, w) == Alone(world, w)
  {
    hide Resolve, Found, WantedIds;
    BatchAsks(batch, w);
    BatchAsks([w], w);
    forall d, ids ensures Found(ids, world.RowsOf(d)) == Existing(ids, world.RowsOf(d)) {
      FourEachSuffice(ids, world.RowsOf(d));
    }
    FoundIsExact(world, WantedIds(batch), w);
    FoundIsExact(world, WantedIds([w]), w);
    ExactDecides(world, FoundIn(world, WantedIds(batch)), FoundIn(world, WantedIds([w])), w);
  }
}
