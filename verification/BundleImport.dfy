/** A case through a bundle and back: what the exporter writes of a case, what `insert_case`
    (crates/logscope-app/src/bundle.rs) demands of the entries, and what it leaves in the new
    workspace. */
module BundleImport {
  import opened BundleArchive
  import opened BundleRoundTrip
  import opened CaseRestore
  import opened Rows
  import opened Sequences
  import Sorting
  import opened Texts

  // ---- data model --------------------------------------------------------------------

  datatype Investigation = Investigation(
    id: string, title: string, description: Option<string>, status: string, severity: Option<string>, owner: Option<string>,
    tags: string, incidentStartedAt: Option<int>, windowStart: Option<int>, windowEnd: Option<int>)

  datatype SavedSearch = SavedSearch(
    id: string, name: string, queryText: string, languageVersion: int, fingerprint: string, selection: string,
    strategy: string, description: Option<string>)

  /** Everything of a workspace that a bundle carries of one investigation. */
  datatype Whole = Whole(investigation: Investigation, rows: Case, searches: seq<SavedSearch>)

  /** JSON in both directions, entry by entry; evidence is printed one row to a line. */
  datatype Printer = Printer(
    writeInvestigation: Investigation -> Bytes, readInvestigation: Bytes -> Option<Investigation>,
    writeHypotheses: seq<Hypothesis> -> Bytes, readHypotheses: Bytes -> Option<seq<Hypothesis>>,
    writeItems: seq<Item> -> Bytes, readItems: Bytes -> Option<seq<Item>>,
    writeMarkers: seq<Marker> -> Bytes, readMarkers: Bytes -> Option<seq<Marker>>,
    writeSearches: seq<SavedSearch> -> Bytes, readSearches: Bytes -> Option<seq<SavedSearch>>,
    writeLine: EvidenceRow -> Bytes, readLine: Bytes -> Option<EvidenceRow>)

  const NEWLINE: bv8 := 10

  /** JSON reads back what it wrote, and a printed row is one line that is not blank. */
  ghost predicate ReadsBack(p: Printer) {
    && (forall x {:trigger p.writeInvestigation(x)} :: p.readInvestigation(p.writeInvestigation(x)) == Some(x))
    && (forall x {:trigger p.writeHypotheses(x)} :: p.readHypotheses(p.writeHypotheses(x)) == Some(x))
    && (forall x {:trigger p.writeItems(x)} :: p.readItems(p.writeItems(x)) == Some(x))
    && (forall x {:trigger p.writeMarkers(x)} :: p.readMarkers(p.writeMarkers(x)) == Some(x))
    && (forall x {:trigger p.writeSearches(x)} :: p.readSearches(p.writeSearches(x)) == Some(x))
    && (forall e {:trigger p.writeLine(e)} ::
          p.readLine(p.writeLine(e)) == Some(e) && p.writeLine(e) != [] && NEWLINE !in p.writeLine(e))
  }

  // ---- evidence lines -------------------------------------------------------------------

  function EvidenceLines(p: Printer, rows: seq<EvidenceRow>): Bytes {
    if rows == [] then [] else p.writeLine(rows[0]) + [NEWLINE] + EvidenceLines(p, rows[1..])
  }

  /** Blank lines are passed over; any other line must parse. */
  function ReadLines(p: Printer, lines: seq<Bytes>): Option<seq<EvidenceRow>> {
    if lines == [] then Some([])
    else if lines[0] == [] then ReadLines(p, lines[1..])
    else
      match (p.readLine(lines[0]), ReadLines(p, lines[1..]))
      case (Some(e), Some(rest)) => Some([e] + rest)
      case _ => None
  }

  lemma {:induction false} LinesReadBack(p: Printer, rows: seq<EvidenceRow>)
    requires ReadsBack(p)
    ensures ReadLines(p, Split(NEWLINE, EvidenceLines(p, rows))) == Some(rows)
  {
    if rows == [] {
      assert Split(NEWLINE, EvidenceLines(p, rows)) == [[]];
    } else {
      var line, rest := p.writeLine(rows[0]), EvidenceLines(p, rows[1..]);
      LinesReadBack(p, rows[1..]);
      SplitJoined(NEWLINE, line, rest);
      SplitOnePiece(NEWLINE, line);
      var lines := [line] + Split(NEWLINE, rest);
      assert Split(NEWLINE, EvidenceLines(p, rows)) == lines;
      assert lines[0] == line && lines[1..] == Split(NEWLINE, rest);
      assert rows == [rows[0]] + rows[1..];
    }
  }

  // ---- the entries ------------------------------------------------------------------------

  /** One export: the case, and what else goes into the archive. */
  datatype Parcel = Parcel(whole: Whole, groups: Bytes, data: Option<Bytes>, reports: seq<Report>, checksums: Bytes)

  /** What `build_bundle` writes of a case. */
  function ContentsOf(p: Printer, x: Parcel): Contents {
    var w := x.whole;
    Contents(p.writeInvestigation(w.investigation), p.writeHypotheses(w.rows.hypotheses), p.writeItems(w.rows.items), x.groups,
      EvidenceLines(p, w.rows.evidence), p.writeMarkers(w.rows.markers), p.writeSearches(w.searches), x.data, x.reports)
  }

  function ArchiveOf(c: Codec, p: Printer, x: Parcel): seq<ZipEntry> {
    Archive(c, ContentsOf(p, x), x.whole.investigation.id, x.checksums)
  }

  /** A case as a workspace stores it, with minted report ids, within the size limits. */
  ghost predicate Exportable(c: Codec, p: Printer, x: Parcel) {
    var plan := Plan(ContentsOf(p, x));
    && Faithful(c) && ReadsBack(p) && ReportsMinted(x.reports) && Stored(x.whole.rows)
    && WithinLimits(c.write(ManifestFor(c, plan, x.whole.investigation.id)), plan, x.checksums)
  }

  const REQUIRED := ["investigation/investigation.json", "investigation/hypotheses.json", "investigation/items.json",
    "timeline/markers.json", "evidence/evidence.jsonl", "queries/queries.json"]

  /** Every required entry is there and parses. */
  function Parsed(p: Printer, staged: map<string, Bytes>): Option<Whole> {
    if !(forall i :: 0 <= i < |REQUIRED| ==> REQUIRED[i] in staged) then None
    else
      match (p.readInvestigation(staged[REQUIRED[0]]), p.readHypotheses(staged[REQUIRED[1]]), p.readItems(staged[REQUIRED[2]]),
             p.readMarkers(staged[REQUIRED[3]]), ReadLines(p, Split(NEWLINE, staged[REQUIRED[4]])), p.readSearches(staged[REQUIRED[5]]))
      case (Some(i), Some(h), Some(t), Some(m), Some(e), Some(s)) => Some(Whole(i, Case(h, t, m, e), s))
      case _ => None
  }

  /** Exactly what `insert_case` demands. */
  predicate Insertable(p: Printer, m: Manifest, staged: map<string, Bytes>) {
    var w := Parsed(p, staged);
    w.Some? && w.value.investigation.id != "" && w.value.investigation.id == m.investigationId && Restorable(w.value.rows)
  }

  /** The case an archive carries, behind the gates in front of `insert_case`. */
  ghost function WholeIn(c: Codec, p: Printer, zip: seq<ZipEntry>): Option<Whole> {
    if Accepted(c, zip) then Parsed(p, Staged(zip, ManifestIn(c, zip).value)) else None
  }

  /** Every gate of `import_bundle`. */
  ghost predicate Importable(c: Codec, p: Printer, zip: seq<ZipEntry>) {
    Accepted(c, zip) && var m := ManifestIn(c, zip).value; Insertable(p, m, Staged(zip, m))
  }

  // ---- saved searches -----------------------------------------------------------------------

  /** `upsert_saved_search`: a known id is updated in place. */
  function Upsert(table: seq<SavedSearch>, s: SavedSearch): seq<SavedSearch> {
    if table == [] then [s] else if table[0].id == s.id then [s] + table[1..] else [table[0]] + Upsert(table[1..], s)
  }

  function Upserted(rows: seq<SavedSearch>): seq<SavedSearch> {
    if rows == [] then [] else Upsert(Upserted(rows[..|rows|-1]), rows[|rows|-1])
  }

  function SearchId(): SavedSearch -> string { (s: SavedSearch) => s.id }

  lemma {:induction false} UpsertIds(table: seq<SavedSearch>, s: SavedSearch)
    ensures Apply(SearchId(), Upsert(table, s)) ==
      if s.id in Apply(SearchId(), table) then Apply(SearchId(), table) else Apply(SearchId(), table) + [s.id]
  {
    if table != [] {
      var rest := table[1..];
      assert table == [table[0]] + rest;
      ApplyHead(SearchId(), table[0], rest);
      if table[0].id == s.id {
        ApplyHead(SearchId(), s, rest);
      } else {
        UpsertIds(rest, s);
        ApplyHead(SearchId(), table[0], Upsert(rest, s));
      }
      hide Apply;
    }
  }

  lemma {:induction false} UpsertRows(table: seq<SavedSearch>, s: SavedSearch)
    requires UniqueIds(Apply(SearchId(), table))
    ensures forall t :: t in Upsert(table, s) <==> t == s || (t in table && t.id != s.id)
  {
    if table != [] {
      var rest := table[1..];
      assert table == [table[0]] + rest;
      HeadUnique(table);
      hide UniqueIds, Apply;
      if table[0].id != s.id { UpsertRows(rest, s); }
    }
  }

  lemma HeadUnique(table: seq<SavedSearch>)
    requires table != [] && UniqueIds(Apply(SearchId(), table))
    ensures UniqueIds(Apply(SearchId(), table[1..]))
    ensures forall t :: t in table[1..] ==> t.id != table[0].id
  {
    var ids := Apply(SearchId(), table);
    assert Apply(SearchId(), table[1..]) == ids[1..];
    forall i | 0 <= i < |table| - 1 ensures table[1..][i].id != table[0].id { assert ids[0] != ids[i + 1]; }
  }

  /** Position `i` holds `s`, and no later row has its id. */
  ghost predicate LastAt(rows: seq<SavedSearch>, i: int, s: SavedSearch) {
    0 <= i < |rows| && rows[i] == s && forall j :: i < j < |rows| ==> rows[j].id != s.id
  }

  /** The stored searches: each id once, in order of first occurrence, with the last row of that id. */
  lemma {:induction false} UpsertedMeans(rows: seq<SavedSearch>)
    ensures Apply(SearchId(), Upserted(rows)) == Distinct(Apply(SearchId(), rows))
    ensures forall s :: s in Upserted(rows) <==> exists i :: LastAt(rows, i, s)
  {
    hide *;
    if rows == [] {
      NoSearches();
    } else {
      var front, x := rows[..|rows|-1], rows[|rows|-1];
      assert rows == front + [x];
      UpsertedMeans(front);
      IdsMore(front, x);
      RowsMore(front, x);
    }
  }

  lemma IdsMore(front: seq<SavedSearch>, x: SavedSearch)
    requires Apply(SearchId(), Upserted(front)) == Distinct(Apply(SearchId(), front))
    ensures Apply(SearchId(), Upserted(front + [x])) == Distinct(Apply(SearchId(), front + [x]))
  {
    UpsertedSnoc(front, x);
    UpsertIds(Upserted(front), x);
    ApplySnoc(SearchId(), front, x);
    DistinctSnoc(Apply(SearchId(), front), x.id);
    DistinctHas(Apply(SearchId(), front), x.id);
    assert SearchId()(x) == x.id;
    hide *;
  }

  lemma UpsertedSnoc(front: seq<SavedSearch>, x: SavedSearch)
    ensures Upserted(front + [x]) == Upsert(Upserted(front), x)
  {
    assert (front + [x])[..|front|] == front;
    hide Upsert;
  }

  lemma RowsMore(front: seq<SavedSearch>, x: SavedSearch)
    requires Apply(SearchId(), Upserted(front)) == Distinct(Apply(SearchId(), front))
    requires forall s :: s in Upserted(front) <==> exists i :: LastAt(front, i, s)
    ensures forall s :: s in Upserted(front + [x]) <==> exists i :: LastAt(front + [x], i, s)
  {
    UpsertedSnoc(front, x);
    IdsOnce(Apply(SearchId(), front));
    UpsertRows(Upserted(front), x);
    hide *;
    forall s ensures s in Upserted(front + [x]) <==> exists i :: LastAt(front + [x], i, s) {
      LastSnoc(front, x, s);
    }
  }

  lemma NoSearches()
    ensures Apply(SearchId(), Upserted([])) == Distinct(Apply(SearchId(), []))
    ensures forall s, i :: !LastAt([], i, s)
  {
  }

  lemma LastSnoc(front: seq<SavedSearch>, x: SavedSearch, s: SavedSearch)
    ensures (exists i :: LastAt(front + [x], i, s)) <==> s == x || ((exists i :: LastAt(front, i, s)) && s.id != x.id)
  {
    var rows := front + [x];
    if s == x { assert LastAt(rows, |front|, s); }
    if i :| LastAt(rows, i, s) && i < |front| {
      assert rows[|front|].id != s.id;
      forall j | i < j < |front| ensures front[j].id != s.id { assert rows[j].id != s.id; }
      assert LastAt(front, i, s);
    }
    if i :| LastAt(front, i, s) && s.id != x.id { assert LastAt(rows, i, s); }
  }

  lemma IdsOnce(ids: seq<string>)
    ensures UniqueIds(Distinct(ids))
  {
  }

  lemma DistinctHas(ids: seq<string>, x: string)
    ensures x in Distinct(ids) <==> x in ids
  {
  }

  lemma {:induction false} UpsertNew(table: seq<SavedSearch>, s: SavedSearch)
    requires forall i :: 0 <= i < |table| ==> table[i].id != s.id
    ensures Upsert(table, s) == table + [s]
  {
    if table != [] { UpsertNew(table[1..], s); }
  }

  lemma {:induction false} UniqueUpserted(rows: seq<SavedSearch>)
    requires UniqueIds(Apply(SearchId(), rows))
    ensures Upserted(rows) == rows
  {
    if rows != [] {
      var n, ids := |rows| - 1, Apply(SearchId(), rows);
      assert ids[..n] == Apply(SearchId(), rows[..n]);
      UniquePrefix(ids, n);
      UniqueUpserted(rows[..n]);
      forall i | 0 <= i < n ensures rows[..n][i].id != rows[n].id { assert ids[i] != ids[n]; }
      UpsertNew(rows[..n], rows[n]);
    }
  }

  // ---- the new workspace --------------------------------------------------------------------

  function RestoredInvestigation(i: Investigation): Investigation { i.(status := "open") }

  /** The case tables of the workspace an import builds. */
  class ImportedWorkspace {
    var investigation: Option<Investigation>
    var searches: seq<SavedSearch>
    const tables: CaseStore

    constructor ()
      ensures Empty() && fresh(tables)
    {
      investigation, searches := None, [];
      tables := new CaseStore();
    }

    ghost predicate Empty()
      reads this, tables
    {
      && investigation.None? && searches == []
      && tables.hypotheses == [] && tables.items == [] && tables.markers == [] && tables.evidence == []
    }

    /** The tables hold a case as import restores it. */
    ghost predicate HoldsCase(w: Whole)
      reads this, tables
    {
      && investigation == Some(RestoredInvestigation(w.investigation)) && searches == Upserted(w.searches)
      && tables.hypotheses == Apply(RestoredHypothesis(), w.rows.hypotheses) && tables.items == Apply(RestoredItem(), w.rows.items)
      && tables.markers == Apply(RestoredMarker(), w.rows.markers) && tables.evidence == Apply(RestoredEvidence(), w.rows.evidence)
    }

    method InsertSearches(rows: seq<SavedSearch>)
      requires searches == []
      modifies this`searches
      ensures searches == Upserted(rows)
    {
      var i := 0;
      assert rows[..0] == [];
      while i < |rows|
        invariant i <= |rows| && searches == Upserted(rows[..i])
      {
        assert rows[..i + 1][..i] == rows[..i];
        searches := Upsert(searches, rows[i]);
        i := i + 1;
      }
      assert rows[..i] == rows;
    }

    /** `insert_case`: succeeds exactly on insertable entries and then holds the restored case. */
    method InsertCase(p: Printer, m: Manifest, staged: map<string, Bytes>) returns (ok: bool)
      requires Empty()
      modifies this, tables
      ensures ok <==> Insertable(p, m, staged)
      ensures ok ==> Parsed(p, staged).Some? && HoldsCase(Parsed(p, staged).value)
    {
      hide Parsed, Restorable, RestoredHypothesis, Upserted;
      var parsed := Parsed(p, staged);
      if parsed.None? { return false; }
      var w := parsed.value;
      if w.investigation.id == "" || w.investigation.id != m.investigationId { return false; }
      investigation := Some(RestoredInvestigation(w.investigation));
      ok := tables.InsertCase(w.rows);
      if ok { InsertSearches(w.searches); }
    }

    /** `import_bundle`, up to the copied reports and data. */
    method ImportBundle(c: Codec, p: Printer, zip: seq<ZipEntry>) returns (ok: bool)
      requires Empty()
      modifies this, tables
      ensures ok <==> Importable(c, p, zip)
      ensures ok ==> WholeIn(c, p, zip).Some? && HoldsCase(WholeIn(c, p, zip).value)
    {
      hide Accepted, ManifestIn, Staged, Insertable, HoldsCase, Parsed;
      var staged := ImportGates(c, zip);
      if staged.None? { return false; }
      ManifestThere(c, zip);
      ok := InsertCase(p, ManifestIn(c, zip).value, staged.value);
    }
  }

  lemma ManifestThere(c: Codec, zip: seq<ZipEntry>)
    requires Accepted(c, zip)
    ensures ManifestIn(c, zip).Some?
  {
  }

  // ---- through the bundle and back ---------------------------------------------------------------

  /** The planned bytes of each required entry. */
  function PlannedFor(k: Contents): seq<Bytes> { [k.investigation, k.hypotheses, k.items, k.markers, k.evidence, k.queries] }

  lemma RequiredFixed(k: Contents, i: nat) returns (j: nat)
    requires i < |REQUIRED|
    ensures j < |FixedEntries(k)| && FixedEntries(k)[j].path == REQUIRED[i] && FixedEntries(k)[j].bytes == PlannedFor(k)[i]
  {
    j := if i == 3 then 5 else if i == 4 then 4 else if i == 5 then 6 else i;
  }

  lemma RequiredPlanned(k: Contents, i: nat) returns (j: nat)
    requires i < |REQUIRED|
    ensures j < |Plan(k)| && Plan(k)[j].path == REQUIRED[i] && Plan(k)[j].bytes == PlannedFor(k)[i]
  {
    j := RequiredFixed(k, i);
    hide Sorting.SortBy, FixedEntries, PlannedFor;
    assert Plan(k)[j] == FixedEntries(k)[j];
  }

  lemma RequiredStaged(c: Codec, k: Contents, id: string, checksums: Bytes)
    requires ReportsMinted(k.reports) && forall i :: 0 <= i < |Plan(k)| ==> |Plan(k)[i].bytes| <= MAX_ENTRY_BYTES
    ensures var zip, m := Archive(c, k, id, checksums), ManifestFor(c, Plan(k), id);
      && (forall i :: 0 <= i < |m.entries| ==> Named(zip, m.entries[i].path).Some?)
      && (forall i :: 0 <= i < |REQUIRED| ==> REQUIRED[i] in Staged(zip, m) && Staged(zip, m)[REQUIRED[i]] == PlannedFor(k)[i])
  {
    PlanIsGood(k);
    StagedIsPlan(c, c.write(ManifestFor(c, Plan(k), id)), Plan(k), checksums, id);
    hide Plan, Named, Staged, Pack, ManifestFor, GoodPlan, ReportsMinted, PlannedFor;
    var zip, m := Archive(c, k, id, checksums), ManifestFor(c, Plan(k), id);
    forall i | 0 <= i < |REQUIRED| ensures REQUIRED[i] in Staged(zip, m) && Staged(zip, m)[REQUIRED[i]] == PlannedFor(k)[i] {
      var j := RequiredPlanned(k, i);
    }
  }

  lemma ParsedBack(p: Printer, x: Parcel, staged: map<string, Bytes>)
    requires ReadsBack(p)
    requires forall i :: 0 <= i < |REQUIRED| ==> REQUIRED[i] in staged && staged[REQUIRED[i]] == PlannedFor(ContentsOf(p, x))[i]
    ensures Parsed(p, staged) == Some(x.whole)
  {
    LinesReadBack(p, x.whole.rows.evidence);
    hide ReadLines, EvidenceLines, Split;
  }

  lemma SmallEntries(manifest: Bytes, plan: seq<Planned>, checksums: Bytes)
    requires WithinLimits(manifest, plan, checksums)
    ensures forall i :: 0 <= i < |plan| ==> |plan[i].bytes| <= MAX_ENTRY_BYTES
  {
    hide Sum;
  }

  /** What the exporter writes of a case comes through every gate and is parsed back as it was. */
  lemma ExportIsParsedBack(c: Codec, p: Printer, x: Parcel)
    requires Exportable(c, p, x)
    ensures Accepted(c, ArchiveOf(c, p, x)) && WholeIn(c, p, ArchiveOf(c, p, x)) == Some(x.whole)
    ensures ManifestIn(c, ArchiveOf(c, p, x)).Some?
    ensures ManifestIn(c, ArchiveOf(c, p, x)).value.investigationId == x.whole.investigation.id
  {
    var k, id := ContentsOf(p, x), x.whole.investigation.id;
    ExportIsAccepted(c, k, id, x.checksums);
    SmallEntries(c.write(ManifestFor(c, Plan(k), id)), Plan(k), x.checksums);
    RequiredStaged(c, k, id, x.checksums);
    hide Plan, Archive, Accepted, ManifestIn, Staged, Parsed, WithinLimits, Faithful, ReadsBack, Stored, Named, PlannedFor;
    ParsedBack(p, x, Staged(ArchiveOf(c, p, x), ManifestFor(c, Plan(k), id)));
  }

  lemma ImportableMeans(c: Codec, p: Printer, zip: seq<ZipEntry>, w: Whole)
    requires Accepted(c, zip) && WholeIn(c, p, zip) == Some(w) && ManifestIn(c, zip).Some?
    ensures Importable(c, p, zip) <==>
      w.investigation.id != "" && w.investigation.id == ManifestIn(c, zip).value.investigationId && Restorable(w.rows)
  {
    hide Parsed, Restorable;
  }

  lemma StoredRows(c: Codec, p: Printer, x: Parcel)
    requires Exportable(c, p, x)
    ensures Stored(x.whole.rows)
  {
    hide Plan, WithinLimits, Faithful, ReadsBack, ReportsMinted, Stored;
  }

  /** A case read from a workspace and exported within the limits is imported if and only if its
      investigation has an id and every hypothesis links evidence of the same case. */
  lemma ExportImportsIff(c: Codec, p: Printer, x: Parcel)
    requires Exportable(c, p, x)
    ensures Importable(c, p, ArchiveOf(c, p, x)) <==>
      x.whole.investigation.id != "" &&
      forall i :: 0 <= i < |x.whole.rows.hypotheses| ==> LinksInside(x.whole.rows, x.whole.rows.hypotheses[i])
  {
    hide *;
    ExportIsParsedBack(c, p, x);
    ImportableMeans(c, p, ArchiveOf(c, p, x), x.whole);
    StoredRows(c, p, x);
    ImportsIffSelfContained(x.whole.rows);
  }

  // ---- what comes back, field by field ---------------------------------------------------------------

  predicate SameItem(now: Item, was: Item) {
    && now.id == was.id && now.kind == was.kind && now.content == was.content
    && now.taskStatus == was.taskStatus && now.questionStatus == was.questionStatus && !now.archived
  }

  predicate SameMarker(now: Marker, was: Marker) {
    now.id == was.id && now.kind == was.kind && now.title == was.title && now.at == was.at && now.end == was.end && !now.archived
  }

  predicate SameEvidence(now: EvidenceRow, was: EvidenceRow) {
    && now.id == was.id && now.envelopeVersion == was.envelopeVersion && now.kind == was.kind && now.signal == was.signal
    && now.title == was.title && now.annotation == was.annotation && now.relevance == was.relevance
    && now.reference == was.reference && now.snapshot == was.snapshot && now.groupId.None? && !now.archived
  }

  predicate SameHypothesis(now: Hypothesis, was: Hypothesis) {
    && now.id == was.id && now.statement == was.statement && now.rationale == was.rationale
    && now.state == was.state && now.links == was.links
  }

  predicate SameInvestigation(now: Investigation, was: Investigation) {
    && now.id == was.id && now.title == was.title && now.description == was.description && now.severity == was.severity
    && now.owner == was.owner && now.tags == was.tags && now.incidentStartedAt == was.incidentStartedAt
    && now.windowStart == was.windowStart && now.windowEnd == was.windowEnd && now.status == "open"
  }

  /** The workspace holds the case, row by row, but for archived flags, evidence groups, revisions
      and the status of the investigation. */
  ghost predicate CameBack(workspace: ImportedWorkspace, w: Whole)
    reads workspace, workspace.tables
  {
    var t := workspace.tables;
    && workspace.investigation.Some? && SameInvestigation(workspace.investigation.value, w.investigation)
    && |t.hypotheses| == |w.rows.hypotheses|
    && (forall i :: 0 <= i < |w.rows.hypotheses| ==> SameHypothesis(t.hypotheses[i], w.rows.hypotheses[i]))
    && |t.items| == |w.rows.items| && (forall i :: 0 <= i < |w.rows.items| ==> SameItem(t.items[i], w.rows.items[i]))
    && |t.markers| == |w.rows.markers| && (forall i :: 0 <= i < |w.rows.markers| ==> SameMarker(t.markers[i], w.rows.markers[i]))
    && |t.evidence| == |w.rows.evidence| && (forall i :: 0 <= i < |w.rows.evidence| ==> SameEvidence(t.evidence[i], w.rows.evidence[i]))
    && (UniqueIds(Apply(SearchId(), w.searches)) ==> workspace.searches == w.searches)
  }

  /** What an import puts into the tables, field by field, whatever wrote the bundle. */
  lemma RestoredRows(workspace: ImportedWorkspace, w: Whole)
    requires workspace.HoldsCase(w)
    ensures var t := workspace.tables;
      && |t.items| == |w.rows.items| && (forall i :: 0 <= i < |w.rows.items| ==> SameItem(t.items[i], w.rows.items[i]))
      && |t.markers| == |w.rows.markers| && (forall i :: 0 <= i < |w.rows.markers| ==> SameMarker(t.markers[i], w.rows.markers[i]))
      && |t.evidence| == |w.rows.evidence| && (forall i :: 0 <= i < |w.rows.evidence| ==> SameEvidence(t.evidence[i], w.rows.evidence[i]))
      && |t.hypotheses| == |w.rows.hypotheses|
      && forall i :: 0 <= i < |w.rows.hypotheses| ==> RestoredAs(t.hypotheses[i], w.rows.hypotheses[i])
  {
    hide Upserted, Distinct;
    forall i | 0 <= i < |w.rows.hypotheses| ensures RestoredAs(workspace.tables.hypotheses[i], w.rows.hypotheses[i]) {
      assert workspace.tables.hypotheses[i] == RestoredHypothesis()(w.rows.hypotheses[i]);
    }
  }

  /** Known states come back, unknown ones as unverified; links lose repetitions only. */
  ghost predicate RestoredAs(now: Hypothesis, was: Hypothesis) {
    && now.id == was.id && now.statement == was.statement && now.rationale == was.rationale
    && now.state == (if was.state in {"supported", "rejected", "confirmed"} then was.state else "unverified")
    && (forall l :: l in now.links <==> l in was.links)
    && (forall i, j :: 0 <= i < j < |now.links| ==> now.links[i] != now.links[j])
  }

  lemma HeldIsWhole(workspace: ImportedWorkspace, w: Whole)
    requires workspace.HoldsCase(w) && Stored(w.rows)
    ensures CameBack(workspace, w)
  {
    RestoredRows(workspace, w);
    HypothesesBack(workspace, w);
    SearchesBack(workspace, w);
    hide Stored, UniqueIds, Upserted, Apply, SameItem, SameMarker, SameEvidence, SameHypothesis, RestoredAs;
  }

  lemma SearchesBack(workspace: ImportedWorkspace, w: Whole)
    requires workspace.HoldsCase(w)
    ensures workspace.investigation.Some? && SameInvestigation(workspace.investigation.value, w.investigation)
    ensures UniqueIds(Apply(SearchId(), w.searches)) ==> workspace.searches == w.searches
  {
    if UniqueIds(Apply(SearchId(), w.searches)) { UniqueUpserted(w.searches); }
    hide UniqueIds, Upserted, Apply;
  }

  lemma HypothesesBack(workspace: ImportedWorkspace, w: Whole)
    requires workspace.HoldsCase(w) && Stored(w.rows)
    ensures var t := workspace.tables;
      |t.hypotheses| == |w.rows.hypotheses| &&
      forall i :: 0 <= i < |w.rows.hypotheses| ==> SameHypothesis(t.hypotheses[i], w.rows.hypotheses[i])
  {
    ImportsIffSelfContained(w.rows);
    hide Stored, UniqueIds, Upserted, Restorable, LinksInside;
    forall i | 0 <= i < |w.rows.hypotheses|
      ensures SameHypothesis(workspace.tables.hypotheses[i], w.rows.hypotheses[i])
    {
      hide RestoredHypothesis;
      assert workspace.tables.hypotheses[i] == RestoredHypothesis()(w.rows.hypotheses[i]);
    }
  }

  /** Export, then import into a new workspace. */
  method ThereAndBack(c: Codec, p: Printer, x: Parcel) returns (workspace: ImportedWorkspace, ok: bool)
    requires Exportable(c, p, x) && x.whole.investigation.id != ""
    ensures ok <==> forall i :: 0 <= i < |x.whole.rows.hypotheses| ==> LinksInside(x.whole.rows, x.whole.rows.hypotheses[i])
    ensures ok ==> workspace.HoldsCase(x.whole) && CameBack(workspace, x.whole)
  {
    hide *;
    ExportImportsIff(c, p, x);
    ExportIsParsedBack(c, p, x);
    StoredRows(c, p, x);
    workspace := new ImportedWorkspace();
    ok := workspace.ImportBundle(c, p, ArchiveOf(c, p, x));
    if ok { HeldIsWhole(workspace, x.whole); }
  }
}
