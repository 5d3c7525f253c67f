/** Every bundle the exporter builds without a disclosure profile and within the size limits
    passes every import gate, and unpacks to exactly what went in
    (crates/logscope-app/src/bundle.rs). */
module BundleRoundTrip {
  import opened BundleArchive
  import opened EntryPaths
  import opened Ordering
  import opened Rows
  import opened Sequences
  import opened Sorting

  // ---- what the exporter is given ------------------------------------------------------

  /** JSON reads back what it wrote, and folding leaves lower-case names alone. */
  ghost predicate Faithful(c: Codec) {
    && (forall m :: c.parse(c.write(m)) == Some(m))
    && (forall s {:trigger c.fold(s)} :: (forall i :: 0 <= i < |s| ==> NameChar(s[i]) || s[i] == '/') ==> c.fold(s) == s)
  }

  /** Minted artifact ids: a prefix, a hyphen, lower-case hex. */
  predicate Minted(id: string) { Plain(id) && '-' in id && |id| <= 64 }

  ghost predicate ReportsMinted(reports: seq<Report>) {
    && (forall i :: 0 <= i < |reports| ==> Minted(reports[i].artifactId))
    && (forall i, j :: 0 <= i < j < |reports| ==> reports[i].artifactId != reports[j].artifactId)
  }

  function SizeOf(): Planned -> int { (p: Planned) => |p.bytes| }

  /** The size limits, stated over what is written. */
  ghost predicate WithinLimits(manifest: Bytes, plan: seq<Planned>, checksums: Bytes) {
    && |plan| + 2 <= MAX_ENTRIES
    && (forall i :: 0 <= i < |plan| ==> |plan[i].bytes| <= MAX_ENTRY_BYTES)
    && |manifest| <= MAX_MANIFEST_BYTES && |checksums| <= MAX_ENTRY_BYTES
    && |manifest| + Sum(Apply(SizeOf(), plan)) + |checksums| <= MAX_TOTAL_BYTES
  }

  // ---- names ---------------------------------------------------------------------------

  lemma ReservedAreShort()
    ensures forall r :: r in RESERVED ==> |r| <= 4 && r[0] in {'c', 'p', 'a', 'n', 'l'} && (r[0] == 'l' ==> r[1] == 'p')
    ensures forall r :: r in RESERVED ==> '-' !in r
  {
  }

  lemma LongNotReserved(s: string)
    ensures |s| > 4 || (s != [] && s[0] !in {'c', 'p', 'a', 'n', 'l'}) || '-' in s ==> s !in RESERVED
  {
    ReservedAreShort();
  }

  predicate Lower(s: string) { forall i :: 0 <= i < |s| ==> NameChar(s[i]) || s[i] == '/' }

  /** A name the exporter may use: accepted by the importer and unchanged by case folding. */
  predicate Usable(s: string) { EntryPathOk(s) && Lower(s) }

  lemma UsablePath(folder: string, stem: string, extension: string)
    requires Plain(folder) && folder !in RESERVED && Plain(stem) && stem !in RESERVED
    requires |extension| > 1 && extension[0] == '.' && Plain(extension[1..])
    requires |folder| + 1 + |stem| + |extension| <= MAX_ENTRY_NAME_CHARS
    ensures Usable(folder + ['/'] + stem + extension)
  {
    PlainPath(folder, stem, extension);
    var raw := folder + ['/'] + stem + extension;
    hide EntryPathOk;
    forall i | 0 <= i < |raw| ensures NameChar(raw[i]) || raw[i] == '/' {
      var at := |folder| + 1 + |stem|;
      assert at < i ==> raw[i] == extension[1..][i - at - 1];
    }
  }

  lemma UsableFile(stem: string, extension: string)
    requires Plain(stem) && stem !in RESERVED
    requires |extension| > 1 && extension[0] == '.' && Plain(extension[1..])
    requires |stem| + |extension| <= MAX_ENTRY_NAME_CHARS
    ensures Usable(stem + extension)
  {
    PlainFile(stem, extension);
    var raw := stem + extension;
    hide EntryPathOk;
    forall i | 0 <= i < |raw| ensures NameChar(raw[i]) {
      assert |stem| < i ==> raw[i] == extension[1..][i - |stem| - 1];
    }
  }

  lemma InvestigationName()
    ensures Usable("investigation/investigation.json")
  {
    hide Usable;
    LongNotReserved("investigation");
    LongNotReserved("investigation");
    assert ".json"[1..] == "json";
    UsablePath("investigation", "investigation", ".json");
    assert "investigation" + ['/'] + "investigation" + ".json" == "investigation/investigation.json";
  }

  lemma HypothesesName()
    ensures Usable("investigation/hypotheses.json")
  {
    hide Usable;
    LongNotReserved("investigation");
    LongNotReserved("hypotheses");
    assert ".json"[1..] == "json";
    UsablePath("investigation", "hypotheses", ".json");
    assert "investigation" + ['/'] + "hypotheses" + ".json" == "investigation/hypotheses.json";
  }

  lemma ItemsName()
    ensures Usable("investigation/items.json")
  {
    hide Usable;
    LongNotReserved("investigation");
    LongNotReserved("items");
    assert ".json"[1..] == "json";
    UsablePath("investigation", "items", ".json");
    assert "investigation" + ['/'] + "items" + ".json" == "investigation/items.json";
  }

  lemma GroupsName()
    ensures Usable("investigation/groups.json")
  {
    hide Usable;
    LongNotReserved("investigation");
    LongNotReserved("groups");
    assert ".json"[1..] == "json";
    UsablePath("investigation", "groups", ".json");
    assert "investigation" + ['/'] + "groups" + ".json" == "investigation/groups.json";
  }

  lemma EvidenceName()
    ensures Usable("evidence/evidence.jsonl")
  {
    hide Usable;
    LongNotReserved("evidence");
    LongNotReserved("evidence");
    assert ".jsonl"[1..] == "jsonl";
    UsablePath("evidence", "evidence", ".jsonl");
    assert "evidence" + ['/'] + "evidence" + ".jsonl" == "evidence/evidence.jsonl";
  }

  lemma MarkersName()
    ensures Usable("timeline/markers.json")
  {
    hide Usable;
    LongNotReserved("timeline");
    LongNotReserved("markers");
    assert ".json"[1..] == "json";
    UsablePath("timeline", "markers", ".json");
    assert "timeline" + ['/'] + "markers" + ".json" == "timeline/markers.json";
  }

  lemma QueriesName()
    ensures Usable("queries/queries.json")
  {
    hide Usable;
    LongNotReserved("queries");
    LongNotReserved("queries");
    assert ".json"[1..] == "json";
    UsablePath("queries", "queries", ".json");
    assert "queries" + ['/'] + "queries" + ".json" == "queries/queries.json";
  }

  lemma LogsNotReserved()
    ensures "logs" !in RESERVED
  {
    ReservedAreShort();
    assert "logs"[0] == 'l' && "logs"[1] == 'o';
  }

  lemma DataName()
    ensures Usable("data/logs.parquet")
  {
    hide Usable;
    LongNotReserved("data");
    LogsNotReserved();
    assert ".parquet"[1..] == "parquet";
    UsablePath("data", "logs", ".parquet");
    assert "data" + ['/'] + "logs" + ".parquet" == "data/logs.parquet";
  }

  lemma ManifestName()
    ensures Usable(MANIFEST_NAME)
  {
    hide Usable;
    LongNotReserved("manifest");
    assert ".json"[1..] == "json";
    UsableFile("manifest", ".json");
    assert "manifest" + ".json" == MANIFEST_NAME;
  }

  lemma ChecksumsName()
    ensures Usable(CHECKSUMS_NAME)
  {
    hide Usable;
    LongNotReserved("checksums");
    assert ".sha256"[1..] == "sha256";
    UsableFile("checksums", ".sha256");
    assert "checksums" + ".sha256" == CHECKSUMS_NAME;
  }

  lemma ReportName(r: Report)
    requires Minted(r.artifactId)
    ensures Usable(ReportPath(r)) && ReportPath(r)[0] == 'r'
  {
    LongNotReserved("reports");
    LongNotReserved(r.artifactId);
    assert ".html"[1..] == "html" && ".md"[1..] == "md";
    hide Usable;
    UsablePath("reports", r.artifactId, if r.html then ".html" else ".md");
  }

  /** Different artifacts get different names. */
  lemma ReportNamesDiffer(a: Report, b: Report)
    requires Minted(a.artifactId) && Minted(b.artifactId) && a.artifactId != b.artifactId
    ensures ReportPath(a) != ReportPath(b)
  {
    var x, y := if a.html then ".html" else ".md", if b.html then ".html" else ".md";
    PlainStem(a.artifactId, x);
    PlainStem(b.artifactId, y);
    ReportFile(a, x);
    ReportFile(b, y);
    hide *;
  }

  lemma ReportFile(r: Report, extension: string)
    requires extension == if r.html then ".html" else ".md"
    ensures |ReportPath(r)| >= 8 && ReportPath(r)[8..] == r.artifactId + extension
  {
    var prefix := "reports" + ['/'];
    assert |prefix| == 8 && ReportPath(r) == prefix + (r.artifactId + extension);
  }

  // ---- the plan ------------------------------------------------------------------------

  function PathOf(): Planned -> string { (p: Planned) => p.path }

  /** Every planned name is usable, sits in a folder, and occurs once. */
  ghost predicate GoodPlan(plan: seq<Planned>) {
    && (forall i :: 0 <= i < |plan| ==> Usable(plan[i].path) && '/' in plan[i].path)
    && (forall i, j :: 0 <= i < j < |plan| ==> plan[i].path != plan[j].path)
  }

  lemma FixedNames(k: Contents)
    ensures GoodPlan(FixedEntries(k))
    ensures forall i :: 0 <= i < |FixedEntries(k)| ==> FixedEntries(k)[i].path != [] && FixedEntries(k)[i].path[0] != 'r'
  {
    FixedUsable(k);
    FixedFolders(k);
    FixedDiffer(k);
    hide Usable, FixedEntries;
  }

  lemma FixedUsable(k: Contents)
    ensures forall i :: 0 <= i < |FixedEntries(k)| ==> Usable(FixedEntries(k)[i].path)
  {
    hide Usable;
    InvestigationName(); HypothesesName(); ItemsName(); GroupsName();
    EvidenceName(); MarkersName(); QueriesName(); DataName();
  }

  lemma FixedFolders(k: Contents)
    ensures forall i :: 0 <= i < |FixedEntries(k)| ==>
      FixedEntries(k)[i].path != [] && FixedEntries(k)[i].path[0] != 'r' && '/' in FixedEntries(k)[i].path
  {
    assert "investigation/investigation.json"[13] == '/' && "investigation/hypotheses.json"[13] == '/';
    assert "investigation/items.json"[13] == '/' && "investigation/groups.json"[13] == '/';
    assert "evidence/evidence.jsonl"[8] == '/' && "timeline/markers.json"[8] == '/';
    assert "queries/queries.json"[7] == '/' && "data/logs.parquet"[4] == '/';
  }

  /** The fixed names differ already by their lengths. */
  lemma FixedDiffer(k: Contents)
    ensures forall i, j :: 0 <= i < j < |FixedEntries(k)| ==> FixedEntries(k)[i].path != FixedEntries(k)[j].path
  {
    forall i, j | 0 <= i < j < |FixedEntries(k)| ensures |FixedEntries(k)[i].path| != |FixedEntries(k)[j].path| {}
  }

  function ReportPlan(reports: seq<Report>): seq<Planned> { SortBy(ByPath(), Apply(ReportEntry(), reports)) }

  lemma ReportNames(reports: seq<Report>)
    requires ReportsMinted(reports)
    ensures GoodPlan(ReportPlan(reports))
    ensures forall i :: 0 <= i < |ReportPlan(reports)| ==> ReportPlan(reports)[i].path != [] && ReportPlan(reports)[i].path[0] == 'r'
  {
    var listed, plan := Apply(ReportEntry(), reports), ReportPlan(reports);
    ReportsDistinct(reports);
    hide Usable, SortBy, ReportPath, Minted;
    forall i | 0 <= i < |plan|
      ensures Usable(plan[i].path) && '/' in plan[i].path && plan[i].path != [] && plan[i].path[0] == 'r'
    {
      SortMembers(ByPath(), listed, plan[i]);
      var j :| 0 <= j < |listed| && listed[j] == plan[i];
      ReportName(reports[j]);
      ReportHasFolder(reports[j]);
    }
    forall i, j | 0 <= i < j < |plan| ensures plan[i].path != plan[j].path {
      assert Apply(PathOf(), plan)[i] != Apply(PathOf(), plan)[j];
    }
  }

  lemma ReportHasFolder(r: Report)
    ensures ReportPath(r) != [] && '/' in ReportPath(r)
  {
    assert ReportPath(r)[7] == '/';
  }

  lemma ReportsDistinct(reports: seq<Report>)
    requires ReportsMinted(reports)
    ensures var names := Apply(PathOf(), ReportPlan(reports)); forall i, j :: 0 <= i < j < |names| ==> names[i] != names[j]
  {
    var listed := Apply(ReportEntry(), reports);
    hide ReportPath, Minted;
    forall i, j | 0 <= i < j < |listed| ensures Apply(PathOf(), listed)[i] != Apply(PathOf(), listed)[j] {
      ReportNamesDiffer(reports[i], reports[j]);
    }
    SortPermutes(ByPath(), listed);
    ApplyPermutes(PathOf(), listed, SortBy(ByPath(), listed));
    hide SortBy;
    DistinctPermutation(Apply(PathOf(), listed), Apply(PathOf(), SortBy(ByPath(), listed)));
  }

  lemma PlanIsGood(k: Contents)
    requires ReportsMinted(k.reports)
    ensures GoodPlan(Plan(k))
  {
    var fixed, reports := FixedEntries(k), ReportPlan(k.reports);
    FixedNames(k);
    ReportNames(k.reports);
    assert Plan(k) == fixed + reports;
    hide FixedEntries, ReportPlan, Plan, Usable, ReportsMinted;
    GoodTogether(fixed, reports);
  }

  lemma GoodTogether(a: seq<Planned>, b: seq<Planned>)
    requires GoodPlan(a) && GoodPlan(b)
    requires forall i :: 0 <= i < |a| ==> a[i].path != [] && a[i].path[0] != 'r'
    requires forall i :: 0 <= i < |b| ==> b[i].path != [] && b[i].path[0] == 'r'
    ensures GoodPlan(a + b)
  {
    hide Usable;
  }

  // ---- the archive ---------------------------------------------------------------------

  lemma PackUsable(manifest: Bytes, plan: seq<Planned>, checksums: Bytes, i: nat)
    requires GoodPlan(plan) && i < |plan| + 2
    ensures Usable(Pack(manifest, plan, checksums)[i].name)
  {
    ManifestName();
    ChecksumsName();
    hide Usable, Pack;
    var zip := Pack(manifest, plan, checksums);
    if 0 < i <= |plan| { assert zip[i - 1 + 1] == Zipped(plan[i - 1].path, plan[i - 1].bytes); }
  }

  lemma RootNames()
    ensures '/' !in MANIFEST_NAME && '/' !in CHECKSUMS_NAME && MANIFEST_NAME != CHECKSUMS_NAME
  {
    assert |MANIFEST_NAME| != |CHECKSUMS_NAME|;
  }

  lemma PackDistinct(manifest: Bytes, plan: seq<Planned>, checksums: Bytes)
    requires GoodPlan(plan)
    ensures DistinctNames(Pack(manifest, plan, checksums))
  {
    RootNames();
    var zip, n := Pack(manifest, plan, checksums), |plan|;
    hide Usable, Pack;
    forall i, j | 0 <= i < j < |zip| ensures zip[i].name != zip[j].name {
      assert 0 < i <= n ==> zip[i - 1 + 1] == Zipped(plan[i - 1].path, plan[i - 1].bytes);
      assert 0 < j <= n ==> zip[j - 1 + 1] == Zipped(plan[j - 1].path, plan[j - 1].bytes);
      assert 0 < i <= n ==> '/' in plan[i - 1].path;
      assert 0 < j <= n ==> '/' in plan[j - 1].path;
    }
  }

  lemma PackSize(manifest: Bytes, plan: seq<Planned>, checksums: Bytes)
    ensures Sum(Apply(DeclaredOf(), Pack(manifest, plan, checksums))) == |manifest| + Sum(Apply(SizeOf(), plan)) + |checksums|
  {
    var first, middle, last := Zipped(MANIFEST_NAME, manifest), Apply(ZippedEntry(), plan), Zipped(CHECKSUMS_NAME, checksums);
    hide Sum;
    assert Apply(DeclaredOf(), middle) == Apply(SizeOf(), plan);
    assert Apply(DeclaredOf(), [first] + middle + [last]) == [first.declared] + Apply(SizeOf(), plan) + [last.declared];
    SumSnoc([first.declared] + Apply(SizeOf(), plan), last.declared);
    SumConcat([first.declared], Apply(SizeOf(), plan));
    SumSnoc([], first.declared);
    assert [] + [first.declared] == [first.declared] && Sum([]) == 0 by { EmptySum(); }
  }

  lemma EmptySum()
    ensures Sum([]) == 0
  {
  }

  lemma PackEntryOk(c: Codec, manifest: Bytes, plan: seq<Planned>, checksums: Bytes, i: nat)
    requires Faithful(c) && GoodPlan(plan) && WithinLimits(manifest, plan, checksums) && i < |plan| + 2
    ensures var e := Pack(manifest, plan, checksums)[i]; EntryOk(e) && c.fold(e.name) == e.name
  {
    var zip := Pack(manifest, plan, checksums);
    PackUsable(manifest, plan, checksums, i);
    NameIsFine(c, zip[i].name);
    hide EntryPathOk, Usable, Faithful, Pack, GoodPlan, Sum, Apply;
    assert !zip[i].directory && !zip[i].symlink && zip[i].declared <= MAX_ENTRY_BYTES by {
      if 0 < i <= |plan| { assert zip[i - 1 + 1] == Zipped(plan[i - 1].path, plan[i - 1].bytes); }
    }
  }

  lemma DirectoryFrom(c: Codec, zip: seq<ZipEntry>)
    requires |zip| <= MAX_ENTRIES && Sum(Apply(DeclaredOf(), zip)) <= MAX_TOTAL_BYTES && DistinctNames(zip)
    requires forall i :: 0 <= i < |zip| ==> EntryOk(zip[i]) && c.fold(zip[i].name) == zip[i].name
    ensures DirectoryOk(c, zip)
  {
    hide EntryOk, Sum, Apply;
  }

  lemma PackDirectory(c: Codec, manifest: Bytes, plan: seq<Planned>, checksums: Bytes)
    requires Faithful(c) && GoodPlan(plan) && WithinLimits(manifest, plan, checksums)
    ensures DirectoryOk(c, Pack(manifest, plan, checksums))
  {
    var zip := Pack(manifest, plan, checksums);
    PackDistinct(manifest, plan, checksums);
    PackSize(manifest, plan, checksums);
    hide Pack, GoodPlan, Sum, Apply, EntryOk, Faithful, DistinctNames, DirectoryOk;
    forall i | 0 <= i < |zip| ensures EntryOk(zip[i]) && c.fold(zip[i].name) == zip[i].name {
      PackEntryOk(c, manifest, plan, checksums, i);
    }
    DirectoryFrom(c, zip);
  }

  lemma NameIsFine(c: Codec, name: string)
    requires Faithful(c) && Usable(name)
    ensures EntryPathOk(name) && c.fold(name) == name
  {
  }

  lemma PackEntry(c: Codec, manifest: Bytes, plan: seq<Planned>, checksums: Bytes, i: nat)
    requires GoodPlan(plan) && i < |plan| && |plan[i].bytes| <= MAX_ENTRY_BYTES
    ensures var zip := Pack(manifest, plan, checksums);
      Named(zip, plan[i].path) == Some(Zipped(plan[i].path, plan[i].bytes)) && Matches(c, zip, ManifestLine(c)(plan[i]))
  {
    var zip := Pack(manifest, plan, checksums);
    PackDistinct(manifest, plan, checksums);
    hide Pack, Named, GoodPlan, Usable;
    assert zip[i + 1] == Zipped(plan[i].path, plan[i].bytes);
    NamedOnly(zip, i + 1);
  }

  lemma PackLists(c: Codec, manifest: Bytes, plan: seq<Planned>, checksums: Bytes, id: string)
    ensures PathsIn(ManifestFor(c, plan, id)) + {MANIFEST_NAME, CHECKSUMS_NAME} == NamesIn(Pack(manifest, plan, checksums))
  {
    var zip, m := Pack(manifest, plan, checksums), ManifestFor(c, plan, id);
    hide Pack;
    forall i | 0 <= i < |plan| ensures m.entries[i].path == plan[i].path == zip[i + 1].name {}
    forall name | name in PathsIn(m) ensures name in NamesIn(zip) {
      var i :| 0 <= i < |plan| && m.entries[i].path == name;
      assert zip[i + 1].name == name;
    }
    assert zip[0].name == MANIFEST_NAME && zip[|plan| + 1].name == CHECKSUMS_NAME;
    forall name | name in NamesIn(zip) ensures name in PathsIn(m) + {MANIFEST_NAME, CHECKSUMS_NAME} {
      var i :| 0 <= i < |zip| && zip[i].name == name;
      if 0 < i <= |plan| { assert m.entries[i - 1].path == zip[i - 1 + 1].name; }
    }
  }

  lemma PackManifest(c: Codec, plan: seq<Planned>, checksums: Bytes, id: string)
    requires Faithful(c) && GoodPlan(plan)
    requires WithinLimits(c.write(ManifestFor(c, plan, id)), plan, checksums)
    ensures var m := ManifestFor(c, plan, id);
      var zip := Pack(c.write(m), plan, checksums);
      ManifestIn(c, zip) == Some(m) && ManifestOk(c, zip, m)
  {
    var m := ManifestFor(c, plan, id);
    var zip := Pack(c.write(m), plan, checksums);
    PackDistinct(c.write(m), plan, checksums);
    PackLists(c, c.write(m), plan, checksums, id);
    hide Pack, Named, GoodPlan, Usable, Sum, PathsIn, NamesIn, Matches;
    NamedOnly(zip, 0);
    assert zip[0] == Zipped(MANIFEST_NAME, c.write(m));
    forall i | 0 <= i < |m.entries| ensures Matches(c, zip, m.entries[i]) {
      PackEntry(c, c.write(m), plan, checksums, i);
    }
  }

  /** The exporter's archive passes every gate. */
  lemma ExportIsAccepted(c: Codec, k: Contents, id: string, checksums: Bytes)
    requires Faithful(c) && ReportsMinted(k.reports)
    requires WithinLimits(c.write(ManifestFor(c, Plan(k), id)), Plan(k), checksums)
    ensures Accepted(c, Archive(c, k, id, checksums))
    ensures ManifestIn(c, Archive(c, k, id, checksums)) == Some(ManifestFor(c, Plan(k), id))
  {
    PlanIsGood(k);
    assert Archive(c, k, id, checksums) == Pack(c.write(ManifestFor(c, Plan(k), id)), Plan(k), checksums);
    hide *;
    PackDirectory(c, c.write(ManifestFor(c, Plan(k), id)), Plan(k), checksums);
    PackManifest(c, Plan(k), checksums, id);
    AcceptedBy(c, Archive(c, k, id, checksums), ManifestFor(c, Plan(k), id));
  }

  lemma AcceptedBy(c: Codec, zip: seq<ZipEntry>, m: Manifest)
    requires DirectoryOk(c, zip) && ManifestIn(c, zip) == Some(m) && ManifestOk(c, zip, m)
    ensures Accepted(c, zip)
  {
  }

  /** What the importer stages is exactly what was planned, byte for byte, and nothing else. */
  lemma StagedIsPlan(c: Codec, manifest: Bytes, plan: seq<Planned>, checksums: Bytes, id: string)
    requires GoodPlan(plan) && forall i :: 0 <= i < |plan| ==> |plan[i].bytes| <= MAX_ENTRY_BYTES
    ensures var zip, m := Pack(manifest, plan, checksums), ManifestFor(c, plan, id);
      && (forall i :: 0 <= i < |m.entries| ==> Named(zip, m.entries[i].path).Some?)
      && (forall i :: 0 <= i < |plan| ==> plan[i].path in Staged(zip, m) && Staged(zip, m)[plan[i].path] == plan[i].bytes)
      && (forall p :: p in Staged(zip, m) ==> exists i :: 0 <= i < |plan| && plan[i].path == p)
  {
    var zip, m := Pack(manifest, plan, checksums), ManifestFor(c, plan, id);
    hide Pack, Named, GoodPlan, Matches;
    forall i | 0 <= i < |plan|
      ensures m.entries[i].path == plan[i].path && Named(zip, plan[i].path) == Some(Zipped(plan[i].path, plan[i].bytes))
    {
      PackEntry(c, manifest, plan, checksums, i);
    }
    forall p | p in Staged(zip, m) ensures exists i :: 0 <= i < |plan| && plan[i].path == p {
      var i :| 0 <= i < |m.entries| && m.entries[i].path == p;
      assert plan[i].path == p;
    }
  }
}
