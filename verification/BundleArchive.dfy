/** The bundle archive (crates/logscope-app/src/bundle.rs): what the exporter writes, the gates
    an importer puts an archive through, and why the first always passes the second. */
module BundleArchive {
  import opened EntryPaths
  import opened Ordering
  import opened Rows
  import opened Sequences
  import opened Sorting

  // ---- data model --------------------------------------------------------------------

  type Bytes = seq<bv8>

  const SCHEMA_VERSION: nat := 1
  const MAX_ENTRIES: nat := 10_000
  const MAX_ENTRY_BYTES: nat := 1_073_741_824
  const MAX_TOTAL_BYTES: nat := 4_294_967_296
  const MAX_MANIFEST_BYTES: nat := 8_388_608

  const MANIFEST_NAME := "manifest.json"
  const CHECKSUMS_NAME := "checksums.sha256"

  datatype ZipEntry = ZipEntry(name: string, declared: nat, bytes: Bytes, directory: bool, symlink: bool)

  datatype ManifestEntry = ManifestEntry(path: string, entryType: string, byteSize: nat, sha256: string)

  datatype Manifest = Manifest(schemaVersion: nat, minCompatible: nat, investigationId: string, entries: seq<ManifestEntry>)

  /** Hashing, JSON and case folding. */
  datatype Codec = Codec(sha: Bytes -> string, write: Manifest -> Bytes, parse: Bytes -> Option<Manifest>, fold: string -> string)

  // ---- import gates ------------------------------------------------------------------

  function DeclaredOf(): ZipEntry -> int { (e: ZipEntry) => e.declared }

  predicate EntryOk(e: ZipEntry) {
    EntryPathOk(e.name) && !e.directory && !e.symlink && e.declared <= MAX_ENTRY_BYTES
  }

  /** The whole central directory, before anything is extracted. */
  ghost predicate DirectoryOk(c: Codec, zip: seq<ZipEntry>) {
    && |zip| <= MAX_ENTRIES
    && (forall i :: 0 <= i < |zip| ==> EntryOk(zip[i]))
    && (forall i, j :: 0 <= i < j < |zip| ==> c.fold(zip[i].name) != c.fold(zip[j].name))
    && Sum(Apply(DeclaredOf(), zip)) <= MAX_TOTAL_BYTES
  }

  function NamesIn(zip: seq<ZipEntry>): set<string> { set i | 0 <= i < |zip| :: zip[i].name }

  function PathsIn(m: Manifest): set<string> { set i | 0 <= i < |m.entries| :: m.entries[i].path }

  /** `by_name`. */
  function Named(zip: seq<ZipEntry>, name: string): Option<ZipEntry> {
    if zip == [] then None else if zip[0].name == name then Some(zip[0]) else Named(zip[1..], name)
  }

  /** Declared within the limit, and no larger than declared. */
  predicate Readable(e: ZipEntry, limit: nat) { e.declared <= limit && |e.bytes| <= e.declared }

  predicate Matches(c: Codec, zip: seq<ZipEntry>, m: ManifestEntry) {
    var e := Named(zip, m.path);
    e.Some? && Readable(e.value, MAX_ENTRY_BYTES) && |e.value.bytes| == m.byteSize && c.sha(e.value.bytes) == m.sha256
  }

  ghost predicate ManifestOk(c: Codec, zip: seq<ZipEntry>, m: Manifest) {
    && m.minCompatible <= SCHEMA_VERSION
    && PathsIn(m) + {MANIFEST_NAME, CHECKSUMS_NAME} == NamesIn(zip)
    && forall i :: 0 <= i < |m.entries| ==> Matches(c, zip, m.entries[i])
  }

  function ManifestIn(c: Codec, zip: seq<ZipEntry>): Option<Manifest> {
    match Named(zip, MANIFEST_NAME)
    case None => None
    case Some(e) => if Readable(e, MAX_MANIFEST_BYTES) then c.parse(e.bytes) else None
  }

  /** Every gate of `import_bundle`. */
  ghost predicate Accepted(c: Codec, zip: seq<ZipEntry>) {
    DirectoryOk(c, zip) && ManifestIn(c, zip).Some? && ManifestOk(c, zip, ManifestIn(c, zip).value)
  }

  /** The loop over the central directory. */
  method CheckDirectory(c: Codec, zip: seq<ZipEntry>) returns (ok: bool)
    ensures ok <==> DirectoryOk(c, zip)
  {
    NotTooMany(c, zip);
    NothingChecked(c, zip);
    hide EntryOk, Checked, DirectoryOk;
    if |zip| > MAX_ENTRIES { return false; }
    var total, seen := 0, {};
    var i := 0;
    while i < |zip|
      invariant i <= |zip| && Checked(c, zip[..i], total, seen)
    {
      NextChecked(c, zip, i, total, seen);
      if !EntryOk(zip[i]) || c.fold(zip[i].name) in seen { return false; }
      total, seen := total + zip[i].declared, seen + {c.fold(zip[i].name)};
      i := i + 1;
    }
    assert zip[..i] == zip;
    CheckedAll(c, zip, total, seen);
    ok := total <= MAX_TOTAL_BYTES;
  }

  /** What the loop knows of the entries it has passed. */
  ghost predicate Checked(c: Codec, zip: seq<ZipEntry>, total: int, seen: set<string>) {
    && total == Sum(Apply(DeclaredOf(), zip))
    && (forall i :: 0 <= i < |zip| ==> EntryOk(zip[i]))
    && (forall f :: f in seen <==> exists i :: 0 <= i < |zip| && c.fold(zip[i].name) == f)
    && (forall i, j :: 0 <= i < j < |zip| ==> c.fold(zip[i].name) != c.fold(zip[j].name))
  }

  lemma NotTooMany(c: Codec, zip: seq<ZipEntry>)
    ensures DirectoryOk(c, zip) ==> |zip| <= MAX_ENTRIES
  {
    hide EntryOk, Sum, Apply;
  }

  lemma NothingChecked(c: Codec, zip: seq<ZipEntry>)
    ensures Checked(c, zip[..0], 0, {})
  {
    assert Apply(DeclaredOf(), zip[..0]) == [];
  }

  lemma NextChecked(c: Codec, zip: seq<ZipEntry>, i: nat, total: int, seen: set<string>)
    requires i < |zip| && Checked(c, zip[..i], total, seen)
    ensures EntryOk(zip[i]) && c.fold(zip[i].name) !in seen ==>
      Checked(c, zip[..i + 1], total + zip[i].declared, seen + {c.fold(zip[i].name)})
    ensures !EntryOk(zip[i]) || c.fold(zip[i].name) in seen ==> !DirectoryOk(c, zip)
  {
    hide EntryOk, Sum, Apply;
    assert zip[..i + 1] == zip[..i] + [zip[i]];
    ApplySnoc(DeclaredOf(), zip[..i], zip[i]);
    SumSnoc(Apply(DeclaredOf(), zip[..i]), zip[i].declared);
    assert forall k :: 0 <= k < i ==> zip[..i][k] == zip[k];
  }

  lemma CheckedAll(c: Codec, zip: seq<ZipEntry>, total: int, seen: set<string>)
    requires Checked(c, zip, total, seen) && |zip| <= MAX_ENTRIES
    ensures DirectoryOk(c, zip) <==> total <= MAX_TOTAL_BYTES
  {
    hide EntryOk, Sum, Apply;
  }

  const CHUNK: nat := 65_536

  /** `read_entry_exact`: reads in chunks and stops just past the declared size, so an entry
      that lies about its size is cut off after at most one chunk too many. */
  method ReadEntryExact(e: ZipEntry, limit: nat) returns (bytes: Option<Bytes>, ghost buffered: nat)
    ensures bytes == if Readable(e, limit) then Some(e.bytes) else None
    ensures buffered <= e.declared + CHUNK && buffered <= |e.bytes|
  {
    buffered := 0;
    if e.declared > limit { return None, 0; }
    var read: Bytes := [];
    var at := 0;
    while at < |e.bytes|
      invariant at <= |e.bytes| && read == e.bytes[..at] && |read| <= e.declared && buffered == at
      decreases |e.bytes| - at
    {
      var n := if |e.bytes| - at < CHUNK then |e.bytes| - at else CHUNK;
      read := read + e.bytes[at..at + n];
      at := at + n;
      buffered := at;
      if |read| > e.declared { return None, buffered; }
    }
    assert e.bytes[..at] == e.bytes;
    bytes := Some(read);
  }

  function Staged(zip: seq<ZipEntry>, m: Manifest): map<string, Bytes>
    requires forall i :: 0 <= i < |m.entries| ==> Named(zip, m.entries[i].path).Some?
  {
    map p | p in PathsIn(m) && Named(zip, p).Some? :: Named(zip, p).value.bytes
  }

  /** The gates of `import_bundle`, in order. What comes out is what the manifest lists. */
  method ImportGates(c: Codec, zip: seq<ZipEntry>) returns (staged: Option<map<string, Bytes>>)
    ensures staged.Some? <==> Accepted(c, zip)
    ensures staged.Some? ==> staged.value == Staged(zip, ManifestIn(c, zip).value)
  {
    hide DirectoryOk;
    var ok := CheckDirectory(c, zip);
    if !ok { return None; }
    var entry := Named(zip, MANIFEST_NAME);
    if entry.None? { return None; }
    var text, _ := ReadEntryExact(entry.value, MAX_MANIFEST_BYTES);
    if text.None? { return None; }
    var manifest := c.parse(text.value);
    if manifest.None? { return None; }
    var m := manifest.value;
    if m.minCompatible > SCHEMA_VERSION || PathsIn(m) + {MANIFEST_NAME, CHECKSUMS_NAME} != NamesIn(zip) { return None; }
    staged := Extract(c, zip, m);
  }

  method Extract(c: Codec, zip: seq<ZipEntry>, m: Manifest) returns (staged: Option<map<string, Bytes>>)
    ensures staged.Some? <==> forall i :: 0 <= i < |m.entries| ==> Matches(c, zip, m.entries[i])
    ensures staged.Some? ==> staged.value == Staged(zip, m)
  {
    var files: map<string, Bytes> := map[];
    var i := 0;
    while i < |m.entries|
      invariant i <= |m.entries|
      invariant forall k :: 0 <= k < i ==> Matches(c, zip, m.entries[k])
      invariant forall p :: p in files <==> exists k :: 0 <= k < i && m.entries[k].path == p
      invariant forall p :: p in files ==> Named(zip, p).Some? && files[p] == Named(zip, p).value.bytes
    {
      var want := m.entries[i];
      var entry := Named(zip, want.path);
      if entry.None? { return None; }
      var bytes, _ := ReadEntryExact(entry.value, MAX_ENTRY_BYTES);
      if bytes.None? || |bytes.value| != want.byteSize || c.sha(bytes.value) != want.sha256 { return None; }
      files := files[want.path := bytes.value];
      i := i + 1;
    }
    staged := Some(files);
  }

  // ---- what is accepted, entry by entry ------------------------------------------------

  lemma {:induction false} NamedIs(zip: seq<ZipEntry>, name: string)
    ensures Named(zip, name).Some? ==> exists i :: 0 <= i < |zip| && zip[i] == Named(zip, name).value && zip[i].name == name
    ensures Named(zip, name).None? ==> forall i :: 0 <= i < |zip| ==> zip[i].name != name
  {
    if zip != [] && zip[0].name != name {
      NamedIs(zip[1..], name);
      assert zip == [zip[0]] + zip[1..];
    }
  }

  ghost predicate DistinctNames(zip: seq<ZipEntry>) { forall i, j :: 0 <= i < j < |zip| ==> zip[i].name != zip[j].name }

  /** With no name twice, an entry is found under its own name. */
  lemma NamedOnly(zip: seq<ZipEntry>, i: nat)
    requires i < |zip| && DistinctNames(zip)
    ensures Named(zip, zip[i].name) == Some(zip[i])
  {
    NamedIs(zip, zip[i].name);
  }

  /** The entry has this name, and no more bytes than it declares. */
  predicate Carries(e: ZipEntry, name: string, limit: nat) { e.name == name && |e.bytes| <= e.declared <= limit }

  /** The entry is the listed file: its size and its hash are the listed ones. */
  predicate Delivers(c: Codec, e: ZipEntry, want: ManifestEntry) {
    Carries(e, want.path, 1024 * 1024 * 1024) && |e.bytes| == want.byteSize && c.sha(e.bytes) == want.sha256
  }

  ghost predicate Delivered(c: Codec, zip: seq<ZipEntry>, want: ManifestEntry) {
    exists i :: 0 <= i < |zip| && Delivers(c, zip[i], want)
  }

  ghost predicate Listed(m: Manifest, name: string) { exists k :: 0 <= k < |m.entries| && m.entries[k].path == name }

  /** The manifest stands in the archive, in a version this importer reads; every file it lists is there
      as listed; nothing else is there but the manifest and the checksums. */
  ghost predicate Describes(c: Codec, zip: seq<ZipEntry>, m: Manifest) {
    && (exists i :: 0 <= i < |zip| && Carries(zip[i], "manifest.json", 8 * 1024 * 1024) && c.parse(zip[i].bytes) == Some(m))
    && m.minCompatible <= 1
    && (forall k :: 0 <= k < |m.entries| ==> Delivered(c, zip, m.entries[k]))
    && (exists i :: 0 <= i < |zip| && zip[i].name == "checksums.sha256")
    && (forall i :: 0 <= i < |zip| ==> zip[i].name == "manifest.json" || zip[i].name == "checksums.sha256" || Listed(m, zip[i].name))
  }

  /** Names an operating system would take for one another stand for one file. */
  ghost predicate Apart(c: Codec, zip: seq<ZipEntry>) {
    forall i, j :: 0 <= i < j < |zip| ==> c.fold(zip[i].name) != c.fold(zip[j].name)
  }

  /** An archive is accepted exactly when it has at most ten thousand entries, all plain files under
      acceptable names, none over one gibibyte and not over four together, no two with names that
      differ by case only, and a manifest describes it. */
  lemma AcceptedMeans(c: Codec, zip: seq<ZipEntry>)
    ensures Accepted(c, zip) <==>
      && |zip| <= 10_000 && Apart(c, zip) && Sum(Apply(DeclaredOf(), zip)) <= 4 * 1024 * 1024 * 1024
      && (forall i :: 0 <= i < |zip| ==>
            EntryPathOk(zip[i].name) && !zip[i].directory && !zip[i].symlink && zip[i].declared <= 1024 * 1024 * 1024)
      && exists m :: Describes(c, zip, m)
  {
    hide EntryPathOk, Sum, Apply, Named, Describes, ManifestOk, ManifestIn;
    if Apart(c, zip) {
      forall j, k | 0 <= j < k < |zip| ensures zip[j].name != zip[k].name { assert c.fold(zip[j].name) != c.fold(zip[k].name); }
      forall m ensures Describes(c, zip, m) <==> ManifestIn(c, zip) == Some(m) && ManifestOk(c, zip, m) { DescribesMeans(c, zip, m); }
    }
  }

  lemma DescribesMeans(c: Codec, zip: seq<ZipEntry>, m: Manifest)
    requires DistinctNames(zip)
    ensures Describes(c, zip, m) <==> ManifestIn(c, zip) == Some(m) && ManifestOk(c, zip, m)
  {
    ManifestFound(c, zip, m);
    FilesMean(c, zip, m);
    forall k | 0 <= k < |m.entries| ensures Delivered(c, zip, m.entries[k]) <==> Matches(c, zip, m.entries[k]) {
      DeliveredMeans(c, zip, m.entries[k]);
    }
    hide Delivered, Matches, ManifestIn, PathsIn, NamesIn, Listed, Carries;
  }

  lemma ManifestFound(c: Codec, zip: seq<ZipEntry>, m: Manifest)
    requires DistinctNames(zip)
    ensures ManifestIn(c, zip) == Some(m) <==>
      exists i :: 0 <= i < |zip| && Carries(zip[i], "manifest.json", 8 * 1024 * 1024) && c.parse(zip[i].bytes) == Some(m)
  {
    NamedIs(zip, MANIFEST_NAME);
    hide Named;
    forall i | 0 <= i < |zip| && zip[i].name == MANIFEST_NAME ensures Named(zip, MANIFEST_NAME) == Some(zip[i]) { NamedOnly(zip, i); }
  }

  lemma DeliveredMeans(c: Codec, zip: seq<ZipEntry>, want: ManifestEntry)
    requires DistinctNames(zip)
    ensures Delivered(c, zip, want) <==> Matches(c, zip, want)
  {
    NamedIs(zip, want.path);
    hide Named;
    forall i | 0 <= i < |zip| && zip[i].name == want.path ensures Named(zip, want.path) == Some(zip[i]) { NamedOnly(zip, i); }
  }

  lemma FilesMean(c: Codec, zip: seq<ZipEntry>, m: Manifest)
    requires DistinctNames(zip)
    ensures (exists i :: 0 <= i < |zip| && zip[i].name == "manifest.json") && (forall k :: 0 <= k < |m.entries| ==> Delivered(c, zip, m.entries[k])) ==>
      (PathsIn(m) + {MANIFEST_NAME, CHECKSUMS_NAME} == NamesIn(zip) <==>
        && (exists i :: 0 <= i < |zip| && zip[i].name == "checksums.sha256")
        && forall i :: 0 <= i < |zip| ==> zip[i].name == "manifest.json" || zip[i].name == "checksums.sha256" || Listed(m, zip[i].name))
  {
    var all, names := PathsIn(m) + {MANIFEST_NAME, CHECKSUMS_NAME}, NamesIn(zip);
    forall name ensures name in PathsIn(m) <==> Listed(m, name) {}
    if forall k :: 0 <= k < |m.entries| ==> Delivered(c, zip, m.entries[k]) {
      forall name | Listed(m, name) ensures name in names {
        var k :| 0 <= k < |m.entries| && m.entries[k].path == name;
        assert Delivered(c, zip, m.entries[k]);
      }
    }
    if all == names { assert CHECKSUMS_NAME in names; assert forall i :: 0 <= i < |zip| ==> zip[i].name in names; }
  }

  // ---- the exporter ------------------------------------------------------------------

  datatype Planned = Planned(path: string, entryType: string, bytes: Bytes)

  datatype Report = Report(artifactId: string, html: bool, bytes: Bytes)

  datatype Contents = Contents(
    investigation: Bytes, hypotheses: Bytes, items: Bytes, groups: Bytes, evidence: Bytes, markers: Bytes, queries: Bytes,
    data: Option<Bytes>, reports: seq<Report>)

  function ReportPath(r: Report): string { "reports" + ['/'] + r.artifactId + (if r.html then ".html" else ".md") }

  function ReportEntry(): Report -> Planned { (r: Report) => Planned(ReportPath(r), "report", r.bytes) }

  function ByPath(): (Planned, Planned) -> bool { (a: Planned, b: Planned) => AtMost(a.path, b.path) }

  function FixedEntries(k: Contents): seq<Planned> {
    [Planned("investigation/investigation.json", "metadata", k.investigation),
     Planned("investigation/hypotheses.json", "metadata", k.hypotheses),
     Planned("investigation/items.json", "metadata", k.items),
     Planned("investigation/groups.json", "metadata", k.groups),
     Planned("evidence/evidence.jsonl", "evidence", k.evidence),
     Planned("timeline/markers.json", "markers", k.markers),
     Planned("queries/queries.json", "queries", k.queries)]
    + (if k.data.Some? then [Planned("data/logs.parquet", "data", k.data.value)] else [])
  }

  /** The entries in the order they are written: the case, the data, then reports by path. */
  function Plan(k: Contents): seq<Planned> {
    FixedEntries(k) + SortBy(ByPath(), Apply(ReportEntry(), k.reports))
  }

  function ManifestLine(c: Codec): Planned -> ManifestEntry {
    (p: Planned) => ManifestEntry(p.path, p.entryType, |p.bytes|, c.sha(p.bytes))
  }

  function ManifestFor(c: Codec, plan: seq<Planned>, investigationId: string): Manifest {
    Manifest(SCHEMA_VERSION, SCHEMA_VERSION, investigationId, Apply(ManifestLine(c), plan))
  }

  function Zipped(name: string, bytes: Bytes): ZipEntry { ZipEntry(name, |bytes|, bytes, false, false) }

  function ZippedEntry(): Planned -> ZipEntry { (p: Planned) => Zipped(p.path, p.bytes) }

  /** The manifest first, the checksums file last. */
  function Pack(manifest: Bytes, plan: seq<Planned>, checksums: Bytes): (r: seq<ZipEntry>)
    ensures |r| == |plan| + 2
    ensures r[0] == Zipped(MANIFEST_NAME, manifest) && r[|plan| + 1] == Zipped(CHECKSUMS_NAME, checksums)
    ensures forall i :: 0 <= i < |plan| ==> r[i + 1] == Zipped(plan[i].path, plan[i].bytes)
  {
    [Zipped(MANIFEST_NAME, manifest)] + Apply(ZippedEntry(), plan) + [Zipped(CHECKSUMS_NAME, checksums)]
  }

  /** `build_bundle`. */
  function Archive(c: Codec, k: Contents, investigationId: string, checksums: Bytes): seq<ZipEntry> {
    Pack(c.write(ManifestFor(c, Plan(k), investigationId)), Plan(k), checksums)
  }
}
