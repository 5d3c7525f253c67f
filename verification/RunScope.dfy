/** The scope of an analysis run (crates/logscope-app/src/analysis.rs and the dataset
    selection of crates/logscope-app/src/explorer.rs): what is frozen, what is re-checked, and
    what execution and drill-down actually read. */
module RunScope {
  import opened Ordering
  import opened Rows
  import opened Sequences
  import opened Sorting

  /** `revisions` lists every stored dataset; `published` those whose logs can be queried. */
  datatype Catalog = Catalog(published: seq<string>, revisions: map<string, string>) {
    predicate Consistent() { forall d :: d in published ==> d in revisions }
  }

  datatype Revision = Revision(datasetId: string, revision: string)

  datatype Frozen = Frozen(revisions: seq<Revision>, definitionRevision: nat)

  datatype Definition = Definition(datasetIds: seq<string>, revision: nat)

  /** An empty request means everything published; otherwise each id must be published. */
  function Selection(c: Catalog, requested: seq<string>): Option<seq<string>> {
    if requested == [] then Some(c.published)
    else if forall d :: d in requested ==> d in c.published then Some(Distinct(requested))
    else None
  }

  method ResolveSelection(c: Catalog, requested: seq<string>) returns (selected: Option<seq<string>>)
    ensures selected == Selection(c, requested)
  {
    if requested == [] { return Some(c.published); }
    var chosen: seq<string> := [];
    var i := 0;
    assert requested[..0] == [];
    while i < |requested|
      invariant i <= |requested| && chosen == Distinct(requested[..i])
      invariant forall d :: d in requested[..i] ==> d in c.published
    {
      if requested[i] !in c.published { return None; }
      DistinctSnoc(requested[..i], requested[i]);
      assert requested[..i + 1] == requested[..i] + [requested[i]];
      if requested[i] !in chosen { chosen := chosen + [requested[i]]; }
      i := i + 1;
    }
    assert requested[..i] == requested;
    selected := Some(chosen);
  }

  function RevisionIn(c: Catalog): string -> Revision {
    (d: string) => Revision(d, if d in c.revisions then c.revisions[d] else "")
  }

  predicate RevisionAtMost(a: Revision, b: Revision) {
    Below(a.datasetId, b.datasetId) || (a.datasetId == b.datasetId && AtMost(a.revision, b.revision))
  }

  function ByRevision(): (Revision, Revision) -> bool { (a: Revision, b: Revision) => RevisionAtMost(a, b) }

  /** `freeze_and_start`: the selected datasets at their current revisions, sorted. */
  function Freeze(c: Catalog, def: Definition): Option<Frozen> {
    match Selection(c, def.datasetIds)
    case None => None
    case Some(selected) =>
      if selected == [] then None
      else Some(Frozen(SortBy(ByRevision(), Apply(RevisionIn(c), selected)), def.revision))
  }

  /** Every recorded dataset still exists at its recorded revision, and the definition is the
      one that was frozen. */
  predicate Current(c: Catalog, def: Definition, run: Frozen) {
    && (forall r :: r in run.revisions ==> r.datasetId in c.revisions && c.revisions[r.datasetId] == r.revision)
    && def.revision == run.definitionRevision
  }

  /** The dataset is gone, or at another revision than recorded. */
  predicate Moved(c: Catalog, r: Revision) { r.datasetId !in c.revisions || c.revisions[r.datasetId] != r.revision }

  method CheckRunCurrent(c: Catalog, def: Definition, run: Frozen) returns (reason: Option<string>)
    ensures reason.None? <==> Current(c, def, run)
    ensures def.revision != run.definitionRevision ==> reason.Some?
    ensures (exists r :: r in run.revisions && Moved(c, r)) ==> reason.Some?
    ensures def.revision == run.definitionRevision && (forall r :: r in run.revisions ==> !Moved(c, r)) ==> reason.None?
  {
    var i := 0;
    while i < |run.revisions|
      invariant i <= |run.revisions|
      invariant forall j :: 0 <= j < i ==>
        run.revisions[j].datasetId in c.revisions && c.revisions[run.revisions[j].datasetId] == run.revisions[j].revision
    {
      var r := run.revisions[i];
      assert r in run.revisions;
      if r.datasetId !in c.revisions { return Some("no longer resolvable"); }
      if c.revisions[r.datasetId] != r.revision { return Some("moved"); }
      i := i + 1;
    }
    if def.revision != run.definitionRevision { return Some("definition revised"); }
    reason := None;
  }

  /** What a selection is: everything published, or the requested ids once each in the order asked,
      or nothing when one of them is not published. */
  lemma SelectionMeans(c: Catalog, requested: seq<string>)
    ensures var s := Selection(c, requested);
      && (requested == [] ==> s == Some(c.published))
      && (requested != [] ==> (s.None? <==> exists d :: d in requested && d !in c.published))
      && (requested != [] && s.Some? ==> forall d :: d in s.value <==> d in requested)
      && (requested != [] && s.Some? ==> forall i, j :: 0 <= i < j < |s.value| ==> s.value[i] != s.value[j])
  {
    hide Distinct;
  }

  /** What a run freezes: its definition's revision, and each selected dataset with the revision it
      has, listed by dataset id; nothing is started on an empty selection. */
  lemma FreezeMeans(c: Catalog, def: Definition, run: Frozen)
    requires c.Consistent() && Freeze(c, def) == Some(run)
    ensures run.definitionRevision == def.revision && run.revisions != []
    ensures forall d :: d in Selection(c, def.datasetIds).value <==> exists r :: r in run.revisions && r.datasetId == d
    ensures forall r :: r in run.revisions ==> !Moved(c, r)
    ensures forall i, j :: 0 <= i < j < |run.revisions| ==> AtMost(run.revisions[i].datasetId, run.revisions[j].datasetId)
    ensures Current(c, def, run)
  {
    FreezeMembers(c, def, run);
    FreezeOrder(c, def, run);
    hide SortBy, AtMost, Distinct, Selection;
  }

  lemma FreezeMembers(c: Catalog, def: Definition, run: Frozen)
    requires c.Consistent() && Freeze(c, def) == Some(run)
    ensures run.revisions != []
    ensures forall d :: d in Selection(c, def.datasetIds).value <==> exists r :: r in run.revisions && r.datasetId == d
    ensures forall r :: r in run.revisions ==> !Moved(c, r)
  {
    var selected := Selection(c, def.datasetIds).value;
    var listed := Apply(RevisionIn(c), selected);
    SelectionMeans(c, def.datasetIds);
    forall r ensures r in run.revisions <==> r in listed { SortMembers(ByRevision(), listed, r); }
    SelectedAreKnown(c, def.datasetIds);
    hide SortBy, AtMost, Distinct, Selection;
    forall d | d in selected ensures exists r :: r in run.revisions && r.datasetId == d {
      var i :| 0 <= i < |selected| && selected[i] == d;
      assert listed[i].datasetId == d && listed[i] in listed;
    }
  }

  lemma SelectedAreKnown(c: Catalog, requested: seq<string>)
    requires c.Consistent() && Selection(c, requested).Some?
    ensures forall d :: d in Selection(c, requested).value ==> d in c.revisions
  {
    hide Distinct;
  }

  lemma FreezeOrder(c: Catalog, def: Definition, run: Frozen)
    requires Freeze(c, def) == Some(run)
    ensures forall i, j :: 0 <= i < j < |run.revisions| ==> AtMost(run.revisions[i].datasetId, run.revisions[j].datasetId)
  {
    ByRevisionIsOrder();
    SortSorts(ByRevision(), Apply(RevisionIn(c), Selection(c, def.datasetIds).value));
    hide SortBy, AtMost, Selection, Apply;
    forall i, j | 0 <= i < j < |run.revisions| ensures AtMost(run.revisions[i].datasetId, run.revisions[j].datasetId) {
      assert ByRevision()(run.revisions[i], run.revisions[j]);
      AtMostTotal(run.revisions[i].datasetId, run.revisions[j].datasetId);
      AtMostTotal(run.revisions[i].datasetId, run.revisions[i].datasetId);
    }
  }

  lemma ByRevisionIsOrder()
    ensures TotalPreorder(ByRevision())
  {
    hide AtMost;
    forall a: Revision, b: Revision, c: Revision
      ensures (RevisionAtMost(a, b) || RevisionAtMost(b, a)) && (RevisionAtMost(a, b) && RevisionAtMost(b, c) ==> RevisionAtMost(a, c))
    {
      RevisionsCompare(a, b, c);
    }
  }

  lemma RevisionsCompare(a: Revision, b: Revision, c: Revision)
    ensures RevisionAtMost(a, b) || RevisionAtMost(b, a)
    ensures RevisionAtMost(a, b) && RevisionAtMost(b, c) ==> RevisionAtMost(a, c)
  {
    ByNameIsOrder();
    hide AtMost;
    assert forall x: string, y: string :: ByName()(x, y) == AtMost(x, y);
    assert ByName()(a.datasetId, b.datasetId) || ByName()(b.datasetId, a.datasetId);
    assert ByName()(b.datasetId, c.datasetId) || ByName()(c.datasetId, b.datasetId);
    assert ByName()(a.datasetId, c.datasetId) || ByName()(c.datasetId, a.datasetId);
    assert ByName()(a.revision, b.revision) || ByName()(b.revision, a.revision);
  }

  // ---- what is read -------------------------------------------------------------------

  /** The datasets execution and drill-down stream, with the revisions they then have. */
  function Scope(c: Catalog, selected: seq<string>): set<Revision> {
    set d | d in selected :: RevisionIn(c)(d)
  }

  function FrozenScope(run: Frozen): set<Revision> { set r | r in run.revisions }

  lemma FrozenIsScope(c: Catalog, def: Definition, run: Frozen)
    requires Freeze(c, def) == Some(run)
    ensures FrozenScope(run) == Scope(c, Selection(c, def.datasetIds).value)
  {
    var selected := Selection(c, def.datasetIds).value;
    var listed := Apply(RevisionIn(c), selected);
    forall r ensures r in run.revisions <==> r in listed { SortMembers(ByRevision(), listed, r); }
    forall r ensures r in listed <==> r in Scope(c, selected) {
      if r in Scope(c, selected) {
        var d :| d in selected && RevisionIn(c)(d) == r;
        var i :| 0 <= i < |selected| && selected[i] == d;
        assert listed[i] == r;
      }
    }
  }

  /** Drill-down reads what the run froze if and only if the datasets were listed explicitly or
      the published set is again the frozen one. The currency check alone cannot tell: it looks
      only at the datasets the run recorded, while an empty request resolves to everything
      published at the time of reading. */
  lemma ReadsFrozenScope(then_: Catalog, now: Catalog, def: Definition, run: Frozen)
    requires then_.Consistent() && now.Consistent()
    requires Freeze(then_, def) == Some(run) && Current(now, def, run)
    requires Selection(now, def.datasetIds).Some?
    ensures Scope(now, Selection(now, def.datasetIds).value) == FrozenScope(run)
      <==> (def.datasetIds != [] || (set d | d in now.published) == (set r | r in run.revisions :: r.datasetId))
  {
    FrozenIsScope(then_, def, run);
    var before, after := Selection(then_, def.datasetIds).value, Selection(now, def.datasetIds).value;
    forall d | d in before ensures RevisionIn(now)(d) == RevisionIn(then_)(d) {
      assert RevisionIn(then_)(d) in FrozenScope(run);
    }
    var frozen := set r | r in run.revisions :: r.datasetId;
    assert forall d :: d in frozen <==> d in before by {
      forall d ensures d in frozen <==> d in before {
        if d in before { assert RevisionIn(then_)(d) in FrozenScope(run); }
        if d in frozen {
          var r :| r in run.revisions && r.datasetId == d;
          assert r in FrozenScope(run);
        }
      }
    }
    if def.datasetIds != [] {
      assert after == before;
    } else {
      SameDatasets(now, after, before);
    }
  }

  /** With the same revisions, two selections read the same rows exactly when they name the
      same datasets. */
  lemma SameDatasets(c: Catalog, a: seq<string>, b: seq<string>)
    ensures Scope(c, a) == Scope(c, b) <==> (forall d :: d in a <==> d in b)
  {
    if Scope(c, a) == Scope(c, b) {
      forall d ensures d in a <==> d in b {
        if d in a { assert RevisionIn(c)(d) in Scope(c, b); }
        if d in b { assert RevisionIn(c)(d) in Scope(c, a); }
      }
    }
  }

  /** One dataset published after the freeze: the run still counts as current, yet reading it
      again takes the new dataset in. */
  lemma NewDatasetGoesUnnoticed()
    ensures var then_, now := Catalog(["a"], map["a" := "r1"]), Catalog(["a", "b"], map["a" := "r1", "b" := "r2"]);
      var def := Definition([], 1);
      var run := Frozen([Revision("a", "r1")], 1);
      && Freeze(then_, def) == Some(run) && Current(now, def, run)
      && Revision("b", "r2") in Scope(now, Selection(now, def.datasetIds).value)
      && Revision("b", "r2") !in FrozenScope(run)
  {
    var then_, now := Catalog(["a"], map["a" := "r1"]), Catalog(["a", "b"], map["a" := "r1", "b" := "r2"]);
    var s := [Revision("a", "r1")];
    assert "a" != "b" by { assert "a"[0] != "b"[0]; }
    SortIdentity(ByRevision(), s);
    hide SortBy, AtMost, Distinct, RevisionAtMost;
    assert Apply(RevisionIn(then_), ["a"]) == s;
    assert Freeze(then_, Definition([], 1)) == Some(Frozen(s, 1));
    var selected := Selection(now, []).value;
    assert selected == ["a", "b"] && selected[1] == "b";
    assert RevisionIn(now)("b") == Revision("b", "r2");
    assert RevisionIn(now)("b") in Scope(now, selected);
  }
}
