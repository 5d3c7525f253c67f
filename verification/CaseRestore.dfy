/** Restoring a case from a bundle (`insert_case` in crates/logscope-app/src/bundle.rs over the
    case tables of crates/logscope-workspace/src/case_meta.rs): rows first, then hypothesis
    states and evidence links under optimistic revisions. */
module CaseRestore {
  import opened Rows
  import opened Sequences

  // ---- data model --------------------------------------------------------------------

  datatype Hypothesis = Hypothesis(id: string, statement: string, rationale: Option<string>, state: string, links: seq<string>, revision: nat)

  datatype Item = Item(id: string, kind: string, content: string, taskStatus: Option<string>, questionStatus: Option<string>, archived: bool)

  datatype Marker = Marker(id: string, kind: string, title: string, at: Option<int>, end: Option<int>, archived: bool)

  datatype EvidenceRow = EvidenceRow(
    id: string, envelopeVersion: int, kind: string, signal: string, title: string, annotation: Option<string>,
    relevance: Option<string>, reference: string, snapshot: string, groupId: Option<string>, archived: bool)

  /** The rows of one investigation, as listed for export and as parsed on import. */
  datatype Case = Case(hypotheses: seq<Hypothesis>, items: seq<Item>, markers: seq<Marker>, evidence: seq<EvidenceRow>)

  const UNVERIFIED := "unverified"

  predicate KnownState(s: string) { s in {"unverified", "supported", "rejected", "confirmed"} }

  predicate BoundsOk(m: Marker) {
    match (m.at, m.end)
    case (None, Some(_)) => false
    case (Some(a), Some(e)) => a < e
    case _ => true
  }

  // ---- what a restored row looks like --------------------------------------------------

  /** A state the importer can read comes back; anything else stays unverified. */
  function RestoredState(state: string): string { if KnownState(state) then state else UNVERIFIED }

  function RestoredHypothesis(): Hypothesis -> Hypothesis {
    (h: Hypothesis) => Hypothesis(h.id, h.statement, h.rationale, RestoredState(h.state), Distinct(h.links),
      1 + (if RestoredState(h.state) != UNVERIFIED then 1 else 0) + |h.links|)
  }

  /** Archived flags and groups are not carried over. */
  function RestoredItem(): Item -> Item { (i: Item) => i.(archived := false) }
  function RestoredMarker(): Marker -> Marker { (m: Marker) => m.(archived := false) }
  function RestoredEvidence(): EvidenceRow -> EvidenceRow { (e: EvidenceRow) => e.(archived := false, groupId := None) }

  function HypothesisId(): Hypothesis -> string { (h: Hypothesis) => h.id }
  function ItemId(): Item -> string { (i: Item) => i.id }
  function MarkerId(): Marker -> string { (m: Marker) => m.id }
  function EvidenceId(): EvidenceRow -> string { (e: EvidenceRow) => e.id }

  predicate UniqueIds(ids: seq<string>) { forall i, j :: 0 <= i < j < |ids| ==> ids[i] != ids[j] }

  predicate LinksInside(c: Case, h: Hypothesis) { forall l :: l in h.links ==> l in Apply(EvidenceId(), c.evidence) }

  /** Exactly what import demands of the rows: fresh ids, sensible marker bounds, and links only
      to evidence the bundle contains. */
  predicate Restorable(c: Case) {
    && UniqueIds(Apply(HypothesisId(), c.hypotheses)) && UniqueIds(Apply(ItemId(), c.items))
    && UniqueIds(Apply(MarkerId(), c.markers)) && UniqueIds(Apply(EvidenceId(), c.evidence))
    && (forall i :: 0 <= i < |c.markers| ==> BoundsOk(c.markers[i]))
    && (forall i :: 0 <= i < |c.hypotheses| ==> LinksInside(c, c.hypotheses[i]))
  }

  function Created(): Hypothesis -> Hypothesis {
    (h: Hypothesis) => Hypothesis(h.id, h.statement, h.rationale, UNVERIFIED, [], 1)
  }

  // ---- the tables ----------------------------------------------------------------------

  class CaseStore {
    var hypotheses: seq<Hypothesis>
    var items: seq<Item>
    var markers: seq<Marker>
    var evidence: seq<EvidenceRow>

    constructor ()
      ensures hypotheses == [] && items == [] && markers == [] && evidence == []
    {
      hypotheses, items, markers, evidence := [], [], [], [];
    }

    /** `create_hypothesis`: unverified, unlinked, at revision one. */
    method CreateHypothesis(h: Hypothesis) returns (ok: bool)
      modifies this`hypotheses
      ensures ok <==> h.id !in Apply(HypothesisId(), old(hypotheses))
      ensures hypotheses == if ok then old(hypotheses) + [Created()(h)] else old(hypotheses)
    {
      ok := h.id !in Apply(HypothesisId(), hypotheses);
      if ok { hypotheses := hypotheses + [Hypothesis(h.id, h.statement, h.rationale, UNVERIFIED, [], 1)]; }
    }

    method CreateItem(i: Item) returns (ok: bool)
      modifies this`items
      ensures ok <==> i.id !in Apply(ItemId(), old(items))
      ensures items == if ok then old(items) + [RestoredItem()(i)] else old(items)
    {
      ok := i.id !in Apply(ItemId(), items);
      if ok { items := items + [i.(archived := false)]; }
    }

    /** `create_marker`, with `check_marker_bounds`. */
    method CreateMarker(m: Marker) returns (ok: bool)
      modifies this`markers
      ensures ok <==> BoundsOk(m) && m.id !in Apply(MarkerId(), old(markers))
      ensures markers == if ok then old(markers) + [RestoredMarker()(m)] else old(markers)
    {
      ok := BoundsOk(m) && m.id !in Apply(MarkerId(), markers);
      if ok { markers := markers + [m.(archived := false)]; }
    }

    method InsertEvidence(e: EvidenceRow) returns (ok: bool)
      modifies this`evidence
      ensures ok <==> e.id !in Apply(EvidenceId(), old(evidence))
      ensures evidence == if ok then old(evidence) + [RestoredEvidence()(e)] else old(evidence)
    {
      ok := e.id !in Apply(EvidenceId(), evidence);
      if ok { evidence := evidence + [e.(archived := false, groupId := None)]; }
    }

    /** The row of a hypothesis, by position. */
    function At(id: string): (i: int)
      reads this`hypotheses
      ensures -1 <= i < |hypotheses| && (i >= 0 ==> hypotheses[i].id == id)
    {
      Position(hypotheses, id)
    }

    /** `set_hypothesis_state`: refused unless the caller knows the stored revision. */
    method SetState(id: string, expected: nat, state: string) returns (revision: Option<nat>)
      modifies this`hypotheses
      ensures var i := old(At(id));
        if i >= 0 && old(hypotheses[i]).revision == expected then
          revision == Some(expected + 1)
          && hypotheses == old(hypotheses)[i := old(hypotheses[i]).(state := state, revision := expected + 1)]
        else revision.None? && hypotheses == old(hypotheses)
    {
      var i := At(id);
      if i < 0 || hypotheses[i].revision != expected { return None; }
      hypotheses := hypotheses[i := hypotheses[i].(state := state, revision := expected + 1)];
      revision := Some(expected + 1);
    }

    /** `link_hypothesis_evidence`: a repeated link is ignored, but the revision still moves. */
    method Link(id: string, expected: nat, evidenceId: string) returns (revision: Option<nat>)
      modifies this`hypotheses
      ensures var i := old(At(id));
        if i >= 0 && old(hypotheses[i]).revision == expected then
          revision == Some(expected + 1)
          && hypotheses == old(hypotheses)[i := Linked(old(hypotheses[i]), evidenceId)]
        else revision.None? && hypotheses == old(hypotheses)
    {
      var i := At(id);
      if i < 0 || hypotheses[i].revision != expected { return None; }
      hypotheses := hypotheses[i := Linked(hypotheses[i], evidenceId)];
      revision := Some(expected + 1);
    }

    // ---- restoring one hypothesis -------------------------------------------------------

    /** A link made with the stored revision is never refused. */
    method LinkAt(i: nat, id: string, revision: nat, evidenceId: string) returns (next: nat)
      requires i < |hypotheses| && UniqueIds(Apply(HypothesisId(), hypotheses))
      requires hypotheses[i].id == id && hypotheses[i].revision == revision
      modifies this`hypotheses
      ensures hypotheses == old(hypotheses)[i := Linked(old(hypotheses)[i], evidenceId)] && next == revision + 1
      ensures UniqueIds(Apply(HypothesisId(), hypotheses))
    {
      PositionIs(hypotheses, i);
      var moved := Link(id, revision, evidenceId);
      SameIds(old(hypotheses), hypotheses, i);
      next := moved.value;
    }

    method StateAt(i: nat, id: string, revision: nat, state: string) returns (next: nat)
      requires i < |hypotheses| && UniqueIds(Apply(HypothesisId(), hypotheses))
      requires hypotheses[i].id == id && hypotheses[i].revision == revision
      modifies this`hypotheses
      ensures hypotheses == old(hypotheses)[i := old(hypotheses)[i].(state := state, revision := revision + 1)]
      ensures next == revision + 1 && UniqueIds(Apply(HypothesisId(), hypotheses))
    {
      PositionIs(hypotheses, i);
      var moved := SetState(id, revision, state);
      SameIds(old(hypotheses), hypotheses, i);
      next := moved.value;
    }

    method RestoreState(i: nat, h: Hypothesis) returns (revision: nat)
      requires i < |hypotheses| && hypotheses[i] == Created()(h) && UniqueIds(Apply(HypothesisId(), hypotheses))
      modifies this`hypotheses
      ensures hypotheses == old(hypotheses)[i := Based(h)] && revision == Based(h).revision
      ensures UniqueIds(Apply(HypothesisId(), hypotheses))
    {
      hide UniqueIds;
      revision := 1;
      if h.state != UNVERIFIED && KnownState(h.state) {
        revision := StateAt(i, h.id, revision, h.state);
      } else {
        assert hypotheses == old(hypotheses)[i := Based(h)];
      }
    }

    /** The restore loop body: the threaded revision always equals the stored one, so no step
        is ever refused as stale. */
    method RestoreHypothesis(i: nat, h: Hypothesis, known: seq<string>) returns (ok: bool)
      requires i < |hypotheses| && hypotheses[i] == Created()(h) && UniqueIds(Apply(HypothesisId(), hypotheses))
      modifies this`hypotheses
      ensures ok <==> forall l :: l in h.links ==> l in known
      ensures ok ==> hypotheses == old(hypotheses)[i := RestoredHypothesis()(h)]
      ensures UniqueIds(Apply(HypothesisId(), hypotheses))
    {
      hide *;
      var revision := RestoreState(i, h);
      ghost var base, before := Based(h), old(hypotheses);
      NotLinkedYet(h, base);
      var j := 0;
      while j < |h.links|
        invariant j <= |h.links| && |hypotheses| == |before| && UniqueIds(Apply(HypothesisId(), hypotheses))
        invariant hypotheses == before[i := WithLinks(base, h.links[..j])]
        invariant hypotheses[i].id == h.id && hypotheses[i].revision == revision
        invariant forall k :: 0 <= k < j ==> h.links[k] in known
      {
        if h.links[j] !in known { return false; }
        OneMoreLink(base, h.links, j);
        revision := LinkAt(i, h.id, revision, h.links[j]);
        j := j + 1;
      }
      AllLinked(h, base);
      ok := true;
    }

    // ---- the whole case -----------------------------------------------------------------

    method InsertHypotheses(rows: seq<Hypothesis>) returns (ok: bool)
      requires hypotheses == []
      modifies this`hypotheses
      ensures ok <==> UniqueIds(Apply(HypothesisId(), rows))
      ensures ok ==> hypotheses == Apply(Created(), rows)
    {
      var i := 0;
      assert rows[..0] == [];
      while i < |rows|
        invariant i <= |rows| && hypotheses == Apply(Created(), rows[..i])
        invariant UniqueIds(Apply(HypothesisId(), rows[..i]))
      {
        assert rows[..i + 1] == rows[..i] + [rows[i]];
        assert Apply(HypothesisId(), hypotheses) == Apply(HypothesisId(), rows[..i]);
        ApplySnoc(HypothesisId(), rows[..i], rows[i]);
        ApplySnoc(Created(), rows[..i], rows[i]);
        UniqueSnoc(Apply(HypothesisId(), rows[..i]), rows[i].id);
        hide UniqueIds;
        var fresh_ := CreateHypothesis(rows[i]);
        if !fresh_ {
          assert Apply(HypothesisId(), rows)[..i + 1] == Apply(HypothesisId(), rows[..i + 1]);
          UniquePrefix(Apply(HypothesisId(), rows), i + 1);
          return false;
        }
        i := i + 1;
      }
      assert rows[..i] == rows;
      ok := true;
    }

    method InsertItems(rows: seq<Item>) returns (ok: bool)
      requires items == []
      modifies this`items
      ensures ok <==> UniqueIds(Apply(ItemId(), rows))
      ensures ok ==> items == Apply(RestoredItem(), rows)
    {
      var i := 0;
      assert rows[..0] == [];
      while i < |rows|
        invariant i <= |rows| && items == Apply(RestoredItem(), rows[..i])
        invariant UniqueIds(Apply(ItemId(), rows[..i]))
      {
        assert rows[..i + 1] == rows[..i] + [rows[i]];
        assert Apply(ItemId(), items) == Apply(ItemId(), rows[..i]);
        ApplySnoc(ItemId(), rows[..i], rows[i]);
        ApplySnoc(RestoredItem(), rows[..i], rows[i]);
        UniqueSnoc(Apply(ItemId(), rows[..i]), rows[i].id);
        hide UniqueIds;
        var fresh_ := CreateItem(rows[i]);
        if !fresh_ {
          assert Apply(ItemId(), rows)[..i + 1] == Apply(ItemId(), rows[..i + 1]);
          UniquePrefix(Apply(ItemId(), rows), i + 1);
          return false;
        }
        i := i + 1;
      }
      assert rows[..i] == rows;
      ok := true;
    }

    method InsertMarkers(rows: seq<Marker>) returns (ok: bool)
      requires markers == []
      modifies this`markers
      ensures ok <==> UniqueIds(Apply(MarkerId(), rows)) && (forall k :: 0 <= k < |rows| ==> BoundsOk(rows[k]))
      ensures ok ==> markers == Apply(RestoredMarker(), rows)
    {
      var i := 0;
      assert rows[..0] == [];
      while i < |rows|
        invariant i <= |rows| && markers == Apply(RestoredMarker(), rows[..i])
        invariant UniqueIds(Apply(MarkerId(), rows[..i])) && (forall k :: 0 <= k < i ==> BoundsOk(rows[k]))
      {
        assert rows[..i + 1] == rows[..i] + [rows[i]];
        assert Apply(MarkerId(), markers) == Apply(MarkerId(), rows[..i]);
        ApplySnoc(MarkerId(), rows[..i], rows[i]);
        ApplySnoc(RestoredMarker(), rows[..i], rows[i]);
        UniqueSnoc(Apply(MarkerId(), rows[..i]), rows[i].id);
        hide UniqueIds;
        var fresh_ := CreateMarker(rows[i]);
        if !fresh_ {
          assert Apply(MarkerId(), rows)[..i + 1] == Apply(MarkerId(), rows[..i + 1]);
          UniquePrefix(Apply(MarkerId(), rows), i + 1);
          return false;
        }
        i := i + 1;
      }
      assert rows[..i] == rows;
      ok := true;
    }

    method InsertAllEvidence(rows: seq<EvidenceRow>) returns (ok: bool)
      requires evidence == []
      modifies this`evidence
      ensures ok <==> UniqueIds(Apply(EvidenceId(), rows))
      ensures ok ==> evidence == Apply(RestoredEvidence(), rows)
    {
      var i := 0;
      assert rows[..0] == [];
      while i < |rows|
        invariant i <= |rows| && evidence == Apply(RestoredEvidence(), rows[..i])
        invariant UniqueIds(Apply(EvidenceId(), rows[..i]))
      {
        assert rows[..i + 1] == rows[..i] + [rows[i]];
        assert Apply(EvidenceId(), evidence) == Apply(EvidenceId(), rows[..i]);
        ApplySnoc(EvidenceId(), rows[..i], rows[i]);
        ApplySnoc(RestoredEvidence(), rows[..i], rows[i]);
        UniqueSnoc(Apply(EvidenceId(), rows[..i]), rows[i].id);
        hide UniqueIds;
        var fresh_ := InsertEvidence(rows[i]);
        if !fresh_ {
          assert Apply(EvidenceId(), rows)[..i + 1] == Apply(EvidenceId(), rows[..i + 1]);
          UniquePrefix(Apply(EvidenceId(), rows), i + 1);
          return false;
        }
        i := i + 1;
      }
      assert rows[..i] == rows;
      ok := true;
    }

    method RestoreAll(rows: seq<Hypothesis>, known: seq<string>) returns (ok: bool)
      requires hypotheses == Apply(Created(), rows) && UniqueIds(Apply(HypothesisId(), rows))
      modifies this`hypotheses
      ensures ok <==> forall i :: 0 <= i < |rows| ==> forall l :: l in rows[i].links ==> l in known
      ensures ok ==> hypotheses == Apply(RestoredHypothesis(), rows)
    {
      assert Apply(HypothesisId(), hypotheses) == Apply(HypothesisId(), rows);
      hide UniqueIds;
      var i := 0;
      while i < |rows|
        invariant i <= |rows| && |hypotheses| == |rows| && UniqueIds(Apply(HypothesisId(), hypotheses))
        invariant forall k :: 0 <= k < i ==> hypotheses[k] == RestoredHypothesis()(rows[k])
        invariant forall k :: i <= k < |rows| ==> hypotheses[k] == Created()(rows[k])
        invariant forall k :: 0 <= k < i ==> forall l :: l in rows[k].links ==> l in known
      {
        hide RestoredHypothesis, Created;
        var good := RestoreHypothesis(i, rows[i], known);
        if !good { return false; }
        i := i + 1;
      }
      ok := true;
    }

    /** `insert_case`: it succeeds exactly on restorable rows, and then the tables hold exactly
        the restored rows, in the bundle's order. (On failure the staging workspace is dropped.) */
    method InsertCase(c: Case) returns (ok: bool)
      requires hypotheses == [] && items == [] && markers == [] && evidence == []
      modifies this
      ensures ok <==> Restorable(c)
      ensures ok ==> hypotheses == Apply(RestoredHypothesis(), c.hypotheses) && items == Apply(RestoredItem(), c.items)
      ensures ok ==> markers == Apply(RestoredMarker(), c.markers) && evidence == Apply(RestoredEvidence(), c.evidence)
    {
      hide UniqueIds;
      ok := InsertHypotheses(c.hypotheses);
      if !ok { return; }
      ok := InsertItems(c.items);
      if !ok { return; }
      ok := InsertMarkers(c.markers);
      if !ok { return; }
      ok := InsertAllEvidence(c.evidence);
      if !ok { return; }
      assert Apply(EvidenceId(), evidence) == Apply(EvidenceId(), c.evidence);
      ok := RestoreAll(c.hypotheses, Apply(EvidenceId(), evidence));
    }
  }

  lemma UniqueSnoc(ids: seq<string>, x: string)
    ensures UniqueIds(ids + [x]) <==> UniqueIds(ids) && x !in ids
  {
    if UniqueIds(ids + [x]) {
      forall i, j | 0 <= i < j < |ids| ensures ids[i] != ids[j] { assert (ids + [x])[i] != (ids + [x])[j]; }
      forall i | 0 <= i < |ids| ensures ids[i] != x { assert (ids + [x])[i] != (ids + [x])[|ids|]; }
    }
  }

  lemma UniquePrefix(ids: seq<string>, n: nat)
    requires n <= |ids|
    ensures UniqueIds(ids) ==> UniqueIds(ids[..n])
  {
  }

  // ---- round trip ------------------------------------------------------------------------

  /** What the tables of a workspace guarantee about any case read from them. */
  ghost predicate Stored(c: Case) {
    && UniqueIds(Apply(HypothesisId(), c.hypotheses)) && UniqueIds(Apply(ItemId(), c.items))
    && UniqueIds(Apply(MarkerId(), c.markers)) && UniqueIds(Apply(EvidenceId(), c.evidence))
    && (forall i :: 0 <= i < |c.markers| ==> BoundsOk(c.markers[i]))
    && (forall i :: 0 <= i < |c.hypotheses| ==> UniqueIds(c.hypotheses[i].links) && KnownState(c.hypotheses[i].state))
  }

  /** What an import asks of the rows of a case: no id twice in a table, markers whose end comes with a
      start before it, and links to evidence of the case. */
  lemma RestorableMeans(c: Case)
    ensures Restorable(c) <==>
      && (forall i, j :: 0 <= i < j < |c.hypotheses| ==> c.hypotheses[i].id != c.hypotheses[j].id)
      && (forall i, j :: 0 <= i < j < |c.items| ==> c.items[i].id != c.items[j].id)
      && (forall i, j :: 0 <= i < j < |c.markers| ==> c.markers[i].id != c.markers[j].id)
      && (forall i, j :: 0 <= i < j < |c.evidence| ==> c.evidence[i].id != c.evidence[j].id)
      && (forall i :: 0 <= i < |c.markers| ==> Bounded(c.markers[i]))
      && (forall i, l :: 0 <= i < |c.hypotheses| && l in c.hypotheses[i].links ==> Collected(c, l))
  {
    IdsDiffer(c);
    forall h ensures LinksInside(c, h) <==> forall l :: l in h.links ==> Collected(c, l) { LinksMean(c, h); }
    hide UniqueIds, LinksInside, Collected, Apply;
  }

  /** A marker without a start has no end, and an end lies behind the start. */
  predicate Bounded(m: Marker) {
    (m.at.None? ==> m.end.None?) && (m.at.Some? && m.end.Some? ==> m.at.value < m.end.value)
  }

  predicate Collected(c: Case, link: string) { exists i :: 0 <= i < |c.evidence| && c.evidence[i].id == link }

  lemma IdsDiffer(c: Case)
    ensures UniqueIds(Apply(HypothesisId(), c.hypotheses)) <==>
      forall i, j :: 0 <= i < j < |c.hypotheses| ==> c.hypotheses[i].id != c.hypotheses[j].id
    ensures UniqueIds(Apply(ItemId(), c.items)) <==> forall i, j :: 0 <= i < j < |c.items| ==> c.items[i].id != c.items[j].id
    ensures UniqueIds(Apply(MarkerId(), c.markers)) <==> forall i, j :: 0 <= i < j < |c.markers| ==> c.markers[i].id != c.markers[j].id
    ensures UniqueIds(Apply(EvidenceId(), c.evidence)) <==> forall i, j :: 0 <= i < j < |c.evidence| ==> c.evidence[i].id != c.evidence[j].id
  {
    TellApart(HypothesisId(), c.hypotheses);
    TellApart(ItemId(), c.items);
    TellApart(MarkerId(), c.markers);
    TellApart(EvidenceId(), c.evidence);
    hide UniqueIds, Apply;
  }

  lemma TellApart<T>(id: T -> string, rows: seq<T>)
    ensures UniqueIds(Apply(id, rows)) <==> forall i, j :: 0 <= i < j < |rows| ==> id(rows[i]) != id(rows[j])
  {
    var ids := Apply(id, rows);
    if UniqueIds(ids) {
      forall i, j | 0 <= i < j < |rows| ensures id(rows[i]) != id(rows[j]) { assert ids[i] != ids[j]; }
    }
  }

  lemma LinksMean(c: Case, h: Hypothesis)
    ensures LinksInside(c, h) <==> forall l :: l in h.links ==> Collected(c, l)
  {
    var ids := Apply(EvidenceId(), c.evidence);
    forall l ensures l in ids <==> Collected(c, l) {
      if l in ids { var i :| 0 <= i < |ids| && ids[i] == l; assert c.evidence[i].id == l; }
      if i :| 0 <= i < |c.evidence| && c.evidence[i].id == l { assert ids[i] == l; }
    }
    hide Collected;
  }

  lemma {:induction false} DistinctIdentity(s: seq<string>)
    requires UniqueIds(s)
    ensures Distinct(s) == s
  {
    if s != [] {
      DistinctIdentity(s[..|s|-1]);
      assert s == s[..|s|-1] + [s[|s|-1]];
    }
  }

  /** A stored hypothesis comes back with its statement, rationale, state and links, in order. */
  lemma HypothesisComesBack(h: Hypothesis)
    requires UniqueIds(h.links) && KnownState(h.state)
    ensures RestoredHypothesis()(h) == h.(revision := RestoredHypothesis()(h).revision)
  {
    DistinctIdentity(h.links);
  }

  /** A case read from a workspace imports if and only if every hypothesis links evidence of
      the same case. The store allows links across investigations; such a case exports without
      complaint and is refused on import. */
  lemma ImportsIffSelfContained(c: Case)
    requires Stored(c)
    ensures Restorable(c) <==> forall i :: 0 <= i < |c.hypotheses| ==> LinksInside(c, c.hypotheses[i])
    ensures forall i :: 0 <= i < |c.hypotheses| ==>
      RestoredHypothesis()(c.hypotheses[i]) == c.hypotheses[i].(revision := RestoredHypothesis()(c.hypotheses[i]).revision)
  {
    hide RestoredHypothesis, UniqueIds;
    forall i | 0 <= i < |c.hypotheses|
      ensures RestoredHypothesis()(c.hypotheses[i]) == c.hypotheses[i].(revision := RestoredHypothesis()(c.hypotheses[i]).revision)
    {
      HypothesisComesBack(c.hypotheses[i]);
    }
  }

  /** A link to another investigation's evidence: stored, exported, refused. */
  lemma ForeignLinkIsRefused()
    ensures var c := Case([Hypothesis("h", "s", None, "supported", ["ev-elsewhere"], 2)], [], [], []);
      Stored(c) && !Restorable(c)
  {
    var c := Case([Hypothesis("h", "s", None, "supported", ["ev-elsewhere"], 2)], [], [], []);
    assert "ev-elsewhere" in c.hypotheses[0].links;
    assert !LinksInside(c, c.hypotheses[0]);
  }

  /** A row once its state is restored, before any link. */
  function Based(h: Hypothesis): (r: Hypothesis)
    ensures r.id == h.id && r.links == []
  {
    Hypothesis(h.id, h.statement, h.rationale, RestoredState(h.state), [],
      1 + if RestoredState(h.state) != UNVERIFIED then 1 else 0)
  }

  /** A row after its first links: a repeated link moves the revision only. */
  function WithLinks(base: Hypothesis, links: seq<string>): Hypothesis {
    base.(links := Distinct(links), revision := base.revision + |links|)
  }

  lemma OneMoreLink(base: Hypothesis, links: seq<string>, j: nat)
    requires j < |links|
    ensures WithLinks(base, links[..j + 1]) == Linked(WithLinks(base, links[..j]), links[j])
    ensures WithLinks(base, links[..j + 1]).id == base.id && WithLinks(base, links[..j + 1]).revision == WithLinks(base, links[..j]).revision + 1
  {
    DistinctSnoc(links[..j], links[j]);
    assert links[..j + 1] == links[..j] + [links[j]];
  }

  lemma NotLinkedYet(h: Hypothesis, base: Hypothesis)
    requires base.links == []
    ensures WithLinks(base, h.links[..0]) == base
  {
  }

  lemma AllLinked(h: Hypothesis, base: Hypothesis)
    requires base == Based(h)
    ensures WithLinks(base, h.links[..|h.links|]) == RestoredHypothesis()(h)
  {
    assert h.links[..|h.links|] == h.links;
  }

  function Linked(h: Hypothesis, evidenceId: string): Hypothesis {
    h.(links := if evidenceId in h.links then h.links else h.links + [evidenceId], revision := h.revision + 1)
  }

  function Position(rows: seq<Hypothesis>, id: string): (i: int)
    ensures -1 <= i < |rows| && (i >= 0 ==> rows[i].id == id)
  {
    if rows == [] then -1
    else if rows[|rows|-1].id == id then |rows| - 1
    else Position(rows[..|rows|-1], id)
  }

  lemma {:induction false} PositionIs(rows: seq<Hypothesis>, i: nat)
    requires i < |rows| && UniqueIds(Apply(HypothesisId(), rows))
    ensures Position(rows, rows[i].id) == i
  {
    if i < |rows| - 1 {
      var ids := Apply(HypothesisId(), rows);
      assert ids[i] != ids[|rows|-1];
      var front := rows[..|rows|-1];
      forall a, b | 0 <= a < b < |front| ensures Apply(HypothesisId(), front)[a] != Apply(HypothesisId(), front)[b] {
        assert ids[a] != ids[b];
      }
      PositionIs(front, i);
    }
  }

  lemma SameIds(before: seq<Hypothesis>, after: seq<Hypothesis>, i: nat)
    requires i < |before| && |after| == |before| && after == before[i := after[i]] && after[i].id == before[i].id
    ensures Apply(HypothesisId(), after) == Apply(HypothesisId(), before)
  {
  }
}
