/** The full-text index lifecycle: import tail (crates/logscope-app/src/import.rs), rebuild and
    readiness (crates/logscope-app/src/explorer.rs), index file (crates/logscope-store/src/fts.rs).

    Every durable write is followed by a `Tick`, where the process may stop for good: a crash,
    a cancelled checkpoint or a failed call. A contract about every exit is therefore a contract
    about every intermediate state a crash or a concurrent reader can see. */
module TextIndex {
  import opened Ordering
  import opened Sequences
  import opened Sorting

  const CURRENT: nat := 2

  datatype Status = Pending | Building | Ready
  datatype IndexRow = IndexRow(version: nat, status: Status)

  const READY := IndexRow(CURRENT, Ready)

  datatype Operation = Import(datasetId: string, segments: seq<string>) | Rebuild | Query(selection: seq<string>)

  type Segments = map<string, seq<string>>
  type States = map<string, IndexRow>

  predicate Marked(states: States, d: string) { d in states && states[d] == READY }

  predicate Covered(published: Segments, indexed: set<string>, d: string) {
    d in published ==> forall s :: s in published[d] ==> s in indexed
  }

  /** A dataset marked ready at the current version really is in a current index file. */
  ghost predicate Consistent(published: Segments, states: States, table: bool, version: nat, indexed: set<string>) {
    && (forall d :: Marked(states, d) ==> table && version >= CURRENT && Covered(published, indexed, d))
    && (!table ==> indexed == {})
  }

  lemma RowSet(published: Segments, was: States, now: States, table: bool, version: nat, indexed: set<string>, d: string, row: IndexRow)
    requires Consistent(published, was, table, version, indexed) && now == was[d := row]
    requires row == READY ==> table && version >= CURRENT && Covered(published, indexed, d)
    ensures Consistent(published, now, table, version, indexed)
  {
    hide Covered;
    forall e | Marked(now, e) ensures table && version >= CURRENT && Covered(published, indexed, e) {
      assert e != d ==> Marked(was, e);
    }
  }

  ghost predicate NoneMarked(states: States) { forall d :: !Marked(states, d) }

  lemma StillUnmarked(was: States, now: States, d: string, row: IndexRow)
    requires NoneMarked(was) && now == was[d := row] && row != READY
    ensures NoneMarked(now)
  {
    forall e ensures !Marked(now, e) { assert !Marked(was, e); }
  }

  class Workspace {
    /** Published log datasets and their immutable segments. */
    var published: Segments
    /** The `fts` rows of `index_state`. */
    var states: States
    /** The index file: whether its table exists, its `user_version`, the segments in it. */
    var table: bool
    var version: nat
    var indexed: set<string>
    /** Durable writes so far, and after which of them the process stops. */
    var writes: nat
    const stops: nat -> bool

    constructor (stops: nat -> bool, table: bool, version: nat, published: Segments, states: States)
      requires forall d :: d in states ==> states[d] != READY
      ensures Safe() && this.stops == stops && this.published == published && this.states == states
      ensures this.table == table && this.version == version && writes == 0
    {
      this.stops, this.table, this.version := stops, table, version;
      this.published, this.states, this.indexed, this.writes := published, states, {}, 0;
    }

    predicate IsReady(d: string)
      reads this
    {
      Marked(states, d)
    }

    predicate FileCurrent()
      reads this
    {
      table && version >= CURRENT
    }

    ghost predicate Safe()
      reads this
    {
      Consistent(published, states, table, version, indexed)
    }

    ghost predicate Uninterrupted()
      reads this
    {
      forall n: nat :: !stops(n)
    }

    method Tick() returns (stopped: bool)
      modifies this`writes
      ensures writes == old(writes) + 1 && stopped == stops(writes)
    {
      writes := writes + 1;
      stopped := stops(writes);
    }

    // ---- the index file ---------------------------------------------------------------

    /** `FtsIndex::open`: a file without the table gets one, then the current version. */
    method Open() returns (stopped: bool)
      requires Safe()
      modifies this
      ensures Safe() && published == old(published) && states == old(states)
      ensures old(table) ==> version == old(version) && indexed == old(indexed)
      ensures !stopped ==> table && (!old(table) ==> version == CURRENT)
      ensures Uninterrupted() ==> !stopped
    {
      stopped := false;
      if !table {
        table, indexed := true, {};
        stopped := Tick();
        if stopped { return; }
        version := CURRENT;
        stopped := Tick();
      }
    }

    /** `reset_to_current_version`: drop, re-create, stamp; each its own write. */
    method Reset() returns (stopped: bool)
      requires Safe() && version < CURRENT
      modifies this
      ensures Safe() && published == old(published) && states == old(states)
      ensures NoneMarked(states)
      ensures !stopped ==> table && version == CURRENT && indexed == {}
      ensures Uninterrupted() ==> !stopped
    {
      table, indexed := false, {};
      stopped := Tick();
      if stopped { return; }
      table := true;
      stopped := Tick();
      if stopped { return; }
      version := CURRENT;
      stopped := Tick();
    }

    /** The drop inside a reset, with no other job under way: the state right behind it is safe
        exactly when no dataset is ready. What rebuilds that overlap may do is said in
        `IndexRaces`. */
    method DropTable()
      requires Safe()
      modifies this`table, this`indexed
      ensures Safe() <==> forall d :: !IsReady(d)
    {
      table, indexed := false, {};
      assert Safe() ==> forall d :: IsReady(d) ==> Marked(states, d) && table;
      assert (forall d :: !IsReady(d)) ==> forall d :: Marked(states, d) ==> IsReady(d);
    }

    /** `index_segment_into_fts`: one transaction, idempotent. */
    method IndexSegment(segment: string) returns (stopped: bool)
      requires Safe() && table
      modifies this`indexed, this`writes
      ensures Safe() && indexed == old(indexed) + {segment}
      ensures Uninterrupted() ==> !stopped
    {
      indexed := indexed + {segment};
      stopped := Tick();
    }

    method SetState(d: string, row: IndexRow) returns (stopped: bool)
      requires Safe() && (row == READY ==> FileCurrent() && Covered(published, indexed, d))
      modifies this`states, this`writes
      ensures Safe() && states == old(states)[d := row]
      ensures Uninterrupted() ==> !stopped
    {
      RowSet(published, states, states[d := row], table, version, indexed, d, row);
      hide Consistent;
      states := states[d := row];
      stopped := Tick();
    }

    /** Indexes the segments of one dataset, one write each. */
    method IndexAll(segments: seq<string>) returns (stopped: bool)
      requires Safe() && table
      modifies this`indexed, this`writes
      ensures Safe() && old(indexed) <= indexed
      ensures !stopped ==> forall s :: s in segments ==> s in indexed
      ensures Uninterrupted() ==> !stopped
    {
      var i := 0;
      stopped := false;
      while i < |segments|
        invariant i <= |segments| && Safe() && old(indexed) <= indexed && !stopped
        invariant forall s :: s in segments[..i] ==> s in indexed
      {
        stopped := IndexSegment(segments[i]);
        if stopped { return; }
        i := i + 1;
      }
    }

    // ---- jobs -------------------------------------------------------------------------

    /** The tail of an import, from publication on. An import that stops between publishing
        and writing its row leaves a dataset no row speaks of. */
    method Import(d: string, segments: seq<string>) returns (stopped: bool)
      requires Safe() && d !in published && d !in states
      modifies this
      ensures Safe()
      ensures published == old(published) || published == old(published)[d := segments]
      ensures forall e :: e != d ==> (e in states <==> e in old(states)) && (e in states ==> states[e] == old(states)[e])
      ensures stops(old(writes) + 1) ==> stopped && published == old(published)[d := segments] && states == old(states)
      ensures stops(old(writes) + 1) ==> table == old(table) && version == old(version)
      ensures d in states ==> states[d] == if FileCurrent() then IndexRow(2, Ready) else IndexRow(1, Pending)
      ensures !stopped ==> published == old(published)[d := segments] && d in states
      ensures Uninterrupted() ==> !stopped
    {
      published := published[d := segments];
      stopped := Tick();
      if stopped { return; }
      stopped := Open();
      if stopped { return; }
      stopped := IndexAll(segments);
      if stopped { return; }
      stopped := SetState(d, if version >= CURRENT then READY else IndexRow(1, Pending));
    }

    /** Marks every published dataset pending, after a reset emptied the index. */
    method MarkPending(ids: seq<string>) returns (stopped: bool)
      requires Safe() && NoneMarked(states)
      modifies this`states, this`writes
      ensures Safe() && NoneMarked(states)
      ensures old(states.Keys) <= states.Keys <= old(states.Keys) + set d | d in ids
      ensures forall d :: d in states ==> states[d] == IndexRow(2, Pending) || (d in old(states) && states[d] == old(states)[d])
      ensures !stopped ==> forall d :: d in ids ==> d in states && states[d] == IndexRow(2, Pending)
      ensures Uninterrupted() ==> !stopped
    {
      var i := 0;
      stopped := false;
      while i < |ids|
        invariant i <= |ids| && Safe() && !stopped && NoneMarked(states)
        invariant forall d :: d in states ==> states[d] == IndexRow(2, Pending) || (d in old(states) && states[d] == old(states)[d])
        invariant old(states.Keys) <= states.Keys <= old(states.Keys) + set d | d in ids
        invariant forall d :: d in ids[..i] ==> d in states && states[d] == IndexRow(2, Pending)
      {
        hide Consistent, NoneMarked;
        assert IndexRow(CURRENT, Pending) != READY && ids[i] in ids;
        StillUnmarked(states, states[ids[i] := IndexRow(CURRENT, Pending)], ids[i], IndexRow(CURRENT, Pending));
        stopped := SetState(ids[i], IndexRow(CURRENT, Pending));
        if stopped { return; }
        i := i + 1;
      }
    }

    /** One dataset of the rebuild: building, its segments, ready. */
    method RebuildDataset(d: string) returns (stopped: bool)
      requires Safe() && FileCurrent() && d in states && !IsReady(d)
      modifies this`states, this`indexed, this`writes
      ensures Safe() && FileCurrent() && states.Keys == old(states.Keys)
      ensures forall e :: e in states && e != d ==> states[e] == old(states)[e]
      ensures !stopped ==> IsReady(d)
      ensures Uninterrupted() ==> !stopped
    {
      stopped := SetState(d, IndexRow(CURRENT, Building));
      if stopped { return; }
      stopped := IndexAll(if d in published then published[d] else []);
      if stopped { return; }
      stopped := SetState(d, READY);
    }

    /** `rebuild_fts_to_current`. Stopped anywhere, it leaves a safe workspace that lost no
        ready dataset; run to the end, every dataset with an index row is ready. */
    method Rebuild() returns (stopped: bool)
      requires Safe()
      modifies this
      ensures Safe() && published == old(published)
      ensures forall d :: old(IsReady(d)) ==> IsReady(d)
      ensures !stopped ==> FileCurrent() && forall d :: d in states ==> IsReady(d)
      ensures !stopped ==> states.Keys == old(states.Keys) + if old(table && version < CURRENT) then published.Keys else {}
      ensures Uninterrupted() ==> !stopped
    {
      hide Consistent;
      stopped := Open();
      if stopped { return; }
      if version < CURRENT {
        stopped := Reset();
        if stopped { return; }
        hide Ascends;
        var ids := NamesOf(published.Keys);
        assert (set d | d in ids) == published.Keys;
        stopped := MarkPending(ids);
        if stopped { return; }
      }
      stopped := RebuildRows();
    }

    /** The rebuild loop, over the rows as they were read once at its start. */
    method RebuildRows() returns (stopped: bool)
      requires Safe() && FileCurrent()
      modifies this`states, this`indexed, this`writes
      ensures Safe() && FileCurrent() && states.Keys == old(states.Keys)
      ensures forall d :: old(IsReady(d)) ==> IsReady(d)
      ensures !stopped ==> forall d :: d in states ==> IsReady(d)
      ensures Uninterrupted() ==> !stopped
    {
      var rows := states;
      hide Consistent, Ascends;
      var ids := NamesOf(rows.Keys);
      stopped := false;
      var i := 0;
      while i < |ids|
        invariant i <= |ids| && Safe() && FileCurrent() && states.Keys == rows.Keys && !stopped
        invariant forall d :: Marked(rows, d) ==> Marked(states, d)
        invariant forall j :: 0 <= j < i ==> Marked(states, ids[j])
        invariant forall j :: i <= j < |ids| ==> states[ids[j]] == rows[ids[j]]
      {
        var d := ids[i];
        if rows[d] != READY {
          stopped := RebuildDataset(d);
          if stopped { return; }
        }
        i := i + 1;
      }
      assert forall d :: d in states ==> d in ids;
    }

    /** `fts_ready`: true exactly when the selection may be searched through the index. */
    method FtsReady(selection: seq<string>) returns (ready: bool, stopped: bool)
      requires Safe()
      modifies this
      ensures Safe() && published == old(published) && states == old(states)
      ensures ready ==> FileCurrent() && forall d :: d in selection ==> Covered(published, indexed, d)
      ensures !stopped ==> (ready <==> (forall d :: d in selection ==> IsReady(d)) && FileCurrent())
      ensures stopped ==> !ready
    {
      ready, stopped := false, false;
      if exists d :: d in selection && !IsReady(d) { return; }
      stopped := Open();
      ready := !stopped && version >= CURRENT;
    }

    /** Any run of imports, rebuilds and queries, one after another, each stopped wherever the
        process stops. */
    method Run(operations: seq<Operation>)
      requires Safe()
      modifies this
      ensures Safe()
    {
      var i := 0;
      while i < |operations|
        invariant i <= |operations| && Safe()
      {
        match operations[i] {
          case Import(d, segments) =>
            if d !in published && d !in states { var _ := Import(d, segments); }
          case Rebuild => var _ := Rebuild();
          case Query(selection) => var _, _ := FtsReady(selection);
        }
        i := i + 1;
      }
    }
  }

  /** An import that stops right after publishing leaves a dataset no row speaks of. After a
      restart a rebuild runs to its end, the file is current, and the dataset is still not
      ready. */
  method OrphanStays() returns (workspace: Workspace, stopped: bool)
    ensures fresh(workspace) && workspace.Safe() && !stopped
    ensures workspace.FileCurrent() && "d" in workspace.published && !workspace.IsReady("d")
  {
    var importing := new Workspace((n: nat) => n == 1, true, CURRENT, map[], map[]);
    stopped := importing.Import("d", ["s"]);
    workspace := new Workspace((n: nat) => false, importing.table, importing.version, importing.published, importing.states);
    stopped := workspace.Rebuild();
  }
}
