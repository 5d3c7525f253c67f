/** The two-phase analysis run (crates/logscope-app/src/analysis.rs, the tail of `execute` in
    crates/logscope-app/src/correlation.rs, and the run table of crates/logscope-workspace).

    Every durable write takes a step whose fate is decided from outside: it goes through, it
    fails with an error, or the process is gone. */
module AnalysisRuns {
  import opened Ordering
  import opened Rows
  import opened Sequences
  import opened Sorting

  datatype State = Pending | Running | Completed | Cancelled | Failed | Stale

  /** File name to content hash. */
  type Manifest = map<string, string>

  datatype RunRow = RunRow(state: State, manifest: Option<Manifest>, error: bool, staleReason: Option<string>)

  datatype Artifact = Artifact(file: string, sha: string)

  datatype Fate = Through | Refused | Gone

  /** What the computation produced: the bytes of each result file, or why there are none. */
  datatype Execution = Produces(outputs: seq<(string, string)>) | Errs | IsCancelled

  /** `Unrecorded`: the process died, or the store refused the write that would have ended the run. */
  datatype Ending = Ended(state: State) | Unrecorded

  predicate Unfinished(row: RunRow) { row.state.Pending? || row.state.Running? }

  predicate IsTerminal(state: State) { state.Completed? || state.Cancelled? || state.Failed? }

  /** What recovery makes of a row. */
  function Interrupted(row: RunRow): RunRow {
    if Unfinished(row) then RunRow(Failed, None, true, row.staleReason) else row
  }

  lemma InterruptedMeans(row: RunRow)
    ensures Unfinished(row) ==> Interrupted(row) == RunRow(Failed, None, true, row.staleReason)
    ensures !Unfinished(row) ==> Interrupted(row) == row
    ensures !Unfinished(Interrupted(row)) && Follows(row, Interrupted(row))
  {
  }

  type Runs = map<string, RunRow>
  type Files = map<(string, string), string>
  type Artifacts = map<string, seq<Artifact>>

  function ArtifactsOf(artifacts: Artifacts, id: string): seq<Artifact> { if id in artifacts then artifacts[id] else [] }

  /** Every file the manifest names exists, hashes to what it says, and is recorded. */
  ghost predicate Backed(sha: string -> string, id: string, manifest: Manifest, files: Files, artifacts: Artifacts) {
    forall f :: f in manifest ==>
      (id, f) in files && manifest[f] == sha(files[(id, f)]) && Artifact(f, manifest[f]) in ArtifactsOf(artifacts, id)
  }

  ghost predicate SoundRow(sha: string -> string, id: string, row: RunRow, files: Files, artifacts: Artifacts) {
    if row.state.Completed? || row.state.Stale? then
      row.manifest.Some? && Backed(sha, id, row.manifest.value, files, artifacts)
    else
      row.manifest.None?
  }

  /** Results exist exactly where a run says so; unfinished, cancelled and failed runs carry none. */
  ghost predicate Sound(sha: string -> string, runs: Runs, files: Files, artifacts: Artifacts) {
    forall id :: id in runs ==> SoundRow(sha, id, runs[id], files, artifacts)
  }

  /** What may become of a stored run: an unfinished one moves on, a finished one only from
      completed to stale, keeping its manifest. */
  predicate Follows(was: RunRow, now: RunRow) {
    || was == now
    || (Unfinished(was) && (was.state.Running? ==> !now.state.Pending?))
    || (was.state.Completed? && now.state.Stale? && now == was.(state := Stale, staleReason := now.staleReason))
  }

  ghost predicate Preserved(was: Runs, now: Runs) {
    forall id :: id in was ==> id in now && Follows(was[id], now[id])
  }

  /** A run finishes at most once: whatever happens later, its outcome stands. */
  lemma OutcomeStands(a: RunRow, b: RunRow, c: RunRow)
    requires Follows(a, b) && Follows(b, c)
    ensures Follows(a, c)
    ensures !Unfinished(b) ==> !Unfinished(c) && c.manifest == b.manifest && c.error == b.error
    ensures b.state.Cancelled? || b.state.Failed? ==> c == b
    ensures c.state.Stale? && !Unfinished(b) ==> b.state.Completed? || b.state.Stale?
  {
  }

  /** The first `n` listed runs are settled, the others untouched. */
  ghost predicate Swept(before: Runs, now: Runs, ids: seq<string>, n: nat) {
    && n <= |ids| && now.Keys == before.Keys
    && (forall i :: 0 <= i < |ids| ==> ids[i] in before)
    && (forall i, j :: 0 <= i < j < |ids| ==> ids[i] != ids[j])
    && (forall i :: 0 <= i < n ==> now[ids[i]] == Interrupted(before[ids[i]]))
    && (forall i :: n <= i < |ids| ==> now[ids[i]] == before[ids[i]])
  }

  lemma NothingSwept(runs: Runs, ids: seq<string>)
    requires (forall i :: 0 <= i < |ids| ==> ids[i] in runs) && (forall i, j :: 0 <= i < j < |ids| ==> ids[i] != ids[j])
    ensures Swept(runs, runs, ids, 0)
  {
  }

  lemma SweepOne(before: Runs, now: Runs, ids: seq<string>, n: nat)
    requires n < |ids| && Swept(before, now, ids, n)
    ensures ids[n] in now
    ensures Unfinished(now[ids[n]]) ==>
      Swept(before, now[ids[n] := RunRow(Failed, None, true, now[ids[n]].staleReason)], ids, n + 1)
    ensures !Unfinished(now[ids[n]]) ==> Swept(before, now, ids, n + 1)
  {
    InterruptedMeans(now[ids[n]]);
    hide Interrupted;
  }

  lemma AllSwept(before: Runs, now: Runs, ids: seq<string>)
    requires Swept(before, now, ids, |ids|) && forall id :: id in before ==> id in ids
    ensures now.Keys == before.Keys && Preserved(before, now)
    ensures forall id :: id in now ==> now[id] == Interrupted(before[id]) && !Unfinished(now[id])
  {
    hide Interrupted, Follows;
    forall id | id in now ensures now[id] == Interrupted(before[id]) && !Unfinished(now[id]) && Follows(before[id], now[id]) {
      var j :| 0 <= j < |ids| && ids[j] == id;
      InterruptedMeans(before[id]);
    }
  }

  class Store {
    var runs: Runs
    var files: Files
    var artifacts: Artifacts
    var steps: nat
    const fate: nat -> Fate
    const sha: string -> string

    ghost predicate Valid()
      reads this
    {
      Sound(sha, runs, files, artifacts)
    }

    constructor (fate: nat -> Fate, sha: string -> string)
      ensures Valid() && runs == map[] && this.fate == fate && this.sha == sha
    {
      this.fate, this.sha := fate, sha;
      runs, files, artifacts, steps := map[], map[], map[], 0;
    }

    /** Every step behind `from`, up to `to`, went through. */
    ghost predicate Clean(from: nat, to: nat) { forall n: nat :: from < n <= to ==> fate(n).Through? }

    method Next() returns (f: Fate)
      modifies this`steps
      ensures steps == old(steps) + 1 && f == fate(steps)
    {
      steps := steps + 1;
      f := fate(steps);
    }

    // ---- the run table ------------------------------------------------------------------

    /** `mark_analysis_run_running`: only a pending run starts. */
    method MarkRunning(id: string) returns (ok: bool)
      requires Valid()
      modifies this`runs
      ensures Valid() && Preserved(old(runs), runs)
      ensures ok <==> id in old(runs) && old(runs)[id].state.Pending?
      ensures runs == if ok then old(runs)[id := old(runs)[id].(state := Running)] else old(runs)
    {
      ok := id in runs && runs[id].state.Pending?;
      if ok { runs := runs[id := runs[id].(state := Running)]; }
    }

    /** `finish_analysis_run`: a terminal state, a manifest when completed, once. */
    method Finish(id: string, state: State, manifest: Option<Manifest>, error: bool) returns (ok: bool)
      requires Valid()
      requires state.Completed? && manifest.Some? ==> Backed(sha, id, manifest.value, files, artifacts)
      requires !state.Completed? ==> manifest.None?
      modifies this`runs
      ensures Valid() && Preserved(old(runs), runs)
      ensures ok <==> (IsTerminal(state) && (state.Completed? ==> manifest.Some?) && id in old(runs) && Unfinished(old(runs)[id]))
      ensures runs == if ok then old(runs)[id := RunRow(state, manifest, error, old(runs)[id].staleReason)] else old(runs)
    {
      ok := IsTerminal(state) && (state.Completed? ==> manifest.Some?) && id in runs && Unfinished(runs[id]);
      if ok { runs := runs[id := RunRow(state, manifest, error, runs[id].staleReason)]; }
    }

    /** `mark_analysis_run_stale`: only completed runs go stale. */
    method MarkStale(id: string, reason: string) returns (ok: bool)
      requires Valid()
      modifies this`runs
      ensures Valid() && Preserved(old(runs), runs)
      ensures ok <==> id in old(runs) && old(runs)[id].state.Completed?
      ensures runs == if ok then old(runs)[id := old(runs)[id].(state := Stale, staleReason := Some(reason))] else old(runs)
    {
      ok := id in runs && runs[id].state.Completed?;
      if ok { runs := runs[id := runs[id].(state := Stale, staleReason := Some(reason))]; }
    }

    /** `fail_interrupted_analysis_runs`: what opening a workspace does to runs a dead process
        left behind. */
    method FailInterrupted() returns (failed: nat)
      requires Valid()
      modifies this`runs
      ensures Valid() && Preserved(old(runs), runs) && runs.Keys == old(runs).Keys
      ensures forall id :: id in runs ==> !Unfinished(runs[id])
      ensures forall id :: id in runs ==> runs[id] == Interrupted(old(runs)[id])
    {
      hide Sound, Ascends, Follows, Swept, Preserved;
      var before := runs;
      var ids := NamesOf(before.Keys);
      failed := 0;
      var i := 0;
      NothingSwept(before, ids);
      while i < |ids|
        invariant i <= |ids| && Valid() && Swept(before, runs, ids, i)
      {
        SweepOne(before, runs, ids, i);
        if Unfinished(runs[ids[i]]) {
          var _ := Finish(ids[i], Failed, None, true);
          failed := failed + 1;
        }
        i := i + 1;
      }
      AllSwept(before, runs, ids);
    }

    // ---- results ------------------------------------------------------------------------

    /** Writes every result file. Nothing is finished yet, so stopping anywhere leaves only
        bytes no run claims. */
    method WriteFiles(id: string, outputs: seq<(string, string)>) returns (f: Fate)
      requires Valid() && id in runs && runs[id].state.Running? && DistinctFiles(outputs)
      modifies this`files, this`steps
      ensures Valid() && (f.Through? ==> Stored(id, outputs, files))
      ensures steps >= old(steps) && (f.Through? <==> Clean(old(steps), steps))
    {
      f := Through;
      var i := 0;
      while i < |outputs|
        invariant i <= |outputs| && Valid() && f.Through? && steps >= old(steps) && Clean(old(steps), steps)
        invariant Stored(id, outputs[..i], files)
      {
        FileAdded(sha, runs, files, artifacts, id, outputs, i);
        hide Sound, Stored, DistinctFiles;
        files := files[(id, outputs[i].0) := outputs[i].1];
        f := Next();
        if !f.Through? { return; }
        i := i + 1;
      }
      assert outputs[..i] == outputs;
    }

    /** Hashes and records every file, collecting the manifest. */
    method RecordArtifacts(id: string, outputs: seq<(string, string)>) returns (manifest: Manifest, f: Fate)
      requires Valid() && Stored(id, outputs, files) && DistinctFiles(outputs)
      modifies this`artifacts, this`steps
      ensures Valid()
      ensures f.Through? ==> Backed(sha, id, manifest, files, artifacts) && Hashes(sha, outputs, manifest)
      ensures steps >= old(steps) && (f.Through? <==> Clean(old(steps), steps))
    {
      manifest, f := map[], Through;
      var i := 0;
      while i < |outputs|
        invariant i <= |outputs| && Valid() && f.Through? && Backed(sha, id, manifest, files, artifacts)
        invariant Hashes(sha, outputs[..i], manifest) && steps >= old(steps) && Clean(old(steps), steps)
      {
        RecordAdded(sha, runs, files, artifacts, id, outputs, manifest, i);
        hide Sound, Stored, Backed, Hashes, DistinctFiles;
        var file := outputs[i].0;
        var hash := sha(files[(id, file)]);
        artifacts := artifacts[id := ArtifactsOf(artifacts, id) + [Artifact(file, hash)]];
        manifest := manifest[file := hash];
        f := Next();
        if !f.Through? { return; }
        i := i + 1;
      }
      assert outputs[..i] == outputs;
    }

    // ---- one run, end to end --------------------------------------------------------------

    /** `run_correlation_analysis`. With no step refused and the process alive to the end, a run that
        produces results completes, a cancelled one is cancelled and a failing one fails; so a run
        that produced results and ends failed met a step that did not go through. A recorded ending is terminal; an unrecorded one leaves the
        run unfinished, for recovery to fail. A completed row lists the hashes of exactly the
        files this run produced. */
    method RunAnalysis(id: string, execution: Execution) returns (ending: Ending)
      requires Valid() && id !in runs
      requires execution.Produces? ==> DistinctFiles(execution.outputs)
      modifies this
      ensures Valid() && Preserved(old(runs), runs) && runs.Keys <= old(runs).Keys + {id}
      ensures ending.Unrecorded? ==> id !in runs || Unfinished(runs[id])
      ensures ending.Ended? ==> id in runs && IsTerminal(ending.state) && runs[id].state == ending.state
      ensures ending.Ended? && ending.state.Completed? ==> execution.Produces? && runs[id].manifest.Some?
      ensures ending.Ended? && ending.state.Completed? ==> Hashes(sha, execution.outputs, runs[id].manifest.value)
      ensures ending.Ended? && !ending.state.Completed? ==> runs[id].manifest.None? && runs[id].error
      ensures ending.Ended? ==> (ending.state.Cancelled? <==> execution.IsCancelled?)
      ensures Clean(old(steps), steps) ==> ending.Ended? && id in runs
      ensures Clean(old(steps), steps) && execution.Produces? ==>
        ending.state.Completed? && runs[id] == RunRow(Completed, runs[id].manifest, false, None)
      ensures Clean(old(steps), steps) && execution.IsCancelled? ==> runs[id] == RunRow(Cancelled, None, true, None)
      ensures Clean(old(steps), steps) && execution.Errs? ==> runs[id] == RunRow(Failed, None, true, None)
      ensures ending.Ended? && ending.state.Completed? ==> Clean(old(steps), steps)
    {
      hide Hashes, DistinctFiles, Stored, Backed;
      var f := Begin(id);
      if !f.Through? { return Unrecorded; }
      hide Sound;
      if execution.Produces? {
        var manifest;
        manifest, f := ProduceResults(id, execution.outputs);
        if f.Gone? { return Unrecorded; }
        if f.Through? {
          var _ := Finish(id, Completed, Some(manifest), false);
          return Ended(Completed);
        }
      }
      // Any error after the start aborts the run, recording it.
      f := Next();
      if !f.Through? { return Unrecorded; }
      var state := if execution.IsCancelled? then Cancelled else Failed;
      var _ := Finish(id, state, None, true);
      ending := Ended(state);
    }

    /** The pending row, then running. */
    method Begin(id: string) returns (f: Fate)
      requires Valid() && id !in runs
      modifies this`runs, this`steps
      ensures Valid() && Preserved(old(runs), runs) && runs.Keys <= old(runs).Keys + {id}
      ensures id in runs ==> Unfinished(runs[id])
      ensures f.Through? ==> runs == old(runs)[id := RunRow(Running, None, false, None)]
      ensures steps >= old(steps) && (f.Through? <==> Clean(old(steps), steps))
    {
      f := Next();
      if !f.Through? { return; }
      runs := runs[id := RunRow(Pending, None, false, None)];
      f := Next();
      if !f.Through? { return; }
      var _ := MarkRunning(id);
    }

    /** The tail of `execute`, up to the point where completion may be written. */
    method ProduceResults(id: string, outputs: seq<(string, string)>) returns (manifest: Manifest, f: Fate)
      requires Valid() && id in runs && runs[id].state.Running? && DistinctFiles(outputs)
      modifies this`files, this`artifacts, this`steps
      ensures Valid()
      ensures f.Through? ==> Backed(sha, id, manifest, files, artifacts) && Hashes(sha, outputs, manifest)
      ensures steps >= old(steps) && (f.Through? <==> Clean(old(steps), steps))
    {
      hide Sound, Stored, Backed, Hashes, DistinctFiles;
      manifest := map[];
      f := WriteFiles(id, outputs);
      if !f.Through? { return; }
      manifest, f := RecordArtifacts(id, outputs);
      if !f.Through? { return; }
      f := Next();
    }
  }

  predicate DistinctFiles(outputs: seq<(string, string)>) {
    forall i, j :: 0 <= i < j < |outputs| ==> outputs[i].0 != outputs[j].0
  }

  predicate Stored(id: string, outputs: seq<(string, string)>, files: Files) {
    forall i :: 0 <= i < |outputs| ==> (id, outputs[i].0) in files && files[(id, outputs[i].0)] == outputs[i].1
  }

  /** The manifest names every output file with the hash of its bytes, and nothing else. */
  ghost predicate Hashes(sha: string -> string, outputs: seq<(string, string)>, manifest: Manifest) {
    && (forall i :: 0 <= i < |outputs| ==> outputs[i].0 in manifest && manifest[outputs[i].0] == sha(outputs[i].1))
    && (forall f :: f in manifest ==> exists i :: 0 <= i < |outputs| && outputs[i].0 == f)
  }

  lemma FileAdded(sha: string -> string, runs: Runs, files: Files, artifacts: Artifacts, id: string, outputs: seq<(string, string)>, i: nat)
    requires Sound(sha, runs, files, artifacts) && id in runs && runs[id].state.Running?
    requires i < |outputs| && DistinctFiles(outputs) && Stored(id, outputs[..i], files)
    ensures var now := files[(id, outputs[i].0) := outputs[i].1];
      Sound(sha, runs, now, artifacts) && Stored(id, outputs[..i + 1], now)
  {
    var now := files[(id, outputs[i].0) := outputs[i].1];
    forall r | r in runs ensures SoundRow(sha, r, runs[r], now, artifacts) {
      assert SoundRow(sha, r, runs[r], files, artifacts);
    }
    forall j | 0 <= j < i + 1 ensures (id, outputs[j].0) in now && now[(id, outputs[j].0)] == outputs[j].1 {
      if j < i { assert outputs[..i][j] == outputs[j]; }
    }
  }

  lemma RecordAdded(sha: string -> string, runs: Runs, files: Files, artifacts: Artifacts, id: string,
                    outputs: seq<(string, string)>, manifest: Manifest, i: nat)
    requires Sound(sha, runs, files, artifacts) && Stored(id, outputs, files) && DistinctFiles(outputs)
    requires i < |outputs| && Backed(sha, id, manifest, files, artifacts) && Hashes(sha, outputs[..i], manifest)
    ensures (id, outputs[i].0) in files
    ensures var file := outputs[i].0;
      var hash := sha(files[(id, file)]);
      var now := artifacts[id := ArtifactsOf(artifacts, id) + [Artifact(file, hash)]];
      && Sound(sha, runs, files, now) && Backed(sha, id, manifest[file := hash], files, now)
      && Hashes(sha, outputs[..i + 1], manifest[file := hash])
  {
    var file := outputs[i].0;
    var hash := sha(files[(id, file)]);
    var now := artifacts[id := ArtifactsOf(artifacts, id) + [Artifact(file, hash)]];
    assert Artifact(file, hash) in ArtifactsOf(now, id);
    forall r, a | a in ArtifactsOf(artifacts, r) ensures a in ArtifactsOf(now, r) {}
    forall r | r in runs ensures SoundRow(sha, r, runs[r], files, now) {
      assert SoundRow(sha, r, runs[r], files, artifacts);
    }
    HashAdded(sha, outputs, manifest, i);
  }

  lemma HashAdded(sha: string -> string, outputs: seq<(string, string)>, manifest: Manifest, i: nat)
    requires i < |outputs| && DistinctFiles(outputs) && Hashes(sha, outputs[..i], manifest)
    ensures Hashes(sha, outputs[..i + 1], manifest[outputs[i].0 := sha(outputs[i].1)])
  {
    var now, done := manifest[outputs[i].0 := sha(outputs[i].1)], outputs[..i + 1];
    forall j | 0 <= j < i + 1 ensures done[j].0 in now && now[done[j].0] == sha(done[j].1) {
      if j < i { assert outputs[..i][j] == outputs[j]; }
    }
    forall f | f in now ensures exists j :: 0 <= j < |done| && done[j].0 == f {
      if f == outputs[i].0 {
        assert done[i].0 == f;
      } else {
        var j :| 0 <= j < |outputs[..i]| && outputs[..i][j].0 == f;
        assert done[j].0 == f;
      }
    }
  }
}
