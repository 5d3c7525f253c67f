/** Rebuild jobs that overlap. Each call of `rebuild_indexes`
    (apps/desktop/src-tauri/src/explorer_cmds.rs) starts a thread of its own, and nothing keeps two
    of them apart; the steps are those of `rebuild_fts_to_current`
    (crates/logscope-app/src/explorer.rs) and `FtsIndex` (crates/logscope-store/src/fts.rs), one
    durable read or write each. */
module IndexRaces {
  import opened TextIndex

  /** Published datasets, their index rows and the index file. */
  datatype Store = Store(published: Segments, states: States, table: bool, version: nat, indexed: set<string>)

  /** Where a rebuild stands, with its own locals. */
  datatype Job = Opening | Making(reset: bool) | Stamping(reset: bool) | Checking | Dropping | Marking(ids: seq<string>)
    | Listing | Queue(todo: seq<string>) | Indexing(d: string, done: seq<string>, rest: seq<string>, todo: seq<string>) | Ended

  /** A job takes its next step, or stops for good. */
  datatype Action = Go(job: nat) | Halt(job: nat)

  datatype World = World(store: Store, jobs: seq<Job>)

  function SegmentsOf(published: Segments, d: string): seq<string> { if d in published then published[d] else [] }

  /** The order in which rows are read. Nothing here depends on which order it is. */
  ghost function Names(keys: set<string>): (r: seq<string>)
    ensures forall k :: k in r <==> k in keys
    decreases |keys|
  {
    if keys == {} then []
    else
      var k :| k in keys;
      [k] + Names(keys - {k})
  }

  ghost function Unready(states: States): set<string> { set d | d in states && states[d] != READY }

  ghost function Advance(s: Store, j: Job): (r: (Store, Job))
    ensures r.0.published == s.published
  {
    match j
    case Opening => (s, if s.table then Checking else Making(false))
    case Making(reset) => (if s.table then s else s.(table := true, indexed := {}), Stamping(reset))
    case Stamping(reset) => (s.(version := CURRENT), if reset then Marking(Names(s.published.Keys)) else Checking)
    case Checking => (s, if s.version < CURRENT then Dropping else Listing)
    case Dropping => (s.(table := false, indexed := {}), Making(true))
    case Marking(ids) =>
      if ids == [] then (s, Listing)
      else (s.(states := s.states[ids[0] := IndexRow(CURRENT, Pending)]), Marking(ids[1..]))
    case Listing => (s, Queue(Names(Unready(s.states))))
    case Queue(todo) =>
      if todo == [] then (s, Ended)
      else
        (s.(states := s.states[todo[0] := IndexRow(CURRENT, Building)]),
          Indexing(todo[0], [], SegmentsOf(s.published, todo[0]), todo[1..]))
    case Indexing(d, done, rest, todo) =>
      if rest == [] then (s.(states := s.states[d := READY]), Queue(todo))
      else if !s.table then (s, Ended)
      else (s.(indexed := s.indexed + {rest[0]}), Indexing(d, done + [rest[0]], rest[1..], todo))
    case Ended => (s, Ended)
  }

  ghost function Step(w: World, a: Action): World {
    if a.job >= |w.jobs| then w
    else if a.Halt? then w.(jobs := w.jobs[a.job := Ended])
    else
      var (s, j) := Advance(w.store, w.jobs[a.job]);
      World(s, w.jobs[a.job := j])
  }

  ghost function Exec(w: World, schedule: seq<Action>): World
    decreases |schedule|
  {
    if schedule == [] then w else Exec(Step(w, schedule[0]), schedule[1..])
  }

  /** Every segment of the dataset is in a current index file. */
  ghost predicate Searchable(s: Store, d: string) {
    forall x :: x in SegmentsOf(s.published, d) ==> s.version >= CURRENT && x in s.indexed
  }

  /** Whatever is marked ready is searched completely. */
  ghost predicate Sound(s: Store) { forall d :: Marked(s.states, d) ==> Searchable(s, d) }

  // ---- what every step keeps -----------------------------------------------------------------

  predicate PastCheck(j: Job) { j.Marking? || j.Listing? || j.Queue? || j.Indexing? }

  ghost predicate JobHolds(s: Store, j: Job) {
    && (PastCheck(j) ==> s.version >= CURRENT)
    && (j.Indexing? ==> j.done + j.rest == SegmentsOf(s.published, j.d) && forall x :: x in j.done ==> x in s.indexed)
  }

  ghost predicate StoreHolds(s: Store) { Sound(s) && (!s.table ==> s.indexed == {}) }

  ghost predicate Holds(w: World) { StoreHolds(w.store) && forall k :: 0 <= k < |w.jobs| ==> JobHolds(w.store, w.jobs[k]) }

  /** A drop loses nothing: no ready dataset has a segment, and no other rebuild is part-way
      through a dataset. */
  ghost predicate NothingToLose(w: World, i: nat) {
    && (forall d :: Marked(w.store.states, d) ==> SegmentsOf(w.store.published, d) == [])
    && (forall k :: 0 <= k < |w.jobs| && k != i && w.jobs[k].Indexing? ==> w.jobs[k].done == [])
  }

  ghost predicate Drops(w: World, a: Action) { a.Go? && a.job < |w.jobs| && w.jobs[a.job].Dropping? }

  lemma StoreStep(s: Store, j: Job)
    requires StoreHolds(s) && JobHolds(s, j)
    requires j.Dropping? ==> forall d :: Marked(s.states, d) ==> SegmentsOf(s.published, d) == []
    ensures StoreHolds(Advance(s, j).0)
  {
    hide Names, SegmentsOf;
    var after := Advance(s, j).0;
    forall d | Marked(after.states, d) ensures Searchable(after, d) {
      if j.Indexing? && j.rest == [] && j.d == d {
        assert j.done + j.rest == j.done;
      } else {
        assert Marked(s.states, d);
        assert Searchable(s, d);
      }
    }
  }

  lemma OwnStep(s: Store, j: Job)
    requires StoreHolds(s) && JobHolds(s, j)
    ensures JobHolds(Advance(s, j).0, Advance(s, j).1)
  {
    hide Names, SegmentsOf, Sound;
    if j.Indexing? && j.rest != [] { assert j.done + j.rest == (j.done + [j.rest[0]]) + j.rest[1..]; }
  }

  lemma OtherStep(s: Store, j: Job, other: Job)
    requires StoreHolds(s) && JobHolds(s, j) && JobHolds(s, other)
    requires j.Dropping? && other.Indexing? ==> other.done == []
    ensures JobHolds(Advance(s, j).0, other)
  {
    hide Names, SegmentsOf, Sound;
  }

  lemma StepHolds(w: World, a: Action)
    requires Holds(w) && (Drops(w, a) ==> NothingToLose(w, a.job))
    ensures Holds(Step(w, a))
  {
    hide JobHolds, StoreHolds, Advance;
    if a.job < |w.jobs| && a.Go? {
      var j := w.jobs[a.job];
      StoreStep(w.store, j);
      OwnStep(w.store, j);
      forall k | 0 <= k < |w.jobs| && k != a.job ensures JobHolds(Step(w, a).store, w.jobs[k]) {
        OtherStep(w.store, j, w.jobs[k]);
      }
    } else {
      EndedHolds(w.store);
    }
  }

  lemma EndedHolds(s: Store)
    ensures JobHolds(s, Ended)
  {
  }

  /** Every drop of a run loses nothing. */
  ghost predicate DropsClear(w: World, schedule: seq<Action>)
    decreases |schedule|
  {
    schedule != [] ==>
      (Drops(w, schedule[0]) ==> NothingToLose(w, schedule[0].job)) && DropsClear(Step(w, schedule[0]), schedule[1..])
  }

  lemma {:induction false} ExecHolds(w: World, schedule: seq<Action>)
    requires Holds(w) && DropsClear(w, schedule)
    ensures Holds(Exec(w, schedule))
    decreases |schedule|
  {
    if schedule != [] {
      StepHolds(w, schedule[0]);
      ExecHolds(Step(w, schedule[0]), schedule[1..]);
    }
    hide Step, Holds, NothingToLose;
  }

  // ---- a drop that loses something can be driven into an unsafe state ---------------------------

  lemma {:induction false} ExecConcat(w: World, a: seq<Action>, b: seq<Action>)
    ensures Exec(w, a + b) == Exec(Exec(w, a), b)
    decreases |a|
  {
    if a == [] {
      assert a + b == b;
    } else {
      assert (a + b)[0] == a[0] && (a + b)[1..] == a[1..] + b;
      ExecConcat(Step(w, a[0]), a[1..], b);
    }
    hide Step;
  }

  lemma ExecOne(w: World, a: Action)
    ensures Exec(w, [a]) == Step(w, a)
  {
    assert [a][1..] == [];
    hide Step;
  }

  /** Nothing but job `k`, the rows and the file has changed, and the table is as it was. */
  ghost predicate OnlyJob(w: World, v: World, k: nat) {
    && v.store.published == w.store.published && v.store.table == w.store.table
    && |v.jobs| == |w.jobs| && forall i :: 0 <= i < |w.jobs| && i != k ==> v.jobs[i] == w.jobs[i]
  }

  ghost function Members(s: seq<string>): set<string> { set x | x in s }

  /** One rebuild, running alone, finishes the dataset it is in. */
  lemma {:induction false} FinishDataset(w: World, k: nat) returns (schedule: seq<Action>)
    requires k < |w.jobs| && w.jobs[k].Indexing? && w.store.table
    ensures var v := Exec(w, schedule);
      && OnlyJob(w, v, k) && v.jobs[k] == Queue(w.jobs[k].todo)
      && v.store.indexed == w.store.indexed + Members(w.jobs[k].rest)
      && v.store.states == w.store.states[w.jobs[k].d := READY]
    decreases |w.jobs[k].rest|
  {
    var j := w.jobs[k];
    ExecOne(w, Go(k));
    if j.rest == [] {
      schedule := [Go(k)];
    } else {
      var more := FinishDataset(Step(w, Go(k)), k);
      schedule := [Go(k)] + more;
      ExecConcat(w, [Go(k)], more);
      assert Members(j.rest) == {j.rest[0]} + Members(j.rest[1..]);
    }
    hide Exec;
  }

  predicate UniqueSegments(published: Segments) {
    forall d :: d in published ==> forall i, j :: 0 <= i < j < |published[d]| ==> published[d][i] != published[d][j]
  }

  lemma DropStep(w: World, i: nat)
    requires i < |w.jobs| && w.jobs[i].Dropping?
    ensures Exec(w, [Go(i)]) == World(w.store.(table := false, indexed := {}), w.jobs[i := Making(true)])
    ensures Exec(w, [Go(i), Go(i)]) == World(w.store.(table := true, indexed := {}), w.jobs[i := Stamping(true)])
  {
    ExecOne(w, Go(i));
    ExecConcat(w, [Go(i)], [Go(i)]);
    ExecOne(Exec(w, [Go(i)]), Go(i));
    hide Exec;
    assert [Go(i)] + [Go(i)] == [Go(i), Go(i)];
    assert w.jobs[i := Making(true)][i := Stamping(true)] == w.jobs[i := Stamping(true)];
  }

  lemma LostSegment(s: Store, d: string, x: string)
    requires Marked(s.states, d) && x in SegmentsOf(s.published, d) && x !in s.indexed
    ensures !Sound(s)
  {
    assert !Searchable(s, d);
  }

  lemma NotInRest(s: seq<string>, done: seq<string>, rest: seq<string>)
    requires done != [] && done + rest == s && forall i, j :: 0 <= i < j < |s| ==> s[i] != s[j]
    ensures done[0] in s && done[0] !in Members(rest)
  {
    assert s[0] == done[0];
    forall k | 0 <= k < |rest| ensures rest[k] != done[0] { assert s[|done| + k] == rest[k]; }
  }

  /** A rebuild drops the table while another is part-way through a dataset: the other goes on
      and marks it ready without what was dropped. */
  lemma PartWayBreaks(w: World, i: nat, k: nat) returns (schedule: seq<Action>)
    requires Holds(w) && UniqueSegments(w.store.published)
    requires i < |w.jobs| && w.jobs[i].Dropping? && k < |w.jobs| && w.jobs[k].Indexing? && w.jobs[k].done != []
    ensures !Sound(Exec(w, schedule).store)
  {
    var j, mid := w.jobs[k], Exec(w, [Go(i), Go(i)]);
    DropStep(w, i);
    assert JobHolds(w.store, j);
    NotInRest(SegmentsOf(w.store.published, j.d), j.done, j.rest);
    hide Exec, Sound, Searchable;
    var more := FinishDataset(mid, k);
    schedule := [Go(i), Go(i)] + more;
    ExecConcat(w, [Go(i), Go(i)], more);
    LostSegment(Exec(mid, more).store, j.d, j.done[0]);
  }

  lemma DropBreaks(w: World, i: nat) returns (schedule: seq<Action>)
    requires Holds(w) && UniqueSegments(w.store.published) && i < |w.jobs| && w.jobs[i].Dropping? && !NothingToLose(w, i)
    ensures !Sound(Exec(w, schedule).store)
  {
    if d :| Marked(w.store.states, d) && SegmentsOf(w.store.published, d) != [] {
      schedule := [Go(i)];
      DropStep(w, i);
      LostSegment(Exec(w, schedule).store, d, SegmentsOf(w.store.published, d)[0]);
    } else {
      var k :| 0 <= k < |w.jobs| && k != i && w.jobs[k].Indexing? && w.jobs[k].done != [];
      schedule := PartWayBreaks(w, i, k);
    }
  }

  /** The first drop of a run that loses something. */
  lemma {:induction false} FirstLoss(w: World, schedule: seq<Action>) returns (before: seq<Action>, i: nat)
    requires !DropsClear(w, schedule)
    ensures DropsClear(w, before)
    ensures Drops(Exec(w, before), Go(i)) && !NothingToLose(Exec(w, before), i)
    decreases |schedule|
  {
    var a := schedule[0];
    if Drops(w, a) && !NothingToLose(w, a.job) {
      before, i := [], a.job;
    } else {
      var rest;
      rest, i := FirstLoss(Step(w, a), schedule[1..]);
      before := [a] + rest;
      assert before[1..] == rest;
    }
    hide Step, NothingToLose;
  }

  lemma StepPublished(w: World, a: Action)
    ensures Step(w, a).store.published == w.store.published
  {
    hide Advance;
  }

  lemma {:induction false} ExecPublished(w: World, schedule: seq<Action>)
    ensures Exec(w, schedule).store.published == w.store.published
    decreases |schedule|
  {
    if schedule != [] {
      StepPublished(w, schedule[0]);
      ExecPublished(Step(w, schedule[0]), schedule[1..]);
    }
    hide Step;
  }

  /** Any number of rebuilds, wherever they stand, interleaved in every way and stopped anywhere:
      what is marked ready stays searchable if and only if no run drops the table while something
      could be lost. */
  lemma SafeIffDropsClear(w: World)
    requires Holds(w) && UniqueSegments(w.store.published)
    ensures (forall schedule :: Sound(Exec(w, schedule).store)) <==> (forall schedule :: DropsClear(w, schedule))
  {
    hide Exec, DropsClear, NothingToLose, Sound;
    if forall schedule :: DropsClear(w, schedule) {
      forall schedule ensures Sound(Exec(w, schedule).store) {
        ExecHolds(w, schedule);
      }
    } else {
      var schedule :| !DropsClear(w, schedule);
      var before, i := FirstLoss(w, schedule);
      ExecHolds(w, before);
      ExecPublished(w, before);
      var more := DropBreaks(Exec(w, before), i);
      ExecConcat(w, before, more);
      assert !Sound(Exec(w, before + more).store);
    }
  }

  // ---- what a rebuild gets done ----------------------------------------------------------------

  /** The job neither resets the file nor has the dataset on its list. */
  predicate Spares(j: Job, d: string) {
    match j
    case Queue(todo) => d !in todo
    case Indexing(e, _, _, todo) => e != d && d !in todo
    case Opening => true
    case Checking => true
    case Listing => true
    case Ended => true
    case _ => false
  }

  ghost predicate ReadyKept(w: World, d: string) {
    && w.store.table && w.store.version >= CURRENT && Marked(w.store.states, d)
    && forall k :: 0 <= k < |w.jobs| ==> Spares(w.jobs[k], d)
  }

  lemma {:induction false} ReadyStays(w: World, schedule: seq<Action>, d: string)
    requires ReadyKept(w, d)
    ensures ReadyKept(Exec(w, schedule), d)
    decreases |schedule|
  {
    if schedule != [] {
      assert ReadyKept(Step(w, schedule[0]), d) by { hide Names, SegmentsOf; }
      ReadyStays(Step(w, schedule[0]), schedule[1..], d);
    }
    hide Step;
  }

  /** While the file is current, any number of rebuilds, in every interleaving and stopped anywhere,
      leave a ready dataset ready. */
  lemma CurrentKeepsReady(s: Store, n: nat, schedule: seq<Action>, d: string)
    requires s.table && s.version >= CURRENT && Marked(s.states, d)
    ensures Marked(Exec(Fresh(s, n), schedule).store.states, d)
  {
    ReadyStays(Fresh(s, n), schedule, d);
    hide Exec;
  }

  /** What a rebuild that has the workspace to itself still has to do: every row that is not ready. */
  ghost predicate LeftToDo(s: Store, j: Job) {
    && (j.Stamping? || j.Checking? || PastCheck(j) ==> s.table)
    && match j
      case Queue(todo) => forall d :: d in s.states && !Marked(s.states, d) ==> d in todo
      case Indexing(d, _, _, todo) => forall e :: e in s.states && !Marked(s.states, e) ==> e == d || e in todo
      case Ended => forall d :: d in s.states ==> Marked(s.states, d)
      case _ => true
  }

  ghost predicate AloneAt(w: World) { |w.jobs| == 1 && LeftToDo(w.store, w.jobs[0]) }

  lemma LessToDo(s: Store, j: Job)
    requires LeftToDo(s, j)
    ensures LeftToDo(Advance(s, j).0, Advance(s, j).1)
  {
    hide SegmentsOf;
  }

  lemma {:induction false} AloneWorks(w: World, n: nat)
    requires AloneAt(w)
    ensures AloneAt(Exec(w, seq(n, _ => Go(0))))
    decreases n
  {
    if n > 0 {
      LessToDo(w.store, w.jobs[0]);
      var schedule := seq(n, _ => Go(0));
      assert schedule[1..] == seq(n - 1, _ => Go(0));
      AloneWorks(Step(w, Go(0)), n - 1);
    }
    hide LeftToDo, Advance;
  }

  /** A rebuild that has the workspace to itself and comes to its end leaves every row ready. */
  lemma AloneFinishes(s: Store, n: nat)
    ensures var w := Exec(Fresh(s, 1), seq(n, _ => Go(0)));
      w.jobs == [Ended] ==> forall d :: d in w.store.states ==> Marked(w.store.states, d)
  {
    AloneWorks(Fresh(s, 1), n);
    hide Exec;
  }

  // ---- when overlapping rebuilds are safe at all ---------------------------------------------

  function Fresh(s: Store, n: nat): World { World(s, seq(n, _ => Opening)) }

  /** While the file is current no rebuild ever drops it. */
  ghost predicate NoDropper(w: World) {
    w.store.version >= CURRENT && forall k :: 0 <= k < |w.jobs| ==> !w.jobs[k].Dropping?
  }

  lemma {:induction false} CurrentNeverDrops(w: World, schedule: seq<Action>)
    requires NoDropper(w)
    ensures DropsClear(w, schedule)
    decreases |schedule|
  {
    if schedule != [] {
      assert NoDropper(Step(w, schedule[0])) by { hide Names; }
      CurrentNeverDrops(Step(w, schedule[0]), schedule[1..]);
    }
    hide Step, NothingToLose;
  }

  /** A single rebuild drops only what its own version check condemned. */
  ghost predicate Alone(w: World) {
    |w.jobs| <= 1 && forall k :: 0 <= k < |w.jobs| && w.jobs[k].Dropping? ==> w.store.version < CURRENT
  }

  lemma HasMember(s: seq<string>)
    requires s != []
    ensures exists x :: x in s
  {
    assert s[0] in s;
  }

  lemma OutdatedHasNoReady(s: Store, d: string)
    requires Sound(s) && s.version < CURRENT && Marked(s.states, d)
    ensures SegmentsOf(s.published, d) == []
  {
    assert Searchable(s, d);
    if SegmentsOf(s.published, d) != [] { HasMember(SegmentsOf(s.published, d)); }
  }

  lemma AloneIsClear(w: World, a: Action)
    requires Alone(w) && Holds(w) && Drops(w, a)
    ensures NothingToLose(w, a.job)
  {
    forall d | Marked(w.store.states, d) ensures SegmentsOf(w.store.published, d) == [] { OutdatedHasNoReady(w.store, d); }
  }

  lemma {:induction false} AloneIsSafe(w: World, schedule: seq<Action>)
    requires Alone(w) && Holds(w)
    ensures DropsClear(w, schedule)
    decreases |schedule|
  {
    if schedule != [] {
      var a := schedule[0];
      if Drops(w, a) { AloneIsClear(w, a); }
      StepHolds(w, a);
      assert Alone(Step(w, a)) by { hide Names; }
      AloneIsSafe(Step(w, a), schedule[1..]);
    }
    hide Step, NothingToLose, Holds;
  }

  /** One rebuild alone marks every listed row pending and reads them back. */
  lemma {:induction false} FinishMarking(w: World, k: nat) returns (schedule: seq<Action>)
    requires k < |w.jobs| && w.jobs[k].Marking?
    ensures var v := Exec(w, schedule);
      && OnlyJob(w, v, k) && v.jobs[k] == Listing
      && forall d :: (d in w.jobs[k].ids || (d in w.store.states && w.store.states[d] == IndexRow(CURRENT, Pending))) ==>
        d in v.store.states && v.store.states[d] == IndexRow(CURRENT, Pending)
    decreases |w.jobs[k].ids|
  {
    ExecOne(w, Go(k));
    if w.jobs[k].ids == [] {
      schedule := [Go(k)];
    } else {
      var more := FinishMarking(Step(w, Go(k)), k);
      schedule := [Go(k)] + more;
      ExecConcat(w, [Go(k)], more);
      assert w.jobs[k].ids == [w.jobs[k].ids[0]] + w.jobs[k].ids[1..];
    }
    hide Exec, Names;
  }

  /** One rebuild alone reaches every dataset of its queue. */
  lemma {:induction false} ReachDataset(w: World, k: nat, d: string) returns (schedule: seq<Action>)
    requires k < |w.jobs| && w.jobs[k].Queue? && d in w.jobs[k].todo && w.store.table
    ensures OnlyJob(w, Exec(w, schedule), k) && Marked(Exec(w, schedule).store.states, d)
    decreases |w.jobs[k].todo|
  {
    var first := Exec(w, [Go(k)]);
    ExecOne(w, Go(k));
    hide Exec, SegmentsOf;
    var more := FinishDataset(first, k);
    ExecConcat(w, [Go(k)], more);
    schedule := [Go(k)] + more;
    if d != w.jobs[k].todo[0] {
      var rest := ReachDataset(Exec(w, schedule), k, d);
      ExecConcat(w, schedule, rest);
      schedule := schedule + rest;
    }
  }

  lemma ToMarking(w: World, a: nat)
    requires a < |w.jobs| && w.jobs[a].Dropping?
    ensures var v := Exec(w, [Go(a), Go(a)] + [Go(a)]);
      && v.store.published == w.store.published && v.store.table && |v.jobs| == |w.jobs|
      && v.jobs[a] == Marking(Names(w.store.published.Keys))
      && forall i :: 0 <= i < |w.jobs| && i != a ==> v.jobs[i] == w.jobs[i]
  {
    DropStep(w, a);
    ExecConcat(w, [Go(a), Go(a)], [Go(a)]);
    ExecOne(Exec(w, [Go(a), Go(a)]), Go(a));
    hide Exec, Names;
  }

  /** Two rebuilds that both found an outdated file: one runs on, the other drops its work. */
  lemma TwoDroppersBreak(w: World, a: nat, b: nat, d: string) returns (schedule: seq<Action>)
    requires a < |w.jobs| && b < |w.jobs| && a != b && w.jobs[a].Dropping? && w.jobs[b].Dropping?
    requires SegmentsOf(w.store.published, d) != []
    ensures !Sound(Exec(w, schedule).store)
  {
    var s1 := [Go(a), Go(a)] + [Go(a)];
    ToMarking(w, a);
    hide Exec, Names, Sound, Searchable;
    var w1 := Exec(w, s1);
    var s2 := FinishMarking(w1, a);
    var w2 := Exec(w1, s2);
    ExecOne(w2, Go(a));
    var w3 := Exec(w2, [Go(a)]);
    assert w3.jobs[a].Queue? && d in w3.jobs[a].todo by { assert d in Unready(w2.store.states); }
    var s4 := ReachDataset(w3, a, d);
    var w4 := Exec(w3, s4);
    DropStep(w4, b);
    LostSegment(Exec(w4, [Go(b)]).store, d, SegmentsOf(w.store.published, d)[0]);
    ExecConcat(w, s1, s2);
    ExecConcat(w, s1 + s2, [Go(a)]);
    ExecConcat(w, s1 + s2 + [Go(a)], s4);
    ExecConcat(w, s1 + s2 + [Go(a)] + s4, [Go(b)]);
    schedule := s1 + s2 + [Go(a)] + s4 + [Go(b)];
  }

  lemma ToDropping(w: World, k: nat)
    requires k < |w.jobs| && w.jobs[k] == Opening && w.store.table && w.store.version < CURRENT
    ensures Exec(w, [Go(k), Go(k)]) == w.(jobs := w.jobs[k := Dropping])
  {
    ExecOne(w, Go(k));
    ExecConcat(w, [Go(k)], [Go(k)]);
    ExecOne(Exec(w, [Go(k)]), Go(k));
    hide Exec;
    assert [Go(k)] + [Go(k)] == [Go(k), Go(k)];
    assert w.jobs[k := Checking][k := Dropping] == w.jobs[k := Dropping];
  }

  /** The first job finds no table and creates one, still unstamped. */
  lemma ToStamping(w: World, k: nat)
    requires k < |w.jobs| && w.jobs[k] == Opening && !w.store.table
    ensures Exec(w, [Go(k), Go(k)]) == World(w.store.(table := true, indexed := {}), w.jobs[k := Stamping(false)])
  {
    ExecOne(w, Go(k));
    ExecConcat(w, [Go(k)], [Go(k)]);
    ExecOne(Exec(w, [Go(k)]), Go(k));
    hide Exec;
    assert [Go(k)] + [Go(k)] == [Go(k), Go(k)];
    assert w.jobs[k := Making(false)][k := Stamping(false)] == w.jobs[k := Stamping(false)];
  }

  /** Two jobs that start on an outdated file. */
  lemma TwoOpenersBreak(w: World, a: nat, b: nat, d: string) returns (schedule: seq<Action>)
    requires a < |w.jobs| && b < |w.jobs| && a != b && w.jobs[a] == Opening && w.jobs[b] == Opening
    requires w.store.table && w.store.version < CURRENT && SegmentsOf(w.store.published, d) != []
    ensures !Sound(Exec(w, schedule).store)
  {
    ToDropping(w, a);
    var w1 := Exec(w, [Go(a), Go(a)]);
    ToDropping(w1, b);
    var w2 := Exec(w1, [Go(b), Go(b)]);
    hide Exec, Sound;
    var more := TwoDroppersBreak(w2, a, b, d);
    ExecConcat(w, [Go(a), Go(a)], [Go(b), Go(b)]);
    ExecConcat(w, [Go(a), Go(a)] + [Go(b), Go(b)], more);
    schedule := [Go(a), Go(a)] + [Go(b), Go(b)] + more;
  }

  /** Three jobs and no table: the first creates it, the other two find it unstamped. */
  lemma ThreeOpenersBreak(w: World, d: string) returns (schedule: seq<Action>)
    requires |w.jobs| >= 3 && w.jobs[0] == Opening && w.jobs[1] == Opening && w.jobs[2] == Opening
    requires !w.store.table && w.store.version < CURRENT && SegmentsOf(w.store.published, d) != []
    ensures !Sound(Exec(w, schedule).store)
  {
    ToStamping(w, 0);
    hide Exec, Sound;
    var more := TwoOpenersBreak(Exec(w, [Go(0), Go(0)]), 1, 2, d);
    ExecConcat(w, [Go(0), Go(0)], more);
    schedule := [Go(0), Go(0)] + more;
  }

  /** From creating the table to reading the rows, past the version check. */
  lemma StampToQueue(w: World, k: nat)
    requires k < |w.jobs| && w.jobs[k] == Stamping(false)
    ensures Exec(w, [Go(k)] + [Go(k)] + [Go(k)]) ==
      World(w.store.(version := CURRENT), w.jobs[k := Queue(Names(Unready(w.store.states)))])
  {
    var w1 := Step(w, Go(k));
    var w2 := Step(w1, Go(k));
    ExecOne(w, Go(k));
    ExecOne(w1, Go(k));
    ExecOne(w2, Go(k));
    ExecConcat(w, [Go(k)], [Go(k)]);
    ExecConcat(w, [Go(k)] + [Go(k)], [Go(k)]);
    hide Exec, Names, Unready;
    assert Step(w2, Go(k)).jobs == w.jobs[k := Queue(Names(Unready(w.store.states)))];
  }

  /** Two jobs, no table, and a row left from before: the first creates the table, the second
      finds it unstamped, the first indexes the row's dataset, the second drops it. */
  lemma OldRowBreaks(w: World, d: string) returns (schedule: seq<Action>)
    requires |w.jobs| >= 2 && w.jobs[0] == Opening && w.jobs[1] == Opening && StoreHolds(w.store)
    requires !w.store.table && w.store.version < CURRENT && d in w.store.states && SegmentsOf(w.store.published, d) != []
    ensures !Sound(Exec(w, schedule).store)
  {
    assert d in Unready(w.store.states) by {
      if Marked(w.store.states, d) { OutdatedHasNoReady(w.store, d); }
    }
    ToStamping(w, 0);
    var w1 := Exec(w, [Go(0), Go(0)]);
    ToDropping(w1, 1);
    var w2 := Exec(w1, [Go(1), Go(1)]);
    StampToQueue(w2, 0);
    var s3 := [Go(0)] + [Go(0)] + [Go(0)];
    var w3 := Exec(w2, s3);
    hide Exec, Names, Sound, Searchable;
    var s4 := ReachDataset(w3, 0, d);
    var w4 := Exec(w3, s4);
    DropStep(w4, 1);
    LostSegment(Exec(w4, [Go(1)]).store, d, SegmentsOf(w.store.published, d)[0]);
    ExecConcat(w, [Go(0), Go(0)], [Go(1), Go(1)]);
    ExecConcat(w, [Go(0), Go(0)] + [Go(1), Go(1)], s3);
    ExecConcat(w, [Go(0), Go(0)] + [Go(1), Go(1)] + s3, s4);
    ExecConcat(w, [Go(0), Go(0)] + [Go(1), Go(1)] + s3 + s4, [Go(1)]);
    schedule := [Go(0), Go(0)] + [Go(1), Go(1)] + s3 + s4 + [Go(1)];
  }

  // ---- two jobs, no table, no row worth indexing -------------------------------------------------

  /** A job that will never drop the table. */
  predicate Tame(j: Job, version: nat) {
    j.Making? || j.Stamping? || PastCheck(j) || j.Ended? || (j.Checking? && version >= CURRENT)
  }

  /** A job whose rows were read before any reset, none of them with segments. */
  ghost predicate Idle(published: Segments, j: Job) {
    && !j.Marking? && (j.Making? || j.Stamping? ==> !j.reset)
    && (j.Queue? ==> forall d :: d in j.todo ==> SegmentsOf(published, d) == [])
    && (j.Indexing? ==> SegmentsOf(published, j.d) == [] && forall d :: d in j.todo ==> SegmentsOf(published, d) == [])
  }

  ghost predicate NoOldRow(s: Store) { forall d :: d in s.states ==> SegmentsOf(s.published, d) == [] }

  /** Either nothing has begun, or one of two jobs is tame and no reset has happened, or both are
      tame. */
  ghost predicate OneMayDrop(s: Store, j: Job, other: Job) {
    || (!s.table && j == Opening && other == Opening && NoOldRow(s))
    || ((Tame(j, s.version) || Tame(other, s.version)) && NoOldRow(s) && Idle(s.published, j) && Idle(s.published, other))
    || (Tame(j, s.version) && Tame(other, s.version))
  }

  lemma TameStays(s: Store, j: Job)
    requires Tame(j, s.version) && (PastCheck(j) ==> s.version >= CURRENT)
    ensures Tame(Advance(s, j).1, Advance(s, j).0.version)
    ensures forall other :: Tame(other, s.version) ==> Tame(other, Advance(s, j).0.version)
  {
    hide Names, SegmentsOf;
  }

  lemma IdleStays(s: Store, j: Job)
    requires NoOldRow(s) && Idle(s.published, j) && !j.Dropping?
    ensures NoOldRow(Advance(s, j).0) && Idle(s.published, Advance(s, j).1)
  {
    hide Names, SegmentsOf;
    var after := Advance(s, j).0;
    forall d | d in after.states ensures SegmentsOf(s.published, d) == [] {
      if j.Queue? && d !in s.states { assert d == j.todo[0] && d in j.todo; }
      if j.Indexing? && d !in s.states { assert d == j.d; }
    }
  }

  lemma OneMayDropStays(s: Store, j: Job, other: Job)
    requires OneMayDrop(s, j, other) && JobHolds(s, j) && JobHolds(s, other)
    ensures OneMayDrop(Advance(s, j).0, Advance(s, j).1, other)
    ensures j.Dropping? ==> forall d :: Marked(s.states, d) ==> SegmentsOf(s.published, d) == []
    ensures j.Dropping? && other.Indexing? ==> other.done == []
  {
    if Tame(j, s.version) { TameStays(s, j); }
    if j.Dropping? {
      assert NoOldRow(s) && Tame(other, s.version);
      hide NoOldRow;
      forall d | Marked(s.states, d) ensures SegmentsOf(s.published, d) == [] { OldRowless(s, d); }
    } else if NoOldRow(s) && Idle(s.published, j) {
      IdleStays(s, j);
      hide NoOldRow, Idle, Names, SegmentsOf;
    }
    hide Names, SegmentsOf;
  }

  lemma OldRowless(s: Store, d: string)
    requires NoOldRow(s) && Marked(s.states, d)
    ensures SegmentsOf(s.published, d) == []
  {
  }

  lemma PairStep(w: World, a: Action)
    requires |w.jobs| == 2 && OneMayDrop(w.store, w.jobs[0], w.jobs[1]) && Holds(w)
    ensures |Step(w, a).jobs| == 2 && OneMayDrop(Step(w, a).store, Step(w, a).jobs[0], Step(w, a).jobs[1])
    ensures Drops(w, a) ==> NothingToLose(w, a.job)
  {
    hide JobHolds, Tame, Idle, NoOldRow, Advance, StoreHolds, SegmentsOf;
    if a.job < 2 {
      var j, other := w.jobs[a.job], w.jobs[1 - a.job];
      assert JobHolds(w.store, w.jobs[0]) && JobHolds(w.store, w.jobs[1]);
      Swapped(w.store, w.jobs[0], w.jobs[1]);
      if a.Halt? {
        HaltStays(w.store, j, other);
        Swapped(w.store, Ended, other);
      } else {
        OneMayDropStays(w.store, j, other);
        Swapped(Advance(w.store, j).0, Advance(w.store, j).1, other);
      }
      hide OneMayDrop;
    }
  }

  lemma Swapped(s: Store, j: Job, other: Job)
    ensures OneMayDrop(s, j, other) <==> OneMayDrop(s, other, j)
  {
  }

  lemma HaltStays(s: Store, j: Job, other: Job)
    requires OneMayDrop(s, j, other)
    ensures OneMayDrop(s, Ended, other)
  {
  }

  lemma {:induction false} PairIsSafe(w: World, schedule: seq<Action>)
    requires |w.jobs| == 2 && OneMayDrop(w.store, w.jobs[0], w.jobs[1]) && Holds(w)
    ensures DropsClear(w, schedule)
    decreases |schedule|
  {
    if schedule != [] {
      PairStep(w, schedule[0]);
      StepHolds(w, schedule[0]);
      PairIsSafe(Step(w, schedule[0]), schedule[1..]);
    }
    hide Step, NothingToLose, Holds, OneMayDrop;
  }

  ghost predicate NoSegments(s: Store) { forall d :: d in s.published ==> s.published[d] == [] }

  /** When `n` rebuilds, started together, may overlap at will: there is at most one, or the file
      is current, or there is nothing to index, or there are two, the table is missing and no
      row from before speaks of a dataset with segments. */
  ghost predicate MayOverlap(s: Store, n: nat) {
    || n <= 1 || s.version >= CURRENT || NoSegments(s)
    || (n == 2 && !s.table && NoOldRow(s))
  }

  lemma FreshHolds(s: Store, n: nat)
    requires StoreHolds(s)
    ensures Holds(Fresh(s, n))
  {
    hide StoreHolds;
  }

  lemma OverlapIsSafe(s: Store, n: nat, schedule: seq<Action>)
    requires StoreHolds(s) && MayOverlap(s, n)
    ensures Sound(Exec(Fresh(s, n), schedule).store)
  {
    var w := Fresh(s, n);
    FreshHolds(s, n);
    if NoSegments(s) {
      ExecPublished(w, schedule);
    } else {
      if s.version >= CURRENT { CurrentNeverDrops(w, schedule); }
      else if n <= 1 { AloneIsSafe(w, schedule); }
      else { PairIsSafe(w, schedule); }
      ExecHolds(w, schedule);
    }
    hide Exec, DropsClear;
  }

  lemma OverlapBreaks(s: Store, n: nat) returns (schedule: seq<Action>)
    requires StoreHolds(s) && !MayOverlap(s, n)
    ensures !Sound(Exec(Fresh(s, n), schedule).store)
  {
    var w := Fresh(s, n);
    var d :| d in s.published && s.published[d] != [];
    assert SegmentsOf(s.published, d) != [];
    if s.table {
      schedule := TwoOpenersBreak(w, 0, 1, d);
    } else if n >= 3 {
      schedule := ThreeOpenersBreak(w, d);
    } else {
      var e :| e in s.states && SegmentsOf(s.published, e) != [];
      schedule := OldRowBreaks(w, e);
    }
    hide *;
  }

  /** Any number of rebuilds started together, in any interleaving, each stopped anywhere: every
      dataset marked ready stays completely searchable if and only if `MayOverlap`. */
  lemma RebuildsAreSafeIff(s: Store, n: nat)
    requires StoreHolds(s)
    ensures (forall schedule :: Sound(Exec(Fresh(s, n), schedule).store)) <==> MayOverlap(s, n)
  {
    hide Exec, MayOverlap, Sound, StoreHolds, Fresh;
    if MayOverlap(s, n) {
      forall schedule ensures Sound(Exec(Fresh(s, n), schedule).store) { OverlapIsSafe(s, n, schedule); }
    } else {
      var schedule := OverlapBreaks(s, n);
    }
  }

  /** Every drop of the trace happens with nothing ready, and every state but the last is sound:
      the first job has indexed one of two segments when the second drops and re-creates the
      table; the first indexes the other segment and marks the dataset ready. */
  lemma OverlapTrace()
    ensures var s := Store(map["d" := ["s1", "s2"]], map["d" := IndexRow(CURRENT, Building)], true, CURRENT, {"s1"});
      var w := World(s, [Indexing("d", ["s1"], ["s2"], []), Dropping]);
      && Holds(w) && NoneMarked(s.states)
      && Sound(Exec(w, [Go(1)]).store) && NoneMarked(Exec(w, [Go(1)]).store.states)
      && Sound(Exec(w, [Go(1), Go(1)]).store)
      && Sound(Exec(w, [Go(1), Go(1)] + [Go(0)]).store)
      && !Sound(Exec(w, [Go(1), Go(1)] + [Go(0)] + [Go(0)]).store)
  {
    var s := Store(map["d" := ["s1", "s2"]], map["d" := IndexRow(CURRENT, Building)], true, CURRENT, {"s1"});
    var w := World(s, [Indexing("d", ["s1"], ["s2"], []), Dropping]);
    assert ["s1"] + ["s2"] == ["s1", "s2"];
    DropStep(w, 1);
    var w2 := Exec(w, [Go(1), Go(1)]);
    ExecConcat(w, [Go(1), Go(1)], [Go(0)]);
    ExecOne(w2, Go(0));
    var w3 := Exec(w2, [Go(0)]);
    ExecConcat(w, [Go(1), Go(1)] + [Go(0)], [Go(0)]);
    ExecOne(w3, Go(0));
    hide Exec;
    assert "s1" != "s2" by { assert "s1"[1] != "s2"[1]; }
    assert "s1" in SegmentsOf(s.published, "d") by { assert ["s1", "s2"][0] == "s1"; }
    LostSegment(Exec(w3, [Go(0)]).store, "d", "s1");
  }
}
