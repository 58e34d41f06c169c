/**
 Producing, merging and pruning one (era, point, version) over shared storage. Any number of
 producers and merges interleave with a pruner whose listings are read name by name.
 */
module PruneProtocol {
  import opened Wrappers
  import opened Numbering

  datatype Storage = Storage(records: set<nat>, staged: set<nat>, merged: set<nat>)

  /** A process, by what it has done: a producer stages, then records; a merge publishes, then deletes. */
  datatype Proc = Producing(seed: nat) | Staged(seed: nat) | Merging(group: nat) | Cleaning(group: nat)

  /** `lost`: seeds whose file is gone without a merged file for it, until they are staged again. */
  datatype World = World(st: Storage, procs: map<nat, Proc>, lost: set<nat>)

  datatype Event =
    | StartProducer(id: nat, seed: nat)
    | Stage(id: nat)
    | Record(id: nat)
    | StartMerge(id: nat, group: nat)
    | Publish(id: nat)
    | DeleteStaged(id: nat, seed: nat)
    | Stop(id: nat) // done, failed or killed, at any point
    | DeleteRecord(seed: nat)
    | LoseStaged(seed: nat)
    | LoseMerged(group: nat)

  /** The seeds of the sample, and the size of its merge groups. */
  datatype Sample = Sample(n: nat, size: nat)
  {
    function Group(s: nat): nat { if size > 0 && s > 0 then GroupOf(size, s) else 0 }
    function Members(g: nat): set<nat> { set s: nat | 1 <= s <= n && Group(s) == g }
  }

  /** What a process has to have done before it takes the step; the storage itself is never asked. */
  predicate Enabled(c: Sample, w: World, e: Event) {
    match e
    case StartProducer(id, seed) => id !in w.procs && 1 <= seed <= c.n
    case StartMerge(id, group) => id !in w.procs && c.Members(group) <= w.st.staged
    case Stage(id) => id in w.procs && w.procs[id].Producing?
    case Record(id) => id in w.procs && w.procs[id].Staged?
    case Publish(id) => id in w.procs && w.procs[id].Merging?
    case DeleteStaged(id, seed) => id in w.procs && w.procs[id].Cleaning? && seed in c.Members(w.procs[id].group)
    case LoseStaged(seed) => seed in w.st.staged
    case LoseMerged(group) => group in w.st.merged
    case _ => true
  }

  /** Seeds that have neither a staged nor a merged file after the step, but had one before it. */
  function NewlyLost(c: Sample, w: World, st: Storage): set<nat> {
    set s: nat | 1 <= s <= c.n && s !in st.staged && c.Group(s) !in st.merged
      && (s in w.st.staged || c.Group(s) in w.st.merged)
  }

  function StorageAfter(c: Sample, w: World, e: Event): Storage
    requires Enabled(c, w, e)
  {
    match e
    case Stage(id) => w.st.(staged := w.st.staged + {w.procs[id].seed})
    case Record(id) => w.st.(records := w.st.records + {w.procs[id].seed})
    case Publish(id) => w.st.(merged := w.st.merged + {w.procs[id].group})
    case DeleteStaged(id, seed) => w.st.(staged := w.st.staged - {seed})
    case DeleteRecord(seed) => w.st.(records := w.st.records - {seed})
    case LoseStaged(seed) => w.st.(staged := w.st.staged - {seed})
    case LoseMerged(group) => w.st.(merged := w.st.merged - {group})
    case _ => w.st
  }

  function ProcsAfter(c: Sample, w: World, e: Event): map<nat, Proc>
    requires Enabled(c, w, e)
  {
    match e
    case StartProducer(id, seed) => w.procs[id := Producing(seed)]
    case StartMerge(id, group) => w.procs[id := Merging(group)]
    case Stage(id) => w.procs[id := Staged(w.procs[id].seed)]
    case Publish(id) => w.procs[id := Cleaning(w.procs[id].group)]
    case Record(id) => w.procs - {id}
    case Stop(id) => w.procs - {id}
    case _ => w.procs
  }

  function Step(c: Sample, w: World, e: Event): World
    requires Enabled(c, w, e)
  {
    var st := StorageAfter(c, w, e);
    World(st, ProcsAfter(c, w, e), (w.lost - (if e.Stage? then {w.procs[e.id].seed} else {})) + NewlyLost(c, w, st))
  }

  const EMPTY := World(Storage({}, {}, {}), map[], {})

  ghost predicate IsRun(c: Sample, ws: seq<World>, run: seq<Event>) {
    && |ws| == |run| + 1 && ws[0] == EMPTY
    && forall i :: 0 <= i < |run| ==> Enabled(c, ws[i], run[i]) && ws[i + 1] == Step(c, ws[i], run[i])
  }

  // ---- what every step keeps -------------------------------------------------------------------

  predicate Accounted(c: Sample, w: World, s: nat) {
    s in w.st.staged || c.Group(s) in w.st.merged || s in w.lost
  }

  ghost predicate Inv(c: Sample, w: World) {
    && (forall s <- w.st.records :: 1 <= s <= c.n && Accounted(c, w, s))
    && (forall id <- w.procs :: w.procs[id].Producing? || w.procs[id].Staged? ==> 1 <= w.procs[id].seed <= c.n)
    && (forall id <- w.procs :: w.procs[id].Staged? ==> Accounted(c, w, w.procs[id].seed))
  }

  /** A seed that is accounted for stays so: only a loss takes its file, and then it is counted lost. */
  lemma AccountedStays(c: Sample, w: World, e: Event, s: nat)
    requires Enabled(c, w, e) && 1 <= s <= c.n && Accounted(c, w, s)
    ensures Accounted(c, Step(c, w, e), s)
  {}

  lemma StepKeepsInv(c: Sample, w: World, e: Event)
    requires Enabled(c, w, e) && Inv(c, w)
    ensures Inv(c, Step(c, w, e))
  {}

  lemma {:induction false} InvAlways(c: Sample, ws: seq<World>, run: seq<Event>, n: nat)
    requires IsRun(c, ws, run) && n <= |run|
    ensures Inv(c, ws[n])
  {
    if n > 0 {
      InvAlways(c, ws, run, n - 1);
      StepKeepsInv(c, ws[n - 1], run[n - 1]);
    }
  }

  /** All seeds of the group were staged at one moment up to `n`. */
  ghost predicate WereStaged(c: Sample, ws: seq<World>, n: nat, g: nat)
    requires n < |ws|
  {
    exists i :: 0 <= i <= n && c.Members(g) <= ws[i].st.staged
  }

  /** Whatever is merged, or being merged, had all its inputs when its merge began. */
  lemma {:induction false} MergedWasStaged(c: Sample, ws: seq<World>, run: seq<Event>, n: nat)
    requires IsRun(c, ws, run) && n <= |run|
    ensures forall g <- ws[n].st.merged :: WereStaged(c, ws, n, g)
    ensures forall id <- ws[n].procs :: ws[n].procs[id].Merging? || ws[n].procs[id].Cleaning? ==>
              WereStaged(c, ws, n, ws[n].procs[id].group)
  {
    if n > 0 {
      MergedWasStaged(c, ws, run, n - 1);
      forall g | WereStaged(c, ws, n - 1, g) ensures WereStaged(c, ws, n, g) {}
      if run[n - 1].StartMerge? { assert WereStaged(c, ws, n, run[n - 1].group); }
    }
  }

  lemma {:induction false} AccountedUntil(c: Sample, ws: seq<World>, run: seq<Event>, i: nat, j: nat, s: nat)
    requires IsRun(c, ws, run) && i <= j <= |run| && 1 <= s <= c.n && Accounted(c, ws[i], s)
    ensures Accounted(c, ws[j], s)
  {
    if i < j {
      AccountedUntil(c, ws, run, i, j - 1, s);
      AccountedStays(c, ws[j - 1], run[j - 1], s);
    }
  }

  lemma {:induction false} MergedUntilLost(c: Sample, ws: seq<World>, run: seq<Event>, j: nat, k: nat, g: nat)
    requires IsRun(c, ws, run) && j <= k <= |run| && g in ws[j].st.merged && g !in ws[k].st.merged
    ensures exists m :: j <= m < k && run[m] == LoseMerged(g)
  {
    if g in ws[k - 1].st.merged {
      assert run[k - 1] == LoseMerged(g);
    } else {
      MergedUntilLost(c, ws, run, j, k - 1, g);
    }
  }

  // ---- the pruner's three listings -------------------------------------------------------------

  /** The directories a sweep lists. */
  datatype Directory = Produced | Staging | MergedFiles

  function In(st: Storage, d: Directory): set<nat> {
    match d
    case Produced => st.records
    case Staging => st.staged
    case MergedFiles => st.merged
  }

  /** Each name of a listing is read at its own moment between `lo` and `hi`. */
  ghost predicate Reads(ws: seq<World>, d: Directory, lo: nat, hi: nat, names: set<nat>) {
    lo <= hi < |ws| && forall x: nat :: exists m :: lo <= m <= hi && (x in names <==> x in In(ws[m].st, d))
  }

  /** The records no staged and no merged name accounts for. */
  function Stale(c: Sample, records: set<nat>, staged: set<nat>, merged: set<nat>): set<nat> {
    set s <- records | 1 <= s <= c.n && s !in staged && c.Group(s) !in merged
  }

  /** At some moment from `lo` to `hi` the seed had lost its file. */
  ghost predicate LostWithin(c: Sample, ws: seq<World>, run: seq<Event>, lo: nat, hi: nat, s: nat)
    requires |ws| == |run| + 1 && hi <= |run|
  {
    || (exists m :: lo <= m <= hi && s in ws[m].lost)
    || (exists m :: lo <= m < hi && run[m] == LoseMerged(c.Group(s)))
  }

  /**
   Records, then staged, then merged: whatever else runs meanwhile, a seed the pruner calls stale had
   really lost its file during the sweep.
   */
  lemma StaleMeansLost(c: Sample, ws: seq<World>, run: seq<Event>, a: nat, b: nat, d: nat, e: nat,
                       records: set<nat>, staged: set<nat>, merged: set<nat>)
    requires IsRun(c, ws, run)
    requires Reads(ws, Produced, a, b, records) && Reads(ws, Staging, b, d, staged) && Reads(ws, MergedFiles, d, e, merged)
    ensures forall s <- Stale(c, records, staged, merged) :: LostWithin(c, ws, run, a, e, s)
  {
    forall s <- Stale(c, records, staged, merged) ensures LostWithin(c, ws, run, a, e, s) {
      var i :| a <= i <= b && s in In(ws[i].st, Produced);
      var j :| b <= j <= d && s !in In(ws[j].st, Staging);
      var g := c.Group(s);
      var k :| d <= k <= e && (g in merged <==> g in In(ws[k].st, MergedFiles));
      InvAlways(c, ws, run, i);
      AccountedUntil(c, ws, run, i, j, s);
      if s !in ws[j].lost {
        MergedUntilLost(c, ws, run, j, k, g);
        var m :| j <= m < k && run[m] == LoseMerged(g);
      }
    }
  }

  predicate Loss(e: Event) { e.LoseStaged? || e.LoseMerged? }

  /** Without a loss, no merge that is cleaning up has lost its merged file, and no seed its file. */
  lemma {:induction false} NoLossNothingLost(c: Sample, ws: seq<World>, run: seq<Event>, n: nat)
    requires IsRun(c, ws, run) && n <= |run| && forall e <- run :: !Loss(e)
    ensures ws[n].lost == {}
    ensures forall id <- ws[n].procs :: ws[n].procs[id].Cleaning? ==> ws[n].procs[id].group in ws[n].st.merged
  {
    if n > 0 {
      NoLossNothingLost(c, ws, run, n - 1);
      assert run[n - 1] in run;
    }
  }

  lemma NoLossNotLost(c: Sample, ws: seq<World>, run: seq<Event>, lo: nat, hi: nat, s: nat)
    requires IsRun(c, ws, run) && hi <= |run| && forall e <- run :: !Loss(e)
    ensures !LostWithin(c, ws, run, lo, hi, s)
  {
    forall m | lo <= m <= hi ensures s !in ws[m].lost { NoLossNothingLost(c, ws, run, m); }
    forall m | lo <= m < hi ensures run[m] != LoseMerged(c.Group(s)) { assert run[m] in run; }
  }

  /** So in a production that loses nothing, a sweep finds nothing to delete. */
  lemma NoLossNothingPruned(c: Sample, ws: seq<World>, run: seq<Event>, a: nat, b: nat, d: nat, e: nat,
                            records: set<nat>, staged: set<nat>, merged: set<nat>)
    requires IsRun(c, ws, run) && forall e <- run :: !Loss(e)
    requires Reads(ws, Produced, a, b, records) && Reads(ws, Staging, b, d, staged) && Reads(ws, MergedFiles, d, e, merged)
    ensures Stale(c, records, staged, merged) == {}
  {
    StaleMeansLost(c, ws, run, a, b, d, e, records, staged, merged);
    forall s: nat ensures !LostWithin(c, ws, run, a, e, s) { NoLossNotLost(c, ws, run, a, e, s); }
  }

  // ---- the order matters -----------------------------------------------------------------------

  const ONE := Sample(1, 1)
  const MERGE_RUN := [StartProducer(0, 1), Stage(0), Record(0), StartMerge(1, 0), Publish(1), DeleteStaged(1, 1)]

  const PRODUCED := World(Storage({1}, {1}, {}), map[], {})
  const MERGE_WORLDS := [
    EMPTY, EMPTY.(procs := map[0 := Producing(1)]),
    World(Storage({}, {1}, {}), map[0 := Staged(1)], {}), PRODUCED,
    PRODUCED.(procs := map[1 := Merging(0)]),
    World(Storage({1}, {1}, {0}), map[1 := Cleaning(0)], {}),
    World(Storage({1}, {}, {0}), map[1 := Cleaning(0)], {})]

  lemma MergeRunSteps(i: nat)
    requires i < 6
    ensures Enabled(ONE, MERGE_WORLDS[i], MERGE_RUN[i]) && MERGE_WORLDS[i + 1] == Step(ONE, MERGE_WORLDS[i], MERGE_RUN[i])
  {}

  /** Merged before staged: one merge in between, and a seed nothing ever happened to is called stale. */
  lemma MergedBeforeStagedIsUnsafe()
    ensures IsRun(ONE, MERGE_WORLDS, MERGE_RUN) && (forall e <- MERGE_RUN :: !Loss(e))
    ensures Reads(MERGE_WORLDS, Produced, 3, 3, {1}) && Reads(MERGE_WORLDS, MergedFiles, 3, 3, {})
    ensures Reads(MERGE_WORLDS, Staging, 6, 6, {})
    ensures Stale(ONE, {1}, {}, {}) == {1}
  {
    forall i: nat | i < 6
      ensures Enabled(ONE, MERGE_WORLDS[i], MERGE_RUN[i]) && MERGE_WORLDS[i + 1] == Step(ONE, MERGE_WORLDS[i], MERGE_RUN[i])
    { MergeRunSteps(i); }
    assert MERGE_WORLDS[3] == PRODUCED && MERGE_WORLDS[6].st.staged == {};
  }
}
