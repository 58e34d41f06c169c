/**
 `ProductionTask`: produce, delete the records of lost files, produce again, merge. luigi runs `run()` from
 the top after every batch of dependencies; the repair bound is counted on the task instance.
 */
module Production {
  datatype Config = Config(maxRepairs: int, oneProcess: bool)
  {
    function Repairs(): nat { if maxRepairs > 0 then maxRepairs else 0 }
  }

  datatype Failure = NotOneProcess | SweepFailed | StillLosing | DependencyFailed

  /** What a pass ends in: a dependency it waits for, its end, or an error. */
  datatype Yield = WaitProduce | WaitMerge | Finished | Raised(why: Failure)

  /**
   A sweep: how many records it deleted, and whether it failed. It goes through every (era, point, version)
   before it raises for those it could not do, so one that fails may have deleted in others.
   */
  datatype Sweep = Sweep(deleted: nat, fails: bool)

  /**
   What a pass meets: whether `_produce` is complete when it starts, whether the merge is when it asks
   first, what a sweep does, whether `_produce` is complete after the sweep and the merge when it is asked
   for last, and how the dependency it waits for ends. Storage may lose anything in between, so an answer
   may be no after a yes.
   */
  datatype Meets = Meets(produced: bool, merged: bool, sweep: Sweep, reproduced: bool, mergedLater: bool, succeeds: bool)

  /**
   `produced` and `merged`: the last word on the two requirements. `deletions`: sweeps that deleted.
   `losses`: how often a requirement known to be complete was found incomplete without such a sweep.
   */
  datatype Task = Task(rounds: nat, produced: bool, merged: bool, deletions: nat, losses: nat)
  {
    function FindProduced(now: bool): Task {
      this.(produced := now, losses := losses + if produced && !now then 1 else 0)
    }

    function FindMerged(now: bool): Task {
      this.(merged := now, losses := losses + if merged && !now then 1 else 0)
    }

    function Swept(m: Meets): Task {
      if m.sweep.deleted == 0 then this else this.(deletions := deletions + 1, produced := m.reproduced)
    }
  }

  datatype Outcome = Running | Done | Failed(why: Failure)

  // ---- one pass --------------------------------------------------------------------------------

  /** From the request to merge on. */
  function AskMerge(t: Task, m: Meets): (Task, Yield) {
    var t1 := t.FindMerged(m.mergedLater);
    (t1, if t1.merged then Finished else WaitMerge)
  }

  function RunPass(cfg: Config, t: Task, m: Meets): (Task, Yield) {
    var t0 := t.FindProduced(m.produced);
    if cfg.maxRepairs > 0 && !cfg.oneProcess then (t, Raised(NotOneProcess))
    else if !t0.produced then (t0, WaitProduce)
    else if cfg.maxRepairs <= 0 then AskMerge(t0, m)
    else
      var t1 := t0.FindMerged(m.merged);
      if t1.merged then AskMerge(t1, m)
      else if m.sweep.fails then (t1.Swept(m), Raised(SweepFailed))
      else if m.sweep.deleted == 0 then AskMerge(t1, m)
      else
        var swept := t1.Swept(m);
        if swept.rounds >= cfg.maxRepairs then (swept, Raised(StillLosing))
        else
          var counted := swept.(rounds := swept.rounds + 1);
          if m.reproduced then AskMerge(counted, m) else (counted, WaitProduce)
  }

  /** What luigi makes of a pass: it runs the dependency, and the task again only if that succeeded. */
  function Scheduled(t: Task, y: Yield, succeeds: bool): (Task, Outcome) {
    match y
    case Finished => (t, Done)
    case Raised(why) => (t, Failed(why))
    case WaitProduce => if succeeds then (t.(produced := true), Running) else (t, Failed(DependencyFailed))
    case WaitMerge => if succeeds then (t.(merged := true), Running) else (t, Failed(DependencyFailed))
  }

  function Pass(cfg: Config, t: Task, m: Meets): (Task, Outcome) {
    var (t1, y) := RunPass(cfg, t, m);
    Scheduled(t1, y, m.succeeds)
  }

  /** The first `n` passes; nothing follows an end. */
  function Drive(cfg: Config, start: Task, meets: seq<Meets>, n: nat): (Task, Outcome)
    requires n <= |meets|
  {
    if n == 0 then (start, Running)
    else
      var (t, o) := Drive(cfg, start, meets, n - 1);
      if o.Running? then Pass(cfg, t, meets[n - 1]) else (t, o)
  }

  // ---- the task's object -----------------------------------------------------------------------

  class ProductionTask {
    const cfg: Config
    var rounds: nat
    ghost var seen: Task

    ghost predicate Valid() reads this { seen.rounds == rounds }

    constructor (cfg: Config, produced: bool, merged: bool)
      ensures Valid() && this.cfg == cfg && seen == Task(0, produced, merged, 0, 0)
    {
      this.cfg, rounds, seen := cfg, 0, Task(0, produced, merged, 0, 0);
    }

    method Run(m: Meets) returns (y: Yield)
      requires Valid()
      modifies this
      ensures Valid() && (seen, y) == RunPass(cfg, old(seen), m)
    {
      if cfg.maxRepairs > 0 && !cfg.oneProcess { return Raised(NotOneProcess); }
      seen := seen.FindProduced(m.produced);
      if !m.produced { return WaitProduce; }
      if cfg.maxRepairs > 0 {
        seen := seen.FindMerged(m.merged);
        if !m.merged {
          seen := seen.Swept(m);
          if m.sweep.fails { return Raised(SweepFailed); }
          if m.sweep.deleted > 0 {
            if rounds >= cfg.maxRepairs { return Raised(StillLosing); }
            rounds := rounds + 1;
            seen := seen.(rounds := rounds);
            if !m.reproduced { return WaitProduce; }
          }
        }
      }
      seen := seen.FindMerged(m.mergedLater);
      return if m.mergedLater then Finished else WaitMerge;
    }
  }

  // ---- whole runs ------------------------------------------------------------------------------

  function New(produced: bool, merged: bool): Task { Task(0, produced, merged, 0, 0) }

  /** What is left to do, in passes. */
  function Left(cfg: Config, t: Task): int {
    (if t.produced then 0 else 1) + (cfg.Repairs() - t.rounds) + if t.merged then 0 else 1
  }

  ghost predicate Counted(cfg: Config, t: Task, o: Outcome) {
    && t.rounds <= cfg.Repairs()
    && (o == Failed(SweepFailed) ==> t.rounds <= t.deletions <= t.rounds + 1)
    && (o == Failed(StillLosing) ==> t.deletions == t.rounds + 1 && t.rounds == cfg.Repairs())
    && (o != Failed(SweepFailed) && o != Failed(StillLosing) ==> t.deletions == t.rounds)
    && (o.Done? ==> t.merged)
  }

  /** Every pass keeps the count of deleting sweeps. */
  lemma PassCounts(cfg: Config, t: Task, m: Meets)
    requires Counted(cfg, t, Running)
    ensures var (t', o) := Pass(cfg, t, m); Counted(cfg, t', o)
  {}

  /** A pass that does not end the run gets on with it, unless something was lost. */
  lemma PassGetsOn(cfg: Config, t: Task, m: Meets)
    requires Counted(cfg, t, Running)
    ensures var (t', o) := Pass(cfg, t, m);
      o.Running? ==> Left(cfg, t') - t'.losses < Left(cfg, t) - t.losses
  {}

  lemma {:induction false} DriveGetsOn(cfg: Config, produced: bool, merged: bool, meets: seq<Meets>, n: nat)
    requires n <= |meets|
    ensures var (t, o) := Drive(cfg, New(produced, merged), meets, n);
      Counted(cfg, t, o) && (o.Running? ==> 0 <= Left(cfg, t) <= cfg.Repairs() + 2 + t.losses - n)
  {
    if n > 0 {
      DriveGetsOn(cfg, produced, merged, meets, n - 1);
      var (t, o) := Drive(cfg, New(produced, merged), meets, n - 1);
      if o.Running? {
        PassCounts(cfg, t, meets[n - 1]);
        PassGetsOn(cfg, t, meets[n - 1]);
      }
    }
  }

  /**
   The repair is bounded: at most `max_repairs + 1` sweeps delete something. Of the runs in which so many
   did, those whose last sweep also failed end in its error, and all others in giving up over losses; and no
   other run gives up over losses. A run returns only with the merge complete. As for passes, after
   `max_repairs + 3` and one more for every loss seen outside a sweep it has returned or failed.
   */
  lemma {:induction false} RepairTerminates(cfg: Config, produced: bool, merged: bool, meets: seq<Meets>, n: nat)
    requires n <= |meets|
    ensures var (t, o) := Drive(cfg, New(produced, merged), meets, n);
      && (n >= cfg.Repairs() + 3 + t.losses ==> !o.Running?)
      && (o.Done? ==> t.merged && t.deletions <= cfg.Repairs())
      && t.deletions <= cfg.Repairs() + 1
      && (o == Failed(StillLosing) <==> t.deletions == cfg.Repairs() + 1 && o != Failed(SweepFailed))
  {
    DriveGetsOn(cfg, produced, merged, meets, n);
  }

  /** Which sweep failed is the last one met, and it alone may have deleted without being counted. */
  lemma {:induction false} SweepFailsLast(cfg: Config, produced: bool, merged: bool, meets: seq<Meets>, n: nat)
    requires 0 < n <= |meets| && Drive(cfg, New(produced, merged), meets, n - 1).1.Running?
    ensures var (t, o) := Drive(cfg, New(produced, merged), meets, n);
      o == Failed(SweepFailed) ==>
        && meets[n - 1].sweep.fails
        && t.deletions == t.rounds + if meets[n - 1].sweep.deleted > 0 then 1 else 0
  {
    DriveGetsOn(cfg, produced, merged, meets, n - 1);
  }

  const LOST := Meets(false, false, Sweep(0, false), false, false, true)
  const SWEPT := Meets(true, false, Sweep(1, false), false, false, true)
  const MERGING := Meets(true, false, Sweep(0, false), false, false, true)

  /** Every round taken, the merge waited for, and from then on a record lost between any two passes. */
  function LongRun(repairs: nat, n: nat): seq<Meets> {
    seq(n, i => if 0 < i <= repairs then SWEPT else if i == repairs + 1 then MERGING else LOST)
  }

  lemma {:induction false} LongRunAt(cfg: Config, n: nat, i: nat)
    requires (cfg.maxRepairs > 0 ==> cfg.oneProcess) && i <= n
    ensures var r := cfg.Repairs();
      Drive(cfg, New(false, false), LongRun(r, n), i) == (
        if i == 0 then New(false, false)
        else if i <= r + 1 then Task(i - 1, true, false, i - 1, 0)
        else Task(r, true, true, r, i - r - 2), Running)
  {
    if i > 0 { LongRunAt(cfg, n, i - 1); }
  }

  /** No smaller bound would do: for any number of losses some run is still going one pass before it. */
  lemma {:induction false} BoundIsReached(cfg: Config, losses: nat)
    requires cfg.maxRepairs > 0 ==> cfg.oneProcess
    ensures var n := cfg.Repairs() + 2 + losses;
      var (t, o) := Drive(cfg, New(false, false), LongRun(cfg.Repairs(), n), n);
      o.Running? && t.losses == losses
  {
    var n := cfg.Repairs() + 2 + losses;
    LongRunAt(cfg, n, n);
  }

  /**
   With records lost before every pass the run never ends: the task waits for `_produce` again and again,
   and neither sweeps nor counts a round.
   */
  lemma {:induction false} EndlessLosses(cfg: Config, produced: bool, merged: bool, meets: seq<Meets>, n: nat)
    requires (cfg.maxRepairs > 0 ==> cfg.oneProcess) && n <= |meets|
    requires forall m <- meets :: !m.produced && m.succeeds
    ensures var (t, o) := Drive(cfg, New(produced, merged), meets, n);
      o.Running? && t.rounds == t.deletions == 0 && n <= t.losses + 1
  {
    if n > 0 {
      EndlessLosses(cfg, produced, merged, meets, n - 1);
      assert meets[n - 1] in meets;
    }
  }

  /** Without a repair bound nothing is ever deleted, and several processes are no error. */
  lemma {:induction false} NoRepairsNoDeletions(cfg: Config, produced: bool, merged: bool, meets: seq<Meets>, n: nat)
    requires cfg.maxRepairs <= 0 && n <= |meets|
    ensures var (t, o) := Drive(cfg, New(produced, merged), meets, n);
      t.deletions == 0 && (o.Failed? ==> o.why == DependencyFailed)
  {
    if n > 0 { NoRepairsNoDeletions(cfg, produced, merged, meets, n - 1); }
  }

  /**
   A sweep that deletes and fails is not given up over: after all its rounds the task ends in the sweep's
   error, though one sweep more than the rounds has deleted.
   */
  lemma {:induction false} DeletingSweepFails(cfg: Config)
    requires cfg.maxRepairs > 0 && cfg.oneProcess
    ensures var n := cfg.Repairs() + 1;
      var meets := LongRun(cfg.Repairs(), n) + [Meets(true, false, Sweep(1, true), false, false, true)];
      var (t, o) := Drive(cfg, New(false, false), meets, n + 1);
      o == Failed(SweepFailed) && t.rounds == cfg.Repairs() && t.deletions == cfg.Repairs() + 1
  {
    var n := cfg.Repairs() + 1;
    var meets := LongRun(cfg.Repairs(), n) + [Meets(true, false, Sweep(1, true), false, false, true)];
    DrivePrefix(cfg, New(false, false), LongRun(cfg.Repairs(), n), meets, n);
    LongRunAt(cfg, n, n);
  }

  lemma {:induction false} DrivePrefix(cfg: Config, start: Task, a: seq<Meets>, b: seq<Meets>, n: nat)
    requires n <= |a| <= |b| && forall i | 0 <= i < n :: a[i] == b[i]
    ensures Drive(cfg, start, a, n) == Drive(cfg, start, b, n)
  {
    if n > 0 { DrivePrefix(cfg, start, a, b, n - 1); }
  }

  // ---- what each pass does, over whole runs ----------------------------------------------------

  /** Several processes are an error if and only if there is a bound to keep; it is met before anything else is done. */
  lemma {:induction false} OneProcessIsNeeded(cfg: Config, produced: bool, merged: bool, meets: seq<Meets>, n: nat)
    requires 0 < n <= |meets|
    ensures var (t, o) := Drive(cfg, New(produced, merged), meets, n);
      && (o == Failed(NotOneProcess) <==> cfg.maxRepairs > 0 && !cfg.oneProcess)
      && (o == Failed(NotOneProcess) ==> t == New(produced, merged))
  {
    if n > 1 { OneProcessIsNeeded(cfg, produced, merged, meets, n - 1); }
  }

  /** The pass finds everything produced and the merge not complete, and its sweep deletes something. */
  predicate SweepDeletes(m: Meets) { m.produced && !m.merged && m.sweep.deleted > 0 }

  function PassesThatDelete(meets: seq<Meets>, n: nat): nat
    requires n <= |meets|
  {
    if n == 0 then 0 else PassesThatDelete(meets, n - 1) + if SweepDeletes(meets[n - 1]) then 1 else 0
  }

  /** Records are deleted in exactly the passes that find everything produced and the merge not complete. */
  lemma {:induction false} DeletesExactlyWhen(cfg: Config, produced: bool, merged: bool, meets: seq<Meets>, n: nat)
    requires cfg.maxRepairs > 0 && cfg.oneProcess && n <= |meets|
    requires n > 0 ==> Drive(cfg, New(produced, merged), meets, n - 1).1.Running?
    ensures Drive(cfg, New(produced, merged), meets, n).0.deletions == PassesThatDelete(meets, n)
  {
    if n > 0 {
      var (t, o) := Drive(cfg, New(produced, merged), meets, n - 1);
      DeletesExactlyWhen(cfg, produced, merged, meets, n - 1);
      PassDeletes(cfg, t, meets[n - 1]);
    }
  }

  lemma PassDeletes(cfg: Config, t: Task, m: Meets)
    requires cfg.maxRepairs > 0 && cfg.oneProcess
    ensures Pass(cfg, t, m).0.deletions == t.deletions + if SweepDeletes(m) then 1 else 0
    ensures RunPass(cfg, t, m).0.produced == if SweepDeletes(m) then m.reproduced else m.produced
  {}

  /** The merge is asked for, and the run ends well, only with everything produced by the last word on it. */
  lemma MergesWhatIsProduced(cfg: Config, t: Task, m: Meets)
    ensures var (t', y) := RunPass(cfg, t, m); y.WaitMerge? || y.Finished? ==> t'.produced
  {}

  /**
   How a run ends: well exactly if the merge is found complete when it is asked for last, in the sweep's
   error exactly if one failed, and over losses exactly if one deleted with all rounds taken.
   */
  lemma EndsExactlyWhen(cfg: Config, t: Task, m: Meets)
    requires cfg.maxRepairs > 0 ==> cfg.oneProcess
    ensures var o := Pass(cfg, t, m).1; var sweeps := cfg.maxRepairs > 0 && m.produced && !m.merged;
      && (o == Failed(SweepFailed) <==> sweeps && m.sweep.fails)
      && (o == Failed(StillLosing) <==> sweeps && !m.sweep.fails && m.sweep.deleted > 0 && t.rounds >= cfg.maxRepairs)
      && (o.Done? <==> m.produced && m.mergedLater && (sweeps ==>
            !m.sweep.fails && (m.sweep.deleted == 0 || (t.rounds < cfg.maxRepairs && m.reproduced))))
      && (o == Failed(DependencyFailed) <==> !m.succeeds && !o.Done? && o != Failed(SweepFailed) && o != Failed(StillLosing))
  {}
}
