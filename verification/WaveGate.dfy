/**
 The submission side of the CRAB driver: jobs go out in waves, retries wait in front of the backlog
 until a wave is worth it or their release window is over. law's own `submit` is an assumed step.
 */
module WaveGate {
  import opened Wrappers

  type JobNum = nat

  datatype Job = Job(num: JobNum, branches: seq<nat>)

  const DEFAULT_REFILL_FRACTION := 0.2
  const DEFAULT_RETRY_RELEASE_MINUTES := 45.0

  /** A setting as `float` reads it; Unreadable also stands for one that is not given. */
  datatype Setting = Unreadable | Number(value: real) | PlusInfinity | MinusInfinity | NotANumber

  datatype Config = Config(nParallel: nat, nParallelMax: nat, refillSetting: Setting, releaseSetting: Setting)
  {
    /** None is not a number: `min` and `max` let that through, and every comparison with it is false. */
    function Refill(): (f: Option<real>)
      ensures f.Some? ==> 0.0 <= f.value <= 1.0
      ensures f.None? <==> refillSetting == NotANumber
    {
      match refillSetting
      case NotANumber => None
      case PlusInfinity => Some(1.0)
      case MinusInfinity => Some(0.0)
      case Number(raw) => Some(if raw < 0.0 then 0.0 else if raw > 1.0 then 1.0 else raw)
      case Unreadable => Some(DEFAULT_REFILL_FRACTION)
    }

    /** The release window, in seconds. Here what is not finite is replaced by the default. */
    function Window(): (w: real)
      ensures w >= 0.0
    {
      var minutes := if releaseSetting.Number? then releaseSetting.value else DEFAULT_RETRY_RELEASE_MINUTES;
      if minutes < 0.0 then 0.0 else minutes * 60.0
    }

    function MinWave(): Option<real> {
      if Refill().None? then None else Some(Refill().value * nParallel as real)
    }

    predicate Unlimited() { nParallel >= nParallelMax }
  }

  /** law's job data and the proxy's clock. `unsubmitted` is an ordered dictionary. */
  datatype State = State(jobs: map<JobNum, seq<nat>>, unsubmitted: seq<Job>, attempts: set<JobNum>, since: Option<real>)

  function NumsUpTo(list: seq<Job>, k: nat): set<JobNum>
    requires k <= |list|
  {
    if k == 0 then {} else NumsUpTo(list, k - 1) + {list[k - 1].num}
  }

  function Nums(list: seq<Job>): set<JobNum> { NumsUpTo(list, |list|) }

  /** The retries held back: only a retry is both unsubmitted and counted as an attempt. */
  function Parked(st: State): set<JobNum> { Nums(st.unsubmitted) * st.attempts }

  function LiveUpTo(list: seq<Job>, skip: set<JobNum>, k: nat): seq<Job>
    requires k <= |list|
  {
    if k == 0 then []
    else LiveUpTo(list, skip, k - 1) + if list[k - 1].num in skip then [] else [list[k - 1]]
  }

  /** The jobs law's skip verdict leaves, in order. */
  function Live(list: seq<Job>, skip: set<JobNum>): seq<Job> { LiveUpTo(list, skip, |list|) }

  function Without(jobs: map<JobNum, seq<nat>>, nums: set<JobNum>): map<JobNum, seq<nat>> { jobs - nums }

  function WithUpTo(jobs: map<JobNum, seq<nat>>, list: seq<Job>, k: nat): map<JobNum, seq<nat>>
    requires k <= |list|
  {
    if k == 0 then jobs else WithUpTo(jobs, list, k - 1)[list[k - 1].num := list[k - 1].branches]
  }

  function With(jobs: map<JobNum, seq<nat>>, list: seq<Job>): map<JobNum, seq<nat>> { WithUpTo(jobs, list, |list|) }

  // ---- the clock -------------------------------------------------------------------------------

  function ClockAfter(st: State, now: real, afterRelease: bool): State {
    if Parked(st) == {} then st.(since := None)
    else if afterRelease || st.since.None? then st.(since := Some(now))
    else st
  }

  predicate Due(cfg: Config, st: State, now: real) {
    st.since.Some? && now - st.since.value >= cfg.Window()
  }

  function Min(a: int, b: int): int { if a < b then a else b }

  // ---- the gate --------------------------------------------------------------------------------

  predicate FullWave(minWave: Option<real>, n: int) { minWave.Some? && n as real >= minWave.value }

  predicate OutOfReach(minWave: Option<real>, n: int) { minWave.Some? && (n as real) < minWave.value }

  /** What opens the gate whatever the clock says: a full wave and room for it, or none in reach. */
  predicate OpensBySize(cfg: Config, nActive: nat, nBacklog: nat, nRetry: nat) {
    || cfg.Unlimited()
    || nBacklog + nRetry == 0
    || FullWave(cfg.MinWave(), Min(nBacklog, cfg.nParallel - nActive))
    || OutOfReach(cfg.MinWave(), nActive + nBacklog + nRetry)
  }

  predicate Opens(cfg: Config, st: State, nActive: nat, nRetry: nat, now: real) {
    OpensBySize(cfg, nActive, |st.unsubmitted|, nRetry) || Due(cfg, st, now)
  }

  // ---- the steps -------------------------------------------------------------------------------

  function DropComplete(st: State, skip: set<JobNum>): State {
    st.(unsubmitted := Live(st.unsubmitted, skip))
  }

  function Park(st: State, offered: seq<Job>, skip: set<JobNum>, now: real): State {
    var parked := Live(offered, skip);
    if parked == [] then st
    else ClockAfter(st.(jobs := Without(st.jobs, Nums(parked)), unsubmitted := parked + st.unsubmitted), now, false)
  }

  function Take(list: seq<Job>, room: int): seq<Job> { if room <= 0 then [] else list[..Min(room, |list|)] }

  function Leave(list: seq<Job>, room: int): seq<Job> { if room <= 0 then list else list[Min(room, |list|)..] }

  /** The state after a round, and the jobs it submitted. */
  datatype Round = Round(st: State, submitted: seq<Job>)

  /** law's second half: after the retries, the backlog from its front while there are slots. */
  function LawFill(st: State, again: seq<Job>, skip: set<JobNum>, room: int): Round {
    var waiting := Live(st.unsubmitted, skip);
    var submitted := again + Take(waiting, room);
    Round(st.(jobs := With(st.jobs, submitted), unsubmitted := Leave(waiting, room)), submitted)
  }

  /** law's `submit`: the offered retries first; those without a slot go back behind the backlog. */
  function LawSubmit(st: State, offered: seq<Job>, skip: set<JobNum>, slots: int): Round {
    var retries := Live(offered, skip);
    var again, over := Take(retries, slots), Leave(retries, slots);
    LawFill(st.(jobs := Without(st.jobs, Nums(over)), unsubmitted := st.unsubmitted + over), again, skip, slots - |again|)
  }

  /** What follows the gate: the wave goes to law, or its retries are parked. */
  function AfterGate(cfg: Config, st: State, offered: seq<Job>, skip: set<JobNum>, nActive: nat, now: real, open: bool): Round {
    if open then
      var law := LawSubmit(st, offered, skip, cfg.nParallel - nActive);
      law.(st := ClockAfter(law.st, now, true))
    else Round(Park(st, offered, skip, now), [])
  }

  /** One call of `submit`; `readable` says whether law's own tree can be read. */
  function Submit(cfg: Config, st: State, offered: seq<Job>, skip: set<JobNum>, nActive: nat, readable: bool, now: real)
    : Round
  {
    if !readable then Round(Park(st, offered, skip, now), [])
    else
      var st1 := ClockAfter(st, now, false);
      AfterGate(cfg, st1, offered, skip, nActive, now, Opens(cfg, st1, nActive, |offered|, now))
  }

  // ---- the proxy -------------------------------------------------------------------------------

  lemma {:induction false} NumsPrefix(list: seq<Job>, more: seq<Job>, k: nat)
    requires k <= |list|
    ensures NumsUpTo(list + more, k) == NumsUpTo(list, k)
  {
    if k > 0 { NumsPrefix(list, more, k - 1); }
  }

  lemma NumsAppend(list: seq<Job>, j: Job)
    ensures Nums(list + [j]) == Nums(list) + {j.num}
  {
    NumsPrefix(list, [j], |list|);
  }

  /** Each job is named once among the waiting jobs, as the keys of a dictionary are. */
  predicate OncePer(list: seq<Job>) { |Nums(list)| == |list| }

  lemma OpenedIs(cfg: Config, st: State, offered: seq<Job>, skip: set<JobNum>, nActive: nat, now: real, law: Round)
    requires law == LawSubmit(st, offered, skip, cfg.nParallel - nActive)
    ensures AfterGate(cfg, st, offered, skip, nActive, now, true) == Round(ClockAfter(law.st, now, true), law.submitted)
  {}

  class CrabProxy {
    const cfg: Config
    const skip: set<JobNum>
    var jobs: map<JobNum, seq<nat>>
    var unsubmitted: seq<Job>
    var attempts: set<JobNum>
    var retryParkedSince: Option<real>

    function View(): State reads this { State(jobs, unsubmitted, attempts, retryParkedSince) }

    constructor (cfg: Config, skip: set<JobNum>, jobs: map<JobNum, seq<nat>>, unsubmitted: seq<Job>, attempts: set<JobNum>)
      ensures this.cfg == cfg && this.skip == skip
      ensures View() == State(jobs, unsubmitted, attempts, None)
    {
      this.cfg, this.skip, this.jobs, this.unsubmitted := cfg, skip, jobs, unsubmitted;
      this.attempts, retryParkedSince := attempts, None;
    }

    method UpdateRetryReleaseClock(now: real, afterRelease: bool)
      modifies this`retryParkedSince
      ensures View() == ClockAfter(old(View()), now, afterRelease)
    {
      if Nums(unsubmitted) * attempts == {} {
        retryParkedSince := None;
      } else if afterRelease || retryParkedSince.None? {
        retryParkedSince := Some(now);
      }
    }

    method ShouldSubmit(nBacklog: nat, nRetry: nat, nActive: nat, now: real) returns (open: bool)
      ensures open == (OpensBySize(cfg, nActive, nBacklog, nRetry) || Due(cfg, View(), now))
    {
      if cfg.nParallel >= cfg.nParallelMax { return true; }
      if nBacklog + nRetry <= 0 { return true; }
      if FullWave(cfg.MinWave(), Min(nBacklog, cfg.nParallel - nActive)) { return true; }
      if OutOfReach(cfg.MinWave(), nActive + nBacklog + nRetry) { return true; }
      return retryParkedSince.Some? && now - retryParkedSince.value >= cfg.Window();
    }

    /** Before the poll loop counts the jobs: take out those law would pass by. */
    method DropCompleteBacklog()
      modifies this`unsubmitted
      ensures View() == DropComplete(old(View()), skip)
    {
      var kept := [];
      for i := 0 to |unsubmitted|
        invariant kept == LiveUpTo(unsubmitted, skip, i)
      {
        if unsubmitted[i].num !in skip { kept := kept + [unsubmitted[i]]; }
      }
      unsubmitted := kept;
    }

    method ParkRetries(offered: seq<Job>, now: real)
      requires OncePer(offered) && Nums(offered) !! Nums(unsubmitted)
      modifies this`jobs, this`unsubmitted, this`retryParkedSince
      ensures View() == Park(old(View()), offered, skip, now)
    {
      var parked := [];
      for i := 0 to |offered|
        invariant parked == LiveUpTo(offered, skip, i)
        invariant jobs == Without(old(jobs), Nums(parked))
        invariant unsubmitted == old(unsubmitted) && retryParkedSince == old(retryParkedSince)
      {
        if offered[i].num !in skip {
          jobs := jobs - {offered[i].num};
          NumsAppend(parked, offered[i]);
          parked := parked + [offered[i]];
        }
      }
      if parked != [] {
        unsubmitted := parked + unsubmitted;
        UpdateRetryReleaseClock(now, false);
      }
    }

    /** law's own submission, assumed. */
    method SubmitToLaw(offered: seq<Job>, nActive: nat) returns (submitted: seq<Job>)
      modifies this`jobs, this`unsubmitted
      ensures Round(View(), submitted) == LawSubmit(old(View()), offered, skip, cfg.nParallel - nActive)
    {
      var law := LawSubmit(View(), offered, skip, cfg.nParallel - nActive);
      jobs, unsubmitted, submitted := law.st.jobs, law.st.unsubmitted, law.submitted;
    }

    method SubmitWave(offered: seq<Job>, nActive: nat, readable: bool, now: real) returns (submitted: seq<Job>)
      requires OncePer(offered) && Nums(offered) !! Nums(unsubmitted)
      modifies this`jobs, this`unsubmitted, this`retryParkedSince
      ensures Round(View(), submitted) == Submit(cfg, old(View()), offered, skip, nActive, readable, now)
    {
      if !readable {
        ParkRetries(offered, now);
        return [];
      }
      UpdateRetryReleaseClock(now, false);
      var open := ShouldSubmit(|unsubmitted|, |offered|, nActive, now);
      submitted := FollowGate(offered, nActive, now, open);
    }

    method FollowGate(offered: seq<Job>, nActive: nat, now: real, open: bool) returns (submitted: seq<Job>)
      requires OncePer(offered) && Nums(offered) !! Nums(unsubmitted)
      modifies this`jobs, this`unsubmitted, this`retryParkedSince
      ensures Round(View(), submitted) == AfterGate(cfg, old(View()), offered, skip, nActive, now, open)
    {
      if open {
        ghost var before := View();
        submitted := SubmitToLaw(offered, nActive);
        ghost var law := Round(View(), submitted);
        UpdateRetryReleaseClock(now, true);
        OpenedIs(cfg, before, offered, skip, nActive, now, law);
      } else {
        if offered != [] { ParkRetries(offered, now); }
        submitted := [];
      }
    }
  }
}
