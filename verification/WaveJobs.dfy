/** No job is lost: whatever is submitted, held, skipped or parked, the job book stays the same. */
module WaveJobs {
  import opened Wrappers
  import opened WaveGate
  import opened WaveRuns

  /** All jobs with their branches, waiting or not. */
  function Book(st: State): map<JobNum, seq<nat>> { With(st.jobs, st.unsubmitted) }

  /** The jobs law counts: `JobData.__len__` adds up what waits and what does not. */
  function JobCount(st: State): nat { |st.jobs| + |st.unsubmitted| }

  // ---- writing jobs back -----------------------------------------------------------------------

  /** The jobs are in the book as they are in the list. */
  predicate Agrees(jobs: map<JobNum, seq<nat>>, list: seq<Job>) {
    forall i | 0 <= i < |list| :: list[i].num in jobs && jobs[list[i].num] == list[i].branches
  }

  lemma {:induction false} WithAgreed(jobs: map<JobNum, seq<nat>>, list: seq<Job>, k: nat)
    requires Agrees(jobs, list) && k <= |list|
    ensures WithUpTo(jobs, list, k) == jobs
  {
    if k > 0 { WithAgreed(jobs, list, k - 1); }
  }

  /** Jobs taken out and written back leave the book as it was. */
  lemma {:induction false} WithoutThenWith(jobs: map<JobNum, seq<nat>>, out: set<JobNum>, list: seq<Job>, k: nat)
    requires Agrees(jobs, list) && k <= |list|
    ensures WithUpTo(Without(jobs, out), list, k) == Without(jobs, out - NumsUpTo(list, k))
  {
    if k > 0 {
      WithoutThenWith(jobs, out, list, k - 1);
      var n := list[k - 1].num;
      assert Without(jobs, out - NumsUpTo(list, k - 1))[n := jobs[n]] == Without(jobs, out - NumsUpTo(list, k));
    }
  }

  lemma {:induction false} WithPrefix(jobs: map<JobNum, seq<nat>>, a: seq<Job>, b: seq<Job>, k: nat)
    requires k <= |a|
    ensures WithUpTo(jobs, a + b, k) == WithUpTo(jobs, a, k)
  {
    if k > 0 { WithPrefix(jobs, a, b, k - 1); }
  }

  lemma {:induction false} WithConcatUpTo(jobs: map<JobNum, seq<nat>>, a: seq<Job>, b: seq<Job>, k: nat)
    requires k <= |b|
    ensures WithUpTo(jobs, a + b, |a| + k) == WithUpTo(With(jobs, a), b, k)
  {
    if k == 0 { WithPrefix(jobs, a, b, |a|); } else { WithConcatUpTo(jobs, a, b, k - 1); }
  }

  lemma WithConcat(jobs: map<JobNum, seq<nat>>, a: seq<Job>, b: seq<Job>)
    ensures With(jobs, a + b) == With(With(jobs, a), b)
  {
    WithConcatUpTo(jobs, a, b, |b|);
  }

  lemma {:induction false} LiveAgrees(jobs: map<JobNum, seq<nat>>, list: seq<Job>, skip: set<JobNum>, k: nat)
    requires Agrees(jobs, list) && k <= |list|
    ensures Agrees(jobs, LiveUpTo(list, skip, k))
  {
    if k > 0 { LiveAgrees(jobs, list, skip, k - 1); }
  }

  // ---- what every step keeps -------------------------------------------------------------------

  lemma CountIsBook(skip: set<JobNum>, st: State)
    requires Apart(skip, st)
    ensures JobCount(st) == |Book(st)|
  {
    WithKeys(st.jobs, st.unsubmitted);
    UnionCount(st.jobs.Keys, Nums(st.unsubmitted));
    assert |Book(st)| == |Book(st).Keys| && |st.jobs| == |st.jobs.Keys|;
  }

  lemma ClockKeepsBook(st: State, now: real, afterRelease: bool)
    ensures Book(ClockAfter(st, now, afterRelease)) == Book(st)
  {}

  lemma ParkKeepsBook(st: State, offered: seq<Job>, skip: set<JobNum>, now: real)
    requires Agrees(st.jobs, offered)
    ensures Book(Park(st, offered, skip, now)) == Book(st)
  {
    var parked := Live(offered, skip);
    LiveAgrees(st.jobs, offered, skip, |offered|);
    if parked != [] {
      var jobs := Without(st.jobs, Nums(parked));
      var st' := st.(jobs := jobs, unsubmitted := parked + st.unsubmitted);
      assert With(jobs, parked) == st.jobs by {
        WithoutThenWith(st.jobs, Nums(parked), parked, |parked|);
        assert Nums(parked) - NumsUpTo(parked, |parked|) == {};
      }
      WithConcat(jobs, parked, st.unsubmitted);
      ClockKeepsBook(st', now, false);
    }
  }

  lemma FillKeepsBook(skip: set<JobNum>, st: State, offered: seq<Job>, fill: nat)
    requires Agrees(st.jobs, offered) && fill <= |st.unsubmitted|
    ensures Book(FillRound(skip, st, offered, fill).st) == Book(st)
  {
    var retries, taken, left := Live(offered, skip), st.unsubmitted[..fill], st.unsubmitted[fill..];
    LiveAgrees(st.jobs, offered, skip, |offered|);
    WithConcat(st.jobs, retries, taken);
    WithAgreed(st.jobs, retries, |retries|);
    WithConcat(st.jobs, taken, left);
    assert taken + left == st.unsubmitted;
  }

  lemma OpenRoundKeepsBook(skip: set<JobNum>, st: State, offered: seq<Job>, fill: nat, now: real)
    requires Agrees(st.jobs, offered) && fill <= |st.unsubmitted|
    ensures Book(OpenRound(skip, st, offered, fill, now).st) == Book(st)
  {
    FillKeepsBook(skip, st, offered, fill);
    ClockKeepsBook(FillRound(skip, st, offered, fill).st, now, true);
  }

  lemma AfterGateKeepsBook(cfg: Config, skip: set<JobNum>, st: State, active: set<JobNum>, offered: seq<Job>, now: real,
                           open: bool, r: Round)
    requires Ready(cfg, skip, st, active, offered) && Agrees(st.jobs, offered)
    requires r == AfterGate(cfg, st, offered, skip, |active|, now, open)
    ensures Book(r.st) == Book(st)
  {
    if open {
      var fill := OpenGateIsOpenRound(cfg, skip, st, active, offered, now);
      OpenRoundKeepsBook(skip, st, offered, fill, now);
      assert r == OpenRound(skip, st, offered, fill, now);
    } else {
      ParkKeepsBook(st, offered, skip, now);
    }
  }

  lemma StepKeepsBook(cfg: Config, skip: set<JobNum>, w: World, e: Event)
    requires Inv(cfg, skip, w) && Enabled(w, e)
    ensures Book(Step(cfg, skip, w, e).st) == Book(w.st)
  {
    if e.Restart? {
      LiveIs(w.st.unsubmitted, skip);
    } else {
      SubmitIsAfterGate(cfg, skip, w, e);
      HeldIsReady(cfg, skip, w, e);
      OfferedAgree(w, e);
      AfterGateKeepsBook(cfg, skip, Held(w, e), e.still, e.offered, e.at, Opened(cfg, w, e),
                         Submit(cfg, Offered(w, e), e.offered, skip, |e.still|, e.readable, e.at));
    }
  }

  lemma OfferedAgree(w: World, e: Event)
    requires Enabled(w, e) && e.Poll?
    ensures Agrees(Held(w, e).jobs, e.offered) && Book(Held(w, e)) == Book(w.st)
  {}

  // ---- the drop before the loop ----------------------------------------------------------------

  lemma {:induction false} WithOther(jobs: map<JobNum, seq<nat>>, list: seq<Job>, k: nat, n: JobNum)
    requires k <= |list| && n in jobs && n !in NumsUpTo(list, k)
    ensures n in WithUpTo(jobs, list, k) && WithUpTo(jobs, list, k)[n] == jobs[n]
  {
    if k > 0 { WithOther(jobs, list, k - 1, n); }
  }

  lemma WithAppend(jobs: map<JobNum, seq<nat>>, list: seq<Job>, j: Job)
    ensures With(jobs, list + [j]) == With(jobs, list)[j.num := j.branches]
  {
    WithPrefix(jobs, list, [j], |list|);
  }

  /** Dropping what law would pass by takes nothing from the book: such a job is in `jobs` too. */
  lemma {:induction false} DropKeepsBook(skip: set<JobNum>, st: State, k: nat)
    requires k <= |st.unsubmitted| && |NumsUpTo(st.unsubmitted, k)| == k
    requires forall j <- st.unsubmitted | j.num in skip :: j.num in st.jobs && st.jobs[j.num] == j.branches
    ensures With(st.jobs, LiveUpTo(st.unsubmitted, skip, k)) == WithUpTo(st.jobs, st.unsubmitted, k)
  {
    if k > 0 {
      var j, live := st.unsubmitted[k - 1], LiveUpTo(st.unsubmitted, skip, k - 1);
      assert j in st.unsubmitted;
      NumsCountUpTo(st.unsubmitted, k - 1);
      DropKeepsBook(skip, st, k - 1);
      if j.num in skip {
        WithOther(st.jobs, st.unsubmitted, k - 1, j.num);
        assert live + [] == live;
      } else {
        WithAppend(st.jobs, live, j);
      }
    }
  }

  /**
   Conservation: from the drop at the start of `poll` on, the jobs waiting and those in `jobs` are
   different ones, their numbers add up to the distinct jobs there were, and each keeps its branches.
   */
  lemma {:induction false} JobsConserved(cfg: Config, skip: set<JobNum>, start: State, ws: seq<World>, run: seq<Event>, n: nat)
    requires IsRun(cfg, skip, start, ws, run) && n <= |run|
    ensures Book(ws[n].st) == Book(start)
    ensures Nums(ws[n].st.unsubmitted) !! ws[n].st.jobs.Keys && JobCount(ws[n].st) == |Book(start)|
  {
    InvAlways(cfg, skip, start, ws, run, n);
    if n == 0 {
      DropKeepsBook(skip, start, |start.unsubmitted|);
    } else {
      JobsConserved(cfg, skip, start, ws, run, n - 1);
      InvAlways(cfg, skip, start, ws, run, n - 1);
      StepKeepsBook(cfg, skip, ws[n - 1], run[n - 1]);
    }
    CountIsBook(skip, ws[n].st);
  }
}
