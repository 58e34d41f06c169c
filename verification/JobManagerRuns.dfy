/** When a run stops, and what its site record holds, over any sequence of submissions and queries. */
module JobManagerRuns {
  import opened Wrappers
  import opened JobManager

  datatype Event =
    | Submit(projects: set<Project>)
    | Query(p: Project, answer: Answer, verdicts: seq<JobId>, order: seq<JobId>)

  datatype World = World(st: State, book: Ledger)

  function Step(w: World, e: Event): World {
    match e
    case Submit(projects) => w.(st := w.st.(submitted := w.st.submitted + projects))
    case Query(p, a, verdicts, order) =>
      World(After(w.st, p, a), if a.Parsed? || a.SubmitFailed? then Booked(w.book, a.jobs, verdicts, order) else w.book)
  }

  function Before(run: seq<Event>, n: nat): World
    requires n <= |run|
  {
    if n == 0 then World(START, Ledger([], {})) else Step(Before(run, n - 1), run[n - 1])
  }

  // ---- what happened, in the run's own terms ---------------------------------------------------

  ghost predicate SubmittedBy(run: seq<Event>, n: nat, p: Project)
    requires n <= |run|
  {
    exists i :: 0 <= i < n && run[i].Submit? && p in run[i].projects
  }

  predicate Asks(e: Event, p: Project) { e.Query? && e.p == p }

  /** A submission of this run was refused before event `n`. */
  ghost predicate WasRefused(run: seq<Event>, n: nat, p: Project)
    requires n <= |run|
  {
    exists k :: 0 <= k < n && Asks(run[k], p) && run[k].answer.Refused? && SubmittedBy(run, k, p)
  }

  ghost predicate WasFailed(run: seq<Event>, n: nat, p: Project)
    requires n <= |run|
  {
    exists k :: 0 <= k < n && Asks(run[k], p) && run[k].answer.SubmitFailed? && SubmittedBy(run, k, p)
  }

  /** Answers of `p` that found it unscheduled, since one last told of its jobs. */
  function UnscheduledSince(run: seq<Event>, n: nat, p: Project): nat
    requires n <= |run|
  {
    if n == 0 then 0
    else if !Asks(run[n - 1], p) then UnscheduledSince(run, n - 1, p)
    else if run[n - 1].answer.Unscheduled? then UnscheduledSince(run, n - 1, p) + 1
    else if run[n - 1].answer.Parsed? || run[n - 1].answer.SubmitFailed? then 0
    else UnscheduledSince(run, n - 1, p)
  }

  /** How many of the latest polls of `p`, one after the other, could not be read. */
  function UnreadableInARow(run: seq<Event>, n: nat, p: Project): nat
    requires n <= |run|
  {
    if n == 0 then 0
    else if !Asks(run[n - 1], p) then UnreadableInARow(run, n - 1, p)
    else if run[n - 1].answer.Unreadable? then UnreadableInARow(run, n - 1, p) + 1
    else 0
  }

  // ---- the memory is the history ---------------------------------------------------------------

  lemma {:induction false} SubmittedIs(run: seq<Event>, n: nat, p: Project)
    requires n <= |run|
    ensures p in Before(run, n).st.submitted <==> SubmittedBy(run, n, p)
  {
    if n > 0 { SubmittedIs(run, n - 1, p); }
  }

  lemma RefusedStep(st: State, book: Ledger, e: Event, p: Project)
    ensures p in Step(World(st, book), e).st.refused <==>
            p in st.refused || (Asks(e, p) && e.answer.Refused? && p in st.submitted)
  {}

  lemma RefusedNext(run: seq<Event>, n: nat, p: Project)
    requires n < |run|
    ensures WasRefused(run, n + 1, p) <==>
            WasRefused(run, n, p) || (Asks(run[n], p) && run[n].answer.Refused? && SubmittedBy(run, n, p))
  {}

  lemma {:induction false} RefusedIs(run: seq<Event>, n: nat, p: Project)
    requires n <= |run|
    ensures p in Before(run, n).st.refused <==> WasRefused(run, n, p)
  {
    if n > 0 {
      var w := Before(run, n - 1);
      RefusedIs(run, n - 1, p);
      SubmittedIs(run, n - 1, p);
      RefusedNext(run, n - 1, p);
      RefusedStep(w.st, w.book, run[n - 1], p);
    }
  }

  lemma FailedStep(st: State, book: Ledger, e: Event, p: Project)
    ensures p in Step(World(st, book), e).st.failed <==>
            p in st.failed || (Asks(e, p) && e.answer.SubmitFailed? && p in st.submitted)
  {}

  lemma FailedNext(run: seq<Event>, n: nat, p: Project)
    requires n < |run|
    ensures WasFailed(run, n + 1, p) <==>
            WasFailed(run, n, p) || (Asks(run[n], p) && run[n].answer.SubmitFailed? && SubmittedBy(run, n, p))
  {}

  lemma {:induction false} FailedIs(run: seq<Event>, n: nat, p: Project)
    requires n <= |run|
    ensures p in Before(run, n).st.failed <==> WasFailed(run, n, p)
  {
    if n > 0 {
      var w := Before(run, n - 1);
      FailedIs(run, n - 1, p);
      SubmittedIs(run, n - 1, p);
      FailedNext(run, n - 1, p);
      FailedStep(w.st, w.book, run[n - 1], p);
    }
  }

  lemma {:induction false} UnscheduledIs(run: seq<Event>, n: nat, p: Project)
    requires n <= |run|
    ensures Count(Before(run, n).st.unscheduled, p) == UnscheduledSince(run, n, p)
  {
    if n > 0 { UnscheduledIs(run, n - 1, p); }
  }

  lemma {:induction false} UnreadableIs(run: seq<Event>, n: nat, p: Project)
    requires n <= |run|
    ensures Count(Before(run, n).st.unreadable, p) == UnreadableInARow(run, n, p)
  {
    if n > 0 { UnreadableIs(run, n - 1, p); }
  }

  lemma Two(s: set<Project>)
    ensures |s| >= 2 <==> exists p, q :: p in s && q in s && p != q
  {
    if |s| >= 2 {
      var p :| p in s;
      assert |s - {p}| == |s| - 1;
      var q :| q in s - {p};
    }
    if p, q :| p in s && q in s && p != q { assert {p, q} <= s && |{p, q}| == 2; Subset({p, q}, s); }
  }

  lemma Subset(a: set<Project>, b: set<Project>)
    requires a <= b
    ensures |a| <= |b|
  {
    assert b == a + (b - a);
  }

  // ---- when the run stops ----------------------------------------------------------------------

  /** Some project has at some time been answered unscheduled too often. */
  ghost predicate WaitedTooLong(run: seq<Event>, n: nat)
    requires n <= |run|
  {
    exists k, p :: 0 <= k <= n && UnscheduledSince(run, k, p) > 60
  }

  ghost predicate MustStop(run: seq<Event>, n: nat)
    requires n <= |run|
  {
    |Before(run, n).st.refused| >= 2 || |Before(run, n).st.failed| >= 2 || WaitedTooLong(run, n)
  }

  lemma WaitGrows(run: seq<Event>, n: nat)
    requires n < |run|
    ensures WaitedTooLong(run, n + 1) <==>
            WaitedTooLong(run, n) || (run[n].Query? && UnscheduledSince(run, n + 1, run[n].p) > 60)
  {
    if WaitedTooLong(run, n + 1) {
      var k, p :| 0 <= k <= n + 1 && UnscheduledSince(run, k, p) > 60;
      if k == n + 1 && !Asks(run[n], p) { assert UnscheduledSince(run, n, p) > 60; }
    }
  }

  lemma {:induction false} StopIs(run: seq<Event>, n: nat)
    requires n <= |run|
    ensures Before(run, n).st.stop.Some? <==> MustStop(run, n)
  {
    if n == 0 {
      NoWaitYet(run);
    } else {
      StopIs(run, n - 1);
      WaitGrows(run, n - 1);
      StopStep(run, n - 1);
    }
  }

  lemma NoWaitYet(run: seq<Event>)
    ensures !WaitedTooLong(run, 0)
  {}

  lemma StopStep(run: seq<Event>, n: nat)
    requires n < |run| && (Before(run, n).st.stop.Some? <==> MustStop(run, n))
    requires WaitedTooLong(run, n + 1) <==>
             WaitedTooLong(run, n) || (run[n].Query? && UnscheduledSince(run, n + 1, run[n].p) > 60)
    ensures Before(run, n + 1).st.stop.Some? <==> MustStop(run, n + 1)
  {
    if run[n].Query? {
      UnscheduledIs(run, n, run[n].p);
      UnscheduledIs(run, n + 1, run[n].p);
      Subset(Before(run, n).st.refused, Before(run, n + 1).st.refused);
      Subset(Before(run, n).st.failed, Before(run, n + 1).st.failed);
    }
  }

  /**
   The run is told to stop exactly when two submissions it made itself were refused, or two such failed
   to be submitted, or a project was found unscheduled more than sixty times since an
   answer last told of its jobs. Asking again about the same project, or about one of an earlier run,
   never counts.
   */
  lemma {:induction false} StopsExactlyWhen(run: seq<Event>, n: nat)
    requires n <= |run|
    ensures Before(run, n).st.stop.Some? <==>
            || (exists p, q :: p != q && WasRefused(run, n, p) && WasRefused(run, n, q))
            || (exists p, q :: p != q && WasFailed(run, n, p) && WasFailed(run, n, q))
            || WaitedTooLong(run, n)
  {
    StopIs(run, n);
    Two(Before(run, n).st.refused);
    Two(Before(run, n).st.failed);
    forall p ensures p in Before(run, n).st.refused <==> WasRefused(run, n, p) { RefusedIs(run, n, p); }
    forall p ensures p in Before(run, n).st.failed <==> WasFailed(run, n, p) { FailedIs(run, n, p); }
  }

  /** What the run is told is the reason there is. */
  ghost predicate ToldWhy(run: seq<Event>, n: nat)
    requires n <= |run|
  {
    match Before(run, n).st.stop
    case None => true
    case Some(StuckUnscheduled) => WaitedTooLong(run, n)
    case Some(SubmissionsRefused) => |Before(run, n).st.refused| >= 2
    case Some(SubmissionsFailed) => |Before(run, n).st.failed| >= 2
  }

  lemma WhyStep(run: seq<Event>, n: nat)
    requires n < |run| && ToldWhy(run, n)
    requires WaitedTooLong(run, n + 1) <==>
             WaitedTooLong(run, n) || (run[n].Query? && UnscheduledSince(run, n + 1, run[n].p) > 60)
    ensures ToldWhy(run, n + 1)
  {
    if run[n].Query? {
      UnscheduledIs(run, n, run[n].p);
      UnscheduledIs(run, n + 1, run[n].p);
      Subset(Before(run, n).st.refused, Before(run, n + 1).st.refused);
      Subset(Before(run, n).st.failed, Before(run, n + 1).st.failed);
    }
  }

  lemma {:induction false} WhyIs(run: seq<Event>, n: nat)
    requires n <= |run|
    ensures ToldWhy(run, n)
  {
    if n > 0 {
      WhyIs(run, n - 1);
      WaitGrows(run, n - 1);
      WhyStep(run, n - 1);
    }
  }

  /** The reason given is one that is there: refusals for two refused submissions, and so on. */
  lemma {:induction false} ReasonIsTrue(run: seq<Event>, n: nat)
    requires n <= |run|
    ensures Before(run, n).st.stop == Some(StuckUnscheduled) ==> WaitedTooLong(run, n)
    ensures Before(run, n).st.stop == Some(SubmissionsRefused) ==> exists p, q :: p != q && WasRefused(run, n, p) && WasRefused(run, n, q)
    ensures Before(run, n).st.stop == Some(SubmissionsFailed) ==> exists p, q :: p != q && WasFailed(run, n, p) && WasFailed(run, n, q)
  {
    WhyIs(run, n);
    Two(Before(run, n).st.refused);
    Two(Before(run, n).st.failed);
    forall p ensures p in Before(run, n).st.refused <==> WasRefused(run, n, p) { RefusedIs(run, n, p); }
    forall p ensures p in Before(run, n).st.failed <==> WasFailed(run, n, p) { FailedIs(run, n, p); }
  }

  /** Once told, the run stays told. */
  lemma {:induction false} StopStays(run: seq<Event>, i: nat, j: nat)
    requires i <= j <= |run| && Before(run, i).st.stop.Some?
    ensures Before(run, j).st.stop.Some?
  {
    if i < j { StopStays(run, i, j - 1); }
  }

  /** A query raises exactly if it and the ten polls of the project before it could not be read. */
  lemma {:induction false} RaisesExactlyWhen(run: seq<Event>, n: nat)
    requires n < |run| && run[n].Query?
    ensures Raises(Before(run, n).st, run[n].p, run[n].answer) <==> UnreadableInARow(run, n + 1, run[n].p) > 10
  {
    UnreadableIs(run, n, run[n].p);
  }

  /** `m` times: unscheduled, then unreadable. */
  function Alternating(p: Project, m: nat): seq<Event> {
    if m == 0 then [] else Alternating(p, m - 1) + [Query(p, Unscheduled, [], []), Query(p, Unreadable, [], [])]
  }

  predicate FindsUnscheduled(e: Event, p: Project) { Asks(e, p) && e.answer.Unscheduled? }

  lemma {:induction false} UnscheduledPrefix(a: seq<Event>, b: seq<Event>, n: nat, p: Project)
    requires n <= |a|
    ensures UnscheduledSince(a + b, n, p) == UnscheduledSince(a, n, p)
  {
    if n > 0 { UnscheduledPrefix(a, b, n - 1, p); }
  }

  lemma {:induction false} AlternatingCounts(p: Project, m: nat)
    ensures |Alternating(p, m)| == 2 * m && UnscheduledSince(Alternating(p, m), 2 * m, p) == m
    ensures forall i | 0 <= i < 2 * m :: FindsUnscheduled(Alternating(p, m)[i], p) <==> i % 2 == 0
  {
    if m > 0 {
      AlternatingCounts(p, m - 1);
      var a, b := Alternating(p, m - 1), [Query(p, Unscheduled, [], []), Query(p, Unreadable, [], [])];
      UnscheduledPrefix(a, b, 2 * m - 2, p);
      assert UnscheduledSince(a + b, 2 * m - 1, p) == m;
    }
  }

  /** The polls that stop a run need not be consecutive, whatever its message says: unreadable ones do not reset the count. */
  lemma {:induction false} UnscheduledNeedNotBeConsecutive(p: Project)
    ensures var run := Alternating(p, 61);
            && |run| == 122 && Before(run, 122).st.stop.Some?
            && forall i | 0 <= i < 121 :: !(FindsUnscheduled(run[i], p) && FindsUnscheduled(run[i + 1], p))
  {
    AlternatingCounts(p, 61);
    StopsExactlyWhen(Alternating(p, 61), 122);
  }

  // ---- the site record -------------------------------------------------------------------------

  /** Every job has at most one line of each kind, and the lines are what has been seen. */
  ghost predicate Once(l: Ledger) {
    && (forall i, j | 0 <= i < j < |l.lines| :: (l.lines[i].job, l.lines[i].kind) != (l.lines[j].job, l.lines[j].kind))
    && forall i | 0 <= i < |l.lines| :: (l.lines[i].job, l.lines[i].kind) in l.seen
  }

  lemma EnteredOnce(l: Ledger, j: JobId, kind: Kind, site: Site)
    requires Once(l)
    ensures Once(Entered(l, j, kind, site))
  {}

  lemma {:induction false} StallsOnce(l: Ledger, jobs: map<JobId, JobData>, verdicts: seq<JobId>, k: nat)
    requires Once(l) && k <= |verdicts|
    ensures Once(StallsUpTo(l, jobs, verdicts, k))
  {
    if k > 0 {
      StallsOnce(l, jobs, verdicts, k - 1);
      var j, now := verdicts[k - 1], CondemnedUpTo(jobs, verdicts, k - 1);
      if j in now && now[j].sites != [] {
        EnteredOnce(StallsUpTo(l, jobs, verdicts, k - 1), j, Stalled, now[j].sites[|now[j].sites| - 1]);
      }
    }
  }

  lemma {:induction false} HarvestOnce(l: Ledger, jobs: map<JobId, JobData>, order: seq<JobId>, k: nat)
    requires Once(l) && k <= |order|
    ensures Once(HarvestedUpTo(l, jobs, order, k))
  {
    if k > 0 {
      HarvestOnce(l, jobs, order, k - 1);
      var j := order[k - 1];
      if j in jobs && jobs[j].sites != [] && Ending(jobs[j]).Some? {
        EnteredOnce(HarvestedUpTo(l, jobs, order, k - 1), j, Ending(jobs[j]).value, jobs[j].sites[|jobs[j].sites| - 1]);
      }
    }
  }

  /** Over every run of one process, a CRAB job enters the site record at most once per kind of outcome. */
  lemma {:induction false} RecordedOnce(run: seq<Event>, n: nat)
    requires n <= |run|
    ensures Once(Before(run, n).book)
  {
    if n > 0 {
      RecordedOnce(run, n - 1);
      var e, book := run[n - 1], Before(run, n - 1).book;
      if e.Query? && (e.answer.Parsed? || e.answer.SubmitFailed?) {
        StallsOnce(book, e.answer.jobs, e.verdicts, |e.verdicts|);
        HarvestOnce(StallsUpTo(book, e.answer.jobs, e.verdicts, |e.verdicts|),
                    Condemned(e.answer.jobs, e.verdicts), e.order, |e.order|);
      }
    }
  }

  // ---- one driver process after another --------------------------------------------------------

  /** How often the record names a job with a kind of outcome. */
  function Times(lines: seq<Line>, j: JobId, kind: Kind, n: nat): nat
    requires n <= |lines|
  {
    if n == 0 then 0
    else Times(lines, j, kind, n - 1) + if lines[n - 1].job == j && lines[n - 1].kind == kind then 1 else 0
  }

  function Named(l: Ledger, j: JobId, kind: Kind): nat { Times(l.lines, j, kind, |l.lines|) }

  lemma {:induction false} TimesPrefix(a: seq<Line>, b: seq<Line>, j: JobId, kind: Kind, n: nat)
    requires n <= |a|
    ensures Times(a + b, j, kind, n) == Times(a, j, kind, n)
  {
    if n > 0 { TimesPrefix(a, b, j, kind, n - 1); }
  }

  /** The record named the job once more if it was seen only now, and is otherwise as it was. */
  predicate Counts(l: Ledger, l': Ledger, j: JobId, kind: Kind) {
    && ((j, kind) in l.seen ==> (j, kind) in l'.seen)
    && Named(l', j, kind) == Named(l, j, kind) + if (j, kind) in l'.seen && (j, kind) !in l.seen then 1 else 0
  }

  lemma EnteringCounts(l: Ledger, who: JobId, how: Kind, site: Site, j: JobId, kind: Kind)
    ensures Counts(l, Entered(l, who, how, site), j, kind)
  {
    TimesPrefix(l.lines, [Line(who, how, site)], j, kind, |l.lines|);
  }

  lemma {:induction false} StallsCount(l: Ledger, jobs: map<JobId, JobData>, verdicts: seq<JobId>, k: nat, j: JobId, kind: Kind)
    requires k <= |verdicts|
    ensures Counts(l, StallsUpTo(l, jobs, verdicts, k), j, kind)
  {
    if k > 0 {
      StallsCount(l, jobs, verdicts, k - 1, j, kind);
      var v, now := verdicts[k - 1], CondemnedUpTo(jobs, verdicts, k - 1);
      if v in now && now[v].sites != [] {
        EnteringCounts(StallsUpTo(l, jobs, verdicts, k - 1), v, Stalled, now[v].sites[|now[v].sites| - 1], j, kind);
      }
    }
  }

  lemma {:induction false} HarvestCounts(l: Ledger, jobs: map<JobId, JobData>, order: seq<JobId>, k: nat, j: JobId, kind: Kind)
    requires k <= |order|
    ensures Counts(l, HarvestedUpTo(l, jobs, order, k), j, kind)
  {
    if k > 0 {
      HarvestCounts(l, jobs, order, k - 1, j, kind);
      var o := order[k - 1];
      if o in jobs && jobs[o].sites != [] && Ending(jobs[o]).Some? {
        EnteringCounts(HarvestedUpTo(l, jobs, order, k - 1), o, Ending(jobs[o]).value, jobs[o].sites[|jobs[o].sites| - 1], j, kind);
      }
    }
  }

  lemma BookedCounts(l: Ledger, jobs: map<JobId, JobData>, verdicts: seq<JobId>, order: seq<JobId>, j: JobId, kind: Kind)
    ensures Counts(l, Booked(l, jobs, verdicts, order), j, kind)
  {
    StallsCount(l, jobs, verdicts, |verdicts|, j, kind);
    HarvestCounts(StallsUpTo(l, jobs, verdicts, |verdicts|), Condemned(jobs, verdicts), order, |order|, j, kind);
  }

  /** The record and what was seen, from a given start, after the first `n` events of one process. */
  function BookAfter(start: Ledger, run: seq<Event>, n: nat): Ledger
    requires n <= |run|
  {
    if n == 0 then start
    else
      var l, e := BookAfter(start, run, n - 1), run[n - 1];
      if e.Query? && (e.answer.Parsed? || e.answer.SubmitFailed?) then Booked(l, e.answer.jobs, e.verdicts, e.order) else l
  }

  lemma {:induction false} BookIsAfter(run: seq<Event>, n: nat)
    requires n <= |run|
    ensures Before(run, n).book == BookAfter(Ledger([], {}), run, n)
  {
    if n > 0 { BookIsAfter(run, n - 1); }
  }

  lemma {:induction false} ProcessCounts(start: Ledger, run: seq<Event>, n: nat, j: JobId, kind: Kind)
    requires n <= |run|
    ensures Counts(start, BookAfter(start, run, n), j, kind)
  {
    if n > 0 {
      ProcessCounts(start, run, n - 1, j, kind);
      var e := run[n - 1];
      if e.Query? && (e.answer.Parsed? || e.answer.SubmitFailed?) {
        BookedCounts(BookAfter(start, run, n - 1), e.answer.jobs, e.verdicts, e.order, j, kind);
      }
    }
  }

  /** The record outlives the process that wrote it; what that process had seen does not. */
  function Restarted(l: Ledger): Ledger { Ledger(l.lines, {}) }

  /** The record after the first `k` processes. */
  function RecordAfter(processes: seq<seq<Event>>, k: nat): Ledger
    requires k <= |processes|
  {
    if k == 0 then Ledger([], {})
    else BookAfter(Restarted(RecordAfter(processes, k - 1)), processes[k - 1], |processes[k - 1]|)
  }

  /** How many of the first `k` processes saw the job end so. */
  function ProcessesThatSaw(processes: seq<seq<Event>>, k: nat, j: JobId, kind: Kind): nat
    requires k <= |processes|
  {
    if k == 0 then 0
    else ProcessesThatSaw(processes, k - 1, j, kind) + if (j, kind) in RecordAfter(processes, k).seen then 1 else 0
  }

  /** Over restarts, the record names a job once for every process that saw it end so, no more and no less. */
  lemma {:induction false} RecordedOncePerProcess(processes: seq<seq<Event>>, k: nat, j: JobId, kind: Kind)
    requires k <= |processes|
    ensures Named(RecordAfter(processes, k), j, kind) == ProcessesThatSaw(processes, k, j, kind) <= k
  {
    if k > 0 {
      RecordedOncePerProcess(processes, k - 1, j, kind);
      ProcessCounts(Restarted(RecordAfter(processes, k - 1)), processes[k - 1], |processes[k - 1]|, j, kind);
    }
  }

  /** So a job whose ending CRAB still reports is entered again by every process that asks. */
  lemma RestartRecordsAgain(p: Project, jobs: map<JobId, JobData>, j: JobId)
    requires j in jobs && jobs[j].sites != [] && Ending(jobs[j]).Some?
    ensures var process := [Query(p, Parsed(jobs), [], [j])];
      Named(RecordAfter([process, process], 2), j, Ending(jobs[j]).value) == 2
  {
    var process := [Query(p, Parsed(jobs), [], [j])];
    var processes := [process, process];
    QueryIsSeen(Restarted(RecordAfter(processes, 0)), p, jobs, j);
    QueryIsSeen(Restarted(RecordAfter(processes, 1)), p, jobs, j);
    var kind := Ending(jobs[j]).value;
    assert (j, kind) in RecordAfter(processes, 1).seen;
    assert (j, kind) in RecordAfter(processes, 2).seen;
    RecordedOncePerProcess(processes, 2, j, kind);
    assert ProcessesThatSaw(processes, 1, j, kind) == 1;
  }

  lemma {:induction false} QueryIsSeen(l: Ledger, p: Project, jobs: map<JobId, JobData>, j: JobId)
    requires j in jobs && jobs[j].sites != [] && Ending(jobs[j]).Some?
    ensures (j, Ending(jobs[j]).value) in BookAfter(l, [Query(p, Parsed(jobs), [], [j])], 1).seen
  {
    var run := [Query(p, Parsed(jobs), [], [j])];
    assert BookAfter(l, run, 0) == l;
    assert Condemned(jobs, []) == jobs;
    assert HarvestedUpTo(l, jobs, [j], 0) == l;
    assert HarvestedUpTo(l, jobs, [j], 1) == Entered(l, j, Ending(jobs[j]).value, jobs[j].sites[|jobs[j].sites| - 1]);
  }
}
