/**
 The CRAB job manager's answers to a status query: what counts as unreadable, refused, unscheduled or
 failed to submit, what the watchdog changes, what is recorded of a site, and when the run must stop.
 */
module JobManager {
  import opened Wrappers

  datatype Project = Project(dir: string)
  datatype Site = Site(name: string)
  type JobId = nat

  datatype Status = PENDING | RUNNING | FINISHED | FAILED

  /** A job in a status response: its error code, if any, and the sites it ran at. */
  datatype JobData = JobData(status: Status, code: Option<int>, sites: seq<Site>)

  /** A response as the parser tells it; the jobs of a failed submission are failed by law itself. */
  datatype Answer =
    | Parsed(jobs: map<JobId, JobData>)
    | Refused
    | Unscheduled
    | SubmitFailed(jobs: map<JobId, JobData>)
    | Unreadable

  const QUERY_RETRIES := 3
  const MAX_UNREADABLE_POLLS := 10
  const MAX_UNSCHEDULED_POLLS := 60
  const MAX_REFUSED_SUBMISSIONS := 2
  const MAX_FAILED_SUBMISSIONS := 2

  datatype StopReason = StuckUnscheduled | SubmissionsRefused | SubmissionsFailed

  /** What the manager remembers of its projects. */
  datatype State = State(unreadable: map<Project, nat>, unscheduled: map<Project, nat>, submitted: set<Project>,
                         refused: set<Project>, failed: set<Project>, stop: Option<StopReason>)

  const START := State(map[], map[], {}, {}, {}, None)

  function Count(m: map<Project, nat>, p: Project): nat { if p in m then m[p] else 0 }

  /** A query asks again while it cannot read the answer, four times in all. */
  function Decision(answers: seq<Answer>, k: nat): Answer
    requires k <= |answers|
    decreases |answers| - k
  {
    if k == |answers| then Unreadable
    else if answers[k].Unreadable? then Decision(answers, k + 1)
    else answers[k]
  }

  function AfterRefused(st: State, p: Project): State {
    var refused := if p in st.submitted then st.refused + {p} else st.refused;
    st.(unreadable := st.unreadable - {p}, refused := refused,
        stop := if |refused| >= MAX_REFUSED_SUBMISSIONS then Some(SubmissionsRefused) else st.stop)
  }

  function AfterUnscheduled(st: State, p: Project): State {
    var n := Count(st.unscheduled, p) + 1;
    st.(unreadable := st.unreadable - {p}, unscheduled := st.unscheduled[p := n],
        stop := if n > MAX_UNSCHEDULED_POLLS then Some(StuckUnscheduled) else st.stop)
  }

  function AfterSubmitFailed(st: State, p: Project): State {
    if p !in st.submitted then st
    else
      var failed := st.failed + {p};
      st.(failed := failed, stop := if |failed| >= MAX_FAILED_SUBMISSIONS then Some(SubmissionsFailed) else st.stop)
  }

  function AfterReadable(st: State, p: Project): State {
    st.(unreadable := st.unreadable - {p}, unscheduled := st.unscheduled - {p})
  }

  /** What a query's decision does to the memory. */
  function After(st: State, p: Project, a: Answer): State {
    match a
    case Parsed(_) => AfterReadable(st, p)
    case Refused => AfterRefused(st, p)
    case Unscheduled => AfterUnscheduled(st, p)
    case SubmitFailed(_) => AfterReadable(AfterSubmitFailed(st, p), p)
    case Unreadable => st.(unreadable := st.unreadable[p := Count(st.unreadable, p) + 1])
  }

  /** A query raises for a project unreadable too often, this time included. */
  predicate Raises(st: State, p: Project, a: Answer) { a.Unreadable? && Count(st.unreadable, p) >= MAX_UNREADABLE_POLLS }

  function Everyone(jobs: set<JobId>, d: JobData): map<JobId, JobData> { map j | j in jobs :: d }

  // ---- the watchdog's verdicts, and the site record --------------------------------------------

  /** A verdict fails a job that is still running, and leaves it without a code; every other job stays as told. */
  ghost predicate FailsOnly(told: map<JobId, JobData>, named: seq<JobId>, r: map<JobId, JobData>) {
    && r.Keys == told.Keys
    && (forall j <- told | j in named && told[j].status.RUNNING? :: r[j] == JobData(FAILED, None, told[j].sites))
    && forall j <- told | j !in named || !told[j].status.RUNNING? :: r[j] == told[j]
  }

  function AfterVerdict(jobs: map<JobId, JobData>, j: JobId): map<JobId, JobData> {
    if j in jobs && jobs[j].status.RUNNING? then jobs[j := jobs[j].(status := FAILED, code := None)] else jobs
  }

  function CondemnedUpTo(jobs: map<JobId, JobData>, verdicts: seq<JobId>, k: nat): (r: map<JobId, JobData>)
    requires k <= |verdicts|
    ensures FailsOnly(jobs, verdicts[..k], r)
  {
    if k == 0 then jobs else AfterVerdict(CondemnedUpTo(jobs, verdicts, k - 1), verdicts[k - 1])
  }

  function Condemned(jobs: map<JobId, JobData>, verdicts: seq<JobId>): (r: map<JobId, JobData>)
    ensures FailsOnly(jobs, verdicts, r)
  {
    assert verdicts[..|verdicts|] == verdicts;
    CondemnedUpTo(jobs, verdicts, |verdicts|)
  }

  datatype Kind = Succeeded | Broke | Stalled

  /** One line of the site record. */
  datatype Line = Line(job: JobId, kind: Kind, site: Site)

  datatype Ledger = Ledger(lines: seq<Line>, seen: set<(JobId, Kind)>)

  function Entered(l: Ledger, j: JobId, kind: Kind, site: Site): Ledger {
    if (j, kind) in l.seen then l else Ledger(l.lines + [Line(j, kind, site)], l.seen + {(j, kind)})
  }

  /** The stall of a job still running by `now` is charged to the last site it ran at, if it is known. */
  function AfterStall(l: Ledger, now: map<JobId, JobData>, j: JobId): Ledger {
    if j in now && now[j].status.RUNNING? && now[j].sites != []
    then Entered(l, j, Stalled, now[j].sites[|now[j].sites| - 1])
    else l
  }

  /** Stalls of the jobs condemned, in the order the verdicts come. */
  function StallsUpTo(l: Ledger, jobs: map<JobId, JobData>, verdicts: seq<JobId>, k: nat): Ledger
    requires k <= |verdicts|
  {
    if k == 0 then l
    else AfterStall(StallsUpTo(l, jobs, verdicts, k - 1), CondemnedUpTo(jobs, verdicts, k - 1), verdicts[k - 1])
  }

  /** What CRAB itself says of how a job ended; a failure without a code is not the site's doing. */
  function Ending(d: JobData): Option<Kind> {
    if d.status.FINISHED? then Some(Succeeded)
    else if d.status.FAILED? && d.code.Some? then Some(Broke)
    else None
  }

  function HarvestedUpTo(l: Ledger, jobs: map<JobId, JobData>, order: seq<JobId>, k: nat): Ledger
    requires k <= |order|
  {
    if k == 0 then l
    else
      var rest, j := HarvestedUpTo(l, jobs, order, k - 1), order[k - 1];
      if j in jobs && jobs[j].sites != [] && Ending(jobs[j]).Some?
      then Entered(rest, j, Ending(jobs[j]).value, jobs[j].sites[|jobs[j].sites| - 1])
      else rest
  }

  /** The verdicts are applied first, and the site record is taken from what they leave. */
  function Booked(l: Ledger, jobs: map<JobId, JobData>, verdicts: seq<JobId>, order: seq<JobId>): Ledger {
    var stalls := StallsUpTo(l, jobs, verdicts, |verdicts|);
    HarvestedUpTo(stalls, Condemned(jobs, verdicts), order, |order|)
  }

  /** The jobs a decision reports; an answer built here covers all asked for, failed if refused, else pending. */
  function Reported(a: Answer, asked: set<JobId>, verdicts: seq<JobId>): (r: map<JobId, JobData>)
    ensures a.Parsed? || a.SubmitFailed? ==> FailsOnly(a.jobs, verdicts, r)
    ensures !a.Parsed? && !a.SubmitFailed? ==>
      r.Keys == asked && forall j <- asked :: r[j].status == (if a.Refused? then FAILED else PENDING) && r[j].code.None?
  {
    match a
    case Parsed(jobs) => Condemned(jobs, verdicts)
    case SubmitFailed(jobs) => Condemned(jobs, verdicts)
    case Refused => Everyone(asked, JobData(FAILED, None, []))
    case Unscheduled => Everyone(asked, JobData(PENDING, None, []))
    case Unreadable => Everyone(asked, JobData(PENDING, None, []))
  }

  // ---- the manager -----------------------------------------------------------------------------

  class CrabJobManager {
    var unreadable: map<Project, nat>
    var unscheduled: map<Project, nat>
    var submitted: set<Project>
    var refused: set<Project>
    var failed: set<Project>
    var stopReason: Option<StopReason>
    var lines: seq<Line>
    var seen: set<(JobId, Kind)>

    function View(): State reads this { State(unreadable, unscheduled, submitted, refused, failed, stopReason) }

    function Book(): Ledger reads this { Ledger(lines, seen) }

    constructor ()
      ensures View() == START && Book() == Ledger([], {})
    {
      unreadable, unscheduled, submitted, refused, failed, stopReason := map[], map[], {}, {}, {}, None;
      lines, seen := [], {};
    }

    method Submit(projects: set<Project>)
      modifies this`submitted
      ensures View() == old(View()).(submitted := old(submitted) + projects)
    {
      submitted := submitted + projects;
    }

    method NoteRefused(p: Project)
      modifies this`unreadable, this`refused, this`stopReason
      ensures View() == AfterRefused(old(View()), p)
    {
      unreadable := unreadable - {p};
      if p in submitted { refused := refused + {p}; }
      if |refused| >= MAX_REFUSED_SUBMISSIONS { stopReason := Some(SubmissionsRefused); }
    }

    method NoteUnscheduled(p: Project)
      modifies this`unreadable, this`unscheduled, this`stopReason
      ensures View() == AfterUnscheduled(old(View()), p)
    {
      unreadable := unreadable - {p};
      var n := Count(unscheduled, p) + 1;
      unscheduled := unscheduled[p := n];
      if n > MAX_UNSCHEDULED_POLLS { stopReason := Some(StuckUnscheduled); }
    }

    method NoteSubmitFailed(p: Project)
      modifies this`failed, this`stopReason
      ensures View() == AfterSubmitFailed(old(View()), p)
    {
      if p !in submitted { return; }
      failed := failed + {p};
      if |failed| >= MAX_FAILED_SUBMISSIONS { stopReason := Some(SubmissionsFailed); }
    }

    /**
     One query; `answers` is what its attempts would read, `verdicts` what the watchdog condemns. It
     raises only for a project unreadable too often, and changes nothing else then.
     */
    method Query(p: Project, asked: set<JobId>, answers: seq<Answer>, verdicts: seq<JobId>, order: seq<JobId>)
      returns (r: Result<map<JobId, JobData>>)
      requires |answers| == QUERY_RETRIES + 1
      modifies this
      ensures View() == After(old(View()), p, Decision(answers, 0))
      ensures r.Err? <==> Raises(old(View()), p, Decision(answers, 0))
      ensures r.Ok? ==> r.value == Reported(Decision(answers, 0), asked, verdicts)
      ensures Book() == if Decision(answers, 0).Parsed? || Decision(answers, 0).SubmitFailed?
                        then Booked(old(Book()), Decision(answers, 0).jobs, verdicts, order) else old(Book())
    {
      var attempt := 0;
      while attempt < |answers| && answers[attempt].Unreadable?
        invariant attempt <= |answers| && Decision(answers, 0) == Decision(answers, attempt)
      {
        attempt := attempt + 1;
      }
      if attempt == |answers| {
        var n := Count(unreadable, p) + 1;
        unreadable := unreadable[p := n];
        if n > MAX_UNREADABLE_POLLS { return Err("unreadable"); }
        return Ok(Everyone(asked, JobData(PENDING, None, [])));
      }
      match answers[attempt] {
        case Refused =>
          NoteRefused(p);
          return Ok(Everyone(asked, JobData(FAILED, None, [])));
        case Unscheduled =>
          NoteUnscheduled(p);
          return Ok(Everyone(asked, JobData(PENDING, None, [])));
        case SubmitFailed(jobs) =>
          NoteSubmitFailed(p);
          var out := Digest(p, jobs, verdicts, order);
          return Ok(out);
        case Parsed(jobs) =>
          var out := Digest(p, jobs, verdicts, order);
          return Ok(out);
      }
    }

    /** What follows a readable answer. */
    method Digest(p: Project, jobs: map<JobId, JobData>, verdicts: seq<JobId>, order: seq<JobId>)
      returns (out: map<JobId, JobData>)
      modifies this`unreadable, this`unscheduled, this`lines, this`seen
      ensures View() == AfterReadable(old(View()), p)
      ensures out == Condemned(jobs, verdicts)
      ensures Book() == Booked(old(Book()), jobs, verdicts, order)
    {
      unreadable, unscheduled := unreadable - {p}, unscheduled - {p};
      out := ApplyWatchdog(jobs, verdicts);
      Harvest(out, order);
    }

    method Enter(j: JobId, kind: Kind, site: Site)
      modifies this`lines, this`seen
      ensures Book() == Entered(old(Book()), j, kind, site)
    {
      if (j, kind) in seen { return; }
      seen := seen + {(j, kind)};
      lines := lines + [Line(j, kind, site)];
    }

    method ApplyWatchdog(jobs: map<JobId, JobData>, verdicts: seq<JobId>) returns (out: map<JobId, JobData>)
      modifies this`lines, this`seen
      ensures out == Condemned(jobs, verdicts)
      ensures Book() == StallsUpTo(old(Book()), jobs, verdicts, |verdicts|)
    {
      out := jobs;
      for k := 0 to |verdicts|
        invariant out == CondemnedUpTo(jobs, verdicts, k)
        invariant Book() == StallsUpTo(old(Book()), jobs, verdicts, k)
      {
        var j := verdicts[k];
        ghost var rest, now := Book(), out;
        if j in out && out[j].status.RUNNING? {
          var data := out[j];
          out := out[j := data.(status := FAILED, code := None)];
          if data.sites != [] { Enter(j, Stalled, data.sites[|data.sites| - 1]); }
        }
        assert Book() == AfterStall(rest, now, j) && out == AfterVerdict(now, j);
      }
    }

    method Harvest(jobs: map<JobId, JobData>, order: seq<JobId>)
      modifies this`lines, this`seen
      ensures Book() == HarvestedUpTo(old(Book()), jobs, order, |order|)
    {
      for k := 0 to |order|
        invariant Book() == HarvestedUpTo(old(Book()), jobs, order, k)
      {
        var j := order[k];
        if j in jobs && jobs[j].sites != [] {
          var ending := Ending(jobs[j]);
          if ending.Some? { Enter(j, ending.value, jobs[j].sites[|jobs[j].sites| - 1]); }
        }
      }
    }
  }
}
