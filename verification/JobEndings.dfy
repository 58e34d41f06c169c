/** What a query decides by, and which endings enter the site record, at which site, over any run. */
module JobEndings {
  import opened Wrappers
  import opened JobManager
  import opened JobManagerRuns

  /** A query has four attempts: the first answer it can read decides, and if there is none, nothing does. */
  lemma {:induction false} FirstReadableDecides(answers: seq<Answer>)
    requires |answers| == QUERY_RETRIES + 1
    ensures |answers| == 4
    ensures forall k | 0 <= k < 4 && (forall i | 0 <= i < k :: answers[i].Unreadable?) && !answers[k].Unreadable? ::
              Decision(answers, 0) == answers[k]
    ensures Decision(answers, 0).Unreadable? <==> forall k | 0 <= k < 4 :: answers[k].Unreadable?
  {
    assert Decision(answers, 0) == if answers[0].Unreadable? then Decision(answers, 1) else answers[0];
    assert Decision(answers, 1) == if answers[1].Unreadable? then Decision(answers, 2) else answers[1];
    assert Decision(answers, 2) == if answers[2].Unreadable? then Decision(answers, 3) else answers[2];
    assert Decision(answers, 3) == if answers[3].Unreadable? then Decision(answers, 4) else answers[3];
  }

  /** The job ended so, by what CRAB and the watchdog say: a stall is one cut short while running, a failure has a code. */
  predicate EndedSo(jobs: map<JobId, JobData>, verdicts: seq<JobId>, order: seq<JobId>, j: JobId, kind: Kind) {
    && j in jobs && jobs[j].sites != []
    && match kind
       case Stalled => jobs[j].status.RUNNING? && j in verdicts
       case Succeeded => jobs[j].status.FINISHED? && j in order
       case Broke => jobs[j].status.FAILED? && jobs[j].code.Some? && j in order
  }

  predicate LastSite(jobs: map<JobId, JobData>, j: JobId, site: Site) {
    j in jobs && jobs[j].sites != [] && site == jobs[j].sites[|jobs[j].sites| - 1]
  }

  /** Nothing written is lost, and what is new is charged to the last site of its job and was not seen before. */
  ghost predicate Extends(l: Ledger, l': Ledger, jobs: map<JobId, JobData>) {
    && |l.lines| <= |l'.lines| && l'.lines[..|l.lines|] == l.lines
    && forall i | |l.lines| <= i < |l'.lines| ::
         var x := l'.lines[i];
         LastSite(jobs, x.job, x.site) && (x.job, x.kind) !in l.seen && (x.job, x.kind) in l'.seen
  }

  lemma EnteringExtends(l: Ledger, m: Ledger, jobs: map<JobId, JobData>, j: JobId, kind: Kind, site: Site)
    requires Extends(l, m, jobs) && LastSite(jobs, j, site) && l.seen <= m.seen
    ensures Extends(l, Entered(m, j, kind, site), jobs)
  {}

  lemma {:induction false} StallsAre(l: Ledger, jobs: map<JobId, JobData>, verdicts: seq<JobId>, k: nat, j: JobId, kind: Kind)
    requires k <= |verdicts|
    ensures (j, kind) in StallsUpTo(l, jobs, verdicts, k).seen <==>
            (j, kind) in l.seen || (kind.Stalled? && EndedSo(jobs, verdicts[..k], [], j, kind))
  {
    if k > 0 {
      StallsAre(l, jobs, verdicts, k - 1, j, kind);
      assert verdicts[..k] == verdicts[..k - 1] + [verdicts[k - 1]];
    }
  }

  lemma {:induction false} StallsExtend(l: Ledger, jobs: map<JobId, JobData>, verdicts: seq<JobId>, k: nat)
    requires k <= |verdicts|
    ensures l.seen <= StallsUpTo(l, jobs, verdicts, k).seen && Extends(l, StallsUpTo(l, jobs, verdicts, k), jobs)
  {
    if k > 0 {
      StallsExtend(l, jobs, verdicts, k - 1);
      StallExtends(l, StallsUpTo(l, jobs, verdicts, k - 1), jobs, CondemnedUpTo(jobs, verdicts, k - 1), verdicts[k - 1]);
    }
  }

  lemma StallExtends(l: Ledger, m: Ledger, jobs: map<JobId, JobData>, now: map<JobId, JobData>, j: JobId)
    requires l.seen <= m.seen && Extends(l, m, jobs)
    requires now.Keys == jobs.Keys && forall i <- jobs :: now[i].sites == jobs[i].sites
    ensures l.seen <= AfterStall(m, now, j).seen && Extends(l, AfterStall(m, now, j), jobs)
  {
    if j in now && now[j].sites != [] {
      EnteringExtends(l, m, jobs, j, Stalled, now[j].sites[|now[j].sites| - 1]);
    }
  }

  lemma {:induction false} HarvestIs(l: Ledger, jobs: map<JobId, JobData>, order: seq<JobId>, k: nat, j: JobId, kind: Kind)
    requires k <= |order|
    ensures (j, kind) in HarvestedUpTo(l, jobs, order, k).seen <==>
            (j, kind) in l.seen || (!kind.Stalled? && EndedSo(jobs, [], order[..k], j, kind))
  {
    if k > 0 {
      HarvestIs(l, jobs, order, k - 1, j, kind);
      assert order[..k] == order[..k - 1] + [order[k - 1]];
    }
  }

  lemma {:induction false} HarvestExtends(l: Ledger, m: Ledger, told: map<JobId, JobData>, jobs: map<JobId, JobData>,
                                          order: seq<JobId>, k: nat)
    requires k <= |order| && l.seen <= m.seen && Extends(l, m, told)
    requires jobs.Keys == told.Keys && forall j <- told :: jobs[j].sites == told[j].sites
    ensures l.seen <= HarvestedUpTo(m, jobs, order, k).seen && Extends(l, HarvestedUpTo(m, jobs, order, k), told)
  {
    if k > 0 {
      HarvestExtends(l, m, told, jobs, order, k - 1);
      var j := order[k - 1];
      if j in jobs && jobs[j].sites != [] && Ending(jobs[j]).Some? {
        EnteringExtends(l, HarvestedUpTo(m, jobs, order, k - 1), told, j, Ending(jobs[j]).value, jobs[j].sites[|jobs[j].sites| - 1]);
      }
    }
  }

  /**
   One readable answer: what is known to have ended afterwards is what was, and the jobs it names as ended
   or the watchdog cuts short -- not those it cut short as broken too, and no failure without a code.
   */
  lemma AnswerRecords(l: Ledger, jobs: map<JobId, JobData>, verdicts: seq<JobId>, order: seq<JobId>, j: JobId, kind: Kind)
    ensures var l' := Booked(l, jobs, verdicts, order);
      (j, kind) in l'.seen <==> (j, kind) in l.seen || EndedSo(jobs, verdicts, order, j, kind)
  {
    StallsAre(l, jobs, verdicts, |verdicts|, j, kind);
    assert verdicts[..|verdicts|] == verdicts && order[..|order|] == order;
    HarvestIs(StallsUpTo(l, jobs, verdicts, |verdicts|), Condemned(jobs, verdicts), order, |order|, j, kind);
  }

  lemma AnswerExtends(l: Ledger, jobs: map<JobId, JobData>, verdicts: seq<JobId>, order: seq<JobId>)
    ensures Extends(l, Booked(l, jobs, verdicts, order), jobs)
  {
    StallsExtend(l, jobs, verdicts, |verdicts|);
    var out := Condemned(jobs, verdicts);
    forall j <- jobs ensures out[j].sites == jobs[j].sites {}
    HarvestExtends(l, StallsUpTo(l, jobs, verdicts, |verdicts|), jobs, out, order, |order|);
  }

  /** Event `i` told of the job's ending. */
  predicate Tells(e: Event, j: JobId, kind: Kind) {
    e.Query? && (e.answer.Parsed? || e.answer.SubmitFailed?) && EndedSo(e.answer.jobs, e.verdicts, e.order, j, kind)
  }

  lemma TellingIsSeen(w: World, e: Event, j: JobId, kind: Kind)
    ensures (j, kind) in Step(w, e).book.seen <==> (j, kind) in w.book.seen || Tells(e, j, kind)
  {
    if e.Query? && (e.answer.Parsed? || e.answer.SubmitFailed?) {
      AnswerRecords(w.book, e.answer.jobs, e.verdicts, e.order, j, kind);
    }
  }

  /** Over every run of one process: an ending has been seen if and only if some query told of it. */
  lemma {:induction false} SeenExactlyWhenTold(run: seq<Event>, n: nat, j: JobId, kind: Kind)
    requires n <= |run|
    ensures (j, kind) in Before(run, n).book.seen <==> exists i :: 0 <= i < n && Tells(run[i], j, kind)
  {
    if n > 0 {
      SeenExactlyWhenTold(run, n - 1, j, kind);
      TellingIsSeen(Before(run, n - 1), run[n - 1], j, kind);
    }
  }

  /** The query that first told of what a line says, and the site it had then. */
  ghost predicate FirstTold(run: seq<Event>, i: nat, x: Line)
    requires i < |run|
  {
    && Tells(run[i], x.job, x.kind) && LastSite(run[i].answer.jobs, x.job, x.site)
    && forall h | 0 <= h < i :: !Tells(run[h], x.job, x.kind)
  }

  /** Every line of the record is charged to the last site its job had when a query first told of that ending. */
  lemma {:induction false} ChargedToTheLastSite(run: seq<Event>, n: nat, k: nat) returns (i: nat)
    requires n <= |run| && k < |Before(run, n).book.lines|
    ensures i < n && FirstTold(run, i, Before(run, n).book.lines[k])
  {
    var l, e, x := Before(run, n - 1).book, run[n - 1], Before(run, n).book.lines[k];
    if e.Query? && (e.answer.Parsed? || e.answer.SubmitFailed?) {
      AnswerExtends(l, e.answer.jobs, e.verdicts, e.order);
    }
    if k < |l.lines| {
      i := ChargedToTheLastSite(run, n - 1, k);
    } else {
      i := n - 1;
      AnswerRecords(l, e.answer.jobs, e.verdicts, e.order, x.job, x.kind);
      SeenExactlyWhenTold(run, n - 1, x.job, x.kind);
    }
  }
}
