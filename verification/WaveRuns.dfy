/**
 The wave gate over whole runs: polls with any outcomes at any times, skipped rounds and restarts of the
 driver. What every poll keeps is that the retries waiting or offered never outnumber the free slots.
 */
module WaveRuns {
  import opened Wrappers
  import opened WaveGate

  datatype World = World(st: State, active: set<JobNum>, now: real)

  /** A poll reports which jobs are still active and offers some that failed; a restart forgets the clock. */
  datatype Event = Poll(at: real, still: set<JobNum>, offered: seq<Job>, readable: bool) | Restart(at: real)

  predicate Enabled(w: World, e: Event) {
    match e
    case Poll(at, still, offered, _) =>
      && w.now <= at && still <= w.active && OncePer(offered)
      && Nums(offered) <= w.active - still
      && forall j <- offered :: j.num in w.st.jobs && w.st.jobs[j.num] == j.branches
    case Restart(_) => true
  }

  /** law counts an attempt before it offers a retry. */
  function Offered(w: World, e: Event): State
    requires e.Poll?
  {
    w.st.(attempts := w.st.attempts + Nums(e.offered))
  }

  function Step(cfg: Config, skip: set<JobNum>, w: World, e: Event): World {
    match e
    case Poll(at, still, offered, readable) =>
      var r := Submit(cfg, Offered(w, e), offered, skip, |still|, readable, at);
      World(r.st, still + Nums(r.submitted), at)
    case Restart(at) => World(DropComplete(w.st, skip).(since := None), w.active, at)
  }

  /** law's data when the poll loop starts: no retry yet, and a skippable waiting job is also in `jobs`. */
  ghost predicate Fresh(skip: set<JobNum>, st: State) {
    && st.attempts == {} && st.since == None && OncePer(st.unsubmitted)
    && forall j <- st.unsubmitted :: if j.num in skip then j.num in st.jobs && st.jobs[j.num] == j.branches
                                     else j.num !in st.jobs
  }

  ghost predicate IsRun(cfg: Config, skip: set<JobNum>, start: State, ws: seq<World>, run: seq<Event>) {
    && Fresh(skip, start)
    && |ws| == |run| + 1 && ws[0] == World(DropComplete(start, skip), {}, ws[0].now)
    && forall i | 0 <= i < |run| :: Enabled(ws[i], run[i]) && ws[i + 1] == Step(cfg, skip, ws[i], run[i])
  }

  // ---- lists of jobs ---------------------------------------------------------------------------

  lemma {:induction false} NumsConcatUpTo(a: seq<Job>, b: seq<Job>, k: nat)
    requires k <= |b|
    ensures NumsUpTo(a + b, |a| + k) == Nums(a) + NumsUpTo(b, k)
  {
    if k == 0 { NumsPrefix(a, b, |a|); } else { NumsConcatUpTo(a, b, k - 1); }
  }

  lemma NumsConcat(a: seq<Job>, b: seq<Job>)
    ensures Nums(a + b) == Nums(a) + Nums(b)
  {
    NumsConcatUpTo(a, b, |b|);
  }

  lemma NumsSplit(list: seq<Job>, k: nat)
    requires k <= |list|
    ensures Nums(list) == Nums(list[..k]) + Nums(list[k..])
  {
    assert list == list[..k] + list[k..];
    NumsConcat(list[..k], list[k..]);
  }

  lemma {:induction false} NumsMember(list: seq<Job>, k: nat, n: JobNum)
    requires k <= |list|
    ensures n in NumsUpTo(list, k) <==> exists i :: 0 <= i < k && list[i].num == n
  {
    if k > 0 { NumsMember(list, k - 1, n); }
  }

  lemma {:induction false} NumsCountUpTo(list: seq<Job>, k: nat)
    requires k <= |list|
    ensures |NumsUpTo(list, k)| <= k
  {
    if k > 0 { NumsCountUpTo(list, k - 1); }
  }

  lemma NumsCount(list: seq<Job>)
    ensures |Nums(list)| <= |list|
  {
    NumsCountUpTo(list, |list|);
  }

  lemma OncePerConcat(a: seq<Job>, b: seq<Job>)
    ensures OncePer(a + b) <==> OncePer(a) && OncePer(b) && Nums(a) !! Nums(b)
  {
    NumsConcat(a, b);
    NumsCount(a);
    NumsCount(b);
    UnionCount(Nums(a), Nums(b));
  }

  lemma UnionCount(a: set<JobNum>, b: set<JobNum>)
    ensures |a + b| <= |a| + |b| && (|a + b| == |a| + |b| <==> a !! b)
  {
    assert |a + b| + |a * b| == |a| + |b|;
    if x :| x in a && x in b { assert x in a * b; } else { assert a * b == {}; }
  }

  lemma OncePerSplit(list: seq<Job>, k: nat)
    requires k <= |list| && OncePer(list)
    ensures OncePer(list[..k]) && OncePer(list[k..]) && Nums(list[..k]) !! Nums(list[k..])
  {
    assert list == list[..k] + list[k..];
    OncePerConcat(list[..k], list[k..]);
  }

  lemma {:induction false} LiveUpToIs(list: seq<Job>, skip: set<JobNum>, k: nat)
    requires k <= |list|
    ensures Nums(LiveUpTo(list, skip, k)) == NumsUpTo(list, k) - skip && |LiveUpTo(list, skip, k)| <= k
    ensures |NumsUpTo(list, k)| == k ==> OncePer(LiveUpTo(list, skip, k))
  {
    if k > 0 {
      var live := LiveUpTo(list, skip, k - 1);
      LiveUpToIs(list, skip, k - 1);
      NumsCountUpTo(list, k - 1);
      NumsAppend(live, list[k - 1]);
      assert live + [] == live;
    }
  }

  lemma {:induction false} LiveUpToAll(list: seq<Job>, skip: set<JobNum>, k: nat)
    requires k <= |list| && NumsUpTo(list, k) !! skip
    ensures LiveUpTo(list, skip, k) == list[..k]
  {
    if k > 0 { LiveUpToAll(list, skip, k - 1); }
  }

  lemma LiveIs(list: seq<Job>, skip: set<JobNum>)
    ensures Nums(Live(list, skip)) == Nums(list) - skip && |Live(list, skip)| <= |list|
    ensures OncePer(list) ==> OncePer(Live(list, skip))
    ensures Nums(list) !! skip ==> Live(list, skip) == list
  {
    LiveUpToIs(list, skip, |list|);
    if Nums(list) !! skip {
      LiveUpToAll(list, skip, |list|);
      assert list[..|list|] == list;
    }
  }

  lemma {:induction false} WithKeysUpTo(jobs: map<JobNum, seq<nat>>, list: seq<Job>, k: nat)
    requires k <= |list|
    ensures WithUpTo(jobs, list, k).Keys == jobs.Keys + NumsUpTo(list, k)
  {
    if k > 0 { WithKeysUpTo(jobs, list, k - 1); }
  }

  lemma WithKeys(jobs: map<JobNum, seq<nat>>, list: seq<Job>)
    ensures With(jobs, list).Keys == jobs.Keys + Nums(list)
  {
    WithKeysUpTo(jobs, list, |list|);
  }

  // ---- what every step keeps -------------------------------------------------------------------

  /** The parked retries are exactly the first ones waiting. */
  predicate ParkedFirst(st: State) {
    |Parked(st)| <= |st.unsubmitted| &&
    forall i | 0 <= i < |st.unsubmitted| :: st.unsubmitted[i].num in st.attempts <==> i < |Parked(st)|
  }

  ghost predicate Apart(skip: set<JobNum>, st: State) {
    OncePer(st.unsubmitted) && Nums(st.unsubmitted) !! st.jobs.Keys && Nums(st.unsubmitted) !! skip
  }

  ghost predicate Inv(cfg: Config, skip: set<JobNum>, w: World) {
    && Apart(skip, w.st) && ParkedFirst(w.st)
    && w.active <= w.st.jobs.Keys
    && |w.active| + |Parked(w.st)| <= cfg.nParallel
  }

  /** What `submit` is handed when the retries parked and offered fit into the free slots. */
  ghost predicate Ready(cfg: Config, skip: set<JobNum>, st: State, active: set<JobNum>, offered: seq<Job>) {
    && Apart(skip, st) && ParkedFirst(st) && active <= st.jobs.Keys
    && OncePer(offered) && Nums(offered) !! Nums(st.unsubmitted) && Nums(offered) <= st.attempts
    && Nums(offered) !! active
    && |active| + |offered| + |Parked(st)| <= cfg.nParallel
  }

  lemma RoomForRetries(cfg: Config, skip: set<JobNum>, w: World, e: Event)
    requires Inv(cfg, skip, w) && Enabled(w, e) && e.Poll?
    ensures Ready(cfg, skip, Offered(w, e), e.still, e.offered)
    ensures Parked(Offered(w, e)) == Parked(w.st)
  {
    NumsCount(e.offered);
    Fits(e.still, Nums(e.offered), w.active);
    assert Nums(e.offered) !! Nums(w.st.unsubmitted);
    forall i | 0 <= i < |w.st.unsubmitted| ensures w.st.unsubmitted[i].num !in Nums(e.offered) {
      NumsMember(w.st.unsubmitted, |w.st.unsubmitted|, w.st.unsubmitted[i].num);
    }
    assert Parked(Offered(w, e)) == Parked(w.st);
  }

  lemma Fits(a: set<JobNum>, b: set<JobNum>, c: set<JobNum>)
    requires a !! b && a <= c && b <= c
    ensures |a| + |b| <= |c|
  {
    assert a + b <= c;
    assert |a + b| == |a| + |b|;
    assert c == (a + b) + (c - (a + b));
  }

  lemma ParkKeepsInv(cfg: Config, skip: set<JobNum>, st: State, active: set<JobNum>, offered: seq<Job>, now: real)
    requires Ready(cfg, skip, st, active, offered)
    ensures Inv(cfg, skip, World(Park(st, offered, skip, now), active, now))
    ensures Parked(Park(st, offered, skip, now)) == Parked(st) + (Nums(offered) - skip)
  {
    var parked := Live(offered, skip);
    LiveIs(offered, skip);
    NumsCount(parked);
    NumsConcat(parked, st.unsubmitted);
    OncePerConcat(parked, st.unsubmitted);
    var st' := Park(st, offered, skip, now);
    if parked == [] {
      assert st' == st && Nums(offered) - skip == {};
    } else {
      ParkWrites(st, offered, skip, now);
      FrontGrows(st, parked, st');
    }
  }

  lemma ParkWrites(st: State, offered: seq<Job>, skip: set<JobNum>, now: real)
    requires Live(offered, skip) != []
    ensures var st' := Park(st, offered, skip, now);
            && st'.unsubmitted == Live(offered, skip) + st.unsubmitted && st'.attempts == st.attempts
            && st'.jobs.Keys == st.jobs.Keys - Nums(Live(offered, skip))
  {}

  lemma FrontGrows(st: State, parked: seq<Job>, st': State)
    requires ParkedFirst(st) && st'.attempts == st.attempts && st'.unsubmitted == parked + st.unsubmitted
    requires OncePer(parked) && Nums(parked) <= st.attempts && Nums(parked) !! Nums(st.unsubmitted)
    ensures Parked(st') == Parked(st) + Nums(parked) && |Parked(st')| == |Parked(st)| + |parked|
    ensures ParkedFirst(st')
  {
    NumsCount(parked);
    NumsConcat(parked, st.unsubmitted);
    assert Parked(st') == Parked(st) + Nums(parked);
    UnionCount(Nums(parked), Parked(st));
    forall i | 0 <= i < |parked| ensures st'.unsubmitted[i].num in st.attempts {
      NumsMember(parked, |parked|, parked[i].num);
    }
    forall i | |parked| <= i < |st'.unsubmitted| ensures st'.unsubmitted[i] == st.unsubmitted[i - |parked|] {}
  }

  /** How much of the backlog a round with room for the retries takes. */
  function Filled(skip: set<JobNum>, st: State, offered: seq<Job>, slots: int): nat
    requires |Live(offered, skip)| <= slots
  {
    Min(slots - |Live(offered, skip)|, |st.unsubmitted|)
  }

  /** A round that takes every live retry offered and the first `fill` waiting jobs. */
  function FillRound(skip: set<JobNum>, st: State, offered: seq<Job>, fill: nat): Round
    requires fill <= |st.unsubmitted|
  {
    var submitted := Live(offered, skip) + st.unsubmitted[..fill];
    Round(st.(unsubmitted := st.unsubmitted[fill..], jobs := With(st.jobs, submitted)), submitted)
  }

  lemma LawFills(skip: set<JobNum>, st: State, offered: seq<Job>, slots: nat)
    requires Nums(st.unsubmitted) !! skip && |Live(offered, skip)| <= slots
    ensures LawFill(st, Live(offered, skip), skip, slots - |Live(offered, skip)|)
            == FillRound(skip, st, offered, Filled(skip, st, offered, slots))
  {
    LiveIs(st.unsubmitted, skip);
    TakeSome(st.unsubmitted, slots - |Live(offered, skip)|);
  }

  lemma SubmitIsFill(skip: set<JobNum>, st: State, offered: seq<Job>, slots: nat)
    requires |Live(offered, skip)| <= slots
    ensures LawSubmit(st, offered, skip, slots) == LawFill(st, Live(offered, skip), skip, slots - |Live(offered, skip)|)
  {
    TakeAll(Live(offered, skip), slots);
    NothingOver(st);
  }

  /** law's own submission when the retries fit: it takes every one of them, then backlog. */
  lemma LawTakesRetries(skip: set<JobNum>, st: State, offered: seq<Job>, slots: nat)
    requires Nums(st.unsubmitted) !! skip && |Live(offered, skip)| <= slots
    ensures LawSubmit(st, offered, skip, slots) == FillRound(skip, st, offered, Filled(skip, st, offered, slots))
  {
    SubmitIsFill(skip, st, offered, slots);
    LawFills(skip, st, offered, slots);
  }

  lemma NothingOver(st: State)
    ensures st.(jobs := Without(st.jobs, Nums([])), unsubmitted := st.unsubmitted + []) == st
  {}

  lemma TakeAll(list: seq<Job>, room: nat)
    requires |list| <= room
    ensures Take(list, room) == list && Leave(list, room) == []
  {}

  lemma TakeSome(list: seq<Job>, room: nat)
    ensures var k := Min(room, |list|); Take(list, room) == list[..k] && Leave(list, room) == list[k..]
  {}

  lemma FilledFits(cfg: Config, skip: set<JobNum>, st: State, active: set<JobNum>, offered: seq<Job>) returns (fill: nat)
    requires Ready(cfg, skip, st, active, offered)
    ensures |Parked(st)| <= fill <= |st.unsubmitted| && |active| + |Live(offered, skip)| + fill <= cfg.nParallel
    ensures LawSubmit(st, offered, skip, cfg.nParallel - |active|) == FillRound(skip, st, offered, fill)
  {
    var slots := cfg.nParallel - |active|;
    LiveIs(offered, skip);
    LawTakesRetries(skip, st, offered, slots);
    fill := Filled(skip, st, offered, slots);
  }

  ghost predicate AllTaken(cfg: Config, skip: set<JobNum>, st: State, active: set<JobNum>, offered: seq<Job>, r: Round, now: real) {
    && Inv(cfg, skip, World(r.st, active + Nums(r.submitted), now)) && Parked(r.st) == {}
    && Parked(st) + (Nums(offered) - skip) <= Nums(r.submitted)
  }

  lemma FillKeepsInv(cfg: Config, skip: set<JobNum>, st: State, active: set<JobNum>, offered: seq<Job>, now: real, fill: nat)
    requires Ready(cfg, skip, st, active, offered)
    requires |Parked(st)| <= fill <= |st.unsubmitted| && |active| + |Live(offered, skip)| + fill <= cfg.nParallel
    ensures AllTaken(cfg, skip, st, active, offered, FillRound(skip, st, offered, fill), now)
  {
    var retries := Live(offered, skip);
    LiveIs(offered, skip);
    LeftIsBacklog(st, fill);
    SubmittedIs(skip, st, retries, fill);
    FillCounts(st, active, retries, fill, cfg.nParallel);
    WithKeys(st.jobs, retries + st.unsubmitted[..fill]);
  }

  lemma FillCounts(st: State, active: set<JobNum>, retries: seq<Job>, fill: nat, limit: nat)
    requires fill <= |st.unsubmitted| && |active| + |retries| + fill <= limit
    ensures |active + Nums(retries + st.unsubmitted[..fill])| <= limit
  {
    NumsCount(retries + st.unsubmitted[..fill]);
    UnionCount(active, Nums(retries + st.unsubmitted[..fill]));
  }

  /** The waiting jobs cut in two, the first part and the retries handed to law. */
  lemma SubmittedIs(skip: set<JobNum>, st: State, retries: seq<Job>, fill: nat)
    requires Apart(skip, st) && fill <= |st.unsubmitted| && Nums(retries) !! Nums(st.unsubmitted)
    ensures var submitted := retries + st.unsubmitted[..fill];
            && Nums(submitted) == Nums(retries) + Nums(st.unsubmitted[..fill])
            && Apart(skip, st.(unsubmitted := st.unsubmitted[fill..], jobs := With(st.jobs, submitted)))
  {
    NumsConcat(retries, st.unsubmitted[..fill]);
    NumsSplit(st.unsubmitted, fill);
    OncePerSplit(st.unsubmitted, fill);
    WithKeys(st.jobs, retries + st.unsubmitted[..fill]);
  }

  /** Cut at or behind the last parked retry, the first part holds all of them. */
  lemma LeftIsBacklog(st: State, k: nat)
    requires ParkedFirst(st) && |Parked(st)| <= k <= |st.unsubmitted|
    ensures Parked(st) <= Nums(st.unsubmitted[..k]) && Nums(st.unsubmitted[k..]) !! st.attempts
  {
    var left := st.unsubmitted[k..];
    forall n | n in Nums(left) ensures n !in st.attempts {
      NumsMember(left, |left|, n);
      var i :| 0 <= i < |left| && left[i].num == n;
      assert st.unsubmitted[k + i] == left[i];
    }
    NumsSplit(st.unsubmitted, k);
  }

  /** The round hands the wave to law. */
  predicate Opened(cfg: Config, w: World, e: Event) {
    e.Poll? && e.readable && Opens(cfg, ClockAfter(Offered(w, e), e.at, false), |e.still|, |e.offered|, e.at)
  }

  /** The state a held or skipped round parks its retries in. */
  function Held(w: World, e: Event): State
    requires e.Poll?
  {
    if e.readable then ClockAfter(Offered(w, e), e.at, false) else Offered(w, e)
  }

  lemma SubmitIsAfterGate(cfg: Config, skip: set<JobNum>, w: World, e: Event)
    requires e.Poll?
    ensures Submit(cfg, Offered(w, e), e.offered, skip, |e.still|, e.readable, e.at)
            == AfterGate(cfg, Held(w, e), e.offered, skip, |e.still|, e.at, Opened(cfg, w, e))
  {}

  lemma HeldIsReady(cfg: Config, skip: set<JobNum>, w: World, e: Event)
    requires Inv(cfg, skip, w) && Enabled(w, e) && e.Poll?
    ensures Ready(cfg, skip, Held(w, e), e.still, e.offered)
    ensures Parked(Held(w, e)) == Parked(w.st)
  {
    RoomForRetries(cfg, skip, w, e);
  }

  /** What an opened round does when the retries fit. */
  function OpenRound(skip: set<JobNum>, st: State, offered: seq<Job>, fill: nat, now: real): Round
    requires fill <= |st.unsubmitted|
  {
    var r := FillRound(skip, st, offered, fill);
    r.(st := ClockAfter(r.st, now, true))
  }

  lemma ClockKeepsTaken(cfg: Config, skip: set<JobNum>, st: State, active: set<JobNum>, offered: seq<Job>, r: Round, now: real)
    requires AllTaken(cfg, skip, st, active, offered, r, now)
    ensures AllTaken(cfg, skip, st, active, offered, r.(st := ClockAfter(r.st, now, true)), now)
  {}

  predicate FillsEnough(cfg: Config, skip: set<JobNum>, st: State, active: set<JobNum>, offered: seq<Job>, fill: nat) {
    |Parked(st)| <= fill <= |st.unsubmitted| && |active| + |Live(offered, skip)| + fill <= cfg.nParallel
  }

  /** So an opened round leaves no retry behind, and fills no more than the slots. */
  lemma OpenRoundTakesAll(cfg: Config, skip: set<JobNum>, st: State, active: set<JobNum>, offered: seq<Job>, now: real, fill: nat)
    requires Ready(cfg, skip, st, active, offered) && FillsEnough(cfg, skip, st, active, offered, fill)
    ensures AllTaken(cfg, skip, st, active, offered, OpenRound(skip, st, offered, fill, now), now)
  {
    FillKeepsInv(cfg, skip, st, active, offered, now, fill);
    ClockKeepsTaken(cfg, skip, st, active, offered, FillRound(skip, st, offered, fill), now);
  }

  lemma OpenGateIs(cfg: Config, skip: set<JobNum>, st: State, nActive: nat, offered: seq<Job>, now: real, law: Round)
    requires LawSubmit(st, offered, skip, cfg.nParallel - nActive) == law
    ensures AfterGate(cfg, st, offered, skip, nActive, now, true) == law.(st := ClockAfter(law.st, now, true))
  {}

  lemma OpenGateIsOpenRound(cfg: Config, skip: set<JobNum>, st: State, active: set<JobNum>, offered: seq<Job>, now: real)
    returns (fill: nat)
    requires Ready(cfg, skip, st, active, offered)
    ensures FillsEnough(cfg, skip, st, active, offered, fill)
    ensures AfterGate(cfg, st, offered, skip, |active|, now, true) == OpenRound(skip, st, offered, fill, now)
  {
    fill := FilledFits(cfg, skip, st, active, offered);
    OpenGateIs(cfg, skip, st, |active|, offered, now, FillRound(skip, st, offered, fill));
  }

  /** Whatever the gate says, the invariant is kept; an open gate leaves no retry parked. */
  lemma AfterGateKeepsInv(cfg: Config, skip: set<JobNum>, st: State, active: set<JobNum>, offered: seq<Job>, now: real,
                          open: bool, r: Round)
    requires Ready(cfg, skip, st, active, offered)
    requires r == AfterGate(cfg, st, offered, skip, |active|, now, open)
    ensures Inv(cfg, skip, World(r.st, active + Nums(r.submitted), now))
    ensures open ==> Parked(r.st) == {} && Parked(st) + (Nums(offered) - skip) <= Nums(r.submitted)
  {
    if open {
      var fill := OpenGateIsOpenRound(cfg, skip, st, active, offered, now);
      OpenRoundTakesAll(cfg, skip, st, active, offered, now, fill);
      assert r == OpenRound(skip, st, offered, fill, now);
    } else {
      ParkKeepsInv(cfg, skip, st, active, offered, now);
      assert active + Nums([]) == active by { assert Nums([]) == {}; }
    }
  }

  lemma StepKeepsInv(cfg: Config, skip: set<JobNum>, w: World, e: Event)
    requires Inv(cfg, skip, w) && Enabled(w, e)
    ensures Inv(cfg, skip, Step(cfg, skip, w, e))
  {
    if e.Restart? {
      LiveIs(w.st.unsubmitted, skip);
    } else {
      SubmitIsAfterGate(cfg, skip, w, e);
      HeldIsReady(cfg, skip, w, e);
      AfterGateKeepsInv(cfg, skip, Held(w, e), e.still, e.offered, e.at, Opened(cfg, w, e),
                        Submit(cfg, Offered(w, e), e.offered, skip, |e.still|, e.readable, e.at));
    }
  }

  lemma FreshHasRoom(cfg: Config, skip: set<JobNum>, start: State, now: real)
    requires Fresh(skip, start)
    ensures Inv(cfg, skip, World(DropComplete(start, skip), {}, now))
  {
    LiveIs(start.unsubmitted, skip);
    var st := DropComplete(start, skip);
    assert Parked(st) == {};
    forall n | n in Nums(start.unsubmitted) && n !in skip ensures n !in start.jobs {
      NumsMember(start.unsubmitted, |start.unsubmitted|, n);
      var i :| 0 <= i < |start.unsubmitted| && start.unsubmitted[i].num == n;
      assert start.unsubmitted[i] in start.unsubmitted;
    }
  }

  lemma {:induction false} InvAlways(cfg: Config, skip: set<JobNum>, start: State, ws: seq<World>, run: seq<Event>, n: nat)
    requires IsRun(cfg, skip, start, ws, run) && n <= |run|
    ensures Inv(cfg, skip, ws[n])
  {
    if n == 0 {
      FreshHasRoom(cfg, skip, start, ws[0].now);
    } else {
      InvAlways(cfg, skip, start, ws, run, n - 1);
      StepKeepsInv(cfg, skip, ws[n - 1], run[n - 1]);
    }
  }
}
