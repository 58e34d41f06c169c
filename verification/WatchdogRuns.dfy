/**
 The watchdog as the CRAB driver runs it: every poll queries (verdicts first, on the listing then
 in force), and its callback publishes law's jobs and refreshes the listing through a throttle.
 A run is any sequence of such events; three clocks meet in it -- the throttle's, the listing's
 and the query's.
 */
module WatchdogRuns {
  import opened Wrappers
  import opened Watchdog

  // ---- the throttle ----------------------------------------------------------------------------

  predicate Due(lastUpdate: Option<int>, now: int, interval: int) {
    lastUpdate.None? || now - lastUpdate.value >= interval
  }

  /** `timed_call_wrapper`: lets a call through at most once per interval. */
  class TimedCall {
    const interval: int
    var lastUpdate: Option<int>

    constructor (interval: int)
      ensures this.interval == interval && lastUpdate == None
    {
      this.interval, lastUpdate := interval, None;
    }

    method Update(now: int) returns (call: bool)
      modifies this
      ensures call == Due(old(lastUpdate), now, interval)
      ensures lastUpdate == if call then Some(now) else old(lastUpdate)
    {
      call := Due(lastUpdate, now, interval);
      if call { lastUpdate := Some(now); }
    }
  }

  /** The throttle after the first `n` calls. */
  function LetThrough(interval: int, calls: seq<int>, n: nat): Option<int>
    requires n <= |calls|
  {
    if n == 0 then None
    else
      var last := LetThrough(interval, calls, n - 1);
      if Due(last, calls[n - 1], interval) then Some(calls[n - 1]) else last
  }

  predicate Through(interval: int, calls: seq<int>, n: nat)
    requires n < |calls|
  {
    Due(LetThrough(interval, calls, n), calls[n], interval)
  }

  lemma {:induction false} LastThrough(interval: int, calls: seq<int>, i: nat, n: nat)
    requires i < n <= |calls| && Through(interval, calls, i) && interval >= 0
    requires forall a, b :: 0 <= a < b < |calls| ==> calls[a] <= calls[b]
    ensures LetThrough(interval, calls, n).Some? && calls[i] <= LetThrough(interval, calls, n).value
  {
    if i < n - 1 { LastThrough(interval, calls, i, n - 1); }
  }

  /** What the throttle lets through, of calls in order of time: no two within an interval, and one in any interval. */
  lemma ThroughAreSpaced(interval: int, calls: seq<int>, i: nat, j: nat)
    requires i < j < |calls| && interval >= 0 && forall a, b :: 0 <= a < b < |calls| ==> calls[a] <= calls[b]
    ensures Through(interval, calls, 0)
    ensures Through(interval, calls, i) && Through(interval, calls, j) ==> calls[j] >= calls[i] + interval
    ensures calls[j] >= calls[i] + interval ==> exists k :: i < k <= j && Through(interval, calls, k)
  {
    if Through(interval, calls, i) { LastThrough(interval, calls, i, j); }
    if calls[j] >= calls[i] + interval && forall k :: i < k < j ==> !Through(interval, calls, k) {
      NoneThrough(interval, calls, i, j);
      assert Through(interval, calls, j);
    }
  }

  lemma {:induction false} NoneThrough(interval: int, calls: seq<int>, i: nat, j: nat)
    requires i < j <= |calls| && interval >= 0 && forall k :: i < k < j ==> !Through(interval, calls, k)
    requires forall a, b :: 0 <= a < b < |calls| ==> calls[a] <= calls[b]
    ensures LetThrough(interval, calls, j).Some? && LetThrough(interval, calls, j).value <= calls[i]
  {
    if j > i + 1 {
      NoneThrough(interval, calls, i, j - 1);
      assert !Through(interval, calls, j - 1);
    } else {
      ThroughEarlier(interval, calls, i + 1);
    }
  }

  lemma {:induction false} ThroughEarlier(interval: int, calls: seq<int>, n: nat)
    requires 0 < n <= |calls| && forall a, b :: 0 <= a < b < |calls| ==> calls[a] <= calls[b]
    ensures LetThrough(interval, calls, n).Some? && LetThrough(interval, calls, n).value <= calls[n - 1]
  {
    if n > 1 { ThroughEarlier(interval, calls, n - 1); }
  }

  // ---- runs ------------------------------------------------------------------------------------

  datatype Event =
    | Query(at: int, entries: seq<Entry>)
    | Callback(at: int, listedAt: int, jobs: map<Key, Known>, flags: Option<map<Branch, int>>)
  {
    /** When the event is over: a refresh reads its own clock after the throttle read one. */
    function End(): int { if Query? then at else listedAt }
  }

  datatype Driver = Driver(st: State, lastUpdate: Option<int>)

  /** What a query condemns. */
  function Verdicts(cfg: Config, st: State, entries: seq<Entry>, at: int): map<JobId, Option<int>> {
    Judge(cfg, st, entries, None, at).1
  }

  function KeysOf(out: map<JobId, Option<int>>): set<Key> {
    set id <- out.Keys :: id.key
  }

  /** A condemned job's status is rewritten to failed, and the watchdog forgets the id. */
  function AfterQuery(cfg: Config, st: State, entries: seq<Entry>, at: int): State {
    var (st1, out) := Judge(cfg, st, entries, None, at);
    Forget(st1, KeysOf(out))
  }

  function Step(cfg: Config, d: Driver, e: Event): Driver {
    match e
    case Query(at, entries) => d.(st := AfterQuery(cfg, d.st, entries, at))
    case Callback(at, listedAt, jobs, flags) =>
      var st := WithJobs(d.st, jobs);
      if Due(d.lastUpdate, at, cfg.Interval())
      then Driver(Refreshed(cfg, st, listedAt, flags), Some(at))
      else d.(st := st)
  }

  /** The driver before event `n`. */
  function Before(cfg: Config, run: seq<Event>, n: nat): Driver
    requires n <= |run|
  {
    if n == 0 then Driver(INITIAL, None) else Step(cfg, Before(cfg, run, n - 1), run[n - 1])
  }

  /** What event `n` of the run condemns. */
  function Condemned(cfg: Config, run: seq<Event>, n: nat): set<Key>
    requires n < |run|
  {
    if run[n].Query? then KeysOf(Verdicts(cfg, Before(cfg, run, n).st, run[n].entries, run[n].at)) else {}
  }

  function LastCallback(run: seq<Event>, n: nat): Option<int>
    requires n <= |run|
  {
    if n == 0 then None
    else if run[n - 1].Callback? then Some(run[n - 1].at)
    else LastCallback(run, n - 1)
  }

  /** Time never runs backwards, and every event is at most `poll` after the last poll's callback. */
  ghost predicate Timely(run: seq<Event>, poll: int) {
    && (forall n :: 0 <= n < |run| ==> run[n].at <= run[n].End())
    && (forall i, j :: 0 <= i < j < |run| ==> run[i].End() <= run[j].at)
    && (forall n :: 0 <= n < |run| && LastCallback(run, n).Some? ==> run[n].at <= LastCallback(run, n).value + poll)
  }

  predicate Reports(entries: seq<Entry>, key: Key) {
    exists i :: 0 <= i < |entries| && entries[i].running && entries[i].id.key == key
  }

  // ---- the scan, seen from one job -------------------------------------------------------------

  /** What the watchdog holds about one job id. */
  datatype Track = Track(firstRunning: Option<int>, firstSeen: Option<int>, flagged: bool)

  function TrackOf(st: State, key: Key): Track {
    Track(if key in st.firstRunning then Some(st.firstRunning[key]) else None,
          if key in st.firstSeen then Some(st.firstSeen[key]) else None,
          key in st.seenFlag)
  }

  /** The age a running job is judged by: flags older than its first sighting do not count. */
  function JudgedAge(t: Track, flags: map<Branch, int>, branches: seq<Branch>, now: int, seen: int): Option<int> {
    Age(flags, branches, now, t.firstSeen.GetOr(seen) - STAMP_RESOLUTION)
  }

  function Sighted(t: Track, flags: map<Branch, int>, branches: seq<Branch>, now: int, seen: int): Track {
    Track(Some(t.firstRunning.GetOr(now)), Some(t.firstSeen.GetOr(seen)),
          t.flagged || JudgedAge(t, flags, branches, now, seen).Some?)
  }

  /** The rule a suspect is made by. */
  predicate Stalled(cfg: Config, t: Track, flags: map<Branch, int>, branches: seq<Branch>, now: int, seen: int) {
    var age := JudgedAge(t, flags, branches, now, seen);
    if age.Some? then age.value >= cfg.Stale()
    else !t.flagged && now - t.firstRunning.GetOr(now) >= cfg.Grace()
  }

  lemma ObserveOne(cfg: Config, scan: Scan, e: Entry, now: int, seen: int, key: Key)
    requires scan.st.listing.Some?
    ensures var scan' := Observe(cfg, scan, e, now, seen); var st := scan.st;
      && scan'.st.byId == st.byId && scan'.st.listing == st.listing
      && scan'.st.perBranch == st.perBranch && scan'.st.issued == st.issued
      && TrackOf(scan'.st, key) ==
         (if e.running && e.id.key == key && key in st.byId
          then Sighted(TrackOf(st, key), st.listing.value.flags, st.byId[key].branches, now, seen)
          else TrackOf(st, key))
  {}

  /** A scan sights exactly the watched jobs it is told run, however often it is told. */
  lemma {:induction false} ScanTracks(cfg: Config, st: State, entries: seq<Entry>, n: nat, now: int, seen: int, key: Key)
    requires st.listing.Some? && n <= |entries|
    ensures var st' := ScanUpTo(cfg, st, entries, n, now, seen).st;
      && st'.byId == st.byId && st'.perBranch == st.perBranch && st'.issued == st.issued
      && TrackOf(st', key) ==
         (if key in st.byId && Reports(entries[..n], key)
          then Sighted(TrackOf(st, key), st.listing.value.flags, st.byId[key].branches, now, seen)
          else TrackOf(st, key))
  {
    if n > 0 {
      ScanTracks(cfg, st, entries, n - 1, now, seen, key);
      ObserveOne(cfg, ScanUpTo(cfg, st, entries, n - 1, now, seen), entries[n - 1], now, seen, key);
      ReportsNext(entries, n, key);
    }
  }

  lemma ReportsNext(entries: seq<Entry>, n: nat, key: Key)
    requires 0 < n <= |entries|
    ensures Reports(entries[..n], key) <==>
      Reports(entries[..n - 1], key) || (entries[n - 1].running && entries[n - 1].id.key == key)
  {}

  ghost predicate SuspectOf(cfg: Config, st: State, s: Suspect, now: int, seen: int)
    requires st.listing.Some?
  {
    && s.id.key in st.byId
    && var known, t, flags := st.byId[s.id.key], TrackOf(st, s.id.key), st.listing.value.flags;
    && s.jobNum == known.jobNum && s.branches == known.branches
    && s.age == JudgedAge(t, flags, known.branches, now, seen)
    && Stalled(cfg, t, flags, known.branches, now, seen)
  }

  predicate Qualifies(cfg: Config, st: State, e: Entry, now: int, seen: int)
    requires st.listing.Some?
  {
    e.running && e.id.key in st.byId &&
    Stalled(cfg, TrackOf(st, e.id.key), st.listing.value.flags, st.byId[e.id.key].branches, now, seen)
  }

  function SuspectFor(st: State, e: Entry, now: int, seen: int): Suspect
    requires st.listing.Some? && e.id.key in st.byId
  {
    var known := st.byId[e.id.key];
    Suspect(e.id, known.jobNum, known.branches,
            JudgedAge(TrackOf(st, e.id.key), st.listing.value.flags, known.branches, now, seen))
  }

  /** One more entry adds its suspect if the rule holds for it on the state before the query. */
  lemma ScanAdds(cfg: Config, st: State, entries: seq<Entry>, n: nat, now: int, seen: int)
    requires st.listing.Some? && n < |entries|
    ensures var e, before := entries[n], ScanUpTo(cfg, st, entries, n, now, seen).suspects;
            ScanUpTo(cfg, st, entries, n + 1, now, seen).suspects ==
            if Qualifies(cfg, st, e, now, seen) then before + [SuspectFor(st, e, now, seen)] else before
  {
    ScanTracks(cfg, st, entries, n, now, seen, entries[n].id.key);
  }

  /** The suspects are exactly the watched running jobs the rule holds for, on the state before the query. */
  lemma {:induction false} ScanSuspects(cfg: Config, st: State, entries: seq<Entry>, n: nat, now: int, seen: int)
    requires st.listing.Some? && n <= |entries|
    ensures var suspects := ScanUpTo(cfg, st, entries, n, now, seen).suspects;
      && (forall s <- suspects :: SuspectOf(cfg, st, s, now, seen) && Entry(s.id, true) in entries[..n])
      && (forall e <- entries[..n] :: Qualifies(cfg, st, e, now, seen) ==> SuspectFor(st, e, now, seen) in suspects)
  {
    if n > 0 {
      ScanSuspects(cfg, st, entries, n - 1, now, seen);
      ScanAdds(cfg, st, entries, n - 1, now, seen);
      assert entries[..n] == entries[..n - 1] + [entries[n - 1]];
    }
  }

  /** How many of the first `n` entries report a watched job running. */
  function RunningUpTo(st: State, entries: seq<Entry>, n: nat): nat
    requires n <= |entries|
  {
    if n == 0 then 0
    else RunningUpTo(st, entries, n - 1) + if entries[n - 1].running && entries[n - 1].id.key in st.byId then 1 else 0
  }

  function RunningIn(st: State, entries: seq<Entry>): nat { RunningUpTo(st, entries, |entries|) }

  /** How many of them the rule holds for. */
  function StalledUpTo(cfg: Config, st: State, entries: seq<Entry>, n: nat, now: int, seen: int): nat
    requires st.listing.Some? && n <= |entries|
  {
    if n == 0 then 0
    else StalledUpTo(cfg, st, entries, n - 1, now, seen) + if Qualifies(cfg, st, entries[n - 1], now, seen) then 1 else 0
  }

  function StalledIn(cfg: Config, st: State, entries: seq<Entry>, at: int): nat
    requires st.listing.Some?
  {
    StalledUpTo(cfg, st, entries, |entries|, st.listing.value.at, at)
  }

  /** The scan counts what runs and what is stalled on the state before the query. */
  lemma {:induction false} ScanCounts(cfg: Config, st: State, entries: seq<Entry>, n: nat, now: int, seen: int)
    requires st.listing.Some? && n <= |entries|
    ensures var scan := ScanUpTo(cfg, st, entries, n, now, seen);
      scan.running == RunningUpTo(st, entries, n) && |scan.suspects| == StalledUpTo(cfg, st, entries, n, now, seen)
  {
    if n > 0 {
      ScanCounts(cfg, st, entries, n - 1, now, seen);
      ScanAdds(cfg, st, entries, n - 1, now, seen);
      ScanTracks(cfg, st, entries, n - 1, now, seen, entries[n - 1].id.key);
    }
  }

  // ---- what a query condemns -------------------------------------------------------------------

  lemma {:induction false} InsertAdds(s: seq<Suspect>, x: Suspect)
    ensures multiset(Insert(s, x)) == multiset(s) + multiset{x} && |Insert(s, x)| == |s| + 1
  {
    if s != [] {
      assert s == s[..|s| - 1] + [s[|s| - 1]];
      if !StrLe(s[|s| - 1].jobNum, x.jobNum) { InsertAdds(s[..|s| - 1], x); }
    }
  }

  lemma {:induction false} InsertKeeps(s: seq<Suspect>, x: Suspect)
    requires NumbersAscend(s)
    ensures NumbersAscend(Insert(s, x)) && Insert(s, x) != []
    ensures Insert(s, x)[|Insert(s, x)| - 1] == x || (s != [] && Insert(s, x)[|Insert(s, x)| - 1] == s[|s| - 1])
  {
    if s != [] && !StrLe(s[|s| - 1].jobNum, x.jobNum) {
      InsertKeeps(s[..|s| - 1], x);
      StrLeTotal(s[|s| - 1].jobNum, x.jobNum);
    }
  }

  ghost predicate NumbersAscend(s: seq<Suspect>) {
    forall i :: 0 < i < |s| ==> StrLe(s[i - 1].jobNum, s[i].jobNum)
  }

  lemma {:induction false} StrLeTotal(a: string, b: string)
    ensures StrLe(a, b) || StrLe(b, a)
  {
    if a != [] && b != [] { StrLeTotal(a[1..], b[1..]); }
  }

  lemma {:induction false} SortAscends(s: seq<Suspect>)
    ensures NumbersAscend(SortByJobNum(s))
  {
    if s != [] {
      SortAscends(s[..|s| - 1]);
      InsertKeeps(SortByJobNum(s[..|s| - 1]), s[|s| - 1]);
    }
  }

  /** Sorting loses, adds and repeats nobody. */
  lemma {:induction false} SortKeeps(s: seq<Suspect>)
    ensures multiset(SortByJobNum(s)) == multiset(s) && |SortByJobNum(s)| == |s|
  {
    if s != [] {
      SortKeeps(s[..|s| - 1]);
      InsertAdds(SortByJobNum(s[..|s| - 1]), s[|s| - 1]);
      assert s == s[..|s| - 1] + [s[|s| - 1]];
    }
  }

  lemma {:induction false} SortMembers(s: seq<Suspect>)
    ensures |SortByJobNum(s)| == |s| && forall x :: x in SortByJobNum(s) <==> x in s
  {
    SortKeeps(s);
    forall x ensures x in SortByJobNum(s) <==> x in s {
      assert x in SortByJobNum(s) <==> x in multiset(SortByJobNum(s));
      assert x in s <==> x in multiset(s);
    }
  }

  lemma {:induction false} IssueOnlySuspects(cfg: Config, start: Issue, suspects: seq<Suspect>, n: nat)
    requires n <= |suspects| && start.out == map[]
    ensures forall id <- IssueUpTo(cfg, start, suspects, n).out ::
      exists s <- suspects :: s.id == id && s.age == IssueUpTo(cfg, start, suspects, n).out[id]
  {
    if n > 0 {
      IssueOnlySuspects(cfg, start, suspects, n - 1);
      assert suspects[n - 1] in suspects;
    }
  }

  /** Nothing is condemned but by the rule, on a listing that worked, under the watched job's own id. */
  lemma CondemnedByTheRule(cfg: Config, st: State, entries: seq<Entry>, at: int, id: JobId)
    requires id in Verdicts(cfg, st, entries, at)
    ensures st.listing.Some? && id.key in st.byId && Entry(id, true) in entries
    ensures Stalled(cfg, TrackOf(st, id.key), st.listing.value.flags, st.byId[id.key].branches, st.listing.value.at, at)
    ensures Verdicts(cfg, st, entries, at)[id] ==
      JudgedAge(TrackOf(st, id.key), st.listing.value.flags, st.byId[id.key].branches, st.listing.value.at, at)
  {
    var now := st.listing.value.at;
    var scan := ScanUpTo(cfg, st, entries, |entries|, now, at);
    ScanSuspects(cfg, st, entries, |entries|, now, at);
    var sorted := SortByJobNum(scan.suspects);
    SortMembers(scan.suspects);
    IssueOnlySuspects(cfg, Issue(scan.st.perBranch, scan.st.issued, map[]), sorted, |sorted|);
    var s :| s in sorted && s.id == id && s.age == Verdicts(cfg, st, entries, at)[id];
    assert s in scan.suspects;
    assert entries[..|entries|] == entries;
  }
}
