/**
 The stall watchdog of the CRAB driver: one listing of the flag directory per interval, verdicts
 formed on every status query, ages measured at the listing. Times are integer seconds.
 */
module Watchdog {
  import opened Wrappers

  datatype Branch = Branch(name: string)

  /** What `_key` keeps of a job id: the project directory may differ for the same job. */
  datatype Key = Key(crabNum: int, taskName: string)
  datatype JobId = JobId(key: Key, projDir: string)

  /** One item of the status a query returned, in the order the query returned it. */
  datatype Entry = Entry(id: JobId, running: bool)

  /** law's entry of one job: its number and the branches it runs (never none of them). */
  datatype Known = Known(jobNum: string, branches: seq<Branch>)

  datatype Suspect = Suspect(id: JobId, jobNum: string, branches: seq<Branch>, age: Option<int>)

  datatype Config = Config(
    enabled: bool, intervalMinutes: int, missedChecks: int,
    maxPerInterval: int, maxPerBranch: int, maxStaleFraction: real, dryRun: bool)
  {
    function Interval(): int { intervalMinutes * 60 }
    function Stale(): int { Interval() * missedChecks }
    function Grace(): int { Stale() + Interval() }
  }

  const MIN_INTERVAL_MINUTES := 10
  const MIN_RUNNING_FOR_FAULT_GUARD := 10
  const STAMP_RESOLUTION := 60

  const DEFAULTS := Config(true, 30, 2, 5, 1, 0.5, false)

  /** The settings the driver accepts; a disabled watchdog runs with the defaults, switched off. */
  function Accept(raw: Option<Config>): Result<Config> {
    match raw
    case None => Ok(DEFAULTS.(enabled := false))
    case Some(cfg) =>
      if cfg.missedChecks < 2 then Err("missed_checks")
      else if cfg.intervalMinutes < MIN_INTERVAL_MINUTES then Err("interval_minutes")
      else Ok(cfg)
  }

  /** The last listing that worked: when it was started and the stamp of every flag in it. */
  datatype Listing = Listing(at: int, flags: map<Branch, int>)

  datatype State = State(
    listing: Option<Listing>,
    firstRunning: map<Key, int>, // on the listing's clock
    firstSeen: map<Key, int>,    // on the query's clock
    perBranch: map<Branch, nat>,
    byId: map<Key, Known>,
    seenFlag: set<Key>,
    issued: nat)

  const INITIAL := State(None, map[], map[], map[], map[], {}, 0)

  function Max(a: int, b: int): int { if a < b then b else a }

  /** The freshest flag of `branches` that is not older than `since`. */
  function Newest(flags: map<Branch, int>, branches: seq<Branch>, since: int): Option<int> {
    if branches == [] then None
    else
      var rest := Newest(flags, branches[1..], since);
      var b := branches[0];
      if b !in flags || flags[b] < since then rest
      else Some(if rest.Some? then Max(flags[b], rest.value) else flags[b])
  }

  function Age(flags: map<Branch, int>, branches: seq<Branch>, now: int, since: int): Option<int> {
    var newest := Newest(flags, branches, since);
    if newest.None? then None else Some(Max(0, now - newest.value))
  }

  function SetDefault<K, V>(m: map<K, V>, k: K, v: V): map<K, V> {
    if k in m then m else m[k := v]
  }

  /** A scan of the status: the state it leaves, how many watched jobs run, which look stalled. */
  datatype Scan = Scan(st: State, running: nat, suspects: seq<Suspect>)

  function Observe(cfg: Config, scan: Scan, e: Entry, now: int, seen: int): Scan
    requires scan.st.listing.Some?
  {
    if !e.running || e.id.key !in scan.st.byId then scan
    else
      var st, key, known := scan.st, e.id.key, scan.st.byId[e.id.key];
      var st1 := st.(firstRunning := SetDefault(st.firstRunning, key, now),
                     firstSeen := SetDefault(st.firstSeen, key, seen));
      var age := Age(st.listing.value.flags, known.branches, now, st1.firstSeen[key] - STAMP_RESOLUTION);
      var st2 := if age.Some? then st1.(seenFlag := st1.seenFlag + {key}) else st1;
      var suspected := if age.Some? then age.value >= cfg.Stale()
                       else key !in st1.seenFlag && now - st1.firstRunning[key] >= cfg.Grace();
      Scan(st2, scan.running + 1,
           if suspected then scan.suspects + [Suspect(e.id, known.jobNum, known.branches, age)] else scan.suspects)
  }

  function ScanUpTo(cfg: Config, st: State, entries: seq<Entry>, n: nat, now: int, seen: int): (scan: Scan)
    requires st.listing.Some? && n <= |entries|
    ensures scan.st.listing == st.listing
  {
    if n == 0 then Scan(st, 0, [])
    else Observe(cfg, ScanUpTo(cfg, st, entries, n - 1, now, seen), entries[n - 1], now, seen)
  }

  // ---- the order verdicts are issued in ------------------------------------------------------

  predicate StrLe(a: string, b: string) {
    a == [] || (b != [] && (a[0] < b[0] || (a[0] == b[0] && StrLe(a[1..], b[1..]))))
  }

  function Insert(s: seq<Suspect>, x: Suspect): seq<Suspect> {
    if s == [] || StrLe(s[|s| - 1].jobNum, x.jobNum) then s + [x]
    else Insert(s[..|s| - 1], x) + [s[|s| - 1]]
  }

  /** Stable, by the job number as text. */
  function SortByJobNum(s: seq<Suspect>): seq<Suspect> {
    if s == [] then [] else Insert(SortByJobNum(s[..|s| - 1]), s[|s| - 1])
  }

  // ---- issuing verdicts under the caps ---------------------------------------------------------

  function Count(perBranch: map<Branch, nat>, b: Branch): nat {
    if b in perBranch then perBranch[b] else 0
  }

  /** How often the most rescued of `branches` was rescued so far. */
  function MostRescued(perBranch: map<Branch, nat>, branches: seq<Branch>): int {
    if branches == [] then 0
    else Max(Count(perBranch, branches[0]), MostRescued(perBranch, branches[1..]))
  }

  function Charge(perBranch: map<Branch, nat>, branches: seq<Branch>, n: nat): map<Branch, nat>
    requires n <= |branches|
  {
    if n == 0 then perBranch
    else
      var m := Charge(perBranch, branches, n - 1);
      m[branches[n - 1] := Count(m, branches[n - 1]) + 1]
  }

  datatype Issue = Issue(perBranch: map<Branch, nat>, issued: nat, out: map<JobId, Option<int>>)

  function IssueOne(cfg: Config, i: Issue, s: Suspect): Issue {
    if i.issued >= cfg.maxPerInterval || MostRescued(i.perBranch, s.branches) >= cfg.maxPerBranch || cfg.dryRun
    then i
    else Issue(Charge(i.perBranch, s.branches, |s.branches|), i.issued + 1, i.out[s.id := s.age])
  }

  function IssueUpTo(cfg: Config, start: Issue, suspects: seq<Suspect>, n: nat): Issue
    requires n <= |suspects|
  {
    if n == 0 then start else IssueOne(cfg, IssueUpTo(cfg, start, suspects, n - 1), suspects[n - 1])
  }

  /** Python's `int()` of a float: towards zero. */
  function Trunc(x: real): (n: int)
    ensures if x < 0.0 then x <= n as real < x + 1.0 else n as real <= x < n as real + 1.0
  {
    if x < 0.0 then -((-x).Floor) else x.Floor
  }

  /** Enough jobs run to read the proportion, and too many of them look stalled at once. */
  predicate StorageFault(cfg: Config, running: nat, suspects: nat) {
    running >= MIN_RUNNING_FOR_FAULT_GUARD && suspects > Trunc(cfg.maxStaleFraction * running as real)
  }

  /** What one `verdicts` call leaves behind and answers: the age of each condemned job's flag. */
  function Judge(cfg: Config, st: State, entries: seq<Entry>, given: Option<int>, clock: int)
    : (State, map<JobId, Option<int>>)
  {
    if !cfg.enabled || st.listing.None? then (st, map[])
    else
      var scan := ScanUpTo(cfg, st, entries, |entries|, given.GetOr(st.listing.value.at), given.GetOr(clock));
      if scan.suspects == [] || StorageFault(cfg, scan.running, |scan.suspects|) then (scan.st, map[])
      else
        var sorted := SortByJobNum(scan.suspects);
        var i := IssueUpTo(cfg, Issue(scan.st.perBranch, scan.st.issued, map[]), sorted, |sorted|);
        (scan.st.(perBranch := i.perBranch, issued := i.issued), i.out)
  }

  function Refreshed(cfg: Config, st: State, at: int, flags: Option<map<Branch, int>>): State {
    if !cfg.enabled then st
    else st.(issued := 0, listing := if flags.None? then None else Some(Listing(at, flags.value)))
  }

  function Forget(st: State, keys: set<Key>): State {
    st.(firstRunning := st.firstRunning - keys, firstSeen := st.firstSeen - keys, seenFlag := st.seenFlag - keys)
  }

  /** law's job data by key; a job without an id or without branches is left out. */
  predicate Named(jobs: map<Key, Known>) {
    forall k :: k in jobs ==> jobs[k].branches != []
  }

  function WithJobs(st: State, jobs: map<Key, Known>): State {
    st.(byId := map k | k in jobs && jobs[k].branches != [] :: jobs[k])
  }

  // ---- the driver's object ---------------------------------------------------------------------

  class StallWatchdog {
    const cfg: Config
    var ages: Option<map<Branch, int>>
    var listed: bool
    var listedAt: Option<int>
    var firstRunning: map<Key, int>
    var firstSeen: map<Key, int>
    var perBranch: map<Branch, nat>
    var byId: map<Key, Known>
    var seenFlag: set<Key>
    var issuedThisInterval: nat

    ghost predicate Valid() reads this {
      && (listed <==> ages.Some?)
      && (listed <==> listedAt.Some?)
      && Named(byId)
    }

    ghost function View(): State reads this requires Valid() {
      State(if listed then Some(Listing(listedAt.value, ages.value)) else None,
            firstRunning, firstSeen, perBranch, byId, seenFlag, issuedThisInterval)
    }

    constructor (cfg: Config)
      ensures Valid() && View() == INITIAL && this.cfg == cfg
    {
      this.cfg := cfg;
      ages, listed, listedAt := None, false, None;
      firstRunning, firstSeen, perBranch, byId := map[], map[], map[], map[];
      seenFlag, issuedThisInterval := {}, 0;
    }

    /** One listing of the flag directory; `entries` is None when it could not be read. */
    method Refresh(at: int, entries: Option<map<Branch, int>>) returns (ok: bool)
      requires Valid()
      modifies this
      ensures Valid() && View() == Refreshed(cfg, old(View()), at, entries)
      ensures ok == (cfg.enabled && entries.Some?)
    {
      if !cfg.enabled { return false; }
      issuedThisInterval := 0;
      if entries.None? {
        ages, listed, listedAt := None, false, None;
        return false;
      }
      ages, listed, listedAt := entries, true, Some(at);
      return true;
    }

    method SetJobs(jobs: map<Key, Known>)
      requires Valid()
      modifies this`byId
      ensures Valid() && View() == WithJobs(old(View()), jobs)
    {
      byId := map k | k in jobs && jobs[k].branches != [] :: jobs[k];
    }

    method Verdicts(entries: seq<Entry>, given: Option<int>, clock: int) returns (out: map<JobId, Option<int>>)
      requires Valid()
      modifies this
      ensures Valid() && (View(), out) == Judge(cfg, old(View()), entries, given, clock)
    {
      if !cfg.enabled || !listed { return map[]; }
      var running, stale := ScanStatus(entries, given.GetOr(listedAt.value), given.GetOr(clock));
      if stale == [] || StorageFault(cfg, running, |stale|) { return map[]; }
      out := IssueVerdicts(SortByJobNum(stale));
    }

    /** First loop of `verdicts`: which watched jobs run, and which of them look stalled. */
    method ScanStatus(entries: seq<Entry>, now: int, seen: int) returns (running: nat, stale: seq<Suspect>)
      requires Valid() && listed
      modifies this`firstRunning, this`firstSeen, this`seenFlag
      ensures Valid() && Scan(View(), running, stale) == ScanUpTo(cfg, old(View()), entries, |entries|, now, seen)
    {
      running, stale := 0, [];
      for i := 0 to |entries|
        invariant Valid()
        invariant Scan(View(), running, stale) == ScanUpTo(cfg, old(View()), entries, i, now, seen)
      {
        var key := entries[i].id.key;
        if entries[i].running && key in byId {
          var known := byId[key];
          firstRunning := SetDefault(firstRunning, key, now);
          firstSeen := SetDefault(firstSeen, key, seen);
          running := running + 1;
          var age := Age(ages.value, known.branches, now, firstSeen[key] - STAMP_RESOLUTION);
          if age.Some? {
            seenFlag := seenFlag + {key};
            if age.value >= cfg.Stale() {
              stale := stale + [Suspect(entries[i].id, known.jobNum, known.branches, age)];
            }
          } else if key !in seenFlag && now - firstRunning[key] >= cfg.Grace() {
            stale := stale + [Suspect(entries[i].id, known.jobNum, known.branches, None)];
          }
        }
      }
    }

    /** Second loop of `verdicts`: condemn the suspects in order, as far as the caps allow. */
    method IssueVerdicts(suspects: seq<Suspect>) returns (out: map<JobId, Option<int>>)
      requires Valid()
      modifies this`perBranch, this`issuedThisInterval
      ensures Valid() && Issue(perBranch, issuedThisInterval, out) ==
        IssueUpTo(cfg, Issue(old(perBranch), old(issuedThisInterval), map[]), suspects, |suspects|)
    {
      out := map[];
      ghost var unspent := Issue(perBranch, issuedThisInterval, map[]);
      for i := 0 to |suspects|
        invariant Issue(perBranch, issuedThisInterval, out) == IssueUpTo(cfg, unspent, suspects, i)
      {
        if issuedThisInterval >= cfg.maxPerInterval {
          NoMoreThisInterval(cfg, unspent, suspects, i, |suspects|);
          break;
        }
        var branches := suspects[i].branches;
        if MostRescued(perBranch, branches) < cfg.maxPerBranch && !cfg.dryRun {
          ChargeBranches(branches);
          issuedThisInterval := issuedThisInterval + 1;
          out := out[suspects[i].id := suspects[i].age];
        }
      }
    }

    method ChargeBranches(branches: seq<Branch>)
      modifies this`perBranch
      ensures perBranch == Charge(old(perBranch), branches, |branches|)
    {
      for j := 0 to |branches|
        invariant perBranch == Charge(old(perBranch), branches, j)
      {
        perBranch := perBranch[branches[j] := Count(perBranch, branches[j]) + 1];
      }
    }

    /** Drop what is known of a job id law has replaced. */
    method ForgetJob(id: JobId)
      requires Valid()
      modifies this`firstRunning, this`firstSeen, this`seenFlag
      ensures Valid() && View() == Forget(old(View()), {id.key})
    {
      firstRunning := firstRunning - {id.key};
      firstSeen := firstSeen - {id.key};
      seenFlag := seenFlag - {id.key};
    }
  }

  /** Once the interval's verdicts are spent, the rest of the suspects change nothing. */
  lemma {:induction false} NoMoreThisInterval(cfg: Config, start: Issue, suspects: seq<Suspect>, i: nat, n: nat)
    requires i <= n <= |suspects|
    requires IssueUpTo(cfg, start, suspects, i).issued >= cfg.maxPerInterval
    ensures IssueUpTo(cfg, start, suspects, n) == IssueUpTo(cfg, start, suspects, i)
  {
    if i < n { NoMoreThisInterval(cfg, start, suspects, i, n - 1); }
  }
}
