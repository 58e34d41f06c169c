/** The cores and memory one CRAB job asks for, and when the request is refused. */
module CrabResources {
  import opened Wrappers

  const ALLOWED_CORES := [1, 2, 4, 8]

  /** `_crab_cores_up`: the smallest count CRAB accepts that is at least `n`, the largest if there is none. */
  function CoresUp(n: int): (c: int)
    ensures c in ALLOWED_CORES && forall d <- ALLOWED_CORES :: (n <= d ==> n <= c <= d) && (c < n ==> d <= c)
  {
    if n <= 1 then 1 else if n <= 2 then 2 else if n <= 4 then 4 else 8
  }

  /** `_crab_cores_down`: the largest count CRAB accepts that is at most `n`, the smallest if there is none. */
  function CoresDown(n: int): (c: int)
    ensures c in ALLOWED_CORES && forall d <- ALLOWED_CORES :: (d <= n ==> d <= c <= n) && (n < c ==> c <= d)
  {
    if n >= 8 then 8 else if n >= 4 then 4 else if n >= 2 then 2 else 1
  }

  method NextUp(n: int) returns (c: int)
    ensures c == CoresUp(n)
  {
    for i := 0 to |ALLOWED_CORES|
      invariant forall j | 0 <= j < i :: ALLOWED_CORES[j] < n
    {
      if ALLOWED_CORES[i] >= n { return ALLOWED_CORES[i]; }
    }
    assert ALLOWED_CORES[3] < n;
    return ALLOWED_CORES[|ALLOWED_CORES| - 1];
  }

  /** Settings of the installation, and what one task asks for: 0 or less is no request. */
  datatype Settings = Settings(mbPerCore: int, mbSingleCore: int, maxCores: int, memoryMb: int)
  datatype Request = Request(crabMemory: int, memory: int, cpus: int)

  /** What the installation has if nothing is set. */
  const DEFAULTS := Settings(2500, 3000, 8, 0)

  datatype Grant = Grant(cores: int, memory: int)

  datatype Answer = Granted(grant: Grant) | TooSmall | TooMuch(want: int)

  function Max(a: int, b: int): int { if a < b then b else a }

  function Min(a: int, b: int): int { if a < b then a else b }

  function CeilDiv(a: int, b: int): int requires b > 0 { -(-a / b) }

  /** The first explicit value wins. */
  function Asked(s: Settings, r: Request): int {
    if r.crabMemory > 0 then r.crabMemory
    else if r.memory > 0 then r.memory
    else if s.memoryMb > 0 then s.memoryMb
    else 0
  }

  function Cap(s: Settings): int { CoresDown(Max(1, s.maxCores)) }

  /** The most memory CRAB allows a job of so many cores. */
  function Ceiling(s: Settings, cores: int): int { Max(s.mbSingleCore, cores * s.mbPerCore) }

  method FirstExplicit(s: Settings, r: Request) returns (mem: int)
    ensures mem == Asked(s, r)
  {
    var candidates := [r.crabMemory, r.memory, s.memoryMb];
    for i := 0 to 3
      invariant forall j | 0 <= j < i :: candidates[j] <= 0
    {
      if candidates[i] > 0 {
        assert (i > 0 ==> candidates[0] <= 0) && (i > 1 ==> candidates[1] <= 0);
        return candidates[i];
      }
    }
    assert candidates[0] <= 0 && candidates[1] <= 0 && candidates[2] <= 0;
    return 0;
  }

  /** The arithmetic of `crab_job_config`. */
  method JobConfig(s: Settings, r: Request) returns (a: Answer)
    requires s.mbPerCore > 0 && s.mbSingleCore > 0
    ensures a == Decided(s, r)
  {
    var maxCores := CoresDown(Max(1, s.maxCores));
    var cpus := Max(1, r.cpus);
    var mem := FirstExplicit(s, r);
    if 0 < mem < 1000 { return TooSmall; }
    var auto := mem <= 0;
    var needed := if auto then cpus else Max(cpus, CeilDiv(mem, s.mbPerCore));
    var up := NextUp(needed);
    var cores := Max(1, Min(up, maxCores));
    var ceiling := Max(s.mbSingleCore, cores * s.mbPerCore);
    if auto {
      mem := ceiling;
    } else if mem > ceiling {
      var want := NextUp(CeilDiv(mem, s.mbPerCore));
      return TooMuch(want);
    }
    return Granted(Grant(cores, mem));
  }

  function Cores(s: Settings, r: Request): int
    requires s.mbPerCore > 0
  {
    var mem, cpus := Asked(s, r), Max(1, r.cpus);
    Max(1, Min(CoresUp(if mem <= 0 then cpus else Max(cpus, CeilDiv(mem, s.mbPerCore))), Cap(s)))
  }

  function Decided(s: Settings, r: Request): Answer
    requires s.mbPerCore > 0
  {
    var mem, ceiling := Asked(s, r), Ceiling(s, Cores(s, r));
    if 0 < mem < 1000 then TooSmall
    else if mem <= 0 then Granted(Grant(Cores(s, r), ceiling))
    else if mem > ceiling then TooMuch(CoresUp(CeilDiv(mem, s.mbPerCore)))
    else Granted(Grant(Cores(s, r), mem))
  }

  /** So many cores, within the cap, can hold the memory. */
  predicate Holds(s: Settings, cores: int, mem: int) {
    cores in ALLOWED_CORES && cores <= Cap(s) && mem <= Ceiling(s, cores)
  }

  // ---- what the answer means -------------------------------------------------------------------

  lemma CeilDivCovers(a: int, b: int, c: int)
    requires b > 0
    ensures a <= c * b <==> CeilDiv(a, b) <= c
  {
    var q := -a / b;
    assert q * b <= -a < q * b + b;
    if -c <= q {
      assert -c * b <= q * b;
    } else {
      assert (q + 1) * b <= -c * b;
    }
  }

  lemma MoreCoresHoldMore(s: Settings, c: int, d: int)
    requires s.mbPerCore > 0 && c <= d
    ensures Ceiling(s, c) <= Ceiling(s, d)
  {}

  /** The cores chosen hold an explicit request if any count within the cap does. */
  lemma CoresHold(s: Settings, r: Request, c: int)
    requires s.mbPerCore > 0 && s.mbSingleCore > 0 && Asked(s, r) > 0 && Holds(s, c, Asked(s, r))
    ensures Asked(s, r) <= Ceiling(s, Cores(s, r))
  {}

  /** The counts an installation allows: those CRAB knows up to its limit, and always one. */
  lemma CapAllows(s: Settings, c: int)
    requires c in ALLOWED_CORES
    ensures c <= Cap(s) <==> c <= s.maxCores || c == 1
  {}

  /** The request of the run, else of the task, else of the installation; none if all are zero or less. */
  lemma FirstPositiveIsAsked(s: Settings, r: Request)
    ensures r.crabMemory > 0 ==> Asked(s, r) == r.crabMemory
    ensures r.crabMemory <= 0 && r.memory > 0 ==> Asked(s, r) == r.memory
    ensures r.crabMemory <= 0 && r.memory <= 0 ==> Asked(s, r) == if s.memoryMb > 0 then s.memoryMb else 0
  {}

  /** Enough cores for the threads, and for the memory by what one core brings. */
  predicate Suffices(s: Settings, r: Request, c: int) {
    c in ALLOWED_CORES && r.cpus <= c && (Asked(s, r) > 0 ==> Asked(s, r) <= c * s.mbPerCore)
  }

  lemma NeededIs(s: Settings, r: Request, c: int)
    requires s.mbPerCore > 0 && c in ALLOWED_CORES
    ensures var cpus, units := Max(1, r.cpus), CeilDiv(Asked(s, r), s.mbPerCore);
      Suffices(s, r, c) <==> CoresUp(if Asked(s, r) <= 0 then cpus else Max(cpus, units)) <= c
                             && (r.cpus <= 8 && (Asked(s, r) > 0 ==> units <= 8))
  {
    if Asked(s, r) > 0 {
      CeilDivCovers(Asked(s, r), s.mbPerCore, c);
    }
  }

  /** The job runs on the fewest cores within the cap that suffice, and on all of the cap if none do. */
  lemma FewestCores(s: Settings, r: Request, c: int)
    requires s.mbPerCore > 0 && c in ALLOWED_CORES && c <= Cap(s)
    ensures Suffices(s, r, c) ==> Cores(s, r) <= c && Suffices(s, r, Cores(s, r))
    ensures (forall d <- ALLOWED_CORES :: d <= Cap(s) ==> !Suffices(s, r, d)) ==> Cores(s, r) == Cap(s)
  {
    NeededIs(s, r, c);
    NeededIs(s, r, Cores(s, r));
    NeededIs(s, r, Cap(s));
  }

  /**
   An accepted job has a core count CRAB knows, within the cap, and memory those cores may have; an
   explicit request is granted as it is, and without one the job gets all that its cores may have. A
   request of at least 1000 MB is refused if and only if no core count within the cap can hold it.
   */
  lemma GrantIsExact(s: Settings, r: Request)
    requires s.mbPerCore > 0 && s.mbSingleCore > 0
    ensures Decided(s, r).Granted? ==>
      var g := Decided(s, r).grant;
      && g.cores in ALLOWED_CORES && g.cores <= Cap(s)
      && (g.memory <= s.mbSingleCore || g.memory <= g.cores * s.mbPerCore)
      && (Asked(s, r) > 0 ==> g.memory == Asked(s, r) >= 1000)
      && (Asked(s, r) <= 0 ==> g.memory >= s.mbSingleCore && g.memory >= g.cores * s.mbPerCore)
    ensures Decided(s, r).Granted? ==>
      var g := Decided(s, r).grant;
      && (forall c <- ALLOWED_CORES :: c <= Cap(s) && Suffices(s, r, c) ==> g.cores <= c && Suffices(s, r, g.cores))
      && ((forall c <- ALLOWED_CORES :: c <= Cap(s) ==> !Suffices(s, r, c)) ==> g.cores == Cap(s))
    ensures Asked(s, r) >= 1000 ==> (Decided(s, r).TooMuch? <==> forall c <- ALLOWED_CORES :: !Holds(s, c, Asked(s, r)))
    ensures Decided(s, r).TooSmall? <==> 0 < Asked(s, r) < 1000
  {
    forall c <- ALLOWED_CORES | c <= Cap(s)
      ensures Suffices(s, r, c) ==> Cores(s, r) <= c && Suffices(s, r, Cores(s, r))
      ensures (forall d <- ALLOWED_CORES :: d <= Cap(s) ==> !Suffices(s, r, d)) ==> Cores(s, r) == Cap(s)
    {
      FewestCores(s, r, c);
    }
    CoresAreKnown(s, r);
  }

  lemma CoresAreKnown(s: Settings, r: Request)
    requires s.mbPerCore > 0
    ensures Cores(s, r) in ALLOWED_CORES && Cores(s, r) <= Cap(s) && Cap(s) in ALLOWED_CORES
  {}

  /** With nothing set, eight cores and 20000 MB are what a job can get, and 3000 MB what it gets if it asks for nothing. */
  lemma DefaultsHold(r: Request)
    ensures Asked(DEFAULTS, r) >= 1000 ==> (Decided(DEFAULTS, r).TooMuch? <==> Asked(DEFAULTS, r) > 20000)
    ensures Asked(DEFAULTS, r) <= 0 && r.cpus <= 1 ==> Decided(DEFAULTS, r) == Granted(Grant(1, 3000))
  {}

  /** No smaller cap than the suggested one would do. */
  lemma NoLessWorks(s: Settings, r: Request, c: int)
    requires s.mbPerCore > 0 && s.mbSingleCore > 0 && Decided(s, r).TooMuch? && c in ALLOWED_CORES && c < Decided(s, r).want
    ensures Decided(s.(maxCores := c), r).TooMuch?
  {
    var lower := s.(maxCores := c);
    CeilDivCovers(Asked(s, r), s.mbPerCore, c);
    MoreCoresHoldMore(s, Cores(lower, r), c);
  }

  /** Raising the cap to what a refusal suggests makes the request accepted, if eight cores could hold it. */
  lemma SuggestionWorks(s: Settings, r: Request)
    requires s.mbPerCore > 0 && s.mbSingleCore > 0 && Decided(s, r).TooMuch?
    ensures var want := Decided(s, r).want;
            Decided(s.(maxCores := want), r).Granted? <==> Asked(s, r) <= 8 * s.mbPerCore
  {
    var mem, want := Asked(s, r), Decided(s, r).want;
    var raised := s.(maxCores := want);
    CeilDivCovers(mem, s.mbPerCore, want);
    CeilDivCovers(mem, s.mbPerCore, 8);
    assert Cap(raised) == want;
    if mem <= 8 * s.mbPerCore {
      assert CeilDiv(mem, s.mbPerCore) <= want;
      assert Holds(raised, want, mem);
      CoresHold(raised, r, want);
    } else {
      assert mem > s.mbSingleCore;
      MoreCoresHoldMore(s, Cores(raised, r), 8);
    }
  }
}
