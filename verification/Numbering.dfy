/**
 The numbering of a production: the seeds of every point and era, the `RunProd` branches over them
 and the `NanoMergeTask` branches over groups of them. Validation is what makes every group full.
 */
module Numbering {
  import opened Wrappers

  datatype Point = Point(name: string, eventsTotal: map<string, int>, eventsPerJob: int)
  {
    function NEvents(era: string): int { if era in eventsTotal then eventsTotal[era] else 0 }

    /** Seeds to produce: the events asked for, in jobs of `eventsPerJob`, rounded up. */
    function NJobs(era: string): nat {
      if NEvents(era) <= 0 || eventsPerJob <= 0 then 0
      else (NEvents(era) + eventsPerJob - 1) / eventsPerJob
    }
  }

  datatype Setup = Setup(points: seq<Point>, eventsPerJob: int, filesPerMerge: int)

  /** `_validate_merge_granularity`: every point has the setup's job size, every sample fills its files. */
  function Validate(s: Setup): Result<()> {
    var perFile := s.eventsPerJob * s.filesPerMerge;
    if exists p <- s.points :: p.eventsPerJob != s.eventsPerJob then Err("events_per_job")
    else if exists p <- s.points, era <- p.eventsTotal.Keys ::
      p.eventsTotal[era] != 0 && (perFile == 0 || p.eventsTotal[era] % perFile != 0) then Err("events_total")
    else Ok(())
  }

  /** The events of so many merged files. */
  function EventsIn(files: int, perFile: int): int { files * perFile }

  ghost predicate WholeFiles(n: int, perFile: int) { exists files :: n == EventsIn(files, perFile) }

  lemma WholeFilesIs(n: int, perFile: int)
    ensures WholeFiles(n, perFile) <==> n == 0 || (perFile != 0 && n % perFile == 0)
  {
    if perFile != 0 {
      if n % perFile == 0 { assert n == EventsIn(n / perFile, perFile); }
      if files :| n == EventsIn(files, perFile) { MultipleLeavesNothing(files, perFile); }
    }
    if n == 0 { assert n == EventsIn(0, perFile); }
  }

  lemma MultipleLeavesNothing(k: int, m: int)
    requires m != 0
    ensures k * m % m == 0
  {
    var q, r := k * m / m, k * m % m;
    assert r == (k - q) * m;
    OutOfRange(k - q, m);
  }

  /** A multiple that is none of zero is no remainder. */
  lemma OutOfRange(d: int, m: int)
    requires m != 0
    ensures d * m == 0 || d * m < 0 || (d * m >= m && d * m >= -m)
  {
    if m > 0 && d > 0 { assert d * m >= 1 * m; }
    if m < 0 && d < 0 { assert d * m >= -1 * m; }
  }

  /** A setup is valid if and only if every point has its job size and every sample is a whole number of files. */
  lemma ValidExactlyWhen(s: Setup)
    ensures Validate(s).Ok? <==>
      && (forall p <- s.points :: p.eventsPerJob == s.eventsPerJob)
      && forall p <- s.points, era <- p.eventsTotal.Keys :: WholeFiles(p.eventsTotal[era], s.eventsPerJob * s.filesPerMerge)
  {
    forall n: int ensures WholeFiles(n, s.eventsPerJob * s.filesPerMerge) <==>
      n == 0 || (s.eventsPerJob * s.filesPerMerge != 0 && n % (s.eventsPerJob * s.filesPerMerge) == 0)
    {
      WholeFilesIs(n, s.eventsPerJob * s.filesPerMerge);
    }
  }

  // ---- RunProd branches ------------------------------------------------------------------------

  datatype Seed = Seed(era: string, point: nat, seed: nat)

  function SeedsUpTo(era: string, point: nat, n: nat): seq<Seed> {
    if n == 0 then [] else SeedsUpTo(era, point, n - 1) + [Seed(era, point, n)]
  }

  function PointsUpTo(era: string, points: seq<Point>, k: nat): seq<Seed>
    requires k <= |points|
  {
    if k == 0 then []
    else PointsUpTo(era, points, k - 1) + SeedsUpTo(era, k - 1, points[k - 1].NJobs(era))
  }

  function RunProdBranches(eras: seq<string>, points: seq<Point>): seq<Seed> {
    if eras == [] then []
    else RunProdBranches(eras[..|eras| - 1], points) + PointsUpTo(eras[|eras| - 1], points, |points|)
  }

  method ListRunProdBranches(eras: seq<string>, points: seq<Point>) returns (out: seq<Seed>)
    ensures out == RunProdBranches(eras, points)
  {
    out := [];
    for e := 0 to |eras|
      invariant out == RunProdBranches(eras[..e], points)
    {
      assert eras[..e + 1][..e] == eras[..e];
      for pi := 0 to |points|
        invariant out == RunProdBranches(eras[..e], points) + PointsUpTo(eras[e], points, pi)
      {
        for job := 0 to points[pi].NJobs(eras[e])
          invariant out == RunProdBranches(eras[..e], points) + PointsUpTo(eras[e], points, pi)
                           + SeedsUpTo(eras[e], pi, job)
        {
          out := out + [Seed(eras[e], pi, job + 1)];
        }
      }
    }
    assert eras[..|eras|] == eras;
  }

  // ---- merge groups ----------------------------------------------------------------------------

  function Ceil(n: nat, k: nat): nat requires k > 0 { (n + k - 1) / k }

  function Min(a: int, b: int): int { if a < b then a else b }

  /** Seeds 1 to `n`. */
  function OneTo(n: nat): seq<nat> { seq(n, i requires 0 <= i < n => i + 1) }

  /** The seeds of group `g`: a slice of `size`, the last one possibly short. */
  function GroupSeeds(seeds: seq<nat>, size: nat, g: nat): seq<nat>
    requires g * size <= |seeds|
  {
    seeds[g * size..Min(g * size + size, |seeds|)]
  }

  function GroupsUpTo(seeds: seq<nat>, size: nat, g: nat): seq<(nat, seq<nat>)>
    requires size > 0 && g <= Ceil(|seeds|, size)
  {
    if g == 0 then []
    else
      GroupStart(|seeds|, size, g - 1);
      GroupsUpTo(seeds, size, g - 1) + [(g - 1, GroupSeeds(seeds, size, g - 1))]
  }

  function MergeGroups(seeds: seq<nat>, size: nat): seq<(nat, seq<nat>)>
    requires size > 0
  {
    GroupsUpTo(seeds, size, Ceil(|seeds|, size))
  }

  /** A group below the ceiling starts inside the seeds. */
  lemma GroupStart(n: nat, size: nat, g: nat)
    requires size > 0 && g < Ceil(n, size)
    ensures g * size < n
  {
    assert (n + size - 1) / size * size <= n + size - 1;
    assert (g + 1) * size <= Ceil(n, size) * size;
  }

  lemma {:induction false} GroupAt(seeds: seq<nat>, size: nat, g: nat, k: nat)
    requires size > 0 && g <= Ceil(|seeds|, size) && k < g
    ensures |GroupsUpTo(seeds, size, g)| == g
    ensures k * size < |seeds| && GroupsUpTo(seeds, size, g)[k] == (k, GroupSeeds(seeds, size, k))
  {
    GroupStart(|seeds|, size, k);
    if g > 1 { GroupAt(seeds, size, g - 1, if k < g - 1 then k else g - 2); }
  }

  lemma CeilCovers(n: nat, size: nat)
    requires size > 0
    ensures n <= Ceil(n, size) * size < n + size
  {}

  function GroupOf(size: nat, s: nat): nat requires size > 0 && s > 0 { (s - 1) / size }

  lemma GroupBounds(size: nat, s: nat, g: nat)
    requires size > 0 && s > 0
    ensures g == GroupOf(size, s) <==> g * size < s <= g * size + size
  {
    var q := GroupOf(size, s);
    assert q * size == s - 1 - (s - 1) % size;
    if g < q { assert (g + 1) * size <= q * size; }
    if g > q { assert (q + 1) * size <= g * size; }
  }

  lemma InGroup(n: nat, size: nat, s: nat, g: nat)
    requires g * size <= n
    ensures s in GroupSeeds(OneTo(n), size, g) <==> g * size < s <= Min(g * size + size, n)
  {
    var slice := GroupSeeds(OneTo(n), size, g);
    assert forall i :: 0 <= i < |slice| ==> slice[i] == g * size + i + 1;
    if g * size < s <= Min(g * size + size, n) { assert slice[s - 1 - g * size] == s; }
  }

  lemma LessByFactor(a: nat, b: nat, k: nat)
    requires k > 0
    ensures a * k < b * k ==> a < b
  {}

  lemma GroupExists(n: nat, size: nat, s: nat)
    requires size > 0 && 1 <= s <= n
    ensures GroupOf(size, s) < Ceil(n, size)
  {}

  /** Seed `s` belongs to exactly one group, the one its position says. */
  lemma SeedsGroup(n: nat, size: nat, s: nat, g: nat)
    requires size > 0 && 1 <= s <= n && g < Ceil(n, size)
    ensures GroupOf(size, s) < Ceil(n, size)
    ensures g * size < n && (s in GroupSeeds(OneTo(n), size, g) <==> g == GroupOf(size, s))
  {
    GroupExists(n, size, s);
    GroupStart(n, size, g);
    InGroup(n, size, s, g);
    GroupBounds(size, s, g);
  }
}
