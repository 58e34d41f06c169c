/**
 `PruneProducedRecords`: how one (era, point, version) is swept. Listing a directory tells "not there"
 from "could not be read", and only records that nothing accounts for are deleted.
 */
module PruneRecords {
  import opened Wrappers
  import opened Numbering
  import opened PruneProtocol

  /** A name in a listing: a `nano_<version>_<id>` file, or anything else. */
  datatype Name = Nano(id: nat) | Other(text: string)

  /** A directory on the way up, and what listing it answers (None: it cannot be read). */
  datatype Level = Level(basename: Name, listing: Option<set<Name>>)

  const ABSENCE_CLIMB_LIMIT := 5

  /** Ancestor `i` is the first level that answers, and it does not carry the branch below it. */
  predicate ShownAbsent(levels: seq<Level>, i: nat)
    requires 0 < i < |levels|
  {
    && (forall j | 0 <= j < i :: levels[j].listing.None?)
    && levels[i].listing.Some? && levels[i - 1].basename !in levels[i].listing.value
  }

  /** An answer is the listing of the directory, or nothing if its absence is shown. */
  ghost predicate Answers(levels: seq<Level>, r: Result<set<Name>>)
    requires levels != []
  {
    && (r.Ok? <==> levels[0].listing.Some? || exists i :: 0 < i < |levels| && i <= 5 && ShownAbsent(levels, i))
    && (r.Ok? ==> r.value == levels[0].listing.GetOr({}))
  }

  /** No level below `i` can be read. */
  predicate AllFail(levels: seq<Level>, i: nat)
    requires i <= |levels|
  {
    forall j | 0 <= j < i :: levels[j].listing.None?
  }

  /** Of a directory that cannot be read, the first ancestor that can decides, of five; none that can is an error. */
  lemma FirstReadableDecides(levels: seq<Level>, r: Result<set<Name>>)
    requires levels != [] && Answers(levels, r)
    ensures forall i | 0 < i < |levels| && i <= 5 && AllFail(levels, i) && levels[i].listing.Some? ::
              if levels[i - 1].basename in levels[i].listing.value then r.Err? else r == Ok({})
    ensures AllFail(levels, if |levels| < 6 then |levels| else 6) ==> r.Err?
  {
    forall i | 0 < i < |levels| && i <= 5 && AllFail(levels, i) && levels[i].listing.Some?
      ensures if levels[i - 1].basename in levels[i].listing.value then r.Err? else r == Ok({})
    {
      assert levels[0].listing.None?;
      if levels[i - 1].basename !in levels[i].listing.value { assert ShownAbsent(levels, i); }
    }
  }

  /** `_names`: `levels[0]` is the directory asked about, then its parent, up to the file system's base. */
  method Names(levels: seq<Level>) returns (r: Result<set<Name>>)
    requires levels != []
    ensures Answers(levels, r)
  {
    if levels[0].listing.Some? { return Ok(levels[0].listing.value); }
    var parent, climbed := 1, 0;
    while parent < |levels| && climbed < ABSENCE_CLIMB_LIMIT
      invariant climbed == parent - 1 <= ABSENCE_CLIMB_LIMIT && parent <= |levels|
      invariant forall j | 0 <= j < parent :: levels[j].listing.None?
    {
      if levels[parent].listing.Some? {
        if levels[parent - 1].basename in levels[parent].listing.value { return Err("unreadable"); }
        assert ShownAbsent(levels, parent);
        return Ok({});
      }
      parent, climbed := parent + 1, climbed + 1;
    }
    return Err("unreadable");
  }

  /** The directories as they are at one moment (None: not there): one exists only in its parent. */
  ghost predicate IsTree(levels: seq<Level>, tree: seq<Option<set<Name>>>) {
    |tree| == |levels| && forall i | 0 <= i < |tree| - 1 ::
      tree[i].Some? ==> tree[i + 1].Some? && levels[i].basename in tree[i + 1].value
  }

  /** Every listing that answered told the truth of the moment it was taken. */
  ghost predicate ListedAt(levels: seq<Level>, trees: seq<seq<Option<set<Name>>>>) {
    |trees| == |levels| && forall i | 0 <= i < |levels| ::
      IsTree(levels, trees[i]) && (levels[i].listing.Some? ==> trees[i][i] == levels[i].listing)
  }

  /** A directory whose ancestor is not there, or does not carry the branch, is not there itself. */
  lemma {:induction false} NothingBelow(levels: seq<Level>, tree: seq<Option<set<Name>>>, i: nat)
    requires IsTree(levels, tree) && i < |levels| && tree[i].None?
    ensures tree[0].None?
  {
    if i > 0 { NothingBelow(levels, tree, i - 1); }
  }

  /** Whatever `_names` answers was the directory's content at the moment of one of its listings. */
  lemma NamesAreTrue(levels: seq<Level>, trees: seq<seq<Option<set<Name>>>>)
    requires levels != [] && ListedAt(levels, trees)
    ensures levels[0].listing.Some? ==> trees[0][0].GetOr({}) == levels[0].listing.value
    ensures forall i | 0 < i < |levels| :: ShownAbsent(levels, i) ==> trees[i][0].GetOr({}) == {}
  {
    assert IsTree(levels, trees[0]);
    forall i | 0 < i < |levels| && ShownAbsent(levels, i) ensures trees[i][0].None? {
      assert IsTree(levels, trees[i]);
      NothingBelow(levels, trees[i], i - 1);
    }
  }

  /**
   Level `i` was listed at moment `at[i]`, and what it and the levels below it held then is what the
   storage of the protocol held in directory `d`.
   */
  ghost predicate ListedDuring(levels: seq<Level>, trees: seq<seq<Option<set<Name>>>>, ws: seq<World>, d: Directory,
                               at: seq<nat>, lo: nat, hi: nat) {
    && |at| == |levels| && ListedAt(levels, trees)
    && forall i | 0 <= i < |at| ::
      lo <= at[i] <= hi < |ws| && trees[i] != [] && Ids(trees[i][0].GetOr({})) == In(ws[at[i]].st, d)
  }

  /** So an answer of `_names` is a reading of its directory, empty or not, and the protocol's result applies. */
  lemma AnswerReadsDirectory(levels: seq<Level>, r: Result<set<Name>>, trees: seq<seq<Option<set<Name>>>>, ws: seq<World>,
                             d: Directory, at: seq<nat>, lo: nat, hi: nat)
    requires levels != [] && ListedDuring(levels, trees, ws, d, at, lo, hi) && Answers(levels, r) && r.Ok?
    ensures Reads(ws, d, lo, hi, Ids(r.value))
  {
    NamesAreTrue(levels, trees);
    if levels[0].listing.Some? {
      ReadsAtOnce(ws, d, at[0], lo, hi);
    } else {
      var i :| 0 < i < |levels| && ShownAbsent(levels, i);
      ReadsAtOnce(ws, d, at[i], lo, hi);
    }
  }

  lemma ReadsAtOnce(ws: seq<World>, d: Directory, m: nat, lo: nat, hi: nat)
    requires lo <= m <= hi < |ws|
    ensures Reads(ws, d, lo, hi, In(ws[m].st, d))
  {}

  // ---- the sweep -------------------------------------------------------------------------------

  function Ids(names: set<Name>): set<nat> { set n <- names | n.Nano? :: n.id }

  function Elements(s: seq<nat>): set<nat> { set x | x in s }

  function MergedSeedsUpTo(groups: seq<(nat, seq<nat>)>, merged: set<nat>, k: nat): set<nat>
    requires k <= |groups|
  {
    if k == 0 then {}
    else MergedSeedsUpTo(groups, merged, k - 1)
         + if groups[k - 1].0 in merged then Elements(groups[k - 1].1) else {}
  }

  lemma {:induction false} InMergedSeeds(groups: seq<(nat, seq<nat>)>, merged: set<nat>, k: nat, s: nat)
    requires k <= |groups|
    ensures s in MergedSeedsUpTo(groups, merged, k) <==>
            exists i :: 0 <= i < k && groups[i].0 in merged && s in groups[i].1
  {
    if k > 0 { InMergedSeeds(groups, merged, k - 1, s); }
  }

  /** The seeds the merged files cover are those whose group's file is there. */
  lemma {:induction false} MergedSeedsAre(c: Sample, merged: set<nat>, s: nat)
    requires c.size > 0 && 1 <= s <= c.n
    ensures var groups := MergeGroups(OneTo(c.n), c.size);
            s in MergedSeedsUpTo(groups, merged, |groups|) <==> c.Group(s) in merged
  {
    var seeds := OneTo(c.n);
    var groups, g := MergeGroups(seeds, c.size), Ceil(c.n, c.size);
    InMergedSeeds(groups, merged, |groups|, s);
    GroupExists(c.n, c.size, s);
    GroupAt(seeds, c.size, g, GroupOf(c.size, s));
    SeedsGroup(c.n, c.size, s, GroupOf(c.size, s));
    forall i | 0 <= i < |groups| ensures groups[i].0 == i && (s in groups[i].1 <==> i == c.Group(s)) {
      GroupAt(seeds, c.size, g, i);
      SeedsGroup(c.n, c.size, s, i);
    }
  }

  /** A list that names each of its elements once, as the lists of seeds do. */
  predicate EachOnce(s: seq<nat>) { |s| == |Elements(s)| }

  lemma OnceMore(s: seq<nat>, x: nat)
    requires EachOnce(s) && x !in s
    ensures EachOnce(s + [x])
  {
    assert Elements(s + [x]) == Elements(s) + {x};
  }

  function Recorded(c: Sample, records: set<nat>): set<nat> { set s <- records | 1 <= s <= c.n }

  /** The records of one (era, point, version) on storage, by seed; `stuck` are those a removal fails on. */
  class RecordDirectory {
    var seeds: set<nat>
    const stuck: set<nat>

    /** Remove one record, loudly: a removal that failed is an error. */
    method Drop(seed: nat) returns (ok: bool)
      modifies this
      ensures ok == (seed !in stuck)
      ensures seeds == old(seeds) - (if seed in stuck then {} else {seed})
    {
      if seed in stuck { return false; }
      seeds := seeds - {seed};
      return true;
    }
  }

  /** What a sweep does, as a function of its listings. */
  predicate Refused(c: Sample, records: set<nat>, staged: set<nat>, merged: set<nat>, maxStale: real) {
    var stale, recorded := Stale(c, records, staged, merged), Recorded(c, records);
    stale != {} && |stale| as real > maxStale * |recorded| as real
  }

  /**
   A sweep is refused if and only if the stale share of the recorded seeds is above the limit. Stale is a
   recorded seed without a staged file whose group has no merged one; a seed's group is its place over the size.
   */
  lemma RefusedIsShare(c: Sample, records: set<nat>, staged: set<nat>, merged: set<nat>, maxStale: real,
                       recorded: set<nat>, stale: set<nat>)
    requires c.size > 0
    requires forall s :: s in recorded <==> s in records && 1 <= s <= c.n
    requires forall s :: s in stale <==> s in recorded && s !in staged && (s - 1) / c.size !in merged
    ensures Stale(c, records, staged, merged) == stale
    ensures Refused(c, records, staged, merged, maxStale) <==> stale != {} && |stale| as real / |recorded| as real > maxStale
  {
    assert Recorded(c, records) == recorded && Stale(c, records, staged, merged) == stale;
    if stale != {} {
      StaleAmongRecorded(c, records, staged, merged);
      FractionAbove(|stale|, |recorded|, maxStale);
    }
  }

  /** By name: a recorded seed is stale without a staged file of its own and a merged one of its group. */
  lemma StaleByName(c: Sample, records: set<Name>, staged: set<Name>, merged: set<Name>, s: nat)
    requires c.size > 0
    ensures s in Stale(c, Ids(records), Ids(staged), Ids(merged)) <==>
            1 <= s <= c.n && Nano(s) in records && Nano(s) !in staged && Nano((s - 1) / c.size) !in merged
  {
    NanoIs(records, s);
    NanoIs(staged, s);
    if s > 0 { NanoIs(merged, (s - 1) / c.size); }
  }

  lemma NanoIs(names: set<Name>, id: nat)
    ensures id in Ids(names) <==> Nano(id) in names
  {
    if id in Ids(names) { var n :| n in names && n.Nano? && n.id == id; assert n == Nano(id); }
  }

  method FilterSeeds(c: Sample, records: set<nat>, accounted: set<nat>) returns (recorded: seq<nat>, stale: seq<nat>)
    ensures EachOnce(recorded) && Elements(recorded) == Recorded(c, records)
    ensures EachOnce(stale) && Elements(stale) == Recorded(c, records) - accounted
  {
    recorded, stale := [], [];
    for s := 1 to c.n + 1
      invariant EachOnce(recorded) && forall x :: x in recorded <==> x in records && 1 <= x < s
      invariant EachOnce(stale) && forall x :: x in stale <==> x in records - accounted && 1 <= x < s
    {
      if s in records {
        OnceMore(recorded, s);
        recorded := recorded + [s];
        if s !in accounted {
          OnceMore(stale, s);
          stale := stale + [s];
        }
      }
    }
  }

  method MergedSeeds(c: Sample, merged: set<nat>) returns (out: set<nat>)
    requires c.size > 0
    ensures forall s | 1 <= s <= c.n :: s in out <==> c.Group(s) in merged
  {
    var groups := MergeGroups(OneTo(c.n), c.size);
    out := {};
    for i := 0 to |groups|
      invariant out == MergedSeedsUpTo(groups, merged, i)
    {
      if groups[i].0 in merged { out := out + Elements(groups[i].1); }
    }
    forall s | 1 <= s <= c.n ensures s in out <==> c.Group(s) in merged { MergedSeedsAre(c, merged, s); }
  }

  /**
   What pruning leaves of the records: all but the stale ones, if none of those is stuck. If one is, the pool
   drops the removals not begun when its error is met: no more than the stale ones go, and none that is stuck.
   */
  ghost predicate Pruned(before: set<nat>, after: set<nat>, stale: set<nat>, stuck: set<nat>) {
    if stale !! stuck then after == before - stale
    else before - (stale - stuck) <= after <= before
  }

  /** `_check_and_prune`, from its three listings on; `reach` is how far the pool gets before it stops. */
  method CheckAndPrune(c: Sample, dir: RecordDirectory, records: Result<set<Name>>, staged: Result<set<Name>>,
                       merged: Result<set<Name>>, maxStale: real, prune: bool, reach: nat) returns (r: Result<nat>)
    modifies dir
    ensures records.Err? || staged.Err? || merged.Err? || c.size == 0 ==> r.Err? && dir.seeds == old(dir.seeds)
    ensures records.Ok? && staged.Ok? && merged.Ok? && c.size > 0 ==>
      var stale := Stale(c, Ids(records.value), Ids(staged.value), Ids(merged.value));
      var refused := Refused(c, Ids(records.value), Ids(staged.value), Ids(merged.value), maxStale);
      && (if prune && !refused then Pruned(old(dir.seeds), dir.seeds, stale, dir.stuck) else dir.seeds == old(dir.seeds))
      && (r.Ok? && prune ==> dir.seeds == old(dir.seeds) - stale)
      && (r.Ok? <==> !refused && (prune ==> stale !! dir.stuck))
      && (r.Ok? ==> r.value == if prune then |stale| else 0)
  {
    if records.Err? || staged.Err? || merged.Err? || c.size == 0 { return Err("listing"); }
    var recorded, stale := FindStale(c, Ids(records.value), Ids(staged.value), Ids(merged.value));
    if stale == [] {
      return Ok(0);
    }
    StaleAmongRecorded(c, Ids(records.value), Ids(staged.value), Ids(merged.value));
    var fraction := |stale| as real / |recorded| as real;
    FractionAbove(|stale|, |recorded|, maxStale);
    if fraction > maxStale { return Err("max_stale_fraction"); }
    if !prune { return Ok(0); }
    var failed := DropAll(dir, stale, reach);
    return if failed then Err("removal") else Ok(|stale|);
  }

  method FindStale(c: Sample, records: set<nat>, staged: set<nat>, merged: set<nat>)
    returns (recorded: seq<nat>, stale: seq<nat>)
    requires c.size > 0
    ensures Elements(stale) == Stale(c, records, staged, merged) && |stale| == |Stale(c, records, staged, merged)|
    ensures |recorded| == |Recorded(c, records)| && (stale == [] <==> Stale(c, records, staged, merged) == {})
  {
    var covered := MergedSeeds(c, merged);
    recorded, stale := FilterSeeds(c, records, covered + staged);
    assert Elements(stale) == Stale(c, records, staged, merged);
  }

  lemma StaleAmongRecorded(c: Sample, records: set<nat>, staged: set<nat>, merged: set<nat>)
    ensures Stale(c, records, staged, merged) != {} ==> |Recorded(c, records)| > 0
  {}

  lemma FractionAbove(part: nat, whole: nat, limit: real)
    requires whole > 0
    ensures part as real / whole as real > limit <==> part as real > limit * whole as real
  {}

  /**
   The removals, begun in order by a pool of threads: after one that failed only those still go that had
   begun by then, up to `reach`.
   */
  method DropAll(dir: RecordDirectory, stale: seq<nat>, reach: nat) returns (failed: bool)
    modifies dir
    ensures Pruned(old(dir.seeds), dir.seeds, Elements(stale), dir.stuck)
    ensures failed <==> !(Elements(stale) !! dir.stuck)
  {
    failed := false;
    var i := 0;
    while i < |stale| && (!failed || i < reach)
      invariant 0 <= i <= |stale|
      invariant dir.seeds == old(dir.seeds) - (Elements(stale[..i]) - dir.stuck)
      invariant failed <==> !(Elements(stale[..i]) !! dir.stuck)
    {
      assert Elements(stale[..i + 1]) == Elements(stale[..i]) + {stale[i]};
      var ok := dir.Drop(stale[i]);
      if !ok { failed := true; }
      i := i + 1;
    }
    assert Elements(stale[..i]) <= Elements(stale);
    if i == |stale| { assert stale[..i] == stale; }
  }

  // ---- the sweep over a running production -----------------------------------------------------

  /** The moments one directory was listed at, and what was there then. */
  datatype Reading = Reading(trees: seq<seq<Option<set<Name>>>>, at: seq<nat>, lo: nat, hi: nat)
  {
    ghost predicate Of(levels: seq<Level>, ws: seq<World>, d: Directory) {
      levels != [] && hi < |ws| && ListedDuring(levels, trees, ws, d, at, lo, hi)
    }
  }

  /** The three listings of one sweep, each over by the time the next begins. */
  datatype Readings = Readings(produced: Reading, staging: Reading, merged: Reading)
  {
    ghost predicate InOrder() { produced.hi == staging.lo && staging.hi == merged.lo }
  }

  /**
   The sweep: list the records, then the staged files, then the merged ones, and delete what nothing
   accounts for. Whatever producers, merges and losses interleave with it, however many of the listings
   fail, a record it deletes is of a seed that had really lost its file while it was listing.
   */
  method Sweep(c: Sample, dir: RecordDirectory, produced: seq<Level>, staging: seq<Level>, mergedFiles: seq<Level>,
               maxStale: real, prune: bool, reach: nat, ghost ws: seq<World>, ghost run: seq<Event>, ghost seen: Readings)
    returns (r: Result<nat>)
    requires IsRun(c, ws, run) && seen.InOrder()
    requires seen.produced.Of(produced, ws, Produced) && seen.staging.Of(staging, ws, Staging)
    requires seen.merged.Of(mergedFiles, ws, MergedFiles)
    modifies dir
    ensures r.Ok? && prune ==> forall s | LostThroughout(c, ws, seen.produced.lo, seen.merged.hi, s) :: s !in dir.seeds
    ensures dir.seeds <= old(dir.seeds)
    ensures forall s <- old(dir.seeds) - dir.seeds :: prune && LostWithin(c, ws, run, seen.produced.lo, seen.merged.hi, s)
  {
    var records := Names(produced);
    var staged := Names(staging);
    var merged := Names(mergedFiles);
    r := CheckAndPrune(c, dir, records, staged, merged, maxStale, prune, reach);
    if records.Ok? && staged.Ok? && merged.Ok? {
      SweptAreLost(c, produced, records, staging, staged, mergedFiles, merged, ws, run, seen);
      LostAreStale(c, produced, records, staging, staged, mergedFiles, merged, ws, run, seen);
    }
  }

  /** Recorded, and without a staged or a merged file, at every moment of the sweep. */
  ghost predicate LostThroughout(c: Sample, ws: seq<World>, lo: nat, hi: nat, s: nat)
    requires hi < |ws|
  {
    1 <= s <= c.n && forall m | lo <= m <= hi :: s in ws[m].st.records && s !in ws[m].st.staged && c.Group(s) !in ws[m].st.merged
  }

  lemma LostAreStale(c: Sample, produced: seq<Level>, records: Result<set<Name>>, staging: seq<Level>, staged: Result<set<Name>>,
                     mergedFiles: seq<Level>, merged: Result<set<Name>>, ws: seq<World>, run: seq<Event>, seen: Readings)
    requires IsRun(c, ws, run) && seen.InOrder() && records.Ok? && staged.Ok? && merged.Ok?
    requires seen.produced.Of(produced, ws, Produced) && Answers(produced, records)
    requires seen.staging.Of(staging, ws, Staging) && Answers(staging, staged)
    requires seen.merged.Of(mergedFiles, ws, MergedFiles) && Answers(mergedFiles, merged)
    ensures forall s | LostThroughout(c, ws, seen.produced.lo, seen.merged.hi, s) ::
      s in Stale(c, Ids(records.value), Ids(staged.value), Ids(merged.value))
  {
    var p, t, m := seen.produced, seen.staging, seen.merged;
    AnswerReadsDirectory(produced, records, p.trees, ws, Produced, p.at, p.lo, p.hi);
    AnswerReadsDirectory(staging, staged, t.trees, ws, Staging, t.at, t.lo, t.hi);
    AnswerReadsDirectory(mergedFiles, merged, m.trees, ws, MergedFiles, m.at, m.lo, m.hi);
    forall s | LostThroughout(c, ws, p.lo, m.hi, s)
      ensures s in Ids(records.value) && s !in Ids(staged.value) && c.Group(s) !in Ids(merged.value)
    {
      ReadAsItStays(ws, Produced, p.lo, p.hi, Ids(records.value), s);
      ReadAsItStays(ws, Staging, t.lo, t.hi, Ids(staged.value), s);
      ReadAsItStays(ws, MergedFiles, m.lo, m.hi, Ids(merged.value), c.Group(s));
    }
  }

  /** What does not change during a listing is read as it is. */
  lemma ReadAsItStays(ws: seq<World>, d: Directory, lo: nat, hi: nat, names: set<nat>, x: nat)
    requires Reads(ws, d, lo, hi, names)
    ensures (forall m | lo <= m <= hi :: x in In(ws[m].st, d)) ==> x in names
    ensures (forall m | lo <= m <= hi :: x !in In(ws[m].st, d)) ==> x !in names
  {
    var m :| lo <= m <= hi && (x in names <==> x in In(ws[m].st, d));
  }

  lemma SweptAreLost(c: Sample, produced: seq<Level>, records: Result<set<Name>>, staging: seq<Level>, staged: Result<set<Name>>,
                     mergedFiles: seq<Level>, merged: Result<set<Name>>, ws: seq<World>, run: seq<Event>, seen: Readings)
    requires IsRun(c, ws, run) && seen.InOrder() && records.Ok? && staged.Ok? && merged.Ok?
    requires seen.produced.Of(produced, ws, Produced) && Answers(produced, records)
    requires seen.staging.Of(staging, ws, Staging) && Answers(staging, staged)
    requires seen.merged.Of(mergedFiles, ws, MergedFiles) && Answers(mergedFiles, merged)
    ensures forall s <- Stale(c, Ids(records.value), Ids(staged.value), Ids(merged.value)) ::
      LostWithin(c, ws, run, seen.produced.lo, seen.merged.hi, s)
  {
    var p, t, m := seen.produced, seen.staging, seen.merged;
    AnswerReadsDirectory(produced, records, p.trees, ws, Produced, p.at, p.lo, p.hi);
    AnswerReadsDirectory(staging, staged, t.trees, ws, Staging, t.at, t.lo, t.hi);
    AnswerReadsDirectory(mergedFiles, merged, m.trees, ws, MergedFiles, m.at, m.lo, m.hi);
    StaleMeansLost(c, ws, run, p.lo, p.hi, t.hi, m.hi, Ids(records.value), Ids(staged.value), Ids(merged.value));
  }
}
