/**
 From the events a setup asks for to the events its merged files hold: every produced seed is merged
 exactly once per version, and merges that pass their checks add up to the setup's numbers.
 */
module EventConservation {
  import opened Lists
  import opened Wrappers
  import opened Numbering
  import opened MergeNumbering

  // ---- the RunProd numbering and its inverse ---------------------------------------------------

  predicate IsBranch(b: Seed, eras: seq<string>, points: seq<Point>) {
    b.era in eras && b.point < |points| && 1 <= b.seed <= points[b.point].NJobs(b.era)
  }

  lemma {:induction false} InSeeds(era: string, p: nat, n: nat, b: Seed)
    ensures b in SeedsUpTo(era, p, n) <==> b.era == era && b.point == p && 1 <= b.seed <= n
  {
    if n > 0 { InSeeds(era, p, n - 1, b); }
  }

  lemma {:induction false} InPoints(era: string, points: seq<Point>, k: nat, b: Seed)
    requires k <= |points|
    ensures b in PointsUpTo(era, points, k) <==>
            b.era == era && b.point < k && 1 <= b.seed <= points[b.point].NJobs(era)
  {
    if k > 0 {
      InPoints(era, points, k - 1, b);
      InSeeds(era, k - 1, points[k - 1].NJobs(era), b);
    }
  }

  /** The numbering covers exactly the seeds of the selected eras and points. */
  lemma {:induction false} BranchesAre(eras: seq<string>, points: seq<Point>, b: Seed)
    ensures b in RunProdBranches(eras, points) <==> IsBranch(b, eras, points)
  {
    if eras != [] {
      var rest, last := eras[..|eras| - 1], eras[|eras| - 1];
      assert eras == rest + [last];
      BranchesAre(rest, points, b);
      InPoints(last, points, |points|, b);
    }
  }

  predicate NoRepeats(list: seq<Seed>) { forall i, j | 0 <= i < j < |list| :: list[i] != list[j] }

  lemma RepeatsInConcat(a: seq<Seed>, b: seq<Seed>)
    requires NoRepeats(a) && NoRepeats(b) && forall x <- b :: x !in a
    ensures NoRepeats(a + b)
  {
    var c := a + b;
    forall i, j | 0 <= i < j < |c| ensures c[i] != c[j] {
      if i < |a| <= j { assert c[j] in b && c[i] in a; }
    }
  }

  lemma {:induction false} SeedsOnce(era: string, p: nat, n: nat)
    ensures NoRepeats(SeedsUpTo(era, p, n))
  {
    if n > 0 {
      SeedsOnce(era, p, n - 1);
      InSeeds(era, p, n - 1, Seed(era, p, n));
      RepeatsInConcat(SeedsUpTo(era, p, n - 1), [Seed(era, p, n)]);
    }
  }

  lemma {:induction false} PointsOnce(era: string, points: seq<Point>, k: nat)
    requires k <= |points|
    ensures NoRepeats(PointsUpTo(era, points, k))
  {
    if k > 0 {
      var a, b := PointsUpTo(era, points, k - 1), SeedsUpTo(era, k - 1, points[k - 1].NJobs(era));
      PointsOnce(era, points, k - 1);
      SeedsOnce(era, k - 1, points[k - 1].NJobs(era));
      forall x <- b ensures x !in a {
        InPoints(era, points, k - 1, x);
        InSeeds(era, k - 1, points[k - 1].NJobs(era), x);
      }
      RepeatsInConcat(a, b);
    }
  }

  lemma {:induction false} BranchesOnce(eras: seq<string>, points: seq<Point>)
    requires Distinct(eras)
    ensures NoRepeats(RunProdBranches(eras, points))
  {
    if eras != [] {
      var rest, last := eras[..|eras| - 1], eras[|eras| - 1];
      DistinctPrefix(eras, |eras| - 1, |eras| - 1);
      BranchesOnce(rest, points);
      PointsOnce(last, points, |points|);
      var a, b := RunProdBranches(rest, points), PointsUpTo(last, points, |points|);
      forall x <- b ensures x !in a {
        BranchesAre(rest, points, x);
        InPoints(last, points, |points|, x);
      }
      RepeatsInConcat(a, b);
    }
  }

  /** In one era the points come in order, and the seeds of one point count up. */
  predicate Precedes(a: Seed, b: Seed) {
    a.era == b.era ==> a.point < b.point || (a.point == b.point && a.seed < b.seed)
  }

  ghost predicate InOrder(list: seq<Seed>) { forall i, j :: 0 <= i < j < |list| ==> Precedes(list[i], list[j]) }

  lemma OrderInConcat(a: seq<Seed>, b: seq<Seed>)
    requires InOrder(a) && InOrder(b) && forall x <- a, y <- b :: Precedes(x, y)
    ensures InOrder(a + b)
  {
    var c := a + b;
    forall i, j | 0 <= i < j < |c| ensures Precedes(c[i], c[j]) {
      if i < |a| <= j { assert c[i] in a && c[j] in b; }
    }
  }

  lemma {:induction false} SeedsInOrder(era: string, p: nat, n: nat)
    ensures InOrder(SeedsUpTo(era, p, n))
  {
    if n > 0 {
      var before := SeedsUpTo(era, p, n - 1);
      SeedsInOrder(era, p, n - 1);
      forall x <- before ensures Precedes(x, Seed(era, p, n)) { InSeeds(era, p, n - 1, x); }
      OrderInConcat(before, [Seed(era, p, n)]);
    }
  }

  lemma {:induction false} PointsInOrder(era: string, points: seq<Point>, k: nat)
    requires k <= |points|
    ensures InOrder(PointsUpTo(era, points, k))
  {
    if k > 0 {
      var n := points[k - 1].NJobs(era);
      var a, b := PointsUpTo(era, points, k - 1), SeedsUpTo(era, k - 1, n);
      PointsInOrder(era, points, k - 1);
      SeedsInOrder(era, k - 1, n);
      forall x <- a, y <- b ensures Precedes(x, y) {
        InPoints(era, points, k - 1, x);
        InSeeds(era, k - 1, n, y);
      }
      OrderInConcat(a, b);
    }
  }

  /** In the numbering the eras are not mixed, nor the points of an era, and the seeds of each count up. */
  lemma {:induction false} BranchesInOrder(eras: seq<string>, points: seq<Point>)
    requires Distinct(eras)
    ensures InOrder(RunProdBranches(eras, points))
  {
    if eras != [] {
      var rest, last := eras[..|eras| - 1], eras[|eras| - 1];
      DistinctPrefix(eras, |eras| - 1, |eras| - 1);
      BranchesInOrder(rest, points);
      PointsInOrder(last, points, |points|);
      var a, b := RunProdBranches(rest, points), PointsUpTo(last, points, |points|);
      forall x <- a, y <- b ensures Precedes(x, y) {
        BranchesAre(rest, points, x);
        InPoints(last, points, |points|, y);
      }
      OrderInConcat(a, b);
    }
  }

  /** `_runprod_index`: the numbering inverted, later entries winning. */
  function Index(list: seq<Seed>): map<Seed, nat> {
    if list == [] then map[] else Index(list[..|list| - 1])[list[|list| - 1] := |list| - 1]
  }

  lemma {:induction false} IndexInverts(list: seq<Seed>)
    ensures forall b :: b in Index(list) <==> b in list
    ensures forall b <- Index(list) :: Index(list)[b] < |list| && list[Index(list)[b]] == b
    ensures forall k | 0 <= k < |list| :: list[k] in Index(list) && k <= Index(list)[list[k]]
  {
    if list != [] {
      var rest, last := list[..|list| - 1], list[|list| - 1];
      assert list == rest + [last];
      IndexInverts(rest);
    }
  }

  // ---- each seed is merged once per version ----------------------------------------------------

  /** The `RunProd` branches a merge branch requires. */
  function Requirements(b: MergeBranch, index: map<Seed, nat>): set<nat> {
    set s <- b.seeds | Seed(b.era, b.point, s) in index :: index[Seed(b.era, b.point, s)]
  }

  predicate Merges(b: MergeBranch, seed: Seed, version: string) {
    Of(b, seed.era, seed.point, version) && seed.seed in b.seeds
  }

  function CountUpTo(list: seq<MergeBranch>, seed: Seed, version: string, k: nat): nat
    requires k <= |list|
  {
    if k == 0 then 0
    else CountUpTo(list, seed, version, k - 1) + if Merges(list[k - 1], seed, version) then 1 else 0
  }

  function CountMerging(list: seq<MergeBranch>, seed: Seed, version: string): nat {
    CountUpTo(list, seed, version, |list|)
  }

  lemma {:induction false} CountPrefix(a: seq<MergeBranch>, b: seq<MergeBranch>, seed: Seed, v: string, k: nat)
    requires k <= |a|
    ensures CountUpTo(a + b, seed, v, k) == CountUpTo(a, seed, v, k)
  {
    if k > 0 { CountPrefix(a, b, seed, v, k - 1); }
  }

  lemma CountAppend(list: seq<MergeBranch>, b: MergeBranch, seed: Seed, v: string)
    ensures CountMerging(list + [b], seed, v) == CountMerging(list, seed, v) + if Merges(b, seed, v) then 1 else 0
  {
    CountPrefix(list, [b], seed, v, |list|);
  }

  lemma {:induction false} CountOnly(list: seq<MergeBranch>, seed: Seed, v: string, k: nat)
    requires k <= |list|
    ensures CountUpTo(list, seed, v, k) == CountMerging(OnlyUpTo(list, seed.era, seed.point, v, k), seed, v)
  {
    if k > 0 {
      var only := OnlyUpTo(list, seed.era, seed.point, v, k - 1);
      CountOnly(list, seed, v, k - 1);
      CountAppend(only, list[k - 1], seed, v);
      assert only + [] == only;
    }
  }

  lemma {:induction false} CountGroups(sel: Selection, seed: Seed, v: string, g: nat)
    requires sel.size > 0 && seed.point < |sel.points| && g <= GroupCount(sel, seed.era, seed.point)
    requires 1 <= seed.seed <= sel.points[seed.point].NJobs(seed.era)
    ensures CountMerging(GroupBranches(sel, seed.era, seed.point, v, g), seed, v) ==
            if GroupOf(sel.size, seed.seed) < g then 1 else 0
  {
    if g > 0 {
      var n := sel.points[seed.point].NJobs(seed.era);
      CountGroups(sel, seed, v, g - 1);
      SeedsGroup(n, sel.size, seed.seed, g - 1);
      var b := MergeBranch(seed.era, seed.point, v, g - 1, GroupSeeds(OneTo(n), sel.size, g - 1));
      CountAppend(GroupBranches(sel, seed.era, seed.point, v, g - 1), b, seed, v);
    }
  }

  /** `m` is the only branch id of the list that merges this seed for this version. */
  ghost predicate OnlyMergedBy(list: seq<MergeBranch>, seed: Seed, v: string, m: nat) {
    && m < |list| && Merges(list[m], seed, v)
    && forall k | 0 <= k < |list| :: Merges(list[k], seed, v) ==> k == m
  }

  lemma {:induction false} CountedNone(list: seq<MergeBranch>, seed: Seed, v: string, n: nat)
    requires n <= |list| && CountUpTo(list, seed, v, n) == 0
    ensures forall k | 0 <= k < n :: !Merges(list[k], seed, v)
  {
    if n > 0 { CountedNone(list, seed, v, n - 1); }
  }

  lemma {:induction false} CountedOnce(list: seq<MergeBranch>, seed: Seed, v: string, n: nat) returns (m: nat)
    requires n <= |list| && CountUpTo(list, seed, v, n) == 1
    ensures m < n && Merges(list[m], seed, v) && forall k | 0 <= k < n :: Merges(list[k], seed, v) ==> k == m
  {
    if Merges(list[n - 1], seed, v) {
      CountedNone(list, seed, v, n - 1);
      m := n - 1;
    } else {
      m := CountedOnce(list, seed, v, n - 1);
    }
  }

  /** A merge branch requires `RunProd` branch `i` exactly if it merges the seed that branch produces. */
  lemma RequiresIsMerges(sel: Selection, b: MergeBranch, i: nat)
    requires Distinct(sel.eras)
    ensures var list := RunProdBranches(sel.eras, sel.points);
            i < |list| ==> (i in Requirements(b, Index(list)) <==> Merges(b, list[i], b.version))
  {
    var list := RunProdBranches(sel.eras, sel.points);
    IndexInverts(list);
    BranchesOnce(sel.eras, sel.points);
    if i < |list| {
      assert list[i] in list;
      assert Index(list)[list[i]] == i;
    }
  }

  /** Every seed of the numbering is merged by exactly one branch per version of its era. */
  lemma MergedOnce(sel: Selection, seed: Seed, v: string) returns (m: nat)
    requires sel.Valid() && IsBranch(seed, sel.eras, sel.points) && v in sel.VersionsOf(seed.era)
    ensures OnlyMergedBy(MergeBranches(sel, |sel.eras|), seed, v, m)
  {
    var merges := MergeBranches(sel, |sel.eras|);
    assert sel.eras[..|sel.eras|] == sel.eras;
    OnlyItsGroups(sel, seed.era, seed.point, v);
    CountOnly(merges, seed, v, |merges|);
    GroupExists(sel.points[seed.point].NJobs(seed.era), sel.size, seed.seed);
    CountGroups(sel, seed, v, GroupCount(sel, seed.era, seed.point));
    m := CountedOnce(merges, seed, v, |merges|);
  }

  /**
   Every `RunProd` branch is required by exactly one merge branch for each version of its era, whatever
   is selected.
   */
  lemma RequiredOnce(sel: Selection, i: nat, v: string) returns (m: nat)
    requires sel.Valid() && i < |RunProdBranches(sel.eras, sel.points)|
    requires v in sel.VersionsOf(RunProdBranches(sel.eras, sel.points)[i].era)
    ensures var merges, index := MergeBranches(sel, |sel.eras|), Index(RunProdBranches(sel.eras, sel.points));
            && m < |merges| && merges[m].version == v && i in Requirements(merges[m], index)
            && forall k | 0 <= k < |merges| :: merges[k].version == v && i in Requirements(merges[k], index) ==> k == m
  {
    var list, merges := RunProdBranches(sel.eras, sel.points), MergeBranches(sel, |sel.eras|);
    var seed := list[i];
    assert seed in list;
    BranchesAre(sel.eras, sel.points, seed);
    m := MergedOnce(sel, seed, v);
    forall k | 0 <= k < |merges|
      ensures i in Requirements(merges[k], Index(list)) <==> Merges(merges[k], seed, merges[k].version)
    {
      RequiresIsMerges(sel, merges[k], i);
    }
  }

  // ---- the checks of one merge -----------------------------------------------------------------

  function Sum(s: seq<int>): int { if s == [] then 0 else Sum(s[..|s| - 1]) + s[|s| - 1] }

  /** One staged input as a merge finds it: is it there, the size its record asks for, its entries. */
  datatype Input = Input(staged: bool, requested: Option<int>, entries: int)

  function Entries(inputs: seq<Input>): seq<int> { seq(|inputs|, i requires 0 <= i < |inputs| => inputs[i].entries) }

  predicate Contracted(inputs: seq<Input>, wanted: int) { forall i <- inputs :: i.requested == Some(wanted) }

  /**
   What a merge accepts: inputs that are all staged, and of the wanted size unless it is a test; and a merged
   file that holds all their entries, in a full production one job's worth for each.
   */
  predicate Accepts(test: int, eventsPerJob: int, inputs: seq<Input>, merged: int) {
    && (forall i <- inputs :: i.staged) && (test <= 0 ==> Contracted(inputs, eventsPerJob))
    && merged == Sum(Entries(inputs)) && (test == 0 ==> merged == eventsPerJob * |inputs|)
  }

  /** `NanoMergeTask.run` up to its upload: the checks on the inputs, then on the merged file's entries. */
  method CheckMerge(test: int, eventsPerJob: int, inputs: seq<Input>, merged: int) returns (r: Result<()>)
    ensures r.Ok? <==> Accepts(test, eventsPerJob, inputs, merged)
    ensures (exists i <- inputs :: !i.staged) ==> r.Err?
    ensures test <= 0 && (exists i <- inputs :: i.requested != Some(eventsPerJob)) ==> r.Err?
    ensures r.Ok? ==> merged == Sum(Entries(inputs)) && (test == 0 ==> merged == eventsPerJob * |inputs|)
    ensures test != 0 && merged == Sum(Entries(inputs)) && (forall i <- inputs :: i.staged && i.requested == Some(eventsPerJob)) ==> r.Ok?
  {
    if exists i <- inputs :: !i.staged { return Err("staged"); }
    var contracted := CheckContracted(test, eventsPerJob, inputs);
    if contracted.Err? { return contracted; }
    var total := 0;
    for i := 0 to |inputs|
      invariant total == Sum(Entries(inputs)[..i])
    {
      assert Entries(inputs)[..i + 1][..i] == Entries(inputs)[..i];
      total := total + inputs[i].entries;
    }
    assert Entries(inputs)[..|inputs|] == Entries(inputs);
    if merged != total { return Err("entry mismatch"); }
    if test == 0 && merged != eventsPerJob * |inputs| { return Err("size"); }
    return Ok(());
  }

  /** `_check_contracted_inputs`: seeds are collected by the size they were asked for, odd sizes refused. */
  method CheckContracted(test: int, wanted: int, inputs: seq<Input>) returns (r: Result<()>)
    ensures r.Ok? <==> test > 0 || Contracted(inputs, wanted)
    ensures test <= 0 && (exists i <- inputs :: i.requested.None?) ==> r.Err?
  {
    if test > 0 { return Ok(()); }
    var sizes: map<int, seq<nat>> := map[];
    for i := 0 to |inputs|
      invariant forall j | 0 <= j < i :: inputs[j].requested.Some? && inputs[j].requested.value in sizes
      invariant forall n <- sizes :: exists j :: 0 <= j < i && inputs[j].requested == Some(n)
    {
      if inputs[i].requested.None? { assert inputs[i] in inputs; return Err("record"); }
      var n := inputs[i].requested.value;
      sizes := sizes[n := (if n in sizes then sizes[n] else []) + [i]];
    }
    if n :| n in sizes && n != wanted {
      var j :| 0 <= j < |inputs| && inputs[j].requested == Some(n);
      assert inputs[j] in inputs;
      return Err("mixed sizes");
    }
    assert forall n <- sizes :: n == wanted;
    forall x <- inputs ensures x.requested == Some(wanted) {
      var j :| 0 <= j < |inputs| && inputs[j] == x;
      assert x.requested.value in sizes;
    }
    return Ok(());
  }

  lemma {:induction false} SumWithin(s: seq<int>, most: int)
    requires forall x <- s :: x <= most
    ensures Sum(s) <= most * |s|
    ensures Sum(s) == most * |s| ==> forall x <- s :: x == most
  {
    if s != [] {
      var rest, last := s[..|s| - 1], s[|s| - 1];
      assert s == rest + [last] && last in s;
      forall x <- rest ensures x <= most { assert x in rest + [last]; }
      SumWithin(rest, most);
      Times(most, |rest|, 1);
      assert most * |s| == most * |rest| + most;
    }
  }

  /**
   An accepted full merge lost nothing: if no input holds more than a job's events, each holds exactly those,
   was staged, and was asked for with that size -- and where one holds fewer the merge is refused.
   */
  lemma AcceptedIsFull(eventsPerJob: int, inputs: seq<Input>, merged: int)
    requires forall i <- inputs :: i.entries <= eventsPerJob
    ensures Accepts(0, eventsPerJob, inputs, merged) ==>
              forall i <- inputs :: i.staged && i.requested == Some(eventsPerJob) && i.entries == eventsPerJob
    ensures Accepts(0, eventsPerJob, inputs, merged) ==> merged == eventsPerJob * |inputs|
  {
    var entries := Entries(inputs);
    forall x <- entries ensures x <= eventsPerJob { var k :| 0 <= k < |entries| && entries[k] == x; assert inputs[k] in inputs; }
    SumWithin(entries, eventsPerJob);
    forall i <- inputs | Accepts(0, eventsPerJob, inputs, merged) ensures i.entries == eventsPerJob {
      var k :| 0 <= k < |inputs| && inputs[k] == i;
      assert entries[k] in entries;
    }
  }

  // ---- what a production delivers --------------------------------------------------------------

  /** A merge as it was done: what it found of its inputs, and the entries of the file it made. */
  datatype Merge = Merge(inputs: seq<Input>, merged: int)

  /** Entries of the first `k` merged files that are of one (era, point, version); `done[m]` is the merge of branch `m`. */
  function DeliveredUpTo(list: seq<MergeBranch>, done: seq<Merge>, era: string, p: nat, v: string, k: nat): int
    requires k <= |done| == |list|
  {
    if k == 0 then 0
    else DeliveredUpTo(list, done, era, p, v, k - 1) + if Of(list[k - 1], era, p, v) then done[k - 1].merged else 0
  }

  function Delivered(list: seq<MergeBranch>, done: seq<Merge>, era: string, p: nat, v: string): int
    requires |done| == |list|
  {
    DeliveredUpTo(list, done, era, p, v, |list|)
  }

  function SeedsUpToBranch(list: seq<MergeBranch>, k: nat): nat
    requires k <= |list|
  {
    if k == 0 then 0 else SeedsUpToBranch(list, k - 1) + |list[k - 1].seeds|
  }

  function SeedsIn(list: seq<MergeBranch>): nat { SeedsUpToBranch(list, |list|) }

  lemma {:induction false} SeedsPrefix(a: seq<MergeBranch>, b: seq<MergeBranch>, k: nat)
    requires k <= |a|
    ensures SeedsUpToBranch(a + b, k) == SeedsUpToBranch(a, k)
  {
    if k > 0 { SeedsPrefix(a, b, k - 1); }
  }

  lemma SeedsAppend(list: seq<MergeBranch>, b: MergeBranch)
    ensures SeedsIn(list + [b]) == SeedsIn(list) + |b.seeds|
  {
    SeedsPrefix(list, [b], |list|);
  }

  /** Every branch was merged from one input for each of its seeds, and the merge passed its checks. */
  predicate AllPassed(list: seq<MergeBranch>, done: seq<Merge>, eventsPerJob: int) {
    |done| == |list| && forall m | 0 <= m < |list| ::
      |done[m].inputs| == |list[m].seeds| && Accepts(0, eventsPerJob, done[m].inputs, done[m].merged)
  }

  lemma Times(epj: int, a: int, b: int)
    ensures epj * (a + b) == epj * a + epj * b
  {}

  lemma {:induction false} DeliveredIsSeeds(list: seq<MergeBranch>, done: seq<Merge>, epj: int, era: string, p: nat, v: string, k: nat)
    requires AllPassed(list, done, epj) && k <= |list|
    ensures DeliveredUpTo(list, done, era, p, v, k) == epj * SeedsIn(OnlyUpTo(list, era, p, v, k))
  {
    if k > 0 {
      assert Accepts(0, epj, done[k - 1].inputs, done[k - 1].merged);
      var only := OnlyUpTo(list, era, p, v, k - 1);
      DeliveredIsSeeds(list, done, epj, era, p, v, k - 1);
      SeedsAppend(only, list[k - 1]);
      Times(epj, SeedsIn(only), |list[k - 1].seeds|);
      assert only + [] == only;
    }
  }

  lemma {:induction false} GroupsHoldSeeds(sel: Selection, era: string, p: nat, v: string, g: nat)
    requires sel.size > 0 && p < |sel.points| && g <= GroupCount(sel, era, p)
    ensures SeedsIn(GroupBranches(sel, era, p, v, g)) == Min(g * sel.size, sel.points[p].NJobs(era))
  {
    if g > 0 {
      var n := sel.points[p].NJobs(era);
      GroupsHoldSeeds(sel, era, p, v, g - 1);
      GroupStart(n, sel.size, g - 1);
      SeedsAppend(GroupBranches(sel, era, p, v, g - 1),
                  MergeBranch(era, p, v, g - 1, GroupSeeds(OneTo(n), sel.size, g - 1)));
      Times(sel.size, g - 1, 1);
    }
  }

  /** What is delivered is one job's events for every seed, for every selected version. */
  lemma {:induction false} DeliversEverySeed(sel: Selection, done: seq<Merge>, epj: int, era: string, p: nat, v: string)
    requires sel.Valid() && AllPassed(MergeBranches(sel, |sel.eras|), done, epj)
    requires era in sel.eras && p < |sel.points| && v in sel.VersionsOf(era)
    ensures Delivered(MergeBranches(sel, |sel.eras|), done, era, p, v) == epj * sel.points[p].NJobs(era)
  {
    assert sel.eras[..|sel.eras|] == sel.eras;
    DeliveredIsSeeds(MergeBranches(sel, |sel.eras|), done, epj, era, p, v, |done|);
    OnlyItsGroups(sel, era, p, v);
    GroupsHoldSeeds(sel, era, p, v, GroupCount(sel, era, p));
    CeilCovers(sel.points[p].NJobs(era), sel.size);
  }

  /** The run produces what the setup lists: its points are the setup's, merged as the setup says. */
  predicate Selects(s: Setup, sel: Selection) {
    sel.Valid() && sel.size == s.filesPerMerge && forall p <- sel.points :: p in s.points
  }

  lemma DividesJobs(n: int, epj: int, fpm: int)
    requires n > 0 && epj > 0 && fpm > 0 && n % (epj * fpm) == 0
    ensures (n + epj - 1) / epj == n / (epj * fpm) * fpm
    ensures epj * (n / (epj * fpm) * fpm) == n
  {
    var files := n / (epj * fpm);
    assert n == files * (epj * fpm);
    assert files * (epj * fpm) == (files * fpm) * epj;
    assert (n + epj - 1) / epj == files * fpm by { DivideUp(files * fpm, epj); }
  }

  lemma DivideUp(q: nat, k: nat)
    requires k > 0
    ensures (q * k + k - 1) / k == q
  {
    var d := (q * k + k - 1) / k;
    assert d * k <= q * k + k - 1 < d * k + k;
    LessByFactor(d, q + 1, k);
    LessByFactor(q, d + 1, k);
  }

  /** A valid setup fills its last group: the seeds are a whole number of groups. */
  lemma GroupsAreFull(s: Setup, sel: Selection, era: string, p: nat)
    requires Validate(s).Ok? && Selects(s, sel) && p < |sel.points|
    requires s.eventsPerJob > 0
    ensures var n := sel.points[p].NJobs(era);
            && s.eventsPerJob * n == Max(0, sel.points[p].NEvents(era))
            && GroupCount(sel, era, p) * sel.size == n
  {
    var point := sel.points[p];
    assert point in s.points;
    var n := point.NEvents(era);
    if n > 0 {
      assert era in point.eventsTotal.Keys && point.eventsTotal[era] == n;
      DividesJobs(n, s.eventsPerJob, s.filesPerMerge);
      var files := n / (s.eventsPerJob * s.filesPerMerge);
      DivideUp(files, sel.size);
    } else {
      CeilCovers(0, sel.size);
      LessByFactor(Ceil(0, sel.size), 1, sel.size);
    }
  }

  function Max(a: int, b: int): int { if a > b then a else b }

  /**
   For a validated setup, the merged files of every selected point, era and version that pass their
   checks together hold exactly the events the setup asks for -- if and only if the job size the
   validation lets through is positive, or there is nothing to produce.
   */
  lemma {:induction false} EventsConserved(s: Setup, sel: Selection, done: seq<Merge>, era: string, p: nat, v: string)
    requires Validate(s).Ok? && Selects(s, sel)
    requires AllPassed(MergeBranches(sel, |sel.eras|), done, s.eventsPerJob)
    requires era in sel.eras && p < |sel.points| && v in sel.VersionsOf(era)
    ensures Delivered(MergeBranches(sel, |sel.eras|), done, era, p, v) == Max(0, sel.points[p].NEvents(era))
            <==> s.eventsPerJob > 0 || sel.points[p].NEvents(era) <= 0
  {
    DeliversEverySeed(sel, done, s.eventsPerJob, era, p, v);
    assert sel.points[p] in s.points;
    if s.eventsPerJob > 0 {
      GroupsAreFull(s, sel, era, p);
    } else {
      assert sel.points[p].NJobs(era) == 0;
    }
  }
}
