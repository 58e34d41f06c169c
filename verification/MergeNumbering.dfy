/**
 `NanoMergeTask`'s branches over the `RunProd` numbering: which merge branch needs which produced seed,
 and what a production delivers once every merge has passed its checks.
 */
module MergeNumbering {
  import opened Lists
  import opened Numbering

  datatype MergeBranch = MergeBranch(era: string, point: nat, version: string, group: nat, seeds: seq<nat>)

  /** The eras, points and NanoAOD versions a run selects, and how many files it merges into one. */
  datatype Selection = Selection(eras: seq<string>, points: seq<Point>, versions: map<string, seq<string>>, size: nat)
  {
    function VersionsOf(era: string): seq<string> { if era in versions then versions[era] else [] }

    predicate Valid() {
      && size > 0 && Distinct(eras)
      && forall era <- eras :: Distinct(VersionsOf(era))
    }
  }

  // ---- the branch list, nested as the loops are ----------------------------------------------

  function GroupBranches(sel: Selection, era: string, point: nat, version: string, g: nat): seq<MergeBranch>
    requires sel.size > 0 && point < |sel.points| && g <= Ceil(sel.points[point].NJobs(era), sel.size)
  {
    if g == 0 then []
    else
      var n := sel.points[point].NJobs(era);
      GroupStart(n, sel.size, g - 1);
      GroupBranches(sel, era, point, version, g - 1)
      + [MergeBranch(era, point, version, g - 1, GroupSeeds(OneTo(n), sel.size, g - 1))]
  }

  function GroupCount(sel: Selection, era: string, point: nat): nat
    requires sel.size > 0 && point < |sel.points|
  {
    Ceil(sel.points[point].NJobs(era), sel.size)
  }

  function AllGroups(sel: Selection, era: string, point: nat, version: string): seq<MergeBranch>
    requires sel.size > 0 && point < |sel.points|
  {
    GroupBranches(sel, era, point, version, GroupCount(sel, era, point))
  }

  function VersionBranches(sel: Selection, era: string, point: nat, v: nat): seq<MergeBranch>
    requires sel.size > 0 && point < |sel.points| && v <= |sel.VersionsOf(era)|
  {
    if v == 0 then []
    else VersionBranches(sel, era, point, v - 1) + AllGroups(sel, era, point, sel.VersionsOf(era)[v - 1])
  }

  function PointBranches(sel: Selection, era: string, k: nat): seq<MergeBranch>
    requires sel.size > 0 && k <= |sel.points|
  {
    if k == 0 then []
    else PointBranches(sel, era, k - 1) + VersionBranches(sel, era, k - 1, |sel.VersionsOf(era)|)
  }

  function MergeBranches(sel: Selection, e: nat): seq<MergeBranch>
    requires sel.size > 0 && e <= |sel.eras|
  {
    if e == 0 then [] else MergeBranches(sel, e - 1) + PointBranches(sel, sel.eras[e - 1], |sel.points|)
  }

  function Numbered(list: seq<MergeBranch>): map<nat, MergeBranch> { map i: nat | i < |list| :: list[i] }

  lemma NumberedNext(list: seq<MergeBranch>, b: MergeBranch)
    ensures Numbered(list)[|list| := b] == Numbered(list + [b])
  {}

  /** `create_branch_map`: branch ids count up through the nested loops. */
  method CreateBranchMap(sel: Selection) returns (branches: map<nat, MergeBranch>)
    requires sel.size > 0
    ensures branches == Numbered(MergeBranches(sel, |sel.eras|))
  {
    branches := map[];
    var bid := 0;
    for e := 0 to |sel.eras|
      invariant bid == |MergeBranches(sel, e)| && branches == Numbered(MergeBranches(sel, e))
    {
      ghost var before := MergeBranches(sel, e);
      for pi := 0 to |sel.points|
        invariant bid == |before + PointBranches(sel, sel.eras[e], pi)|
        invariant branches == Numbered(before + PointBranches(sel, sel.eras[e], pi))
      {
        branches, bid := AddVersions(sel, sel.eras[e], pi, bid, branches, before + PointBranches(sel, sel.eras[e], pi));
        Regroup(before, PointBranches(sel, sel.eras[e], pi), VersionBranches(sel, sel.eras[e], pi, |sel.VersionsOf(sel.eras[e])|));
      }
    }
  }

  lemma Regroup(a: seq<MergeBranch>, b: seq<MergeBranch>, c: seq<MergeBranch>)
    ensures a + b + c == a + (b + c)
  {}

  /** The loop over the NanoAOD versions of one point. */
  method AddVersions(sel: Selection, era: string, pi: nat, from: nat, start: map<nat, MergeBranch>,
                     ghost before: seq<MergeBranch>) returns (branches: map<nat, MergeBranch>, bid: nat)
    requires sel.size > 0 && pi < |sel.points| && from == |before| && start == Numbered(before)
    ensures bid == |before + VersionBranches(sel, era, pi, |sel.VersionsOf(era)|)|
    ensures branches == Numbered(before + VersionBranches(sel, era, pi, |sel.VersionsOf(era)|))
  {
    branches, bid := start, from;
    for v := 0 to |sel.VersionsOf(era)|
      invariant bid == |before + VersionBranches(sel, era, pi, v)|
      invariant branches == Numbered(before + VersionBranches(sel, era, pi, v))
    {
      branches, bid := AddGroups(sel, era, pi, sel.VersionsOf(era)[v], bid, branches, before + VersionBranches(sel, era, pi, v));
      Regroup(before, VersionBranches(sel, era, pi, v), AllGroups(sel, era, pi, sel.VersionsOf(era)[v]));
    }
  }

  /** The innermost loop: one branch per group of seeds. */
  method AddGroups(sel: Selection, era: string, pi: nat, version: string, from: nat,
                   start: map<nat, MergeBranch>, ghost before: seq<MergeBranch>) returns (branches: map<nat, MergeBranch>, bid: nat)
    requires sel.size > 0 && pi < |sel.points| && from == |before| && start == Numbered(before)
    ensures bid == |before + AllGroups(sel, era, pi, version)|
    ensures branches == Numbered(before + AllGroups(sel, era, pi, version))
  {
    branches, bid := start, from;
    var seeds := OneTo(sel.points[pi].NJobs(era));
    var groups := MergeGroups(seeds, sel.size);
    GroupsLength(seeds, sel.size, Ceil(|seeds|, sel.size));
    for g := 0 to |groups|
      invariant bid == |before + GroupBranches(sel, era, pi, version, g)|
      invariant branches == Numbered(before + GroupBranches(sel, era, pi, version, g))
    {
      GroupAt(seeds, sel.size, |groups|, g);
      var b := MergeBranch(era, pi, version, groups[g].0, groups[g].1);
      NumberedNext(before + GroupBranches(sel, era, pi, version, g), b);
      assert before + GroupBranches(sel, era, pi, version, g) + [b] ==
             before + GroupBranches(sel, era, pi, version, g + 1);
      branches, bid := branches[bid := b], bid + 1;
    }
  }

  lemma {:induction false} GroupsLength(seeds: seq<nat>, size: nat, g: nat)
    requires size > 0 && g <= Ceil(|seeds|, size)
    ensures |GroupsUpTo(seeds, size, g)| == g
  {
    if g > 0 { GroupsLength(seeds, size, g - 1); }
  }

  // ---- what the list holds for one (era, point, version) ---------------------------------------

  predicate Of(b: MergeBranch, era: string, point: nat, version: string) {
    b.era == era && b.point == point && b.version == version
  }

  function OnlyUpTo(list: seq<MergeBranch>, era: string, point: nat, version: string, k: nat): seq<MergeBranch>
    requires k <= |list|
  {
    if k == 0 then []
    else OnlyUpTo(list, era, point, version, k - 1) + if Of(list[k - 1], era, point, version) then [list[k - 1]] else []
  }

  function Only(list: seq<MergeBranch>, era: string, point: nat, version: string): seq<MergeBranch> {
    OnlyUpTo(list, era, point, version, |list|)
  }

  lemma {:induction false} OnlyPrefix(a: seq<MergeBranch>, b: seq<MergeBranch>, era: string, p: nat, v: string, k: nat)
    requires k <= |a|
    ensures OnlyUpTo(a + b, era, p, v, k) == OnlyUpTo(a, era, p, v, k)
  {
    if k > 0 { OnlyPrefix(a, b, era, p, v, k - 1); }
  }

  lemma {:induction false} OnlyConcatUpTo(a: seq<MergeBranch>, b: seq<MergeBranch>, era: string, p: nat, v: string, k: nat)
    requires k <= |b|
    ensures OnlyUpTo(a + b, era, p, v, |a| + k) == Only(a, era, p, v) + OnlyUpTo(b, era, p, v, k)
  {
    if k == 0 { OnlyPrefix(a, b, era, p, v, |a|); } else { OnlyConcatUpTo(a, b, era, p, v, k - 1); }
  }

  lemma OnlyConcat(a: seq<MergeBranch>, b: seq<MergeBranch>, era: string, p: nat, v: string)
    ensures Only(a + b, era, p, v) == Only(a, era, p, v) + Only(b, era, p, v)
  {
    OnlyConcatUpTo(a, b, era, p, v, |b|);
  }

  /** Two parts of a list, of which at most one holds what is looked for. */
  lemma OnlyJoin(a: seq<MergeBranch>, b: seq<MergeBranch>, era: string, p: nat, v: string)
    ensures Only(a, era, p, v) == [] ==> Only(a + b, era, p, v) == Only(b, era, p, v)
    ensures Only(b, era, p, v) == [] ==> Only(a + b, era, p, v) == Only(a, era, p, v)
  {
    OnlyConcat(a, b, era, p, v);
  }

  predicate InFirst(s: seq<string>, k: nat, x: string)
    requires k <= |s|
  {
    k > 0 && (s[k - 1] == x || InFirst(s, k - 1, x))
  }

  lemma {:induction false} InFirstIs(s: seq<string>, k: nat, x: string)
    requires k <= |s|
    ensures InFirst(s, k, x) <==> exists i :: 0 <= i < k && s[i] == x
  {
    if k > 0 { InFirstIs(s, k - 1, x); }
  }

  lemma {:induction false} NewInFirst(s: seq<string>, k: nat)
    requires Distinct(s) && k < |s|
    ensures !InFirst(s, k, s[k])
  {
    NewAt(s, k, |s|);
    InFirstIs(s, k, s[k]);
    assert forall i | 0 <= i < k :: s[..k][i] == s[i];
  }

  /** Branches that are all of one (era, point, version) are kept whole, or not at all. */
  lemma {:induction false} OnlyAll(list: seq<MergeBranch>, era: string, p: nat, v: string,
                                   era': string, p': nat, v': string, k: nat)
    requires k <= |list| && forall i | 0 <= i < |list| :: Of(list[i], era, p, v)
    ensures era == era' && p == p' && v == v' ==> OnlyUpTo(list, era', p', v', k) == list[..k]
    ensures !(era == era' && p == p' && v == v') ==> OnlyUpTo(list, era', p', v', k) == []
  {
    if k > 0 { OnlyAll(list, era, p, v, era', p', v', k - 1); }
  }

  lemma {:induction false} GroupsAreOf(sel: Selection, era: string, p: nat, v: string, g: nat)
    requires sel.size > 0 && p < |sel.points| && g <= GroupCount(sel, era, p)
    ensures forall b <- GroupBranches(sel, era, p, v, g) :: Of(b, era, p, v)
  {
    if g > 0 { GroupsAreOf(sel, era, p, v, g - 1); }
  }

  lemma OnlyGroups(sel: Selection, era: string, p: nat, v: string, era': string, p': nat, v': string)
    requires sel.size > 0 && p < |sel.points|
    ensures era == era' && p == p' && v == v' ==> Only(AllGroups(sel, era, p, v), era', p', v') == AllGroups(sel, era, p, v)
    ensures !(era == era' && p == p' && v == v') ==> Only(AllGroups(sel, era, p, v), era', p', v') == []
  {
    var list := AllGroups(sel, era, p, v);
    GroupsAreOf(sel, era, p, v, GroupCount(sel, era, p));
    assert forall i | 0 <= i < |list| :: list[i] in list;
    OnlyAll(list, era, p, v, era', p', v', |list|);
    assert list[..|list|] == list;
  }

  lemma {:induction false} OnlyVersions(sel: Selection, era: string, p: nat, k: nat, era': string, p': nat, v': string)
    requires sel.size > 0 && p < |sel.points| && k <= |sel.VersionsOf(era)| && Distinct(sel.VersionsOf(era))
    ensures var here := era == era' && p == p' && InFirst(sel.VersionsOf(era), k, v');
      var only := Only(VersionBranches(sel, era, p, k), era', p', v');
      (here ==> only == AllGroups(sel, era, p, v')) && (!here ==> only == [])
  {
    if k > 0 {
      var v := sel.VersionsOf(era)[k - 1];
      NewInFirst(sel.VersionsOf(era), k - 1);
      OnlyVersions(sel, era, p, k - 1, era', p', v');
      OnlyGroups(sel, era, p, v, era', p', v');
      OnlyJoin(VersionBranches(sel, era, p, k - 1), AllGroups(sel, era, p, v), era', p', v');
    }
  }

  predicate HasVersion(sel: Selection, era: string, v: string) {
    InFirst(sel.VersionsOf(era), |sel.VersionsOf(era)|, v)
  }

  lemma {:induction false} OnlyPoints(sel: Selection, era: string, k: nat, era': string, p': nat, v': string)
    requires sel.size > 0 && k <= |sel.points| && Distinct(sel.VersionsOf(era)) && p' < |sel.points|
    ensures var here := era == era' && p' < k && HasVersion(sel, era, v');
      var only := Only(PointBranches(sel, era, k), era', p', v');
      (here ==> only == AllGroups(sel, era, p', v')) && (!here ==> only == [])
  {
    if k > 0 {
      var versions := |sel.VersionsOf(era)|;
      OnlyPoints(sel, era, k - 1, era', p', v');
      OnlyVersions(sel, era, k - 1, versions, era', p', v');
      OnlyJoin(PointBranches(sel, era, k - 1), VersionBranches(sel, era, k - 1, versions), era', p', v');
    }
  }

  ghost predicate EraHolds(sel: Selection, list: seq<MergeBranch>, here: bool, era: string, p: nat, v: string)
    requires sel.size > 0 && p < |sel.points|
  {
    Only(list, era, p, v) == if here then AllGroups(sel, era, p, v) else []
  }

  lemma {:induction false} EraOfPoints(sel: Selection, last: string, era: string, p: nat, v: string)
    requires sel.size > 0 && p < |sel.points| && Distinct(sel.VersionsOf(last))
    ensures EraHolds(sel, PointBranches(sel, last, |sel.points|), last == era && HasVersion(sel, era, v), era, p, v)
  {
    OnlyPoints(sel, last, |sel.points|, era, p, v);
  }

  lemma EraJoin(sel: Selection, a: seq<MergeBranch>, b: seq<MergeBranch>, c: bool, d: bool, here: bool, era: string, p: nat, v: string)
    requires sel.size > 0 && p < |sel.points| && !(c && d) && here == (c || d)
    requires EraHolds(sel, a, c, era, p, v) && EraHolds(sel, b, d, era, p, v)
    ensures EraHolds(sel, a + b, here, era, p, v)
  {
    OnlyJoin(a, b, era, p, v);
  }

  predicate Selected(sel: Selection, e: nat, era: string, v: string)
    requires e <= |sel.eras|
  {
    InFirst(sel.eras, e, era) && HasVersion(sel, era, v)
  }

  lemma {:induction false} EraFacts(sel: Selection, e: nat)
    requires sel.Valid() && e < |sel.eras|
    ensures Distinct(sel.VersionsOf(sel.eras[e])) && !InFirst(sel.eras, e, sel.eras[e])
  {
    assert sel.eras[e] in sel.eras;
    NewInFirst(sel.eras, e);
  }

  lemma OneMoreEra(sel: Selection, e: nat, era: string, p: nat, v: string)
    requires sel.size > 0 && e < |sel.eras| && p < |sel.points|
    requires Distinct(sel.VersionsOf(sel.eras[e])) && !InFirst(sel.eras, e, sel.eras[e])
    requires EraHolds(sel, MergeBranches(sel, e), Selected(sel, e, era, v), era, p, v)
    ensures EraHolds(sel, MergeBranches(sel, e + 1), Selected(sel, e + 1, era, v), era, p, v)
  {
    EraOfPoints(sel, sel.eras[e], era, p, v);
    EraJoin(sel, MergeBranches(sel, e), PointBranches(sel, sel.eras[e], |sel.points|), Selected(sel, e, era, v),
            sel.eras[e] == era && HasVersion(sel, era, v), Selected(sel, e + 1, era, v), era, p, v);
  }

  lemma {:induction false} OnlyEras(sel: Selection, e: nat, era: string, p: nat, v: string)
    requires sel.Valid() && e <= |sel.eras| && p < |sel.points|
    ensures EraHolds(sel, MergeBranches(sel, e), Selected(sel, e, era, v), era, p, v)
  {
    if e > 0 {
      OnlyEras(sel, e - 1, era, p, v);
      EraFacts(sel, e - 1);
      OneMoreEra(sel, e - 1, era, p, v);
    }
  }

  /** The branch list holds, for every selected (era, point, version), exactly its groups, once and in order. */
  lemma {:induction false} OnlyItsGroups(sel: Selection, era: string, p: nat, v: string)
    requires sel.Valid() && p < |sel.points|
    ensures Only(MergeBranches(sel, |sel.eras|), era, p, v)
            == if era in sel.eras && v in sel.VersionsOf(era) then AllGroups(sel, era, p, v) else []
  {
    OnlyEras(sel, |sel.eras|, era, p, v);
    InFirstIs(sel.eras, |sel.eras|, era);
    InFirstIs(sel.VersionsOf(era), |sel.VersionsOf(era)|, v);
  }
}
