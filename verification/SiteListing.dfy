/** The list handed to CRAB: the active sites with the most failures, as many as the cap allows. */
module SiteListing {
  import opened Wrappers
  import opened SiteStats

  predicate AtLeast(list: seq<Ranked>, failures: nat) { forall r <- list :: r.failures >= failures }

  /** Every site has at least as many failures as each behind it. */
  predicate WorstFirst(list: seq<Ranked>) {
    list == [] || (AtLeast(list[..|list| - 1], list[|list| - 1].failures) && WorstFirst(list[..|list| - 1]))
  }

  lemma {:induction false} InsertAdds(sorted: seq<Ranked>, r: Ranked)
    ensures multiset(Insert(sorted, r)) == multiset(sorted) + multiset{r}
  {
    if sorted != [] {
      var last := |sorted| - 1;
      assert sorted == sorted[..last] + [sorted[last]];
      if sorted[last].failures < r.failures { InsertAdds(sorted[..last], r); }
    }
  }

  lemma {:induction false} InsertAtLeast(sorted: seq<Ranked>, r: Ranked, failures: nat)
    requires AtLeast(sorted, failures) && r.failures >= failures
    ensures AtLeast(Insert(sorted, r), failures)
  {
    if sorted != [] { InsertAtLeast(sorted[..|sorted| - 1], r, failures); }
  }

  lemma {:induction false} InsertKeeps(sorted: seq<Ranked>, r: Ranked)
    requires WorstFirst(sorted)
    ensures WorstFirst(Insert(sorted, r))
  {
    if sorted != [] {
      var rest, last := sorted[..|sorted| - 1], sorted[|sorted| - 1];
      if last.failures < r.failures {
        InsertKeeps(rest, r);
        InsertAtLeast(rest, r, last.failures);
        assert (Insert(rest, r) + [last])[..|Insert(rest, r)|] == Insert(rest, r);
      } else {
        AppendKeeps(sorted, r);
      }
    }
  }

  lemma {:induction false} AppendKeeps(sorted: seq<Ranked>, r: Ranked)
    requires WorstFirst(sorted) && sorted != [] && sorted[|sorted| - 1].failures >= r.failures
    ensures WorstFirst(sorted + [r])
  {}

  lemma {:induction false} WorstIsSorted(active: seq<Ranked>, k: nat)
    requires k <= |active|
    ensures WorstFirst(WorstUpTo(active, k))
  {
    if k > 0 {
      WorstIsSorted(active, k - 1);
      InsertKeeps(WorstUpTo(active, k - 1), active[k - 1]);
    }
  }

  lemma {:induction false} WorstIsActive(active: seq<Ranked>, k: nat)
    requires k <= |active|
    ensures multiset(WorstUpTo(active, k)) == multiset(active[..k])
  {
    if k > 0 {
      WorstIsActive(active, k - 1);
      InsertAdds(WorstUpTo(active, k - 1), active[k - 1]);
      OneMore(active, k);
    }
  }

  lemma OneMore(active: seq<Ranked>, k: nat)
    requires 0 < k <= |active|
    ensures multiset(active[..k]) == multiset(active[..k - 1]) + multiset{active[k - 1]}
  {
    assert active[..k] == active[..k - 1] + [active[k - 1]];
  }

  predicate IsActive(st: State, r: Ranked, now: real) {
    r.site in st.sites && st.sites[r.site].until > now && r.failures == Counts(st, r.site, 0.0).failures
  }

  lemma {:induction false} ActiveAre(st: State, now: real, k: nat, r: Ranked)
    requires k <= |st.order|
    ensures r in ActiveUpTo(st, now, k) <==> r.site in st.order[..k] && IsActive(st, r, now)
  {
    if k > 0 {
      ActiveAre(st, now, k - 1, r);
      assert st.order[..k] == st.order[..k - 1] + [st.order[k - 1]];
    }
  }

  /** Of a sorted list, what a prefix leaves out has no more failures than anything in it. */
  lemma {:induction false} PrefixIsWorst(worst: seq<Ranked>, n: nat)
    requires WorstFirst(worst) && n <= |worst|
    ensures WorstFirst(worst[..n])
    ensures forall r, t | r in worst[n..] && t in worst[..n] :: t.failures >= r.failures
  {
    if n < |worst| {
      var rest, last := worst[..|worst| - 1], worst[|worst| - 1];
      PrefixIsWorst(rest, n);
      assert rest[..n] == worst[..n] && worst[n..] == rest[n..] + [last];
      forall t <- worst[..n] ensures t.failures >= last.failures { assert t in rest; }
    } else {
      assert worst[..n] == worst && worst[n..] == [];
    }
  }

  lemma {:induction false} InsertLength(sorted: seq<Ranked>, r: Ranked)
    ensures |Insert(sorted, r)| == |sorted| + 1
  {
    if sorted != [] && sorted[|sorted| - 1].failures < r.failures { InsertLength(sorted[..|sorted| - 1], r); }
  }

  lemma {:induction false} WorstLength(active: seq<Ranked>, k: nat)
    requires k <= |active|
    ensures |WorstUpTo(active, k)| == k
  {
    if k > 0 {
      WorstLength(active, k - 1);
      InsertLength(WorstUpTo(active, k - 1), active[k - 1]);
    }
  }

  lemma CappedIs(cfg: Config, worst: seq<Ranked>) returns (n: nat)
    ensures n == (if |worst| <= cfg.maxSites then |worst| else cfg.maxSites) && Capped(cfg, worst) == worst[..n]
    ensures multiset(worst[..n]) + multiset(worst[n..]) == multiset(worst)
  {
    n := if |worst| <= cfg.maxSites then |worst| else cfg.maxSites;
    assert worst == worst[..n] + worst[n..];
  }

  lemma CappedAreTheWorst(cfg: Config, active: seq<Ranked>) returns (left: seq<Ranked>)
    ensures var listed := Capped(cfg, WorstUpTo(active, |active|));
            && WorstFirst(listed) && multiset(listed) + multiset(left) == multiset(active)
            && |listed| == (if |active| <= cfg.maxSites then |active| else cfg.maxSites)
            && forall r, t | r in left && t in listed :: t.failures >= r.failures
  {
    var worst := WorstUpTo(active, |active|);
    WorstIsSorted(active, |active|);
    WorstIsActive(active, |active|);
    WorstLength(active, |active|);
    assert active[..|active|] == active;
    var n := CappedIs(cfg, worst);
    left := worst[n..];
    PrefixIsWorst(worst, n);
  }

  /**
   The list names as many active sites as the cap allows, each as often as it is active, worst first;
   a site left out has no more failures than any it names.
   */
  lemma ListedAreTheWorst(cfg: Config, st: State, now: real, active: seq<Ranked>) returns (listed: seq<Ranked>, left: seq<Ranked>)
    requires active == ActiveUpTo(st, now, |st.order|)
    ensures Listed(cfg, st, now) == Names(listed) && WorstFirst(listed)
    ensures multiset(listed) + multiset(left) == multiset(active)
    ensures |listed| == if |active| <= cfg.maxSites then |active| else cfg.maxSites
    ensures forall r, t | r in left && t in listed :: t.failures >= r.failures
  {
    left := CappedAreTheWorst(cfg, active);
    listed := Capped(cfg, WorstUpTo(active, |active|));
  }
}
