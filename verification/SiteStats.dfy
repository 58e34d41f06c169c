/**
 Job outcomes per site over a rolling window, and the quarantines drawn from them. Rates are compared by
 cross-multiplication, so no division by an empty count arises.
 */
module SiteStats {
  import opened Lists
  import opened Wrappers

  datatype Site = Site(name: string)

  datatype Outcome = Outcome(at: real, ok: bool)

  /** `until` is 0 while no ban runs; `clearedAt` is the end of the last one. */
  datatype Record = Record(events: seq<Outcome>, until: real, quarantines: nat, clearedAt: real)

  const NEW_RECORD := Record([], 0.0, 0, 0.0)

  datatype Config = Config(enabled: bool, minFailures: int, minFailureRate: real, relativeFactor: real,
                           minBaselineJobs: int, quarantineHours: real, maxQuarantineHours: real,
                           burstFailures: int, burstMinutes: real, windowHours: real, maxSites: nat)

  /** `order` lists the keys of `sites` as they came in, each once. */
  datatype State = State(sites: map<Site, Record>, order: seq<Site>, inFlight: map<Site, nat>)
  {
    ghost predicate Valid() {
      (forall s :: s in order <==> s in sites) && Distinct(order)
    }

    function Running(s: Site): nat { if s in inFlight then inFlight[s] else 0 }
  }

  const EMPTY := State(map[], [], map[])

  // ---- counting --------------------------------------------------------------------------------

  datatype Tally = Tally(jobs: nat, failures: nat)

  /** The first `k` outcomes, those recorded since a moment. */
  function EndedUpTo(events: seq<Outcome>, since: real, k: nat): Tally
    requires k <= |events|
  {
    if k == 0 then Tally(0, 0)
    else
      var rest, e := EndedUpTo(events, since, k - 1), events[k - 1];
      Tally(rest.jobs + (if e.at < since then 0 else 1), rest.failures + if e.at < since || e.ok then 0 else 1)
  }

  function Ended(events: seq<Outcome>, since: real): Tally { EndedUpTo(events, since, |events|) }

  function AllUpTo(events: seq<Outcome>, k: nat): Tally
    requires k <= |events|
  {
    if k == 0 then Tally(0, 0)
    else
      var rest := AllUpTo(events, k - 1);
      Tally(rest.jobs + 1, rest.failures + if events[k - 1].ok then 0 else 1)
  }

  /** A `since` of 0 drops nothing. */
  function Since(events: seq<Outcome>, since: real): Tally {
    if since == 0.0 then AllUpTo(events, |events|) else Ended(events, since)
  }

  /** `_counts`: jobs sent to the site, ended and in flight. */
  function Counts(st: State, s: Site, since: real): Tally
    requires s in st.sites
  {
    var events := st.sites[s].events;
    var ended := Since(events, since);
    Tally(st.Running(s) + ended.jobs, ended.failures)
  }

  /** What a site weighs in a baseline: all its jobs, or (given a moment) what ended since. */
  function Weight(st: State, s: Site, since: Option<real>): Tally {
    if s !in st.sites then Tally(0, 0)
    else if since.None? then Counts(st, s, 0.0)
    else Ended(st.sites[s].events, since.value)
  }

  /** The other sites among the first `k`, added up. */
  function OthersUpTo(st: State, s: Site, since: Option<real>, k: nat): Tally
    requires k <= |st.order|
  {
    if k == 0 then Tally(0, 0)
    else if st.order[k - 1] == s then OthersUpTo(st, s, since, k - 1)
    else
      var rest, w := OthersUpTo(st, s, since, k - 1), Weight(st, st.order[k - 1], since);
      Tally(rest.jobs + w.jobs, rest.failures + w.failures)
  }

  function Others(st: State, s: Site, since: Option<real>): Tally { OthersUpTo(st, s, since, |st.order|) }

  // ---- the two tests ---------------------------------------------------------------------------

  /** Enough failures, and a high enough share of what the site was sent. */
  predicate Enough(cfg: Config, own: Tally, atLeast: int) {
    own.jobs > 0 && own.failures >= atLeast && own.failures as real >= cfg.minFailureRate * own.jobs as real
  }

  /** Far above the rate elsewhere, where enough jobs ran. */
  predicate StandsOut(cfg: Config, own: Tally, others: Tally) {
    others.jobs >= cfg.minBaselineJobs &&
    (others.jobs == 0 || (own.failures * others.jobs) as real >= cfg.relativeFactor * (others.failures * own.jobs) as real)
  }

  predicate Stands(cfg: Config, own: Tally, atLeast: int, others: Tally) {
    Enough(cfg, own, atLeast) && StandsOut(cfg, own, others)
  }

  predicate IsFailing(cfg: Config, st: State, s: Site)
    requires s in st.sites
  {
    Stands(cfg, Counts(st, s, st.sites[s].clearedAt), cfg.minFailures, Others(st, s, None))
  }

  function Max(a: real, b: real): real { if a < b then b else a }

  function BurstSince(cfg: Config, rec: Record, now: real): real { Max(now - cfg.burstMinutes * 60.0, rec.clearedAt) }

  predicate IsBurst(cfg: Config, st: State, s: Site, now: real)
    requires s in st.sites
  {
    var since := BurstSince(cfg, st.sites[s], now);
    Stands(cfg, Ended(st.sites[s].events, since), cfg.burstFailures, Others(st, s, Some(since)))
  }

  // ---- the steps -------------------------------------------------------------------------------

  function KeptUpTo(events: seq<Outcome>, cutoff: real, k: nat): seq<Outcome>
    requires k <= |events|
  {
    if k == 0 then []
    else KeptUpTo(events, cutoff, k - 1) + if events[k - 1].at >= cutoff then [events[k - 1]] else []
  }

  function Pruned(rec: Record, cutoff: real): Record { rec.(events := KeptUpTo(rec.events, cutoff, |rec.events|)) }

  function Prune(cfg: Config, st: State, now: real): State {
    var cutoff := now - cfg.windowHours * 3600.0;
    st.(sites := map s | s in st.sites :: Pruned(st.sites[s], cutoff))
  }

  function Expired(rec: Record, now: real): Record {
    if 0.0 < rec.until <= now then rec.(clearedAt := rec.until, until := 0.0) else rec
  }

  function Expire(st: State, now: real): State {
    st.(sites := map s | s in st.sites :: Expired(st.sites[s], now))
  }

  function Pow2(n: nat): real { if n == 0 then 1.0 else 2.0 * Pow2(n - 1) }

  /** How long a site's next ban lasts, in seconds, after `quarantines` earlier ones. */
  function BanSeconds(cfg: Config, quarantines: nat): real {
    var hours := cfg.quarantineHours * Pow2(if quarantines < 20 then quarantines else 20);
    (if hours < cfg.maxQuarantineHours then hours else cfg.maxQuarantineHours) * 3600.0
  }

  predicate Offends(cfg: Config, st: State, s: Site, now: real)
    requires s in st.sites
  {
    st.sites[s].until <= now && (IsBurst(cfg, st, s, now) || IsFailing(cfg, st, s))
  }

  function Banned(cfg: Config, rec: Record, now: real): Record {
    rec.(until := now + BanSeconds(cfg, rec.quarantines), quarantines := rec.quarantines + 1)
  }

  function Sentenced(cfg: Config, st: State, s: Site, now: real): Record
    requires s in st.sites
  {
    if Offends(cfg, st, s, now) then Banned(cfg, st.sites[s], now) else st.sites[s]
  }

  /** Every offender judged on the same figures, and all of them banned at once. */
  function Quarantine(cfg: Config, st: State, now: real): State {
    st.(sites := map s | s in st.sites :: Sentenced(cfg, st, s, now))
  }

  function Appended(st: State, s: Site, ok: bool, now: real): State {
    var rec := if s in st.sites then st.sites[s] else NEW_RECORD;
    st.(sites := st.sites[s := rec.(events := rec.events + [Outcome(now, ok)])],
        order := if s in st.sites then st.order else st.order + [s])
  }

  function Recorded(cfg: Config, st: State, site: Option<Site>, ok: bool, now: real): State {
    if site.None? then st else Prune(cfg, Appended(st, site.value, ok, now), now)
  }

  function Judged(cfg: Config, st: State, now: real): State {
    if cfg.enabled then Quarantine(cfg, Expire(Prune(cfg, st, now), now), now) else st
  }

  // ---- the list handed to CRAB -----------------------------------------------------------------

  /** An active site with its failures, the key the list is sorted by. */
  datatype Ranked = Ranked(site: Site, failures: nat)

  function ActiveUpTo(st: State, now: real, k: nat): seq<Ranked>
    requires k <= |st.order|
  {
    if k == 0 then []
    else
      var s := st.order[k - 1];
      ActiveUpTo(st, now, k - 1)
      + if s in st.sites && st.sites[s].until > now then [Ranked(s, Counts(st, s, 0.0).failures)] else []
  }

  /** Insert behind every site with at least as many failures: a stable sort, most failures first. */
  function Insert(sorted: seq<Ranked>, r: Ranked): seq<Ranked> {
    if sorted == [] then [r]
    else
      var last := |sorted| - 1;
      if sorted[last].failures >= r.failures then sorted + [r]
      else Insert(sorted[..last], r) + [sorted[last]]
  }

  function WorstUpTo(active: seq<Ranked>, k: nat): seq<Ranked>
    requires k <= |active|
  {
    if k == 0 then [] else Insert(WorstUpTo(active, k - 1), active[k - 1])
  }

  function Capped(cfg: Config, worst: seq<Ranked>): seq<Ranked> {
    if |worst| <= cfg.maxSites then worst else worst[..cfg.maxSites]
  }

  function Names(list: seq<Ranked>): seq<Site> { seq(|list|, i requires 0 <= i < |list| => list[i].site) }

  function Listed(cfg: Config, st: State, now: real): seq<Site> {
    var active := ActiveUpTo(st, now, |st.order|);
    Names(Capped(cfg, WorstUpTo(active, |active|)))
  }

  // ---- the driver's object ---------------------------------------------------------------------

  class Statistics {
    const cfg: Config
    var sites: map<Site, Record>
    var order: seq<Site>
    var inFlight: map<Site, nat>

    function View(): State reads this { State(sites, order, inFlight) }

    ghost predicate Valid() reads this { View().Valid() }

    constructor (cfg: Config)
      ensures this.cfg == cfg && Valid() && View() == EMPTY
    {
      this.cfg := cfg;
      sites, order, inFlight := map[], [], map[];
    }

    method SetInFlight(counts: map<Site, nat>)
      requires Valid()
      modifies this`inFlight
      ensures Valid() && View() == old(View()).(inFlight := counts)
    {
      inFlight := counts;
    }

    /** Note one ended job; a placeholder for an unknown place is no site. */
    method NoteOutcome(site: Option<Site>, ok: bool, now: real)
      requires Valid()
      modifies this`sites, this`order
      ensures Valid() && View() == Recorded(cfg, old(View()), site, ok, now)
    {
      if site.None? { return; }
      AddOutcome(site.value, ok, now);
      PruneAll(now);
    }

    method AddOutcome(s: Site, ok: bool, now: real)
      requires Valid()
      modifies this`sites, this`order
      ensures Valid() && View() == Appended(old(View()), s, ok, now)
    {
      if s !in sites {
        DistinctAppend(order, s);
        sites, order := sites[s := NEW_RECORD], order + [s];
      }
      sites := sites[s := sites[s].(events := sites[s].events + [Outcome(now, ok)])];
    }

    method PruneAll(now: real)
      requires Valid()
      modifies this`sites
      ensures Valid() && View() == Prune(cfg, old(View()), now)
    {
      var cutoff := now - cfg.windowHours * 3600.0;
      ghost var was := sites;
      for i := 0 to |order|
        invariant sites.Keys == was.Keys
        invariant forall s <- sites :: sites[s] == if s in order[..i] then Pruned(was[s], cutoff) else was[s]
      {
        NewAt(order, i, |order|);
        PruneSite(order[i], cutoff);
      }
    }

    method PruneSite(site: Site, cutoff: real)
      requires site in sites
      modifies this`sites
      ensures sites == old(sites)[site := Pruned(old(sites)[site], cutoff)]
    {
      var rec := sites[site];
      var kept := KeepFrom(rec.events, cutoff);
      if |kept| != |rec.events| {
        sites := sites[site := rec.(events := kept)];
      } else {
        KeptAll(rec.events, cutoff, |kept|);
      }
    }

    method KeepFrom(events: seq<Outcome>, cutoff: real) returns (kept: seq<Outcome>)
      ensures kept == KeptUpTo(events, cutoff, |events|)
    {
      kept := [];
      for i := 0 to |events|
        invariant kept == KeptUpTo(events, cutoff, i)
      {
        if events[i].at >= cutoff { kept := kept + [events[i]]; }
      }
    }

    method ExpireAll(now: real)
      requires Valid()
      modifies this`sites
      ensures Valid() && View() == Expire(old(View()), now)
    {
      for i := 0 to |order|
        invariant sites.Keys == old(sites).Keys
        invariant forall s <- sites :: sites[s] == if s in order[..i] then Expired(old(sites)[s], now) else old(sites)[s]
      {
        NewAt(order, i, |order|);
        var rec := sites[order[i]];
        if 0.0 < rec.until <= now {
          sites := sites[order[i] := rec.(clearedAt := rec.until, until := 0.0)];
        }
      }
    }

    /** In place, one site after the other -- and yet nobody is judged on a ban made in this round. */
    method QuarantineAll(now: real)
      requires Valid()
      modifies this`sites
      ensures Valid() && View() == Quarantine(cfg, old(View()), now)
    {
      ghost var st := View();
      for i := 0 to |order|
        invariant SameEvents(st, View())
        invariant forall s <- sites :: sites[s] == if s in order[..i] then Sentenced(cfg, st, s, now) else st.sites[s]
      {
        NewAt(order, i, |order|);
        SentenceSite(order[i], now, st);
      }
    }

    /** `st` is the record as the round found it. */
    method SentenceSite(site: Site, now: real, ghost st: State)
      requires Valid() && site in sites && SameEvents(st, View()) && sites[site] == st.sites[site]
      modifies this`sites
      ensures sites == old(sites)[site := Sentenced(cfg, st, site, now)] && SameEvents(st, View())
    {
      SameJudgement(cfg, st, View(), site, now);
      var offends := JudgeSite(site, now);
      if offends { Ban(site, now); }
    }

    method Ban(site: Site, now: real)
      requires site in sites
      modifies this`sites
      ensures sites == old(sites)[site := Banned(cfg, old(sites)[site], now)]
    {
      var rec := sites[site];
      sites := sites[site := rec.(until := now + BanSeconds(cfg, rec.quarantines), quarantines := rec.quarantines + 1)];
    }

    method JudgeSite(site: Site, now: real) returns (offends: bool)
      requires Valid() && site in sites
      ensures offends == Offends(cfg, View(), site, now)
    {
      if sites[site].until > now { return false; }
      offends := JudgeBurst(site, now);
      if !offends { offends := JudgeFailing(site); }
    }

    method Count(events: seq<Outcome>, since: Option<real>) returns (t: Tally)
      ensures t == if since.None? then AllUpTo(events, |events|) else Ended(events, since.value)
    {
      var n, failures := 0, 0;
      for i := 0 to |events|
        invariant Tally(n, failures) == if since.None? then AllUpTo(events, i) else EndedUpTo(events, since.value, i)
      {
        if since.None? || events[i].at >= since.value {
          n := n + 1;
          if !events[i].ok { failures := failures + 1; }
        }
      }
      t := Tally(n, failures);
    }

    /** `_baseline` and `_burst_baseline`: the figures of every other site. */
    method AddOthers(site: Site, since: Option<real>) returns (t: Tally)
      requires Valid()
      ensures t == Others(View(), site, since)
    {
      t := Tally(0, 0);
      ghost var st := View();
      for i := 0 to |order|
        invariant t == OthersUpTo(st, site, since, i)
      {
        if order[i] != site {
          assert order[i] in order;
          var own := Weigh(order[i], since);
          t := Tally(t.jobs + own.jobs, t.failures + own.failures);
        }
      }
    }

    method Weigh(site: Site, since: Option<real>) returns (t: Tally)
      requires site in sites
      ensures t == Weight(View(), site, since)
    {
      t := Count(sites[site].events, since);
      if since.None? { t := Tally(View().Running(site) + t.jobs, t.failures); }
    }

    method PassesTest(own: Tally, atLeast: int, site: Site, since: Option<real>) returns (r: bool)
      requires Valid()
      ensures r == Stands(cfg, own, atLeast, Others(View(), site, since))
    {
      if !Enough(cfg, own, atLeast) { return false; }
      var others := AddOthers(site, since);
      return StandsOut(cfg, own, others);
    }

    method JudgeFailing(site: Site) returns (r: bool)
      requires Valid() && site in sites
      ensures r == IsFailing(cfg, View(), site)
    {
      var rec := sites[site];
      var ended := Count(rec.events, if rec.clearedAt == 0.0 then None else Some(rec.clearedAt));
      var own := Tally(View().Running(site) + ended.jobs, ended.failures);
      r := PassesTest(own, cfg.minFailures, site, None);
    }

    method JudgeBurst(site: Site, now: real) returns (r: bool)
      requires Valid() && site in sites
      ensures r == IsBurst(cfg, View(), site, now)
    {
      var since := BurstSince(cfg, sites[site], now);
      var own := Count(sites[site].events, Some(since));
      r := PassesTest(own, cfg.burstFailures, site, Some(since));
    }

    /** `blacklist`: lift what has run out, judge again, and name the worst active sites. */
    method Blacklist(now: real) returns (out: seq<Site>)
      requires Valid()
      modifies this`sites
      ensures Valid() && View() == Judged(cfg, old(View()), now)
      ensures out == if cfg.enabled then Listed(cfg, View(), now) else []
    {
      if !cfg.enabled { return []; }
      PruneAll(now);
      ExpireAll(now);
      QuarantineAll(now);
      out := ListWorst(now);
    }

    method ListWorst(now: real) returns (out: seq<Site>)
      requires Valid()
      ensures out == Listed(cfg, View(), now)
    {
      var active := [];
      for i := 0 to |order|
        invariant active == ActiveUpTo(View(), now, i)
      {
        if sites[order[i]].until > now {
          active := active + [Ranked(order[i], Counts(View(), order[i], 0.0).failures)];
        }
      }
      var worst := [];
      for i := 0 to |active|
        invariant worst == WorstUpTo(active, i)
      {
        worst := Insert(worst, active[i]);
      }
      out := Names(Capped(cfg, worst));
    }
  }

  lemma {:induction false} KeptAll(events: seq<Outcome>, cutoff: real, n: nat)
    requires n == |KeptUpTo(events, cutoff, |events|)| == |events|
    ensures KeptUpTo(events, cutoff, |events|) == events
  {
    KeptLength(events, cutoff, |events|);
    assert events[..|events|] == events;
  }

  lemma {:induction false} KeptLength(events: seq<Outcome>, cutoff: real, k: nat)
    requires k <= |events|
    ensures |KeptUpTo(events, cutoff, k)| <= k
    ensures |KeptUpTo(events, cutoff, k)| == k ==> KeptUpTo(events, cutoff, k) == events[..k]
  {
    if k > 0 { KeptLength(events, cutoff, k - 1); }
  }

  /** The same outcomes and sites; bans may differ. */
  predicate SameEvents(a: State, b: State) {
    && a.order == b.order && a.inFlight == b.inFlight && a.sites.Keys == b.sites.Keys
    && forall s <- a.sites :: a.sites[s].events == b.sites[s].events
  }

  lemma {:induction false} SameOthers(a: State, b: State, s: Site, since: Option<real>, k: nat)
    requires SameEvents(a, b) && k <= |a.order|
    ensures OthersUpTo(a, s, since, k) == OthersUpTo(b, s, since, k)
  {
    if k > 0 { SameOthers(a, b, s, since, k - 1); }
  }

  /** A site's judgement reads only its own record and the outcomes elsewhere, never the others' bans. */
  lemma SameJudgement(cfg: Config, a: State, b: State, s: Site, now: real)
    requires SameEvents(a, b) && s in a.sites && a.sites[s] == b.sites[s]
    ensures Offends(cfg, a, s, now) == Offends(cfg, b, s, now)
  {
    SameOthers(a, b, s, None, |a.order|);
    SameOthers(a, b, s, Some(BurstSince(cfg, a.sites[s], now)), |a.order|);
  }
}
