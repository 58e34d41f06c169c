/**
 Quarantines over whole runs: any outcomes, in-flight counts and polls with a clock that never goes back.
 Every ban is paid for with failures of its own, and our own bug does not single a site out.
 */
module SiteRuns {
  import opened Wrappers
  import opened SiteStats

  datatype Event =
    | JobEnded(site: Option<Site>, ok: bool, at: real)
    | Flight(counts: map<Site, nat>)
    | Poll(at: real)

  function Step(cfg: Config, st: State, e: Event): State {
    match e
    case JobEnded(site, ok, at) => Recorded(cfg, st, site, ok, at)
    case Flight(counts) => st.(inFlight := counts)
    case Poll(at) => Judged(cfg, st, at)
  }

  function Before(cfg: Config, run: seq<Event>, n: nat): State
    requires n <= |run|
  {
    if n == 0 then EMPTY else Step(cfg, Before(cfg, run, n - 1), run[n - 1])
  }

  /** The clock before event `n`. */
  function Clock(run: seq<Event>, n: nat): real
    requires n <= |run|
  {
    if n == 0 then 0.0 else if run[n - 1].Flight? then Clock(run, n - 1) else run[n - 1].at
  }

  ghost predicate Ordered(run: seq<Event>) {
    forall n | 0 <= n < |run| :: !run[n].Flight? ==> run[n].at >= Clock(run, n)
  }

  function RecordOf(st: State, s: Site): Record { if s in st.sites then st.sites[s] else NEW_RECORD }

  /** When jobs failed at a site, all of them, forgotten or not. */
  function Failed(run: seq<Event>, n: nat, s: Site): seq<real>
    requires n <= |run|
  {
    if n == 0 then []
    else
      var e := run[n - 1];
      Failed(run, n - 1, s) + if e.JobEnded? && e.site == Some(s) && !e.ok then [e.at] else []
  }

  datatype Ban = Ban(from: real, until: real)

  /** The ban an event imposes on the site, if any. */
  function NewBan(cfg: Config, st: State, e: Event, s: Site): Option<Ban> {
    var rec, rec' := RecordOf(st, s), RecordOf(Step(cfg, st, e), s);
    if e.Poll? && rec'.quarantines > rec.quarantines then Some(Ban(e.at, rec'.until)) else None
  }

  function Grown(bans: seq<Ban>, ban: Option<Ban>): seq<Ban> { if ban.Some? then bans + [ban.value] else bans }

  function BansOf(cfg: Config, run: seq<Event>, n: nat, s: Site): seq<Ban>
    requires n <= |run|
  {
    if n == 0 then []
    else Grown(BansOf(cfg, run, n - 1, s), NewBan(cfg, Before(cfg, run, n - 1), run[n - 1], s))
  }

  // ---- one record through one event ------------------------------------------------------------

  predicate EventsWithin(events: seq<Outcome>, hi: real) {
    forall i | 0 <= i < |events| :: 0.0 <= events[i].at <= hi
  }

  /** Bans last, and the latest times are those of the last ban: running, or lifted. */
  predicate Consistent(rec: Record, bans: seq<Ban>, now: real) {
    var last := if bans == [] then 0.0 else bans[|bans| - 1].until;
    && rec.quarantines == |bans| && 0.0 <= rec.clearedAt <= now && 0.0 <= rec.until
    && (rec.until == 0.0 ==> rec.clearedAt == last)
    && (rec.until > 0.0 ==> rec.until == last)
  }

  lemma {:induction false} KeptIs(events: seq<Outcome>, cutoff: real, k: nat)
    requires k <= |events|
    ensures forall e <- KeptUpTo(events, cutoff, k) :: e in events[..k]
  {
    if k > 0 {
      KeptIs(events, cutoff, k - 1);
      assert events[..k] == events[..k - 1] + [events[k - 1]];
    }
  }

  /** What `Step` makes of one record. */
  function RecordAfter(cfg: Config, st: State, e: Event, s: Site): Record {
    var rec := RecordOf(st, s);
    match e
    case Flight(_) => rec
    case JobEnded(site, ok, at) =>
      if site.None? then rec
      else Pruned(if site == Some(s) then rec.(events := rec.events + [Outcome(at, ok)]) else rec,
                  at - cfg.windowHours * 3600.0)
    case Poll(at) =>
      if !cfg.enabled || s !in st.sites then rec
      else Sentenced(cfg, Expire(Prune(cfg, st, at), at), s, at)
  }

  lemma StepRecord(cfg: Config, st: State, e: Event, s: Site)
    ensures RecordOf(Step(cfg, st, e), s) == RecordAfter(cfg, st, e, s)
  {}

  /** The record as a poll judges it. */
  function Refreshed(cfg: Config, rec: Record, now: real): Record {
    Expired(Pruned(rec, now - cfg.windowHours * 3600.0), now)
  }

  /** A poll either bans the site from its refreshed record on, or leaves that record. */
  lemma PollRecord(cfg: Config, st: State, now: real, s: Site)
    requires cfg.enabled && s in st.sites
    ensures var st1, rec := Expire(Prune(cfg, st, now), now), Refreshed(cfg, st.sites[s], now);
            && s in st1.sites && st1.sites[s] == rec
            && NewBan(cfg, st, Poll(now), s) ==
               (if Offends(cfg, st1, s, now) then Some(Ban(now, now + BanSeconds(cfg, rec.quarantines))) else None)
            && RecordAfter(cfg, st, Poll(now), s) == if Offends(cfg, st1, s, now) then Banned(cfg, rec, now) else rec
  {}

  lemma BanSecondsPositive(cfg: Config, q: nat)
    requires cfg.quarantineHours > 0.0 && cfg.maxQuarantineHours > 0.0
    ensures BanSeconds(cfg, q) > 0.0
  {
    var k := if q < 20 then q else 20;
    Pow2Positive(k);
    assert cfg.quarantineHours * Pow2(k) > 0.0;
  }

  lemma {:induction false} Pow2Positive(n: nat)
    ensures Pow2(n) >= 1.0
  {
    if n > 0 { Pow2Positive(n - 1); }
  }

  /** Positive ban lengths, as `DEFAULTS` has them. */
  predicate Sane(cfg: Config) { cfg.quarantineHours > 0.0 && cfg.maxQuarantineHours > 0.0 }

  lemma {:induction false} ConsistentAlways(cfg: Config, run: seq<Event>, n: nat, s: Site)
    requires Sane(cfg) && Ordered(run) && n <= |run|
    ensures Consistent(RecordOf(Before(cfg, run, n), s), BansOf(cfg, run, n, s), Clock(run, n))
    ensures EventsWithin(RecordOf(Before(cfg, run, n), s).events, Clock(run, n)) && Clock(run, n) >= 0.0
  {
    if n > 0 {
      ConsistentAlways(cfg, run, n - 1, s);
      StepRecord(cfg, Before(cfg, run, n - 1), run[n - 1], s);
      StepConsistent(cfg, Before(cfg, run, n - 1), run[n - 1], s, BansOf(cfg, run, n - 1, s), Clock(run, n - 1));
    }
  }

  lemma StepConsistent(cfg: Config, st: State, e: Event, s: Site, bans: seq<Ban>, now: real)
    requires Sane(cfg) && now >= 0.0 && (!e.Flight? ==> e.at >= now)
    requires Consistent(RecordOf(st, s), bans, now) && EventsWithin(RecordOf(st, s).events, now)
    ensures var rec, now' := RecordAfter(cfg, st, e, s), if e.Flight? then now else e.at;
            && EventsWithin(rec.events, now')
            && Consistent(rec, Grown(bans, NewBan(cfg, st, e, s)), now')
  {
    StepRecord(cfg, st, e, s);
    var rec := RecordOf(st, s);
    match e
    case Flight(_) =>
    case JobEnded(site, ok, at) =>
      var events := if site == Some(s) then rec.events + [Outcome(at, ok)] else rec.events;
      PrunedWithin(events, at - cfg.windowHours * 3600.0, at);
    case Poll(at) =>
      if cfg.enabled && s in st.sites {
        PollRecord(cfg, st, at, s);
        BanSecondsPositive(cfg, rec.quarantines);
        PrunedWithin(rec.events, at - cfg.windowHours * 3600.0, at);
      }
  }

  lemma {:induction false} PrunedWithin(events: seq<Outcome>, cutoff: real, hi: real)
    requires EventsWithin(events, hi)
    ensures EventsWithin(KeptUpTo(events, cutoff, |events|), hi)
  {
    KeptIs(events, cutoff, |events|);
    var kept := KeptUpTo(events, cutoff, |events|);
    forall i | 0 <= i < |kept| ensures 0.0 <= kept[i].at <= hi {
      assert kept[i] in events[..|events|];
    }
  }
}
