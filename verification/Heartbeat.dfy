/**
 The job side of the watchdog: a loop that refreshes the job's flag, and how far apart its beats
 can land when writes are slow and some of them fail.
 */
module Heartbeat {
  import opened Wrappers
  import opened Watchdog
  import opened WatchdogRuns
  import opened WatchdogTiming

  const WRITE_TIMEOUT_SECONDS := 300
  const RETRY_SECONDS := 60

  function Pow2(n: nat): nat { if n == 0 then 1 else 2 * Pow2(n - 1) }

  function Min(a: int, b: int): int { if a < b then a else b }

  /** How long the loop waits after its `failures`-th failure in a row; 0 failures is a success. */
  function Wait(interval: int, failures: nat): int {
    if failures == 0 then interval
    else Min(RETRY_SECONDS * Pow2(Min(failures - 1, 16)), interval / 4)
  }

  /** The loop's own state; the interval is a whole number of minutes, so its quarter is exact. */
  class Heart {
    const interval: int
    var failures: nat

    constructor (interval: int)
      ensures this.interval == interval && failures == 0
    {
      this.interval, failures := interval, 0;
    }

    /** One turn of the loop around a write that worked or did not. */
    method Turn(written: bool) returns (wait: int)
      modifies this
      ensures failures == (if written then 0 else old(failures) + 1)
      ensures wait == Wait(interval, failures)
    {
      wait := interval;
      if written {
        failures := 0;
      } else {
        failures := failures + 1;
        wait := Min(RETRY_SECONDS * Pow2(Min(failures - 1, 16)), interval / 4);
      }
    }
  }

  /** One write: when it began, the modification time it left, when it was over. */
  datatype Attempt = Attempt(start: int, landed: int, end: int, written: bool)

  function FailuresAfter(attempts: seq<Attempt>, n: nat): nat
    requires n <= |attempts|
  {
    if n == 0 || attempts[n - 1].written then 0 else FailuresAfter(attempts, n - 1) + 1
  }

  /**
   The writes of one loop: each is bounded, leaves its stamp at most `lag` before it is over, and
   starts exactly when the loop's wait is over; at most `spare` fail in a row.
   */
  ghost predicate FollowsLoop(interval: int, attempts: seq<Attempt>, lag: int, spare: nat) {
    && (forall a <- attempts ::
          a.start <= a.landed <= a.end <= Min(a.start + WRITE_TIMEOUT_SECONDS, a.landed + lag))
    && (forall n :: 0 < n < |attempts| ==>
          attempts[n].start == attempts[n - 1].end + Wait(interval, FailuresAfter(attempts, n)))
    && (forall n :: 0 <= n <= |attempts| ==> FailuresAfter(attempts, n) <= spare)
  }

  function LandingsUpTo(attempts: seq<Attempt>, n: nat): seq<int>
    requires n <= |attempts|
  {
    if n == 0 then []
    else LandingsUpTo(attempts, n - 1) + if attempts[n - 1].written then [attempts[n - 1].landed] else []
  }

  function Landings(attempts: seq<Attempt>): seq<int> { LandingsUpTo(attempts, |attempts|) }

  /** Waits of `k` failures in a row. */
  function Backoff(interval: int, k: nat): int {
    if k == 0 then 0 else Backoff(interval, k - 1) + Wait(interval, k)
  }

  /** The furthest apart two beats land when up to `spare` writes between them fail. */
  function Gap(interval: int, lag: int, spare: nat): int {
    lag + interval + (spare + 1) * WRITE_TIMEOUT_SECONDS + Backoff(interval, spare)
  }

  lemma WaitIsPositive(interval: int, failures: nat)
    requires interval >= 4
    ensures Wait(interval, failures) > 0
  {
    if failures > 0 { assert Pow2(Min(failures - 1, 16)) >= 1 by { Pow2Positive(Min(failures - 1, 16)); } }
  }

  lemma {:induction false} Pow2Positive(n: nat)
    ensures Pow2(n) >= 1
  {
    if n > 0 { Pow2Positive(n - 1); }
  }

  lemma {:induction false} GapGrows(interval: int, lag: int, k: nat, spare: nat)
    requires k <= spare && interval >= 4
    ensures Gap(interval, lag, k) <= Gap(interval, lag, spare)
  {
    if k < spare {
      GapGrows(interval, lag, k, spare - 1);
      WaitIsPositive(interval, spare);
    }
  }

  /**
   A failed write is tried again sooner than a beat is due, within a quarter of the interval, and the more
   writes have failed in a row, the later, never the sooner.
   */
  lemma RetriesBackOff(interval: int, k: nat)
    requires interval >= 4 && k > 0
    ensures 0 < Wait(interval, k) <= interval / 4 < Wait(interval, 0)
    ensures Wait(interval, k) <= Wait(interval, k + 1)
  {
    WaitIsPositive(interval, k);
    Pow2Grows(Min(k - 1, 16), Min(k, 16));
  }

  /** A first failure is tried again after a minute, each further one after twice the wait, up to a quarter of the interval. */
  lemma RetriesDouble(interval: int, k: nat)
    requires interval >= 4 && 0 < k <= 16
    ensures Wait(interval, 1) == Min(60, interval / 4)
    ensures Wait(interval, k + 1) == Min(2 * Wait(interval, k), interval / 4)
  {
    Pow2Positive(k - 1);
  }

  lemma {:induction false} Pow2Grows(m: nat, n: nat)
    requires m <= n
    ensures Pow2(m) <= Pow2(n)
  {
    if m < n {
      Pow2Grows(m, n - 1);
      Pow2Positive(n - 1);
    }
  }

  /** The last beat is no further back than the `k` failures since it explain; the beats so far keep the gap. */
  ghost predicate Explained(interval: int, beats: seq<int>, k: nat, end: int, lag: int, spare: nat) {
    beats != [] ==>
      && var last := beats[|beats| - 1];
      && last <= end
      && (k == 0 ==> end <= last + lag)
      && (k > 0 ==> end + Wait(interval, k) + WRITE_TIMEOUT_SECONDS <= last + Gap(interval, lag, k))
      && Beating(beats, Gap(interval, lag, spare))
  }

  /** One more attempt, begun when the wait of the last one was over. */
  lemma NextAttempt(interval: int, beats: seq<int>, k: nat, end: int, a: Attempt, lag: int, spare: nat)
    requires interval >= 4 && k <= spare && Explained(interval, beats, k, end, lag, spare)
    requires a.start == end + Wait(interval, k)
    requires a.start <= a.landed <= a.end <= Min(a.start + WRITE_TIMEOUT_SECONDS, a.landed + lag)
    ensures a.written ==> Explained(interval, beats + [a.landed], 0, a.end, lag, spare)
    ensures !a.written ==> Explained(interval, beats, k + 1, a.end, lag, spare)
  {
    WaitIsPositive(interval, k);
    GapGrows(interval, lag, k, spare);
  }

  lemma {:induction false} SinceLastBeat(interval: int, attempts: seq<Attempt>, lag: int, spare: nat, n: nat)
    requires FollowsLoop(interval, attempts, lag, spare) && 0 < n <= |attempts| && interval >= 4
    ensures Explained(interval, LandingsUpTo(attempts, n), FailuresAfter(attempts, n), attempts[n - 1].end, lag, spare)
  {
    assert attempts[n - 1] in attempts;
    if n > 1 {
      SinceLastBeat(interval, attempts, lag, spare, n - 1);
      NextAttempt(interval, LandingsUpTo(attempts, n - 1), FailuresAfter(attempts, n - 1), attempts[n - 2].end,
                  attempts[n - 1], lag, spare);
      var beats := LandingsUpTo(attempts, n - 1);
      assert beats + [] == beats;
    } else {
      assert LandingsUpTo(attempts, 0) == [];
    }
  }

  /**
   The whole chain: a job that follows the loop, with up to `spare` failed writes in a row, is never
   failed by any run, as long as its worst gap and a poll fit into the threshold.
   */
  lemma BeatingJobIsNeverFailed(cfg: Config, run: seq<Event>, key: Key, branch: Branch,
                                attempts: seq<Attempt>, lag: int, spare: nat, poll: int)
    requires cfg.intervalMinutes > 0 && FollowsLoop(cfg.Interval(), attempts, lag, spare) && Landings(attempts) != []
    requires var gap := Gap(cfg.Interval(), lag, spare);
      Timely(run, poll) && Healthy(cfg, run, key, branch, Landings(attempts), gap, poll) && gap + poll <= cfg.Stale()
    requires poll >= 60 && lag >= 0
    ensures forall n :: 0 <= n < |run| ==> key !in Condemned(cfg, run, n)
  {
    LoopBeats(cfg.Interval(), attempts, lag, spare);
    GapGrows(cfg.Interval(), lag, 0, spare);
    HealthyJobIsNeverFailed(cfg, run, key, branch, Landings(attempts), Gap(cfg.Interval(), lag, spare), poll);
  }

  /** Beats that follow the loop are beats as the driver's guarantee needs them. */
  lemma LoopBeats(interval: int, attempts: seq<Attempt>, lag: int, spare: nat)
    requires FollowsLoop(interval, attempts, lag, spare) && interval >= 4 && Landings(attempts) != []
    ensures Beating(Landings(attempts), Gap(interval, lag, spare))
  {
    SinceLastBeat(interval, attempts, lag, spare, |attempts|);
  }

  /**
   How late a write's stamp may be taken before its end (`lag`) for one full write and a five-minute poll to
   fit the threshold: up to the threshold less an interval and ten minutes. Every setting the driver accepts
   has that much, if only for a stamp taken at the very end at the shortest; intervals from a quarter of an hour
   on have it for a stamp taken at any moment of a write. For two missed checks, the lower bound `Accept` puts
   on the interval is exactly where no lag at all fits any more.
   */
  lemma AcceptedSettingsLeaveRoom(cfg: Config, lag: int)
    requires cfg.intervalMinutes > 0
    ensures Gap(cfg.Interval(), lag, 0) + 300 <= cfg.Stale() <==> lag <= cfg.Stale() - cfg.Interval() - 600
    ensures Accept(Some(cfg)).Ok? && lag <= 0 ==> Gap(cfg.Interval(), lag, 0) + 300 <= cfg.Stale()
    ensures Accept(Some(cfg)).Ok? && cfg.intervalMinutes >= 15 && lag <= WRITE_TIMEOUT_SECONDS ==>
      Gap(cfg.Interval(), lag, 0) + 300 <= cfg.Stale()
    ensures cfg.missedChecks <= 2 ==> (Gap(cfg.Interval(), 0, 0) + 300 <= cfg.Stale() <==> Accept(Some(cfg)).Ok?)
  {
    StaleIsTwice(cfg.Interval(), cfg.missedChecks);
  }

  lemma StaleIsTwice(interval: int, missed: int)
    requires interval > 0
    ensures missed >= 2 ==> interval * missed >= 2 * interval
    ensures missed <= 1 ==> interval * missed <= interval
  {}

  /** The default settings have room for two failed writes in a row, whenever stamps are taken, and not for three. */
  lemma DefaultRoom(lag: int)
    requires 0 <= lag <= WRITE_TIMEOUT_SECONDS
    ensures Gap(DEFAULTS.Interval(), lag, 2) + 300 <= DEFAULTS.Stale() < Gap(DEFAULTS.Interval(), lag, 3) + 300
  {}

  /** So under them no job is failed that follows the loop and never fails to write three times in a row. */
  lemma DefaultsRideOutTwoFailures(run: seq<Event>, key: Key, branch: Branch, attempts: seq<Attempt>, lag: int)
    requires 0 <= lag <= WRITE_TIMEOUT_SECONDS
    requires FollowsLoop(DEFAULTS.Interval(), attempts, lag, 2) && Landings(attempts) != []
    requires Timely(run, 300)
    requires Healthy(DEFAULTS, run, key, branch, Landings(attempts), Gap(DEFAULTS.Interval(), lag, 2), 300)
    ensures forall n :: 0 <= n < |run| ==> key !in Condemned(DEFAULTS, run, n)
  {
    DefaultRoom(lag);
    BeatingJobIsNeverFailed(DEFAULTS, run, key, branch, attempts, lag, 2, 300);
  }
}
