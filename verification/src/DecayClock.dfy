/** The powered-on-time decay clock (src/esb/channel_hop_ep.c): minutes are collected from
  * 32-bit uptime samples, whole periods are taken off, and progress is saved coarsely. */
module DecayClock {
  import opened Clock32
  import opened Modulo
  import Offenders

  const MINUTE: nat := 60000

  /** 30 days, the largest period src/Kconfig allows. */
  const PERIOD_MAX: nat := 43200

  /** `saved` is the minutes word of the record in flash. */
  datatype Clock = Clock(minutes: nat, fracMs: nat, last: nat, saved: nat)

  datatype Checked = Checked(clock: Clock, periods: nat, wrote: bool)

  /** `persist_decay_period_min`: zero disables decay. */
  function PeriodOf(seconds: nat): (minutes: nat)
    ensures minutes == 0 <==> seconds == 0
    ensures seconds <= 60 * PERIOD_MAX ==> minutes <= PERIOD_MAX
    ensures 0 < seconds < 60 ==> minutes == 1
    ensures 60 <= seconds ==> 60 * minutes <= seconds < 60 * (minutes + 1)
  {
    if seconds == 0 then 0 else if seconds < 60 then 1 else seconds / 60
  }

  /** What one sample adds: nothing after a reboot or a wrap. */
  function Gap(last: nat, now: nat): nat {
    if now >= last then now - last else 0
  }

  /** In true time: a sample adds exactly the time since the last one unless the uptime wrapped
    * in between, and then it adds what the new reading is above the old one, if anything. */
  lemma GapIsTrueTime(last: nat, now: nat)
    requires last <= now
    ensures last / WORD == now / WORD ==> Gap(last % WORD, now % WORD) == now - last
    ensures Gap(last % WORD, now % WORD) == if now % WORD > last % WORD then now % WORD - last % WORD else 0
  {
    DivModDecompose(last, WORD);
    DivModDecompose(now, WORD);
  }

  function Advanced(c: Clock, now: nat): Clock {
    var ms := (c.fracMs + Gap(c.last, now)) % WORD;
    c.(minutes := (c.minutes + ms / MINUTE) % WORD, fracMs := ms % MINUTE, last := now)
  }

  /** A sixteenth of the period, but at least one minute. */
  function FlushStep(period: nat): (step: nat)
    ensures step >= 1 && if period < 32 then step == 1 else 16 * step <= period < 16 * (step + 1)
  {
    if period / 16 > 1 then period / 16 else 1
  }

  function Whole(minutes: nat, period: nat): nat
    requires period > 0
  {
    minutes / period
  }

  function Rest(minutes: nat, period: nat): nat
    requires period > 0
  {
    minutes % period
  }

  lemma WholeAndRest(minutes: nat, period: nat)
    requires period > 0
    ensures minutes == Whole(minutes, period) * period + Rest(minutes, period)
    ensures Whole(minutes, period) > 0 <==> minutes >= period
    ensures minutes < period ==> Rest(minutes, period) == minutes
  {
    DivModDecompose(minutes, period);
    var k := Whole(minutes, period);
    if k > 0 {
      MulAtLeast(k, period);
    } else {
      assert minutes == Rest(minutes, period) < period;
    }
  }

  /** `persist_decay_check` with a period that is not zero. */
  function Check(c: Clock, period: nat, now: nat): Checked
    requires period > 0
  {
    var a := Advanced(c, now);
    var periods := Whole(a.minutes, period);
    var left := a.(minutes := Rest(a.minutes, period));
    var wrote := periods > 0 || left.minutes >= left.saved + FlushStep(period);
    Checked(if wrote then left.(saved := Offenders.Saturated(left.minutes)) else left, periods, wrote)
  }

  lemma CheckParts(c: Clock, period: nat, now: nat)
    requires period > 0
    ensures var a, r := Advanced(c, now), Check(c, period, now);
      && r.periods == Whole(a.minutes, period)
      && r.wrote == (r.periods > 0 || Rest(a.minutes, period) >= a.saved + FlushStep(period))
      && r.clock.minutes == Rest(a.minutes, period) && r.clock.fracMs == a.fracMs && r.clock.last == a.last
      && r.clock.saved == (if r.wrote then Offenders.Saturated(r.clock.minutes) else a.saved)
  {
  }

  /** Time collected and not yet turned into a period, in milliseconds. */
  function Ms(c: Clock): nat {
    c.minutes * MINUTE + c.fracMs
  }

  ghost predicate Settled(c: Clock) {
    c.fracMs < MINUTE && c.minutes <= 0xFFFF && c.last < WORD
  }

  /** A sample counts in full if and only if the sub-minute remainder and the gap
    * together stay below 2^32 ms, which is short of 49.7 days. */
  lemma AdvanceCountsExactly(c: Clock, now: nat)
    requires Settled(c) && now < WORD
    ensures Ms(Advanced(c, now)) == Ms(c) + Gap(c.last, now) <==> c.fracMs + Gap(c.last, now) < WORD
    ensures Advanced(c, now).minutes <= 0xFFFF + WORD / MINUTE && Advanced(c, now).fracMs < MINUTE
    ensures Advanced(c, now).last == now
  {
    var sum := c.fracMs + Gap(c.last, now);
    ModStep(c.fracMs, Gap(c.last, now), WORD);
    ModSmall(c.fracMs, WORD);
    var ms := sum % WORD;
    DivModDecompose(ms, MINUTE);
    ModSmall(c.minutes + ms / MINUTE, WORD);
  }

  /** One check: whole periods taken off and time left make up the time there was. */
  lemma CheckConserves(c: Clock, period: nat, now: nat)
    requires 0 < period <= PERIOD_MAX && Settled(c) && now < WORD
    requires c.fracMs + Gap(c.last, now) < WORD
    ensures var r := Check(c, period, now);
      && Settled(r.clock) && r.clock.minutes < period && r.clock.last == now
      && r.periods * (period * MINUTE) + Ms(r.clock) == Ms(c) + Gap(c.last, now)
  {
    hide Advanced, Check;
    AdvanceCountsExactly(c, now);
    CheckSplits(c, period, now);
    var r := Check(c, period, now);
    Regroup(r.periods, period, r.clock.minutes);
  }

  lemma CheckSplits(c: Clock, period: nat, now: nat)
    requires period > 0
    ensures var r, a := Check(c, period, now), Advanced(c, now);
      && r.clock.minutes < period && a.minutes == r.periods * period + r.clock.minutes
      && r.clock.fracMs == a.fracMs && r.clock.last == a.last
  {
  }

  lemma Regroup(k: nat, period: nat, left: nat)
    ensures (k * period + left) * MINUTE == k * (period * MINUTE) + left * MINUTE
  {
  }

  // ---- Runs ----

  function ClockAfter(c: Clock, period: nat, nows: seq<nat>): Clock
    requires period > 0
  {
    if nows == [] then c else Check(ClockAfter(c, period, nows[..|nows| - 1]), period, nows[|nows| - 1]).clock
  }

  function Applied(c: Clock, period: nat, nows: seq<nat>): nat
    requires period > 0
  {
    if nows == [] then 0 else
      Applied(c, period, nows[..|nows| - 1])
      + Check(ClockAfter(c, period, nows[..|nows| - 1]), period, nows[|nows| - 1]).periods
  }

  function Latest(last: nat, nows: seq<nat>): nat {
    if nows == [] then last else nows[|nows| - 1]
  }

  function Counted(last: nat, nows: seq<nat>): nat {
    if nows == [] then 0 else
      Counted(last, nows[..|nows| - 1]) + Gap(Latest(last, nows[..|nows| - 1]), nows[|nows| - 1])
  }

  /** No gap between checks reaches 2^32 ms less one minute. */
  ghost predicate GapsFit(last: nat, nows: seq<nat>) {
    nows != [] ==> GapsFit(last, nows[..|nows| - 1]) && nows[|nows| - 1] < WORD
                   && Gap(Latest(last, nows[..|nows| - 1]), nows[|nows| - 1]) <= WORD - MINUTE
  }

  lemma {:induction false} RunConserves(c: Clock, period: nat, nows: seq<nat>)
    requires 0 < period <= PERIOD_MAX && Settled(c) && GapsFit(c.last, nows)
    ensures var end := ClockAfter(c, period, nows);
      && Settled(end) && end.last == Latest(c.last, nows) && (nows != [] ==> end.minutes < period)
      && Applied(c, period, nows) * (period * MINUTE) + Ms(end) == Ms(c) + Counted(c.last, nows)
  {
    if nows != [] {
      var front, now := nows[..|nows| - 1], nows[|nows| - 1];
      RunConserves(c, period, front);
      var mid := ClockAfter(c, period, front);
      CheckConserves(mid, period, now);
      Spread(Applied(c, period, front), Check(mid, period, now).periods, period * MINUTE);
    }
  }

  lemma Spread(a: nat, b: nat, unit: nat)
    ensures (a + b) * unit == a * unit + b * unit
  {
  }

  /** Closed form: the periods applied are all the time collected, divided by the period. */
  lemma AppliedIsQuotient(c: Clock, period: nat, nows: seq<nat>)
    requires 0 < period <= PERIOD_MAX && Settled(c) && GapsFit(c.last, nows) && nows != []
    ensures Applied(c, period, nows) == (Ms(c) + Counted(c.last, nows)) / (period * MINUTE)
  {
    RunConserves(c, period, nows);
    var end := ClockAfter(c, period, nows);
    assert Ms(end) < period * MINUTE;
    DivModUnique(Ms(c) + Counted(c.last, nows), Applied(c, period, nows), Ms(end), period * MINUTE);
  }

  // ---- What a power cycle can lose ----

  ghost predicate Trails(c: Clock, period: nat) {
    c.saved <= c.minutes < c.saved + FlushStep(period)
  }

  /** After a check flash trails the live minutes by less than one flush step, if it did
    * not run ahead of them before; the largest period never saturates the word. */
  lemma CheckTrails(c: Clock, period: nat, now: nat)
    requires 0 < period <= PERIOD_MAX && Settled(c) && now < WORD && c.saved <= c.minutes
    ensures Trails(Check(c, period, now).clock, period)
  {
    AdvanceCountsExactly(c, now);
    var a := Advanced(c, now);
    assert a.minutes >= c.minutes by {
      var ms := (c.fracMs + Gap(c.last, now)) % WORD;
      DivModDecompose(ms, MINUTE);
      ModSmall(c.minutes + ms / MINUTE, WORD);
    }
    DivModDecompose(a.minutes, period);
    if a.minutes / period == 0 {
      assert a.minutes % period == a.minutes;
    }
  }

  /** So in every state of a run after its first check. */
  lemma {:induction false} RunTrails(c: Clock, period: nat, nows: seq<nat>)
    requires 0 < period <= PERIOD_MAX && Settled(c) && GapsFit(c.last, nows) && c.saved <= c.minutes
    ensures var end := ClockAfter(c, period, nows);
      end.saved <= end.minutes && (nows != [] ==> Trails(end, period))
  {
    hide Check, Trails, FlushStep;
    if nows != [] {
      var front, now := nows[..|nows| - 1], nows[|nows| - 1];
      RunTrails(c, period, front);
      RunConserves(c, period, front);
      CheckTrails(ClockAfter(c, period, front), period, now);
      TrailsBehind(ClockAfter(c, period, nows), period);
    }
  }

  lemma TrailsBehind(c: Clock, period: nat)
    requires Trails(c, period)
    ensures c.saved <= c.minutes
  {
  }
}
