/** When a failed transmission may ask for the next hop (src/esb/channel_hop_ep.c): the
  * cooldown and silence clocks of the hop manager on a 32-bit uptime, against true time. */
module HopTiming {
  import opened Clock32
  import opened HopManager
  import opened Modulo
  import opened Quarantine

  /** The timers after a hop at true time `at`. */
  function TimersAfter(cfg: Config, t: Timers, kind: Kind, target: nat, at: nat): Timers {
    LandedTimers(cfg, t, Hop(kind, target, at % WORD))
  }

  lemma LaterIsTrueTime(at: nat, ms: nat)
    ensures Later(at % WORD, ms) == (at + ms) % WORD
  {
  }

  /** The cooldown lasts exactly `cooldownMs` after a hop, unless its end falls on a
    * multiple of 2^32 ms: zero means "no cooldown", and then there is none at all. */
  lemma CooldownLasts(cfg: Config, t: Timers, kind: Kind, target: nat, at: nat, d: nat)
    requires d < HALF && cfg.cooldownMs < HALF
    ensures CooldownActive(TimersAfter(cfg, t, kind, target, at).cooldownUntil, (at + d) % WORD)
       <==> d < cfg.cooldownMs && (at + cfg.cooldownMs) % WORD != 0
  {
    LaterIsTrueTime(at, cfg.cooldownMs);
    AheadIsTrueTime(at + cfg.cooldownMs, at + d);
  }

  /** Silence measured `d` ms after a hop: exact, except after a hop in the millisecond the
    * clock reads zero, whose stamp is one millisecond late. */
  function Measured(at: nat, d: nat): nat {
    if at % WORD == 0 then (d - 1) % WORD else d
  }

  lemma SilenceIsMeasured(at: nat, d: nat)
    requires d < HALF
    ensures Elapsed((at + d) % WORD, Stamp(at % WORD)) == Measured(at, d)
  {
    if at % WORD == 0 {
      ModStep(at, d, WORD);
      assert (at + d) % WORD == d;
    } else {
      WrappedDifference(at + d, at);
      ModSmall(d, WORD);
    }
  }

  /** An endpoint that has hopped to `target` and sends user traffic: no offer in flight, no
    * fallback pending, and no packet through since the hop. A fallback goes to the
    * rendezvous channel. */
  predicate JustHopped(cfg: Config, s: Hopper, t: Timers, kind: Kind, target: nat, at: nat) {
    && s.radio.active && !OfferLost(s) && !s.radio.fallbackPending && |s.q.expires| == CHANNELS
    && s.radio.channel == target && s.timers == TimersAfter(cfg, t, kind, target, at)
    && (kind == Fallback ==> target == cfg.rendezvous) && cfg.rendezvous != INVALID
  }

  /** The hop work would now leave for the rendezvous channel as a fallback, whatever the
    * picker offers. On that channel it drops the pending flag and stays. */
  predicate GoesHome(cfg: Config, s: Hopper, pick: nat, now: nat)
    requires |s.q.expires| == CHANNELS
  {
    var plan := Decide(cfg, s, pick, now);
    plan.Hop? && plan.kind == Fallback && plan.target == cfg.rendezvous
  }

  /** The failure hook, called `d` ms after the hop, makes the hop work go home. The transport
    * calls the hook for some failed transmissions only: `HopTrigger` says for which. */
  predicate Forces(cfg: Config, s: Hopper, at: nat, d: nat, pick: nat, now: nat)
    requires |s.q.expires| == CHANNELS
  {
    GoesHome(cfg, s.(radio := QuietRadio(cfg, s, TxFailed((at + d) % WORD))), pick, now)
  }

  predicate HeldAt(t: Timers, at: nat, d: nat) { Holding(t, (at + d) % WORD) }

  /** Inside the cooldown of a hop, after enough measured silence. */
  predicate InWindow(cfg: Config, at: nat, d: nat) {
    && d < cfg.cooldownMs && (at + cfg.cooldownMs) % WORD != 0
    && 0 < cfg.fallbackMs <= Measured(at, d)
  }

  lemma SilentInWindow(cfg: Config, t: Timers, kind: Kind, target: nat, at: nat, d: nat)
    requires d < HALF && cfg.cooldownMs < HALF
    ensures Silent(cfg, TimersAfter(cfg, t, kind, target, at), (at + d) % WORD) <==> InWindow(cfg, at, d)
  {
    CooldownLasts(cfg, t, kind, target, at, d);
    SilenceIsMeasured(at, d);
  }

  /** For how long a fallback holds: a hold that would end at reading zero ends one
    * millisecond later. */
  function HeldFor(cfg: Config, kind: Kind, at: nat): nat {
    if kind != Fallback || cfg.holdMs == 0 then 0
    else if (at + cfg.holdMs) % WORD == 0 then cfg.holdMs + 1
    else cfg.holdMs
  }

  lemma HoldIsExact(cfg: Config, t: Timers, target: nat, at: nat, d: nat)
    requires d < HALF && 0 < cfg.holdMs < HALF - 1
    ensures Holding(TimersAfter(cfg, t, Fallback, target, at), (at + d) % WORD) <==> d < HeldFor(cfg, Fallback, at)
  {
    LaterIsTrueTime(at, cfg.holdMs);
    if (at + cfg.holdMs) % WORD == 0 {
      HoldAcrossZero(at, cfg.holdMs, d);
    } else {
      AheadIsTrueTime(at + cfg.holdMs, at + d);
    }
  }

  /** Exactly which calls of the hook after a hop force the rendezvous channel: away from it,
    * inside the cooldown, after at least `fallbackMs` of measured silence, with no hold
    * running. */
  lemma FallbackWindow(cfg: Config, s: Hopper, t: Timers, kind: Kind, target: nat, at: nat, d: nat, pick: nat, now: nat)
    requires d < HALF && cfg.cooldownMs < HALF && JustHopped(cfg, s, t, kind, target, at)
    ensures Forces(cfg, s, at, d, pick, now) <==>
      target != cfg.rendezvous && InWindow(cfg, at, d) && !HeldAt(s.timers, at, d)
  {
    SilentInWindow(cfg, t, kind, target, at, d);
  }

  // ---- Whether a fallback can fire at all ----

  /** A deadline word is ahead of the clock for a stretch only: from 2^31 ms before it. */
  lemma AheadFor(word: nat, at: nat, d: nat)
    requires word < WORD && d < HALF
    ensures Ahead(word, (at + d) % WORD) <==> d < (word - at) % WORD < d + HALF
  {
    var left := (word - at) % WORD;
    ModSmall(word, WORD);
    WrappedDifference(word, at + d);
    DivModDecompose(word - at, WORD);
    if d <= left {
      DivModUnique(word - (at + d), (word - at) / WORD, left - d, WORD);
    } else {
      DivModUnique(word - (at + d), (word - at) / WORD - 1, left - d + WORD, WORD);
    }
  }

  /** Some millisecond of `from..to` after the hop is outside the hold. */
  predicate FreeWithin(holdUntil: nat, at: nat, from: nat, to: nat) {
    from < to && !(holdUntil != 0 && to <= (holdUntil - at) % WORD < from + HALF)
  }

  lemma HeldFrom(t: Timers, at: nat, d: nat)
    requires t.holdUntil < WORD && d < HALF
    ensures HeldAt(t, at, d) <==> t.holdUntil != 0 && d < (t.holdUntil - at) % WORD < d + HALF
  {
    AheadFor(t.holdUntil, at, d);
  }

  lemma FreeWithinExact(t: Timers, at: nat, from: nat, to: nat)
    requires t.holdUntil < WORD && to <= HALF
    ensures FreeWithin(t.holdUntil, at, from, to) <==> exists d: nat :: from <= d < to && !HeldAt(t, at, d)
  {
    hide HeldAt;
    var left := (t.holdUntil - at) % WORD;
    if FreeWithin(t.holdUntil, at, from, to) {
      var d: nat := if from < left < to then left else from;
      HeldFrom(t, at, d);
      assert !HeldAt(t, at, d);
    }
    forall d: nat | from <= d < to && !HeldAt(t, at, d)
      ensures FreeWithin(t.holdUntil, at, from, to)
    {
      HeldFrom(t, at, d);
    }
  }

  /** So a fallback can fire after a hop if and only if the hop did not end on the rendezvous
    * channel, the delay is set and below the cooldown, and no hold covers what is left of
    * it. A hop at clock reading zero is stamped one, so a call in that same millisecond
    * measures an age of silence. */
  lemma FallbackCanFire(cfg: Config, s: Hopper, t: Timers, kind: Kind, target: nat, at: nat, pick: nat, now: nat)
    requires cfg.cooldownMs < HALF && cfg.fallbackMs < WORD && s.timers.holdUntil < WORD
    requires JustHopped(cfg, s, t, kind, target, at)
    ensures (exists d: nat :: d < HALF && Forces(cfg, s, at, d, pick, now)) <==>
      && target != cfg.rendezvous && 0 < cfg.fallbackMs && (at + cfg.cooldownMs) % WORD != 0
      && if at % WORD == 0 then (0 < cfg.cooldownMs && FreeWithin(s.timers.holdUntil, at, 0, 1))
                                || FreeWithin(s.timers.holdUntil, at, cfg.fallbackMs + 1, cfg.cooldownMs)
         else FreeWithin(s.timers.holdUntil, at, cfg.fallbackMs, cfg.cooldownMs)
  {
    assert |s.q.expires| == CHANNELS;
    hide Forces, FreeWithin, JustHopped, HeldAt;
    forall d: nat | d < HALF
      ensures Forces(cfg, s, at, d, pick, now) <==> target != cfg.rendezvous && InWindow(cfg, at, d) && !HeldAt(s.timers, at, d)
      ensures InWindow(cfg, at, d) <==>
        && d < cfg.cooldownMs && (at + cfg.cooldownMs) % WORD != 0 && 0 < cfg.fallbackMs
        && if at % WORD == 0 then d == 0 || d >= cfg.fallbackMs + 1 else d >= cfg.fallbackMs
    {
      FallbackWindow(cfg, s, t, kind, target, at, d, pick, now);
      if d > 0 { ModSmall(d - 1, WORD); }
    }
    hide InWindow;
    FreeWithinExact(s.timers, at, 0, 1);
    FreeWithinExact(s.timers, at, cfg.fallbackMs + 1, cfg.cooldownMs);
    FreeWithinExact(s.timers, at, cfg.fallbackMs, cfg.cooldownMs);
    if d: nat :| d < HALF && Forces(cfg, s, at, d, pick, now) {
      assert InWindow(cfg, at, d) && !HeldAt(s.timers, at, d);
    }
    forall d: nat | d < cfg.cooldownMs && target != cfg.rendezvous && InWindow(cfg, at, d) && !HeldAt(s.timers, at, d)
      ensures Forces(cfg, s, at, d, pick, now)
    {
    }
  }

  /** With the default delays, 330 ms of silence, a hold of 685 ms and a cooldown of 360 ms,
    * and no hold left from before: a call forces the rendezvous channel between 330 and
    * 360 ms after a hop that did not end there. A fallback ends there, so no fallback
    * follows another within its cooldown. */
  lemma DefaultWindows(cfg: Config, s: Hopper, t: Timers, kind: Kind, target: nat, at: nat, d: nat, pick: nat, now: nat)
    requires cfg.fallbackMs == 330 && cfg.holdMs == 685 && cfg.cooldownMs == 360 && d < HALF
    requires JustHopped(cfg, s, t, kind, target, at) && (kind == Fallback || t.holdUntil == 0)
    requires at % WORD != 0 && (at + 360) % WORD != 0
    ensures Forces(cfg, s, at, d, pick, now) <==> target != cfg.rendezvous && 330 <= d < 360
  {
    FallbackWindow(cfg, s, t, kind, target, at, d, pick, now);
  }

  /** On the rendezvous channel the call sets the pending flag all the same; the hop work
    * drops it and stays. */
  lemma DroppedAtHome(cfg: Config, s: Hopper, t: Timers, kind: Kind, target: nat, at: nat, d: nat, pick: nat, now: nat)
    requires d < HALF && cfg.cooldownMs < HALF && JustHopped(cfg, s, t, kind, target, at)
    requires target == cfg.rendezvous && InWindow(cfg, at, d) && !HeldAt(s.timers, at, d)
    ensures var r := QuietRadio(cfg, s, TxFailed((at + d) % WORD));
      r.fallbackPending && Decide(cfg, s.(radio := r), pick, now) == Stay
  {
    SilentInWindow(cfg, t, kind, target, at, d);
  }

  /** After a fallback the endpoint stays put: for `holdMs` no failure is even counted. */
  lemma HoldLasts(cfg: Config, s: Hopper, t: Timers, target: nat, at: nat, d: nat)
    requires d < cfg.holdMs < HALF - 1 && s.timers == TimersAfter(cfg, t, Fallback, target, at)
    ensures !Counts(s, (at + d) % WORD)
  {
    LaterIsTrueTime(at, cfg.holdMs);
    if (at + cfg.holdMs) % WORD == 0 {
      HoldAcrossZero(at, cfg.holdMs, d);
    } else {
      AheadIsTrueTime(at + cfg.holdMs, at + d);
    }
  }

  /** A hold that would end at reading zero ends one millisecond later instead. */
  lemma HoldAcrossZero(at: nat, ms: nat, d: nat)
    requires d < HALF && ms < HALF - 1 && (at + ms) % WORD == 0
    ensures Ahead(1, (at + d) % WORD) <==> d < ms + 1
  {
    DivModDecompose(at + ms, WORD);
    DivModUnique(at + ms + 1, (at + ms) / WORD, 1, WORD);
    AheadIsTrueTime(at + ms + 1, at + d);
  }
}
