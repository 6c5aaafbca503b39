/** Which failed transmissions reach the hop manager (the TX event handler of
  * src/esb/esb_transport.c): its failure hook is called after a window of uninterrupted
  * failures, or when nothing was acknowledged for too long. */
module HopTrigger {
  import opened Clock32
  import opened HopManager
  import opened HopTiming
  import opened Modulo
  import opened Quarantine

  /** TX_FAIL_WINDOW_MS, and WEAK_LINK_MS or zero for none. */
  datatype Limits = Limits(windowMs: nat, weakMs: nat)

  /** Failures in a row, the start of the window, and the last acknowledgement; zero stamps
    * mean none. */
  datatype Streak = Streak(fails: nat, since: nat, lastOk: nat)

  /** `Retuned` is a channel change, `Forgiven` a hop that was not made. */
  datatype Event = Acked(now: nat) | Failed(now: nat) | Retuned | Forgiven

  predicate ByWindow(s: Streak, now: nat, limits: Limits) {
    s.fails != 0 && s.since != 0 && Elapsed(now, s.since) >= limits.windowMs
  }

  predicate ByWeakLink(s: Streak, now: nat, limits: Limits) {
    limits.weakMs > 0 && s.lastOk != 0 && Elapsed(now, s.lastOk) >= limits.weakMs
  }

  /** How often the failure hook is called. */
  function Calls(s: Streak, e: Event, limits: Limits): nat {
    if !e.Failed? then 0
    else (if ByWindow(s, e.now, limits) then 1 else 0) + (if ByWeakLink(s, e.now, limits) then 1 else 0)
  }

  function After(s: Streak, e: Event, limits: Limits): Streak {
    match e
    case Acked(now) => Streak(0, 0, Stamp(now))
    case Failed(now) =>
      Streak(s.fails + 1, if s.fails == 0 || ByWindow(s, now, limits) then Stamp(now) else s.since,
             if ByWeakLink(s, now, limits) then Stamp(now) else s.lastOk)
    case Retuned => Streak(0, 0, 0)
    case Forgiven => s.(fails := 0)
  }

  /** The variables of the handler. */
  class FailureTrigger {
    const limits: Limits
    var consecutive: nat
    var firstFailMs: nat
    var lastSuccessMs: nat

    ghost function View(): Streak
      reads this
    {
      Streak(consecutive, firstFailMs, lastSuccessMs)
    }

    constructor (limits: Limits)
      ensures this.limits == limits && View() == Streak(0, 0, 0)
    {
      this.limits := limits;
      consecutive, firstFailMs, lastSuccessMs := 0, 0, 0;
    }

    method OnTxSuccess(now: nat)
      modifies this
      ensures View() == After(old(View()), Acked(now), limits)
    {
      consecutive, firstFailMs := 0, 0;
      lastSuccessMs := Stamp(now);
    }

    /** The result counts the calls of `channel_hop_ep_on_tx_fail_isr`. */
    method OnTxFailed(now: nat) returns (calls: nat)
      modifies this
      ensures View() == After(old(View()), Failed(now), limits)
      ensures calls == Calls(old(View()), Failed(now), limits)
    {
      calls := 0;
      consecutive := consecutive + 1;
      if consecutive == 1 {
        firstFailMs := now;
        if firstFailMs == 0 {
          firstFailMs := 1;
        }
      } else if firstFailMs != 0 {
        var elapsed := Elapsed(now, firstFailMs);
        if elapsed >= limits.windowMs {
          calls := 1;
          firstFailMs := Stamp(now);
        }
      }
      if limits.weakMs > 0 && lastSuccessMs != 0 {
        var sinceOk := Elapsed(now, lastSuccessMs);
        if sinceOk >= limits.weakMs {
          calls := calls + 1;
          lastSuccessMs := Stamp(now);
        }
      }
    }

    method OnRetuned()
      modifies this
      ensures View() == After(old(View()), Retuned, limits)
    {
      consecutive, firstFailMs, lastSuccessMs := 0, 0, 0;
    }

    /** `esb_transport_reset_consecutive_fail` */
    method OnForgiven()
      modifies this`consecutive
      ensures View() == After(old(View()), Forgiven, limits)
    {
      consecutive := 0;
    }
  }

  // ---- Failures in a row after a hop, in true time ----

  /** True times of failures, in order and close enough for the clock. */
  ghost predicate InOrder(times: seq<nat>) {
    forall i, j :: 0 <= i <= j < |times| ==> times[i] <= times[j] < times[i] + HALF
  }

  /** The failure the window runs from: the first one, or the latest that made a call. */
  function Anchor(times: seq<nat>, limits: Limits): (i: nat)
    requires times != []
    ensures i < |times|
    decreases |times|, 1
  {
    if |times| == 1 || CallsLast(times, limits) then |times| - 1 else Anchor(Front(times), limits)
  }

  function Front(times: seq<nat>): seq<nat>
    requires times != []
  {
    times[..|times| - 1]
  }

  function Latest(times: seq<nat>): nat
    requires times != []
  {
    times[|times| - 1]
  }

  /** The last of these failures calls the hook: it is not the first, and a whole window has
    * passed since the anchor before it. */
  predicate CallsLast(times: seq<nat>, limits: Limits)
    requires times != []
    decreases |times|, 0
  {
    |times| > 1 &&
    var anchor := times[Anchor(Front(times), limits)];
    anchor <= Latest(times) && Measured(anchor, Latest(times) - anchor) >= limits.windowMs
  }

  /** The handler's variables when these failures, and nothing else, followed a hop. */
  function AfterFailures(times: seq<nat>, limits: Limits): Streak {
    if times == [] then Streak(0, 0, 0)
    else After(AfterFailures(Front(times), limits), Failed(Latest(times) % WORD), limits)
  }

  /** The calls, in true time: while nothing is acknowledged, a failure calls the hook, once,
    * if and only if a whole window has passed since the first failure or the last call. */
  lemma {:induction false} CallsExactly(times: seq<nat>, limits: Limits)
    requires InOrder(times) && times != []
    ensures AfterFailures(times, limits) == Streak(|times|, Stamp(times[Anchor(times, limits)] % WORD), 0)
    ensures Calls(AfterFailures(Front(times), limits), Failed(Latest(times) % WORD), limits)
         == if CallsLast(times, limits) then 1 else 0
  {
    if |times| > 1 {
      FrontInOrder(times);
      CallsExactly(Front(times), limits);
      hide InOrder;
      var anchor := times[Anchor(Front(times), limits)];
      InTurn(times, Anchor(Front(times), limits));
      SilenceIsMeasured(anchor, Latest(times) - anchor);
    }
  }

  /** A hop starts it all anew, whatever was counted before; so does an acknowledgement, except
    * that it starts the weak-link clock; and a hop that was not made starts a new window. */
  lemma StartsAnew(s: Streak, now: nat, limits: Limits)
    ensures After(s, Retuned, limits) == AfterFailures([], limits)
    ensures After(s, Acked(now % WORD), limits) == AfterAck(now, [], limits)
    ensures !ByWindow(After(s, Forgiven, limits), now, limits)
    ensures After(After(s, Forgiven, limits), Failed(now), limits).since == Stamp(now)
  {
  }

  // ---- The weak link ----

  /** The handler's variables when these failures, and nothing else, followed an
    * acknowledgement at true time `at`. */
  function AfterAck(at: nat, times: seq<nat>, limits: Limits): Streak {
    if times == [] then Streak(0, 0, Stamp(at % WORD))
    else After(AfterAck(at, Front(times), limits), Failed(Latest(times) % WORD), limits)
  }

  /** The acknowledgement, or the latest failure that called the hook for the weak link. */
  function WeakAnchor(at: nat, times: seq<nat>, limits: Limits): nat
    decreases |times|, 1
  {
    if times == [] then at
    else if WeakLast(at, times, limits) then Latest(times)
    else WeakAnchor(at, Front(times), limits)
  }

  predicate WeakLast(at: nat, times: seq<nat>, limits: Limits)
    requires times != []
    decreases |times|, 0
  {
    var anchor := WeakAnchor(at, Front(times), limits);
    limits.weakMs > 0 && anchor <= Latest(times) && Measured(anchor, Latest(times) - anchor) >= limits.weakMs
  }

  lemma {:induction false} WeakAnchorBefore(at: nat, times: seq<nat>, limits: Limits)
    requires InOrder([at] + times)
    ensures at <= WeakAnchor(at, times, limits)
    ensures WeakAnchor(at, times, limits) == at || WeakAnchor(at, times, limits) in times
  {
    if times != [] {
      assert ([at] + times)[..|times|] == [at] + Front(times);
      FrontInOrder([at] + times);
      WeakAnchorBefore(at, Front(times), limits);
      assert ([at] + times)[|times|] == Latest(times) && ([at] + times)[0] == at;
    }
  }

  /** The weak-link calls, in true time: while nothing more is acknowledged, a failure calls the
    * hook for it if and only if the weak-link delay has passed since the acknowledgement or
    * the last such call, whatever the failure window does. */
  lemma {:induction false} WeakCallsExactly(at: nat, times: seq<nat>, limits: Limits)
    requires InOrder([at] + times) && times != []
    ensures AfterAck(at, times, limits).lastOk == Stamp(WeakAnchor(at, times, limits) % WORD)
    ensures ByWeakLink(AfterAck(at, Front(times), limits), Latest(times) % WORD, limits) == WeakLast(at, times, limits)
  {
    assert ([at] + times)[..|times|] == [at] + Front(times);
    FrontInOrder([at] + times);
    if |times| > 1 {
      WeakCallsExactly(at, Front(times), limits);
    }
    var anchor := WeakAnchor(at, Front(times), limits);
    WeakAnchorBefore(at, Front(times), limits);
    AnchorInTurn(at, times, anchor);
    hide InOrder;
    SilenceIsMeasured(anchor, Latest(times) - anchor);
  }

  lemma AnchorInTurn(at: nat, times: seq<nat>, anchor: nat)
    requires InOrder([at] + times) && times != [] && (anchor == at || anchor in Front(times))
    ensures anchor <= Latest(times) < anchor + HALF
  {
    var all := [at] + times;
    assert all[|times|] == Latest(times) && all[0] == at;
    if anchor in Front(times) {
      var i :| 0 <= i < |times| - 1 && times[i] == anchor;
      assert all[i + 1] == anchor;
    }
  }

  // ---- What the hop manager makes of them ----

  /** The hop manager when these failures, and nothing else, followed a hop. */
  function AfterHooks(cfg: Config, s: Hopper, times: seq<nat>, limits: Limits): (t: Hopper)
    requires |s.q.expires| == CHANNELS
    ensures t.q == s.q
  {
    if times == [] then s else
      var before, e := AfterHooks(cfg, s, Front(times), limits), Failed(Latest(times) % WORD);
      if Calls(AfterFailures(Front(times), limits), e, limits) > 0 then Quiet(cfg, before, TxFailed(e.now)) else before
  }

  /** Some call came outside the hold, which ended it. */
  predicate HoldOver(t: Timers, at: nat, times: seq<nat>, limits: Limits)
    requires forall i :: 0 <= i < |times| ==> at <= times[i]
  {
    times != [] && (HoldOver(t, at, Front(times), limits) || (CallsLast(times, limits) && !HeldAt(t, at, Latest(times) - at)))
  }

  /** Some call came in the fallback's window, with the hold over. */
  predicate Fired(cfg: Config, t: Timers, at: nat, times: seq<nat>, limits: Limits)
    requires forall i :: 0 <= i < |times| ==> at <= times[i]
  {
    times != [] &&
    (Fired(cfg, t, at, Front(times), limits)
     || (CallsLast(times, limits) && InWindow(cfg, at, Latest(times) - at) && HoldOver(t, at, times, limits)))
  }

  /** Over every run of failures after a hop: the hop work goes home if and only if the hop did
    * not end there and some failure called the hook in the window with the hold over. */
  lemma {:induction false} FallbackFires(cfg: Config, s: Hopper, t: Timers, kind: Kind, target: nat, at: nat,
                                         times: seq<nat>, limits: Limits, pick: nat, now: nat)
    requires cfg.cooldownMs < HALF && JustHopped(cfg, s, t, kind, target, at) && InOrder(times)
    requires forall i :: 0 <= i < |times| ==> at <= times[i] < at + HALF
    ensures GoesHome(cfg, AfterHooks(cfg, s, times, limits), pick, now) <==>
      target != cfg.rendezvous && Fired(cfg, s.timers, at, times, limits)
  {
    HooksExactly(cfg, s, t, kind, target, at, times, limits);
  }

  lemma {:induction false} HooksExactly(cfg: Config, s: Hopper, t: Timers, kind: Kind, target: nat, at: nat,
                                        times: seq<nat>, limits: Limits)
    requires cfg.cooldownMs < HALF && JustHopped(cfg, s, t, kind, target, at) && InOrder(times)
    requires forall i :: 0 <= i < |times| ==> at <= times[i] < at + HALF
    ensures var after := AfterHooks(cfg, s, times, limits);
      && after.radio == s.radio.(fallbackPending := Fired(cfg, s.timers, at, times, limits))
      && after.timers == s.timers.(holdUntil := if HoldOver(s.timers, at, times, limits) then 0 else s.timers.holdUntil)
      && !OfferLost(after)
  {
    if times != [] {
      var before, clock := AfterHooks(cfg, s, Front(times), limits), Latest(times) % WORD;
      FrontInOrder(times);
      HooksExactly(cfg, s, t, kind, target, at, Front(times), limits);
      HooksLater(cfg, s, times, limits);
      SilentInWindow(cfg, t, kind, target, at, Latest(times) - at);
      assert s.radio.active && s.timers == TimersAfter(cfg, t, kind, target, at);
      hide JustHopped, InOrder, Silent, Holding, Quiet, TimersAfter, InWindow, AfterHooks, CallsLast, OfferLost, Front, Latest;
      HookTurn(cfg, s, before, Fired(cfg, s.timers, at, Front(times), limits), HoldOver(s.timers, at, Front(times), limits), clock);
    }
  }

  lemma InTurn(times: seq<nat>, i: nat)
    requires InOrder(times) && i < |times|
    ensures times[i] <= Latest(times) < times[i] + HALF
  {
  }

  lemma FrontInOrder(times: seq<nat>)
    requires InOrder(times) && times != []
    ensures InOrder(Front(times)) && forall i :: 0 <= i < |Front(times)| ==> Front(times)[i] == times[i]
  {
  }

  lemma HooksLater(cfg: Config, s: Hopper, times: seq<nat>, limits: Limits)
    requires |s.q.expires| == CHANNELS && InOrder(times) && times != []
    ensures var before := AfterHooks(cfg, s, Front(times), limits);
      AfterHooks(cfg, s, times, limits) ==
        if CallsLast(times, limits) then Quiet(cfg, before, TxFailed(Latest(times) % WORD)) else before
  {
    hide Quiet, CallsLast, InOrder;
    CallsExactly(times, limits);
  }

  /** One call of the hook, on a manager that has seen calls before. */
  lemma HookTurn(cfg: Config, s: Hopper, before: Hopper, fired: bool, over: bool, now: nat)
    requires |before.q.expires| == CHANNELS && !OfferLost(before) && s.radio.active
    requires before.radio == s.radio.(fallbackPending := fired)
    requires before.timers == s.timers.(holdUntil := if over then 0 else s.timers.holdUntil)
    ensures var after, now_over := Quiet(cfg, before, TxFailed(now)), over || !Holding(s.timers, now);
      && after.radio == s.radio.(fallbackPending := fired || (now_over && Silent(cfg, s.timers, now)))
      && after.timers == s.timers.(holdUntil := if now_over then 0 else s.timers.holdUntil)
      && !OfferLost(after)
  {
    assert Silent(cfg, before.timers, now) == Silent(cfg, s.timers, now);
    assert over ==> !Holding(before.timers, now);
    hide Silent, Holding;
  }

  // ---- A dead channel: a failure every millisecond ----

  function EveryMs(first: nat, n: nat): seq<nat> {
    seq(n, i requires 0 <= i < n => first + i)
  }

  predicate Readable(time: nat) { time % WORD != 0 }

  ghost predicate NoZeroReading(first: nat, n: nat) {
    forall time :: first <= time < first + n ==> Readable(time)
  }

  /** The hook is called once a window, counted from the first failure. */
  lemma {:induction false} CallsEveryWindow(first: nat, n: nat, limits: Limits)
    requires 0 < n && 1 < limits.windowMs && NoZeroReading(first, n)
    ensures Anchor(EveryMs(first, n), limits) == (n - 1) - (n - 1) % limits.windowMs
    ensures CallsLast(EveryMs(first, n), limits) <==> n > 1 && (n - 1) % limits.windowMs == 0
  {
    var w := limits.windowMs;
    if n == 1 {
      ModSmall(0, w);
    } else {
      CallsEveryWindow(first, n - 1, limits);
      assert Front(EveryMs(first, n)) == EveryMs(first, n - 1);
      NextMultiple(n - 2, w);
      assert Readable(first + (n - 2 - (n - 2) % w));
      hide NoZeroReading;
    }
  }

  lemma NextMultiple(m: nat, w: nat)
    requires 1 < w
    ensures 0 <= m - m % w && m % w < w
    ensures (m + 1) % w == 0 <==> m % w + 1 >= w
    ensures (m + 1) - (m + 1) % w == if m % w + 1 >= w then m + 1 else m - m % w
  {
    ModStep(m, 1, w);
    DivModDecompose(m, w);
    MulNonNegative(m / w, w);
  }

  /** The defaults: 330 ms of silence, a cooldown of 360 ms, a window of 85 ms. */
  predicate Defaults(cfg: Config, limits: Limits) {
    cfg.fallbackMs == 330 && cfg.cooldownMs == 360 && limits.windowMs == 85
  }

  /** Some multiple of the window after a first failure `d` ms into the cooldown falls in its
    * last 30 ms. */
  predicate Reaches(d: nat) {
    d < 275 && (d % 85 < 20 || d % 85 >= 75)
  }

  lemma {:induction false} FiredByCall(cfg: Config, t: Timers, at: nat, first: nat, n: nat, limits: Limits)
    requires Defaults(cfg, limits) && t.holdUntil == 0 && at <= first && NoZeroReading(first, n)
    requires at % WORD != 0 && (at + 360) % WORD != 0
    ensures Fired(cfg, t, at, EveryMs(first, n), limits) <==>
      exists i :: 0 < i < n && i % 85 == 0 && 330 <= first - at + i < 360
  {
    if n > 0 {
      FiredByCall(cfg, t, at, first, n - 1, limits);
      CallsEveryWindow(first, n, limits);
      assert Front(EveryMs(first, n)) == EveryMs(first, n - 1);
      if i :| 0 < i < n && i % 85 == 0 && 330 <= first - at + i < 360 {
        assert i < n - 1 || i == n - 1;
      }
    }
  }

  /** With the default delays and a channel that is dead from some millisecond after the hop,
    * the fallback fires within the cooldown for 30 of every 85 phases of that first failure
    * only: the hook is called once a window, and its window is shorter than that. */
  lemma DefaultReach(cfg: Config, s: Hopper, t: Timers, kind: Kind, target: nat, at: nat, first: nat, n: nat,
                     limits: Limits, pick: nat, now: nat)
    requires Defaults(cfg, limits) && JustHopped(cfg, s, t, kind, target, at) && s.timers.holdUntil == 0
    requires at <= first && at + 360 <= first + n < at + HALF && NoZeroReading(first, n)
    requires at % WORD != 0 && (at + 360) % WORD != 0
    ensures GoesHome(cfg, AfterHooks(cfg, s, EveryMs(first, n), limits), pick, now) <==>
      target != cfg.rendezvous && Reaches(first - at)
  {
    FallbackFires(cfg, s, t, kind, target, at, EveryMs(first, n), limits, pick, now);
    FiredByCall(cfg, s.timers, at, first, n, limits);
    ReachedMultiple(first - at, n);
  }

  lemma ReachedMultiple(d: nat, n: nat)
    requires 360 <= d + n
    ensures Reaches(d) <==> exists i :: 0 < i < n && i % 85 == 0 && 330 <= d + i < 360
  {
    if Reaches(d) {
      var i := if d % 85 < 20 then 340 - (d / 85) * 85 else 255 - (d / 85) * 85;
      assert 0 < i < n && i % 85 == 0 && 330 <= d + i < 360;
    }
  }
}
