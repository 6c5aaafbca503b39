/** src/esb/hid_relay.c over the transport: key events become reports, and the host
  * converges to the local key state through any losses. */
module HidRelay {
  import opened Packets
  import opened Link
  import opened Convergence
  import opened Parking
  import opened Replay
  import opened Modifiers
  import opened KeySlots
  import opened Transport
  import opened Lane

  /** HID usage numbers are 16 bits wide. */
  type Usage = n: nat | n < 0x10000

  datatype Page = KeyPage | ConsumerPage | OtherPage

  datatype KeyEvent = KeyEvent(page: Page, usage: Usage, pressed: bool,
                               explicitMods: set<nat>, implicitMods: set<nat>)

  const LEFT_CONTROL: nat := 0xE0

  predicate IsModifier(ev: KeyEvent) {
    ev.page.KeyPage? && LEFT_CONTROL <= ev.usage < LEFT_CONTROL + BITS
  }

  /** Everything the reports are made from. */
  datatype Local = Local(explicit: Mods, implicit: Mods, keys: seq<nat>, cons: seq<nat>)

  predicate WellCounted(h: Local) {
    |h.explicit.count| == BITS && |h.implicit.count| == BITS
  }

  function Count(m: Mods, mods: set<nat>, pressed: bool): (after: Mods)
    requires |m.count| == BITS
    ensures |after.count| == BITS
  {
    if pressed then Inc(m, mods) else Dec(m, mods)
  }

  function CountBoth(h: Local, ev: KeyEvent): Local
    requires WellCounted(h)
  {
    h.(explicit := Count(h.explicit, ev.explicitMods, ev.pressed),
       implicit := Count(h.implicit, ev.implicitMods, ev.pressed))
  }

  /** The local state after an event; it is tracked whether or not the session is active.
    * The keyboard report's slots are bytes. */
  function AfterEvent(h: Local, ev: KeyEvent): (after: Local)
    requires WellCounted(h)
    ensures WellCounted(after)
  {
    match ev.page
    case KeyPage =>
      if IsModifier(ev) then
        h.(explicit := Count(h.explicit, {ev.usage - LEFT_CONTROL}, ev.pressed))
      else
        CountBoth(h.(keys := if ev.pressed then Press(h.keys, ev.usage % 0x100)
                             else Release(h.keys, ev.usage % 0x100)), ev)
    case ConsumerPage =>
      CountBoth(h.(cons := if ev.pressed then Press(h.cons, ev.usage) else Release(h.cons, ev.usage)), ev)
    case OtherPage => h
  }

  function KeyboardReport(h: Local): Payload {
    Hid(Keyboard(h.explicit.mask + h.implicit.mask, h.keys))
  }

  function ConsumerReport(h: Local): Payload {
    Hid(Consumer(h.cons))
  }

  predicate WantsKeyboard(ev: KeyEvent) {
    ev.page.KeyPage? || (ev.page.ConsumerPage? && (ev.explicitMods != {} || ev.implicitMods != {}))
  }

  /** The relay and the link under it. `kbLive` and `consLive`: a report of the kind
    * has been offered since the session last became active. */
  datatype Relay = Relay(link: State, local: Local, kbQueue: seq<Payload>, consQueue: seq<Payload>,
                         active: bool, wasActive: bool, kbLive: bool, consLive: bool)

  datatype Depths = Depths(kb: nat, cons: nat)

  /** What can happen: an event of the radio or of another sender, a key event, the
    * resync worker, the retry worker, a change of session. The gaps say what happens
    * between the sends of that step. */
  datatype Move =
    | Outside(step: Step)
    | Key(ev: KeyEvent, kbGaps: seq<Gap>, consGaps: seq<Gap>)
    | Resync(before: seq<Step>, kbGaps: seq<Gap>, consGaps: seq<Gap>)
    | Retry(kbGaps: seq<Gap>, consGaps: seq<Gap>)
    | Session(active: bool)

  function OfferKeyboard(r: Relay, gaps: seq<Gap>, depths: Depths): Relay {
    var o := Offer(r.link, r.kbQueue, KeyboardReport(r.local), gaps, depths.kb);
    r.(link := o.link, kbQueue := o.queue, kbLive := true)
  }

  function OfferConsumer(r: Relay, gaps: seq<Gap>, depths: Depths): Relay {
    var o := Offer(r.link, r.consQueue, ConsumerReport(r.local), gaps, depths.cons);
    r.(link := o.link, consQueue := o.queue, consLive := true)
  }

  function OfferBoth(r: Relay, wantKb: bool, wantCons: bool, kbGaps: seq<Gap>, consGaps: seq<Gap>, depths: Depths): Relay {
    var r1 := if wantKb then OfferKeyboard(r, kbGaps, depths) else r;
    if wantCons then OfferConsumer(r1, consGaps, depths) else r1
  }

  /** The queues are cleared when the session has ended; the event is tracked all the same. */
  function Track(r: Relay, ev: KeyEvent): Relay
    requires WellCounted(r.local)
  {
    var r0 := if r.wasActive && !r.active then r.(kbQueue := [], consQueue := []) else r;
    r0.(wasActive := r.active, local := AfterEvent(r.local, ev))
  }

  /** `hid_relay_cb` */
  function OnKey(r: Relay, ev: KeyEvent, kbGaps: seq<Gap>, consGaps: seq<Gap>, depths: Depths): Relay
    requires WellCounted(r.local)
  {
    var r1 := Track(r, ev);
    if !r.active then r1 else OfferBoth(r1, WantsKeyboard(ev), ev.page.ConsumerPage?, kbGaps, consGaps, depths)
  }

  /** `hid_resync_work_fn` and `hid_resync_cb`; callbacks registered earlier may send `before`,
    * after the mask was taken. */
  function OnResync(r: Relay, before: seq<Step>, kbGaps: seq<Gap>, consGaps: seq<Gap>, depths: Depths): Relay {
    var kinds := r.link.resync;
    var r0 := r.(link := Run(r.link.(resync := {}), before));
    if !r.active then r0.(kbLive := false, consLive := false)
    else OfferBoth(r0, KB in kinds, CONS in kinds, kbGaps, consGaps, depths)
  }

  /** `hid_retry_work_fn` */
  function OnRetry(r: Relay, kbGaps: seq<Gap>, consGaps: seq<Gap>, depths: Depths): Relay {
    if Quiet(r.link) then r else
      var kb := Drain(r.link, r.kbQueue, [], kbGaps, depths.kb);
      var cons := Drain(kb.link, r.consQueue, [], consGaps, depths.cons);
      r.(link := cons.link, kbQueue := kb.queue, consQueue := cons.queue)
  }

  /** The retry worker asks for another round. */
  function RetryAgain(r: Relay, kbGaps: seq<Gap>, consGaps: seq<Gap>, depths: Depths): bool {
    Quiet(r.link) ||
      var kb := Drain(r.link, r.kbQueue, [], kbGaps, depths.kb);
      kb.again || Drain(kb.link, r.consQueue, [], consGaps, depths.cons).again
  }

  function Moved(r: Relay, move: Move, depths: Depths): Relay
    requires WellCounted(r.local)
  {
    match move
    case Outside(step) => r.(link := Apply(r.link, step))
    case Key(ev, kbGaps, consGaps) => OnKey(r, ev, kbGaps, consGaps, depths)
    case Resync(before, kbGaps, consGaps) => OnResync(r, before, kbGaps, consGaps, depths)
    case Retry(kbGaps, consGaps) => OnRetry(r, kbGaps, consGaps, depths)
    case Session(active) =>
      r.(active := active, kbLive := r.kbLive && active, consLive := r.consLive && active)
  }

  function Play(r: Relay, moves: seq<Move>, depths: Depths): Relay
    requires WellCounted(r.local)
    decreases |moves|
  {
    if moves == [] then r else
      var r1 := Moved(r, moves[0], depths);
      MovedWellCounted(r, moves[0], depths);
      Play(r1, moves[1..], depths)
  }

  lemma MovedWellCounted(r: Relay, move: Move, depths: Depths)
    requires WellCounted(r.local)
    ensures WellCounted(Moved(r, move, depths).local)
  {
    hide Offer, Drain, Run, Quiet, Apply;
    hide AfterEvent;
  }

  // ---- Convergence ----

  /** Only the relay sends keyboard and consumer reports, one call at a time. */
  ghost predicate OnlyRelay(gaps: seq<Gap>) {
    Unparked(gaps) && ForeignGaps(KB, gaps) && ForeignGaps(CONS, gaps)
  }

  ghost predicate Fair(move: Move) {
    match move
    case Outside(step) => step.Send? ==> ReportKind(step.packet) !in {KB, CONS}
    case Key(_, kbGaps, consGaps) => OnlyRelay(kbGaps) && OnlyRelay(consGaps)
    case Resync(before, kbGaps, consGaps) =>
      Foreign(KB, before) && Foreign(CONS, before) && OnlyRelay(kbGaps) && OnlyRelay(consGaps)
    case Retry(kbGaps, consGaps) => OnlyRelay(kbGaps) && OnlyRelay(consGaps)
    case Session(_) => true
  }

  ghost predicate Settled(r: Relay, depths: Depths) {
    && Inv(r.link) && 0 < r.link.cfg.fifoSize < 256 && 0 < depths.kb && 0 < depths.cons
    && WellCounted(r.local)
    && OfKind(KB, r.kbQueue) && |r.kbQueue| <= depths.kb
    && OfKind(CONS, r.consQueue) && |r.consQueue| <= depths.cons
    && (r.kbLive || r.consLive ==> r.active)
  }

  /** The keyboard, and likewise the consumer keys: a resync is due, or the last
    * report heard, queued or parked is the local state. */
  ghost predicate HostFollows(r: Relay) {
    && (r.kbLive ==> Converging(KB, r.link, r.kbQueue, KeyboardReport(r.local)))
    && (r.consLive ==> Converging(CONS, r.link, r.consQueue, ConsumerReport(r.local)))
  }

  ghost predicate RelayInv(r: Relay, depths: Depths) {
    Settled(r, depths) && HostFollows(r)
  }

  lemma OnlyRelayExclusive(gaps: seq<Gap>)
    requires OnlyRelay(gaps)
    ensures Exclusive(KB, gaps) && Exclusive(CONS, gaps) && Unparked(gaps)
    ensures ForeignGaps(KB, gaps) && ForeignGaps(CONS, gaps)
  {
  }

  lemma OfferKeyboardKeeps(r: Relay, gaps: seq<Gap>, depths: Depths)
    requires Settled(r, depths) && r.active && OnlyRelay(gaps)
    requires r.consLive ==> Converging(CONS, r.link, r.consQueue, ConsumerReport(r.local))
    ensures RelayInv(OfferKeyboard(r, gaps, depths), depths)
  {
    hide Offer, Inv, Converging;
    OnlyRelayExclusive(gaps);
    OfferConverges(KB, r.link, r.kbQueue, KeyboardReport(r.local), gaps, depths.kb);
    if r.consLive {
      OtherOfferConverges(CONS, KB, r.link, r.kbQueue, KeyboardReport(r.local), gaps, depths.kb,
                          r.consQueue, ConsumerReport(r.local));
    }
  }

  lemma OfferConsumerKeeps(r: Relay, gaps: seq<Gap>, depths: Depths)
    requires Settled(r, depths) && r.active && OnlyRelay(gaps)
    requires r.kbLive ==> Converging(KB, r.link, r.kbQueue, KeyboardReport(r.local))
    ensures RelayInv(OfferConsumer(r, gaps, depths), depths)
  {
    hide Offer, Inv, Converging;
    OnlyRelayExclusive(gaps);
    OfferConverges(CONS, r.link, r.consQueue, ConsumerReport(r.local), gaps, depths.cons);
    if r.kbLive {
      OtherOfferConverges(KB, CONS, r.link, r.consQueue, ConsumerReport(r.local), gaps, depths.cons,
                          r.kbQueue, KeyboardReport(r.local));
    }
  }

  /** An event that asks for no keyboard report leaves the keyboard report alone. */
  lemma NoNewsForKeyboard(h: Local, ev: KeyEvent)
    requires WellCounted(h) && !WantsKeyboard(ev)
    ensures KeyboardReport(AfterEvent(h, ev)) == KeyboardReport(h)
  {
    CountingNothing(h.explicit, ev.pressed);
    CountingNothing(h.implicit, ev.pressed);
  }

  lemma CountingNothing(m: Mods, pressed: bool)
    requires |m.count| == BITS
    ensures Count(m, {}, pressed).mask == m.mask
  {
  }

  lemma NoNewsForConsumer(h: Local, ev: KeyEvent)
    requires WellCounted(h) && !ev.page.ConsumerPage?
    ensures ConsumerReport(AfterEvent(h, ev)) == ConsumerReport(h)
  {
  }

  lemma KeyKeeps(r: Relay, ev: KeyEvent, kbGaps: seq<Gap>, consGaps: seq<Gap>, depths: Depths)
    requires RelayInv(r, depths) && OnlyRelay(kbGaps) && OnlyRelay(consGaps)
    ensures RelayInv(OnKey(r, ev, kbGaps, consGaps, depths), depths)
  {
    hide Offer, Inv, Converging, OnlyRelay, AfterEvent;
    var r1 := Track(r, ev);
    if r.active {
      if !WantsKeyboard(ev) {
        NoNewsForKeyboard(r.local, ev);
      }
      if !ev.page.ConsumerPage? {
        NoNewsForConsumer(r.local, ev);
      }
      if WantsKeyboard(ev) {
        KeyboardThenConsumer(r1, ev.page.ConsumerPage?, kbGaps, consGaps, depths);
      } else if ev.page.ConsumerPage? {
        OfferConsumerKeeps(r1, consGaps, depths);
      }
    }
  }

  /** A keyboard offer refreshes the keyboard; a consumer offer after it refreshes both. */
  lemma KeyboardThenConsumer(r: Relay, both: bool, kbGaps: seq<Gap>, consGaps: seq<Gap>, depths: Depths)
    requires Settled(r, depths) && r.active && OnlyRelay(kbGaps) && OnlyRelay(consGaps)
    requires !both && r.consLive ==> Converging(CONS, r.link, r.consQueue, ConsumerReport(r.local))
    ensures var r1 := OfferKeyboard(r, kbGaps, depths);
      RelayInv(if both then OfferConsumer(r1, consGaps, depths) else r1, depths)
  {
    hide Offer, Inv, Converging, OnlyRelay;
    var r1 := OfferKeyboard(r, kbGaps, depths);
    if both {
      OfferKeyboardKeeps(r.(consLive := false), kbGaps, depths);
      OfferConsumerKeeps(r1, consGaps, depths);
    } else {
      OfferKeyboardKeeps(r, kbGaps, depths);
    }
  }

  /** Taking the mask, and what others do on the link then, hides no kind that was not due. */
  lemma TakenKeeps(r: Relay, before: seq<Step>, depths: Depths)
    requires RelayInv(r, depths) && Foreign(KB, before) && Foreign(CONS, before)
    ensures var r0 := r.(link := Run(r.link.(resync := {}), before));
      && Settled(r0, depths)
      && (r.kbLive && KB !in r.link.resync ==> Converging(KB, r0.link, r0.kbQueue, KeyboardReport(r0.local)))
      && (r.consLive && CONS !in r.link.resync ==> Converging(CONS, r0.link, r0.consQueue, ConsumerReport(r0.local)))
  {
    hide Run;
    var cleared := r.link.(resync := {});
    forall axis ensures MotionConservedOn(cleared, axis) {
      assert MotionConservedOn(r.link, axis);
    }
    assert Inv(cleared) && Trail(cleared) == Trail(r.link);
    hide Inv;
    RunKeepsInv(cleared, before);
    if r.kbLive && KB !in r.link.resync {
      RunConverges(KB, cleared, before, r.kbQueue, KeyboardReport(r.local));
    }
    if r.consLive && CONS !in r.link.resync {
      RunConverges(CONS, cleared, before, r.consQueue, ConsumerReport(r.local));
    }
  }

  /** Taking the mask is safe because every kind it named is offered again. */
  lemma ResyncKeeps(r: Relay, before: seq<Step>, kbGaps: seq<Gap>, consGaps: seq<Gap>, depths: Depths)
    requires RelayInv(r, depths) && Foreign(KB, before) && Foreign(CONS, before) && OnlyRelay(kbGaps) && OnlyRelay(consGaps)
    ensures RelayInv(OnResync(r, before, kbGaps, consGaps, depths), depths)
  {
    hide Offer, Inv, OnlyRelay, Run, Converging;
    var kinds := r.link.resync;
    var r0 := r.(link := Run(r.link.(resync := {}), before));
    TakenKeeps(r, before, depths);
    if r.active {
      if KB in kinds {
        KeyboardThenConsumer(r0, CONS in kinds, kbGaps, consGaps, depths);
      } else if CONS in kinds {
        OfferConsumerKeeps(r0, consGaps, depths);
      }
    }
  }

  lemma ReplayOne(k: Kind, j: Kind, s: State, queue: seq<Payload>, gaps: seq<Gap>, depth: nat,
                  live: bool, current: Payload, otherLive: bool, otherQueue: seq<Payload>, other: Payload)
    requires Inv(s) && s.cfg.fifoSize < 256 && OnlyRelay(gaps)
    requires k != j && {k, j} == {KB, CONS} && OfKind(k, queue) && 0 < depth
    requires live ==> Converging(k, s, queue, current)
    requires otherLive ==> Converging(j, s, otherQueue, other)
    ensures var d := Drain(s, queue, [], gaps, depth);
      && Inv(d.link) && d.link.cfg == s.cfg && OfKind(k, d.queue) && |d.queue| <= depth
      && (live ==> Converging(k, d.link, d.queue, current))
      && (otherLive ==> Converging(j, d.link, otherQueue, other))
  {
    hide Inv, Converging, Drain;
    OnlyRelayExclusive(gaps);
    DrainKeeps(k, s, queue, [], gaps, depth);
    if live {
      assert queue + [] == queue;
      DrainConverges(k, s, queue, [], gaps, depth, current);
      UnparkedNone(gaps, Turns(Drain(s, queue, [], gaps, depth)));
    }
    if otherLive {
      OtherDrainConverges(j, k, s, queue, [], gaps, depth, otherQueue, other);
    }
  }

  lemma RetryKeeps(r: Relay, kbGaps: seq<Gap>, consGaps: seq<Gap>, depths: Depths)
    requires RelayInv(r, depths) && OnlyRelay(kbGaps) && OnlyRelay(consGaps)
    ensures RelayInv(OnRetry(r, kbGaps, consGaps, depths), depths)
  {
    hide Drain, Inv, Converging, OnlyRelay, Quiet;
    if !Quiet(r.link) {
      var kb, cons := KeyboardReport(r.local), ConsumerReport(r.local);
      ReplayOne(KB, CONS, r.link, r.kbQueue, kbGaps, depths.kb, r.kbLive, kb, r.consLive, r.consQueue, cons);
      var d := Drain(r.link, r.kbQueue, [], kbGaps, depths.kb);
      ReplayOne(CONS, KB, d.link, r.consQueue, consGaps, depths.cons, r.consLive, cons, r.kbLive, d.queue, kb);
    }
  }

  /** Another round is asked for if and only if the link was quiet or a report is still parked. */
  lemma RetryAgainExact(r: Relay, kbGaps: seq<Gap>, consGaps: seq<Gap>, depths: Depths)
    requires Settled(r, depths) && OnlyRelay(kbGaps) && OnlyRelay(consGaps)
    ensures var t := OnRetry(r, kbGaps, consGaps, depths);
      RetryAgain(r, kbGaps, consGaps, depths) <==> Quiet(r.link) || t.kbQueue != [] || t.consQueue != []
  {
    hide Drain, Inv, Quiet;
    var kb := Drain(r.link, r.kbQueue, [], kbGaps, depths.kb);
    RefusedIffParked(r.link, r.kbQueue, kbGaps, depths.kb);
    RefusedIffParked(kb.link, r.consQueue, consGaps, depths.cons);
  }

  lemma OutsideKeeps(r: Relay, step: Step, depths: Depths)
    requires RelayInv(r, depths) && Fair(Outside(step))
    ensures RelayInv(r.(link := Apply(r.link, step)), depths)
  {
    hide Apply, Converging;
    ApplyKeepsInv(r.link, step);
    if r.kbLive {
      ApplyConverges(KB, r.link, step, r.kbQueue, KeyboardReport(r.local));
    }
    if r.consLive {
      ApplyConverges(CONS, r.link, step, r.consQueue, ConsumerReport(r.local));
    }
  }

  /** Over every run: keys, failures, flushes, hops, side-trips, quiet windows, queue
    * overruns and session changes in any order keep the host following. */
  lemma {:induction false} PlayFollows(r: Relay, moves: seq<Move>, depths: Depths)
    requires RelayInv(r, depths)
    requires forall move :: move in moves ==> Fair(move)
    ensures RelayInv(Play(r, moves, depths), depths)
    decreases |moves|
  {
    if moves != [] {
      hide OnKey, OnResync, OnRetry, Apply, HostFollows;
      assert Fair(moves[0]);
      match moves[0] {
        case Outside(step) => OutsideKeeps(r, step, depths);
        case Key(ev, kbGaps, consGaps) => KeyKeeps(r, ev, kbGaps, consGaps, depths);
        case Resync(before, kbGaps, consGaps) => ResyncKeeps(r, before, kbGaps, consGaps, depths);
        case Retry(kbGaps, consGaps) => RetryKeeps(r, kbGaps, consGaps, depths);
        case Session(active) => SessionKeeps(r, active, depths);
      }
      PlayFollows(Moved(r, moves[0], depths), moves[1..], depths);
    }
  }

  lemma SessionKeeps(r: Relay, active: bool, depths: Depths)
    requires RelayInv(r, depths)
    ensures RelayInv(Moved(r, Session(active), depths), depths)
  {
  }

  /** Nothing of the relay's is left on the way to the host. */
  predicate Idle(r: Relay) {
    Outstanding(r.link) == [] && r.kbQueue == [] && r.consQueue == [] && r.link.resync == {}
  }

  /** Once everything has drained, the last keyboard report the host heard is the
    * local state: the keys down and the explicit and implicit modifiers held. */
  lemma HostConverges(r: Relay, moves: seq<Move>, depths: Depths)
    requires RelayInv(r, depths)
    requires forall move :: move in moves ==> Fair(move)
    ensures var t := Play(r, moves, depths);
      && (Idle(t) && t.kbLive ==> LastOf(KB, t.link.host) == Some(KeyboardReport(t.local)))
      && (Idle(t) && t.consLive ==> LastOf(CONS, t.link.host) == Some(ConsumerReport(t.local)))
  {
    hide Play;
    PlayFollows(r, moves, depths);
    var t := Play(r, moves, depths);
    if Idle(t) {
      assert Trail(t.link) + [] == t.link.host;
    }
  }

  function PoweredOn(link: State, keySlots: nat, consSlots: nat): Relay {
    Relay(link, Local(NONE_HELD, NONE_HELD, seq(keySlots, _ => 0), seq(consSlots, _ => 0)),
          [], [], false, false, false, false)
  }

  lemma PoweredOnFollows(cfg: Config, count: nat, channel: nat, clock: nat,
                         keySlots: nat, consSlots: nat, depths: Depths)
    requires 0 < cfg.fifoSize < 256 && 0 < depths.kb && 0 < depths.cons
    ensures RelayInv(PoweredOn(Fresh(cfg, count, channel, clock), keySlots, consSlots), depths)
  {
  }

  /** Why one call at a time: a second context that sends a newer report directly
    * between two sends of a drain is overtaken by the older snapshot. Nothing is
    * lost, yet the host ends on the older report. */
  lemma OvertakenReport(s: State, older: Payload, newer: Payload, depth: nat)
    requires s == Fresh(s.cfg, s.steady, s.channel, s.clock) && s.cfg.fifoSize >= 2
    requires ReportKind(older) == KB && ReportKind(newer) == KB && older != newer
    ensures var d := Drain(s, [older], [], [Gap([Send(newer)], [])], depth);
      var t := Apply(Apply(d.link, Success), Success);
      && !d.again && d.queue == [] && Outstanding(t) == [] && t.resync == {}
      && t.host == [newer, older] && LastOf(KB, t.host) == Some(older)
  {
    var s1 := SendPacket(s, newer).0;
    assert Run(s, [Send(newer)]) == Run(s1, []) == s1;
    assert s1.fifo == [newer];
    var s2 := SendPacket(s1, older).0;
    assert s2.fifo == [newer, older];
    var t1 := Apply(s2, Success);
    assert t1.host == [newer] && t1.fifo == [older];
    var t := Apply(t1, Success);
    assert t.host == [newer, older];
  }

  // ---- The module as written ----

  /** Modifier counters and report bodies. */
  class LocalState {
    const explicit: Counter
    const implicit: Counter
    const kbKeys: Slots
    const consKeys: Slots

    constructor (keySlots: nat, consSlots: nat)
      ensures Valid() && fresh(Parts())
      ensures View() == Local(NONE_HELD, NONE_HELD, seq(keySlots, _ => 0), seq(consSlots, _ => 0))
    {
      explicit := new Counter();
      implicit := new Counter();
      kbKeys := new Slots(keySlots);
      consKeys := new Slots(consSlots);
    }

    ghost function Parts(): set<object> {
      {explicit, explicit.rc, implicit, implicit.rc, kbKeys.keys, consKeys.keys}
    }

    ghost predicate Valid()
      reads Parts()
    {
      && explicit.Valid() && implicit.Valid()
      && explicit != implicit && explicit.rc != implicit.rc && kbKeys.keys != consKeys.keys
      && {kbKeys.keys, consKeys.keys} !! {explicit.rc, implicit.rc}
    }

    ghost function View(): Local
      reads Parts()
    {
      Local(explicit.View(), implicit.View(), kbKeys.keys[..], consKeys.keys[..])
    }

    method KeyboardSnapshot() returns (p: Payload)
      ensures p == KeyboardReport(View())
    {
      p := Hid(Keyboard(explicit.out + implicit.out, kbKeys.keys[..]));
    }

    method ConsumerSnapshot() returns (p: Payload)
      ensures p == ConsumerReport(View())
    {
      p := Hid(Consumer(consKeys.keys[..]));
    }

    method CountMods(ev: KeyEvent)
      requires Valid()
      modifies explicit, explicit.rc, implicit, implicit.rc
      ensures Valid()
      ensures WellCounted(old(View())) && View() == CountBoth(old(View()), ev)
    {
      if ev.pressed {
        explicit.ModsInc(ev.explicitMods);
        implicit.ModsInc(ev.implicitMods);
      } else {
        explicit.ModsDec(ev.explicitMods);
        implicit.ModsDec(ev.implicitMods);
      }
    }

    /** The switch of `hid_relay_cb` over the usage page. */
    method TrackEvent(ev: KeyEvent) returns (wantKb: bool, wantCons: bool)
      requires Valid()
      modifies Parts()
      ensures Valid()
      ensures WellCounted(old(View())) && View() == AfterEvent(old(View()), ev)
      ensures wantKb == WantsKeyboard(ev) && wantCons == ev.page.ConsumerPage?
    {
      wantKb, wantCons := false, false;
      match ev.page
      case KeyPage =>
        if IsModifier(ev) {
          if ev.pressed {
            explicit.ModsInc({ev.usage - LEFT_CONTROL});
          } else {
            explicit.ModsDec({ev.usage - LEFT_CONTROL});
          }
        } else {
          if ev.pressed {
            kbKeys.KeysPress(ev.usage % 0x100);
          } else {
            kbKeys.KeysRelease(ev.usage % 0x100);
          }
          CountMods(ev);
        }
        wantKb := true;
      case ConsumerPage =>
        if ev.pressed {
          consKeys.KeysPress(ev.usage);
        } else {
          consKeys.KeysRelease(ev.usage);
        }
        CountMods(ev);
        wantKb := ev.explicitMods != {} || ev.implicitMods != {};
        wantCons := true;
      case OtherPage =>
    }
  }

  class HidRelayModule {
    const link: EsbTransport
    const kb: ReportLane
    const cons: ReportLane
    const local: LocalState
    var wasActive: bool
    ghost var kbLive: bool
    ghost var consLive: bool

    /** The module's static objects, put together before the first event. */
    constructor (link: EsbTransport, kb: ReportLane, cons: ReportLane, local: LocalState)
      requires link.Valid() && kb.Valid() && cons.Valid() && local.Valid()
      requires kb.Queue() == [] && cons.Queue() == []
      requires Separate(link, kb, cons, local)
      requires local.View() == Local(NONE_HELD, NONE_HELD, seq(local.kbKeys.keys.Length, _ => 0),
                                     seq(local.consKeys.keys.Length, _ => 0))
      ensures Valid() && this.link == link && Depth() == Depths(kb.buf.Length, cons.buf.Length)
      ensures View(false) == PoweredOn(link.View(), local.kbKeys.keys.Length, local.consKeys.keys.Length)
    {
      hide EsbTransport.Valid;
      this.link, this.kb, this.cons, this.local := link, kb, cons, local;
      wasActive, kbLive, consLive := false, false, false;
    }

    /** No two parts share storage. */
    static ghost predicate Separate(link: EsbTransport, kb: ReportLane, cons: ReportLane, local: LocalState) {
      var lanes: set<object> := {kb, kb.buf, cons, cons.buf};
      && kb != cons && kb.buf != cons.buf
      && lanes !! local.Parts()
      && link !in lanes + local.Parts() && lanes + local.Parts() !! link.Parts()
    }

    ghost function Parts(): set<object> {
      {kb, kb.buf, cons, cons.buf} + local.Parts()
    }

    ghost predicate Apart() {
      && Separate(link, kb, cons, local)
      && this as object != link && this !in Parts() && this !in link.Parts()
    }

    ghost predicate Valid()
      reads this, Parts(), link, link.Parts()
    {
      link.Valid() && kb.Valid() && cons.Valid() && local.Valid() && Apart()
    }

    ghost function View(active: bool): Relay
      requires kb.Valid() && cons.Valid()
      reads this, Parts(), kb, cons, link
    {
      Relay(link.View(), local.View(), kb.Queue(), cons.Queue(), active, wasActive, kbLive, consLive)
    }

    function Depth(): Depths {
      Depths(kb.buf.Length, cons.buf.Length)
    }

    /** `send_keyboard` */
    method SendKeyboard(ghost active: bool, gaps: seq<Gap>)
      requires Valid()
      modifies this`kbLive, kb, kb.buf, link, link.Parts()
      ensures Valid() && View(active) == OfferKeyboard(old(View(active)), gaps, Depth())
    {
      hide EsbTransport.Valid, Offer;
      var snap := local.KeyboardSnapshot();
      kb.OfferReport(link, snap, gaps);
      kbLive := true;
    }

    /** `send_consumer` */
    method SendConsumer(ghost active: bool, gaps: seq<Gap>)
      requires Valid()
      modifies this`consLive, cons, cons.buf, link, link.Parts()
      ensures Valid() && View(active) == OfferConsumer(old(View(active)), gaps, Depth())
    {
      hide EsbTransport.Valid, Offer;
      var snap := local.ConsumerSnapshot();
      cons.OfferReport(link, snap, gaps);
      consLive := true;
    }

    /** The sends that end `hid_relay_cb` and `hid_resync_cb`. */
    method SendWanted(ghost active: bool, wantKb: bool, wantCons: bool, kbGaps: seq<Gap>, consGaps: seq<Gap>)
      requires Valid()
      modifies this`kbLive, this`consLive, kb, kb.buf, cons, cons.buf, link, link.Parts()
      ensures Valid() && View(active) == OfferBoth(old(View(active)), wantKb, wantCons, kbGaps, consGaps, Depth())
    {
      hide EsbTransport.Valid, Offer, OfferKeyboard, OfferConsumer;
      if wantKb {
        SendKeyboard(active, kbGaps);
      }
      if wantCons {
        SendConsumer(active, consGaps);
      }
    }

    /** The falling-edge cleanup of `hid_relay_cb` and its switch. */
    method TrackKey(ev: KeyEvent, active: bool) returns (wantKb: bool, wantCons: bool)
      requires Valid()
      modifies this`wasActive, Parts()
      ensures Valid() && WellCounted(old(local.View())) && View(active) == Track(old(View(active)), ev)
      ensures wantKb == WantsKeyboard(ev) && wantCons == ev.page.ConsumerPage?
    {
      hide EsbTransport.Valid, AfterEvent;
      if wasActive && !active {
        kb.count := 0;
        cons.count := 0;
      }
      wasActive := active;
      wantKb, wantCons := local.TrackEvent(ev);
    }

    /** `hid_relay_cb`; `active` is the endpoint being active and paired. */
    method OnKeyEvent(ev: KeyEvent, active: bool, kbGaps: seq<Gap>, consGaps: seq<Gap>)
      requires Valid()
      modifies this, Parts(), link, link.Parts()
      ensures Valid() && WellCounted(old(local.View()))
      ensures View(active) == OnKey(old(View(active)), ev, kbGaps, consGaps, Depth())
    {
      hide EsbTransport.Valid, OfferBoth, Track;
      var wantKb, wantCons := TrackKey(ev, active);
      if active {
        SendWanted(active, wantKb, wantCons, kbGaps, consGaps);
      }
    }

    /** `hid_resync_work_fn` calling `hid_resync_cb`, after the callbacks registered before it. */
    method OnResyncWork(active: bool, before: seq<Step>, kbGaps: seq<Gap>, consGaps: seq<Gap>)
      requires Valid()
      modifies this, Parts(), link, link.Parts()
      ensures Valid() && View(active) == OnResync(old(View(active)), before, kbGaps, consGaps, Depth())
    {
      hide EsbTransport.Valid, OfferBoth, Run;
      var kinds := link.TakeResync();
      link.PerformAll(before);
      if !active {
        kbLive, consLive := false, false;
        return;
      }
      SendWanted(active, KB in kinds, CONS in kinds, kbGaps, consGaps);
    }

    /** `hid_retry_work_fn`; the result asks for another round. */
    method OnRetryWork(ghost active: bool, kbGaps: seq<Gap>, consGaps: seq<Gap>) returns (reschedule: bool)
      requires Valid()
      modifies kb, kb.buf, cons, cons.buf, link, link.Parts()
      ensures Valid() && View(active) == OnRetry(old(View(active)), kbGaps, consGaps, Depth())
      ensures reschedule == RetryAgain(old(View(active)), kbGaps, consGaps, Depth())
    {
      hide EsbTransport.Valid, Drain, Quiet;
      var quiet := link.IsQuiet();
      if quiet {
        return true;
      }
      var _, kbParked := kb.DrainPending(link, kbGaps);
      var _, consParked := cons.DrainPending(link, consGaps);
      return kbParked || consParked;
    }
  }
}
