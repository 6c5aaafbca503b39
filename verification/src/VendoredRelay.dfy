/** The relay over the library as compiled in: the calls of `HidRelay`, with every radio event,
  * send and flush as the library makes them. Its promise to the host is kept in every state of
  * a run if and only if nothing it does not send itself hides a report. */
module VendoredRelay {
  import opened Packets
  import opened Link
  import opened Convergence
  import opened HidRelay
  import opened VendoredHost
  import opened VendoredReplay
  import HeldKeys
  import Parking
  import KeySlots
  import Replay
  import V = VendoredRadio

  /** The relay's variables beside the library's; `relay.link` is the library's link. */
  datatype Wired = Wired(v: V.Vendored, relay: Relay)

  function Over(v: V.Vendored, relay: Relay): Wired {
    Wired(v, relay.(link := v.link))
  }

  function WithKeyboard(w: Wired, gaps: seq<Gap>, depths: Depths): Wired {
    var o := Offer(w.v, w.relay.kbQueue, KeyboardReport(w.relay.local), gaps, depths.kb);
    Over(o.v, w.relay.(kbQueue := o.queue, kbLive := true))
  }

  function WithConsumer(w: Wired, gaps: seq<Gap>, depths: Depths): Wired {
    var o := Offer(w.v, w.relay.consQueue, ConsumerReport(w.relay.local), gaps, depths.cons);
    Over(o.v, w.relay.(consQueue := o.queue, consLive := true))
  }

  function WithBoth(w: Wired, wantKb: bool, wantCons: bool, kbGaps: seq<Gap>, consGaps: seq<Gap>, depths: Depths): Wired {
    var w1 := if wantKb then WithKeyboard(w, kbGaps, depths) else w;
    if wantCons then WithConsumer(w1, consGaps, depths) else w1
  }

  /** The resync worker has taken the mask and other callbacks have sent. */
  function MaskTaken(w: Wired, before: seq<Step>): Wired {
    Over(V.Play(w.v.(link := w.v.link.(resync := {})), before), w.relay)
  }

  function AfterKeyboardDrain(w: Wired, gaps: seq<Gap>, depths: Depths): Wired {
    var d := Drain(w.v, w.relay.kbQueue, [], gaps, depths.kb);
    Over(d.v, w.relay.(kbQueue := d.queue))
  }

  function AfterConsumerDrain(w: Wired, gaps: seq<Gap>, depths: Depths): Wired {
    var d := Drain(w.v, w.relay.consQueue, [], gaps, depths.cons);
    Over(d.v, w.relay.(consQueue := d.queue))
  }

  /** The calls of `HidRelay.Moved`. */
  function Moved(w: Wired, move: Move, depths: Depths): Wired
    requires WellCounted(w.relay.local)
  {
    match move
    case Outside(step) => Over(V.After(w.v, step), w.relay)
    case Key(ev, kbGaps, consGaps) =>
      var w1 := w.(relay := Track(w.relay, ev));
      if w.relay.active then WithBoth(w1, WantsKeyboard(ev), ev.page.ConsumerPage?, kbGaps, consGaps, depths) else w1
    case Resync(before, kbGaps, consGaps) =>
      var kinds, w0 := w.v.link.resync, MaskTaken(w, before);
      if w.relay.active then WithBoth(w0, KB in kinds, CONS in kinds, kbGaps, consGaps, depths)
      else w0.(relay := w0.relay.(kbLive := false, consLive := false))
    case Retry(kbGaps, consGaps) =>
      if Quiet(w.v.link) then w else AfterConsumerDrain(AfterKeyboardDrain(w, kbGaps, depths), consGaps, depths)
    case Session(active) =>
      w.(relay := w.relay.(active := active, kbLive := w.relay.kbLive && active, consLive := w.relay.consLive && active))
  }

  function Play(w: Wired, moves: seq<Move>, depths: Depths): Wired
    requires WellCounted(w.relay.local)
    decreases |moves|
  {
    if moves == [] then w else
      MovedTracks(w, moves[0], depths);
      Play(Moved(w, moves[0], depths), moves[1..], depths)
  }

  lemma MovedTracks(w: Wired, move: Move, depths: Depths)
    requires WellCounted(w.relay.local)
    ensures Moved(w, move, depths).relay.local == if move.Key? then AfterEvent(w.relay.local, move.ev) else w.relay.local
    ensures WellCounted(Moved(w, move, depths).relay.local)
  {
    hide AfterEvent, Offer, Drain, V.Play, V.After, Quiet;
  }

  // ---- The invariant of a call ----

  ghost predicate Sound(w: Wired, depths: Depths) {
    && V.Drifted(w.v) && w.relay.link == w.v.link && 0 < depths.kb && 0 < depths.cons && WellCounted(w.relay.local)
    && Replay.OfKind(KB, w.relay.kbQueue) && |w.relay.kbQueue| <= depths.kb
    && Replay.OfKind(CONS, w.relay.consQueue) && |w.relay.consQueue| <= depths.cons
    && (w.relay.kbLive || w.relay.consLive ==> w.relay.active)
  }

  ghost predicate KeyboardFollows(w: Wired) {
    w.relay.kbLive ==> Converging(KB, w.v.link, w.relay.kbQueue, KeyboardReport(w.relay.local))
  }

  ghost predicate ConsumerFollows(w: Wired) {
    w.relay.consLive ==> Converging(CONS, w.v.link, w.relay.consQueue, ConsumerReport(w.relay.local))
  }

  // ---- What a run of steps does to a report nobody sends meanwhile ----

  /** The steps hide nothing of the keyboard. */
  ghost predicate KeyboardSpared(w: Wired, steps: seq<Step>)
    requires V.Drifted(w.v)
  {
    w.relay.kbLive ==> AllSpare(KB, w.v, steps, w.relay.kbQueue, KeyboardReport(w.relay.local))
  }

  ghost predicate ConsumerSpared(w: Wired, steps: seq<Step>)
    requires V.Drifted(w.v)
  {
    w.relay.consLive ==> AllSpare(CONS, w.v, steps, w.relay.consQueue, ConsumerReport(w.relay.local))
  }

  /** In every state on the way the host still follows the keyboard. */
  ghost predicate KeyboardStays(w: Wired, steps: seq<Step>) {
    w.relay.kbLive ==> AlwaysConverging(KB, w.v, steps, w.relay.kbQueue, KeyboardReport(w.relay.local))
  }

  ghost predicate ConsumerStays(w: Wired, steps: seq<Step>) {
    w.relay.consLive ==> AlwaysConverging(CONS, w.v, steps, w.relay.consQueue, ConsumerReport(w.relay.local))
  }

  lemma KeyboardExactly(w: Wired, steps: seq<Step>)
    requires V.Drifted(w.v) && KeyboardFollows(w) && Foreign(KB, steps)
    ensures KeyboardStays(w, steps) <==> KeyboardSpared(w, steps)
    ensures KeyboardStays(w, steps) ==> KeyboardFollows(Over(V.Play(w.v, steps), w.relay))
  {
    hide V.Drifted, AllSpare, AlwaysConverging, Converging, V.Play;
    if w.relay.kbLive {
      ConvergesExactly(KB, w.v, steps, w.relay.kbQueue, KeyboardReport(w.relay.local));
      if KeyboardStays(w, steps) {
        AlwaysFinally(KB, w.v, steps, w.relay.kbQueue, KeyboardReport(w.relay.local));
      }
    }
  }

  lemma ConsumerExactly(w: Wired, steps: seq<Step>)
    requires V.Drifted(w.v) && ConsumerFollows(w) && Foreign(CONS, steps)
    ensures ConsumerStays(w, steps) <==> ConsumerSpared(w, steps)
    ensures ConsumerStays(w, steps) ==> ConsumerFollows(Over(V.Play(w.v, steps), w.relay))
  {
    hide V.Drifted, AllSpare, AlwaysConverging, Converging, V.Play;
    if w.relay.consLive {
      ConvergesExactly(CONS, w.v, steps, w.relay.consQueue, ConsumerReport(w.relay.local));
      if ConsumerStays(w, steps) {
        AlwaysFinally(CONS, w.v, steps, w.relay.consQueue, ConsumerReport(w.relay.local));
      }
    }
  }

  // ---- Offering both reports ----

  function KeyboardSteps(w: Wired, gaps: seq<Gap>, depths: Depths): seq<Step> {
    OfferSteps(w.v, w.relay.kbQueue, KeyboardReport(w.relay.local), gaps, depths.kb)
  }

  function ConsumerSteps(w: Wired, gaps: seq<Gap>, depths: Depths): seq<Step> {
    OfferSteps(w.v, w.relay.consQueue, ConsumerReport(w.relay.local), gaps, depths.cons)
  }

  /** The sends of one report hide nothing of the other, unless that is sent afterwards. */
  ghost predicate BothSpare(w: Wired, wantKb: bool, wantCons: bool, kbGaps: seq<Gap>, consGaps: seq<Gap>, depths: Depths)
    requires V.Drifted(w.v)
  {
    && (wantKb && !wantCons ==> ConsumerSpared(w, KeyboardSteps(w, kbGaps, depths)))
    && (wantCons ==>
          var w1 := if wantKb then WithKeyboard(w, kbGaps, depths) else w;
          V.Drifted(w1.v) && KeyboardSpared(w1, ConsumerSteps(w1, consGaps, depths)))
  }

  ghost predicate BothStay(w: Wired, wantKb: bool, wantCons: bool, kbGaps: seq<Gap>, consGaps: seq<Gap>, depths: Depths) {
    && (wantKb && !wantCons ==> ConsumerStays(w, KeyboardSteps(w, kbGaps, depths)))
    && (wantCons ==>
          var w1 := if wantKb then WithKeyboard(w, kbGaps, depths) else w;
          KeyboardStays(w1, ConsumerSteps(w1, consGaps, depths)))
  }

  lemma KeyboardOffered(w: Wired, gaps: seq<Gap>, depths: Depths)
    requires Sound(w, depths) && w.relay.active && OnlyRelay(gaps)
    ensures var w1, steps := WithKeyboard(w, gaps, depths), KeyboardSteps(w, gaps, depths);
      && Sound(w1, depths) && KeyboardFollows(w1) && Foreign(CONS, steps) && w1.v == V.Play(w.v, steps)
      && w1.relay == w.relay.(link := w1.v.link, kbQueue := w1.relay.kbQueue, kbLive := true)
  {
    hide V.Drifted, Offer, OfferSteps, Converging, V.Play;
    OnlyRelayExclusive(gaps);
    OfferShows(KB, w.v, w.relay.kbQueue, KeyboardReport(w.relay.local), gaps, depths.kb);
    OfferPlays(w.v, w.relay.kbQueue, KeyboardReport(w.relay.local), gaps, depths.kb);
    OfferForeign(CONS, KB, w.v, w.relay.kbQueue, KeyboardReport(w.relay.local), gaps, depths.kb);
  }

  lemma ConsumerOffered(w: Wired, gaps: seq<Gap>, depths: Depths)
    requires Sound(w, depths) && w.relay.active && OnlyRelay(gaps)
    ensures var w1, steps := WithConsumer(w, gaps, depths), ConsumerSteps(w, gaps, depths);
      && Sound(w1, depths) && ConsumerFollows(w1) && Foreign(KB, steps) && w1.v == V.Play(w.v, steps)
      && w1.relay == w.relay.(link := w1.v.link, consQueue := w1.relay.consQueue, consLive := true)
  {
    hide V.Drifted, Offer, OfferSteps, Converging, V.Play;
    OnlyRelayExclusive(gaps);
    OfferShows(CONS, w.v, w.relay.consQueue, ConsumerReport(w.relay.local), gaps, depths.cons);
    OfferPlays(w.v, w.relay.consQueue, ConsumerReport(w.relay.local), gaps, depths.cons);
    OfferForeign(KB, CONS, w.v, w.relay.consQueue, ConsumerReport(w.relay.local), gaps, depths.cons);
  }

  lemma BothExactly(w: Wired, wantKb: bool, wantCons: bool, kbGaps: seq<Gap>, consGaps: seq<Gap>, depths: Depths)
    requires Sound(w, depths) && w.relay.active && OnlyRelay(kbGaps) && OnlyRelay(consGaps)
    requires (!wantKb ==> KeyboardFollows(w)) && (!wantCons ==> ConsumerFollows(w))
    ensures var t := WithBoth(w, wantKb, wantCons, kbGaps, consGaps, depths);
      && Sound(t, depths)
      && (BothStay(w, wantKb, wantCons, kbGaps, consGaps, depths) <==> BothSpare(w, wantKb, wantCons, kbGaps, consGaps, depths))
      && (BothStay(w, wantKb, wantCons, kbGaps, consGaps, depths) ==> KeyboardFollows(t) && ConsumerFollows(t))
  {
    hide V.Drifted, WithKeyboard, WithConsumer, KeyboardSteps, ConsumerSteps, OnlyRelay,
      KeyboardSpared, ConsumerSpared, KeyboardStays, ConsumerStays, Converging, V.Play;
    var w1 := if wantKb then WithKeyboard(w, kbGaps, depths) else w;
    if wantKb {
      KeyboardOffered(w, kbGaps, depths);
      if !wantCons {
        ConsumerExactly(w, KeyboardSteps(w, kbGaps, depths));
      }
    }
    if wantCons {
      ConsumerOffered(w1, consGaps, depths);
      KeyboardExactly(w1, ConsumerSteps(w1, consGaps, depths));
    }
  }

  // ---- One call ----

  function Cleared(w: Wired): Wired {
    Over(w.v.(link := w.v.link.(resync := {})), w.relay)
  }

  function KeyboardDrain(w: Wired, gaps: seq<Gap>): seq<Step> { DrainSteps(w.v, w.relay.kbQueue, gaps) }

  function ConsumerDrain(w: Wired, gaps: seq<Gap>): seq<Step> { DrainSteps(w.v, w.relay.consQueue, gaps) }

  /** The condition, call by call: an event spares both reports; the sends of one report, and
    * what comes between them, spare the other; what others send between the taking of the
    * mask and the callback spares the reports that were not due. */
  ghost predicate MoveSpares(w: Wired, move: Move, depths: Depths)
    requires Sound(w, depths)
  {
    match move
    case Outside(step) => KeyboardSpared(w, [step]) && ConsumerSpared(w, [step])
    case Key(ev, kbGaps, consGaps) =>
      w.relay.active ==>
        BothSpare(w.(relay := Track(w.relay, ev)), WantsKeyboard(ev), ev.page.ConsumerPage?, kbGaps, consGaps, depths)
    case Resync(before, kbGaps, consGaps) =>
      w.relay.active ==>
        var kinds, w0 := w.v.link.resync, MaskTaken(w, before);
        && V.Drifted(Cleared(w).v) && V.Drifted(w0.v)
        && (KB !in kinds ==> KeyboardSpared(Cleared(w), before)) && (CONS !in kinds ==> ConsumerSpared(Cleared(w), before))
        && BothSpare(w0, KB in kinds, CONS in kinds, kbGaps, consGaps, depths)
    case Retry(kbGaps, consGaps) =>
      !Quiet(w.v.link) ==>
        var w1 := AfterKeyboardDrain(w, kbGaps, depths);
        ConsumerSpared(w, KeyboardDrain(w, kbGaps)) && V.Drifted(w1.v) && KeyboardSpared(w1, ConsumerDrain(w1, consGaps))
    case Session(_) => true
  }

  /** In every state of the call the host follows the reports that are not being sent. */
  ghost predicate MoveStays(w: Wired, move: Move, depths: Depths)
    requires WellCounted(w.relay.local)
  {
    match move
    case Outside(step) => KeyboardStays(w, [step]) && ConsumerStays(w, [step])
    case Key(ev, kbGaps, consGaps) =>
      w.relay.active ==>
        BothStay(w.(relay := Track(w.relay, ev)), WantsKeyboard(ev), ev.page.ConsumerPage?, kbGaps, consGaps, depths)
    case Resync(before, kbGaps, consGaps) =>
      w.relay.active ==>
        var kinds := w.v.link.resync;
        && (KB !in kinds ==> KeyboardStays(Cleared(w), before)) && (CONS !in kinds ==> ConsumerStays(Cleared(w), before))
        && BothStay(MaskTaken(w, before), KB in kinds, CONS in kinds, kbGaps, consGaps, depths)
    case Retry(kbGaps, consGaps) =>
      !Quiet(w.v.link) ==>
        var w1 := AfterKeyboardDrain(w, kbGaps, depths);
        ConsumerStays(w, KeyboardDrain(w, kbGaps)) && KeyboardStays(w1, ConsumerDrain(w1, consGaps))
    case Session(_) => true
  }

  /** What one call does: it keeps the shape, it follows throughout if and only if it spares,
    * and then the host follows both reports afterwards. */
  ghost predicate Exactly(w: Wired, move: Move, depths: Depths)
    requires Sound(w, depths)
  {
    var t := Moved(w, move, depths);
    && Sound(t, depths) && (MoveStays(w, move, depths) <==> MoveSpares(w, move, depths))
    && (MoveStays(w, move, depths) ==> KeyboardFollows(t) && ConsumerFollows(t))
  }

  lemma OutsideExactly(w: Wired, step: Step, depths: Depths)
    requires Sound(w, depths) && KeyboardFollows(w) && ConsumerFollows(w) && Fair(Outside(step))
    ensures Exactly(w, Outside(step), depths)
  {
    hide V.Drifted, V.After, KeyboardSpared, ConsumerSpared, KeyboardStays, ConsumerStays, Converging;
    V.ApplyDrifts(w.v, step);
    KeyboardExactly(w, [step]);
    ConsumerExactly(w, [step]);
    assert V.Play(w.v, [step]) == V.Play(V.After(w.v, step), []) == V.After(w.v, step);
  }

  lemma KeyExactly(w: Wired, ev: KeyEvent, kbGaps: seq<Gap>, consGaps: seq<Gap>, depths: Depths)
    requires Sound(w, depths) && KeyboardFollows(w) && ConsumerFollows(w) && OnlyRelay(kbGaps) && OnlyRelay(consGaps)
    ensures Exactly(w, Key(ev, kbGaps, consGaps), depths)
  {
    hide V.Drifted, AfterEvent, OnlyRelay, BothStay, BothSpare, WithBoth, Converging;
    var w1 := w.(relay := Track(w.relay, ev));
    if w.relay.active {
      if !WantsKeyboard(ev) { NoNewsForKeyboard(w.relay.local, ev); }
      if !ev.page.ConsumerPage? { NoNewsForConsumer(w.relay.local, ev); }
      BothExactly(w1, WantsKeyboard(ev), ev.page.ConsumerPage?, kbGaps, consGaps, depths);
    }
  }

  lemma ClearedKeeps(w: Wired, depths: Depths)
    requires Sound(w, depths)
    ensures Sound(Cleared(w), depths)
    ensures KB !in w.v.link.resync && KeyboardFollows(w) ==> KeyboardFollows(Cleared(w))
    ensures CONS !in w.v.link.resync && ConsumerFollows(w) ==> ConsumerFollows(Cleared(w))
  {
    assert Outstanding(Cleared(w).v.link) == Outstanding(w.v.link);
    assert Trail(Cleared(w).v.link) == Trail(w.v.link);
  }

  lemma TakenKeeps(w: Wired, before: seq<Step>, depths: Depths)
    requires Sound(w, depths)
    ensures Sound(MaskTaken(w, before), depths) && MaskTaken(w, before) == Over(V.Play(Cleared(w).v, before), Cleared(w).relay)
  {
    hide V.Drifted, V.Play;
    ClearedKeeps(w, depths);
    V.RunDrifts(Cleared(w).v, before);
  }

  lemma ResyncExactly(w: Wired, before: seq<Step>, kbGaps: seq<Gap>, consGaps: seq<Gap>, depths: Depths)
    requires Sound(w, depths) && KeyboardFollows(w) && ConsumerFollows(w)
    requires Foreign(KB, before) && Foreign(CONS, before) && OnlyRelay(kbGaps) && OnlyRelay(consGaps)
    ensures Exactly(w, Resync(before, kbGaps, consGaps), depths)
  {
    hide V.Drifted, V.Play, OnlyRelay, BothStay, BothSpare, WithBoth, MaskTaken, Cleared,
      KeyboardSpared, ConsumerSpared, KeyboardStays, ConsumerStays, Foreign, Converging;
    var kinds, w0 := w.v.link.resync, MaskTaken(w, before);
    TakenKeeps(w, before, depths);
    TakenRelay(w, before);
    if w.relay.active {
      ClearedKeeps(w, depths);
      if KB !in kinds { KeyboardExactly(Cleared(w), before); }
      if CONS !in kinds { ConsumerExactly(Cleared(w), before); }
      if (KB in kinds || KeyboardStays(Cleared(w), before)) && (CONS in kinds || ConsumerStays(Cleared(w), before)) {
        BothExactly(w0, KB in kinds, CONS in kinds, kbGaps, consGaps, depths);
      } else {
        BothSound(w0, KB in kinds, CONS in kinds, kbGaps, consGaps, depths);
      }
    }
  }

  lemma TakenRelay(w: Wired, before: seq<Step>)
    ensures MaskTaken(w, before).relay == w.relay.(link := MaskTaken(w, before).v.link)
    ensures Cleared(w).relay == w.relay.(link := Cleared(w).v.link)
  {
    hide V.Play;
  }

  lemma BothSound(w: Wired, wantKb: bool, wantCons: bool, kbGaps: seq<Gap>, consGaps: seq<Gap>, depths: Depths)
    requires Sound(w, depths) && w.relay.active && OnlyRelay(kbGaps) && OnlyRelay(consGaps)
    ensures Sound(WithBoth(w, wantKb, wantCons, kbGaps, consGaps, depths), depths)
  {
    hide V.Drifted, WithKeyboard, WithConsumer, OnlyRelay;
    if wantKb { KeyboardOffered(w, kbGaps, depths); }
    if wantCons { ConsumerOffered(if wantKb then WithKeyboard(w, kbGaps, depths) else w, consGaps, depths); }
  }

  lemma KeyboardDrained(w: Wired, gaps: seq<Gap>, depths: Depths)
    requires Sound(w, depths) && KeyboardFollows(w) && OnlyRelay(gaps)
    ensures var w1, steps := AfterKeyboardDrain(w, gaps, depths), KeyboardDrain(w, gaps);
      && Sound(w1, depths) && KeyboardFollows(w1) && Foreign(CONS, steps) && w1.v == V.Play(w.v, steps)
      && w1.relay == w.relay.(link := w1.v.link, kbQueue := w1.relay.kbQueue)
  {
    hide V.Drifted, Drain, DrainSteps, Converging, V.Play;
    OnlyRelayExclusive(gaps);
    var q := w.relay.kbQueue;
    DrainKeeps(KB, w.v, q, [], gaps, depths.kb);
    DrainPlays(w.v, q, [], gaps, depths.kb);
    DrainForeign(CONS, KB, w.v, q, gaps);
    if w.relay.kbLive {
      assert q + [] == q;
      DrainShows(KB, w.v, q, [], gaps, depths.kb, KeyboardReport(w.relay.local));
      Replay.UnparkedNone(gaps, Turns(Drain(w.v, q, [], gaps, depths.kb)));
    }
  }

  lemma ConsumerDrained(w: Wired, gaps: seq<Gap>, depths: Depths)
    requires Sound(w, depths) && OnlyRelay(gaps)
    ensures var w1, steps := AfterConsumerDrain(w, gaps, depths), ConsumerDrain(w, gaps);
      && Sound(w1, depths) && (ConsumerFollows(w) ==> ConsumerFollows(w1)) && Foreign(KB, steps) && w1.v == V.Play(w.v, steps)
      && w1.relay == w.relay.(link := w1.v.link, consQueue := w1.relay.consQueue)
  {
    hide V.Drifted, Drain, DrainSteps, Converging, V.Play;
    OnlyRelayExclusive(gaps);
    var q := w.relay.consQueue;
    DrainKeeps(CONS, w.v, q, [], gaps, depths.cons);
    DrainPlays(w.v, q, [], gaps, depths.cons);
    DrainForeign(KB, CONS, w.v, q, gaps);
    if w.relay.consLive && ConsumerFollows(w) {
      assert q + [] == q;
      DrainShows(CONS, w.v, q, [], gaps, depths.cons, ConsumerReport(w.relay.local));
      Replay.UnparkedNone(gaps, Turns(Drain(w.v, q, [], gaps, depths.cons)));
    }
  }

  lemma RetryExactly(w: Wired, kbGaps: seq<Gap>, consGaps: seq<Gap>, depths: Depths)
    requires Sound(w, depths) && KeyboardFollows(w) && ConsumerFollows(w) && OnlyRelay(kbGaps) && OnlyRelay(consGaps)
    ensures Exactly(w, Retry(kbGaps, consGaps), depths)
  {
    hide V.Drifted, V.Play, OnlyRelay, AfterKeyboardDrain, AfterConsumerDrain, KeyboardDrain, ConsumerDrain, Quiet,
      KeyboardSpared, ConsumerSpared, KeyboardStays, ConsumerStays, Converging;
    if !Quiet(w.v.link) {
      var w1 := AfterKeyboardDrain(w, kbGaps, depths);
      KeyboardDrained(w, kbGaps, depths);
      ConsumerExactly(w, KeyboardDrain(w, kbGaps));
      ConsumerDrained(w1, consGaps, depths);
      KeyboardExactly(w1, ConsumerDrain(w1, consGaps));
    }
  }

  lemma MoveExactly(w: Wired, move: Move, depths: Depths)
    requires Sound(w, depths) && KeyboardFollows(w) && ConsumerFollows(w) && Fair(move)
    ensures Exactly(w, move, depths)
  {
    hide Sound, MoveStays, MoveSpares, KeyboardFollows, ConsumerFollows, OnlyRelay;
    match move
    case Outside(step) => OutsideExactly(w, step, depths);
    case Key(ev, kbGaps, consGaps) => KeyExactly(w, ev, kbGaps, consGaps, depths);
    case Resync(before, kbGaps, consGaps) => ResyncExactly(w, before, kbGaps, consGaps, depths);
    case Retry(kbGaps, consGaps) => RetryExactly(w, kbGaps, consGaps, depths);
    case Session(active) => SessionExactly(w, active, depths);
  }

  lemma SessionExactly(w: Wired, active: bool, depths: Depths)
    requires Sound(w, depths) && KeyboardFollows(w) && ConsumerFollows(w)
    ensures Exactly(w, Session(active), depths)
  {
    hide V.Drifted, Converging;
  }

  // ---- Over whole runs ----

  ghost predicate AllMovesSpare(w: Wired, moves: seq<Move>, depths: Depths)
    requires Sound(w, depths)
    decreases |moves|
  {
    moves != [] ==>
      && MoveSpares(w, moves[0], depths)
      && Sound(Moved(w, moves[0], depths), depths)
      && AllMovesSpare(Moved(w, moves[0], depths), moves[1..], depths)
  }

  ghost predicate AlwaysFollows(w: Wired, moves: seq<Move>, depths: Depths)
    requires WellCounted(w.relay.local)
    decreases |moves|
  {
    && KeyboardFollows(w) && ConsumerFollows(w)
    && (moves != [] ==>
          && MoveStays(w, moves[0], depths)
          && (MovedTracks(w, moves[0], depths); AlwaysFollows(Moved(w, moves[0], depths), moves[1..], depths)))
  }

  /** Over every run of the relay: the host follows the keyboard and the consumer keys in every
    * state if and only if every call spares them. */
  lemma {:induction false} RelayExactly(w: Wired, moves: seq<Move>, depths: Depths)
    requires Sound(w, depths) && KeyboardFollows(w) && ConsumerFollows(w)
    requires forall move :: move in moves ==> Fair(move)
    ensures WellCounted(w.relay.local)
    ensures AlwaysFollows(w, moves, depths) <==> AllMovesSpare(w, moves, depths)
    ensures AlwaysFollows(w, moves, depths) ==> KeyboardFollows(Play(w, moves, depths)) && ConsumerFollows(Play(w, moves, depths))
    decreases |moves|
  {
    assert WellCounted(w.relay.local);
    if moves != [] {
      hide Moved, MoveStays, MoveSpares, KeyboardFollows, ConsumerFollows, Sound, Fair;
      assert moves[0] in moves;
      MoveExactly(w, moves[0], depths);
      MovedTracks(w, moves[0], depths);
      if MoveStays(w, moves[0], depths) {
        RelayExactly(Moved(w, moves[0], depths), moves[1..], depths);
      }
    }
  }

  lemma {:induction false} PlayTracks(w: Wired, moves: seq<Move>, depths: Depths)
    requires WellCounted(w.relay.local)
    ensures Play(w, moves, depths).relay.local == HeldKeys.LocalAfter(w.relay.local, HeldKeys.Events(moves))
    decreases |moves|
  {
    hide AfterEvent, Moved;
    if moves != [] {
      MovedTracks(w, moves[0], depths);
      PlayTracks(Moved(w, moves[0], depths), moves[1..], depths);
      if moves[0].Key? {
        assert ([moves[0].ev] + HeldKeys.Events(moves[1..]))[1..] == HeldKeys.Events(moves[1..]);
      } else {
        assert HeldKeys.Events(moves) == HeldKeys.Events(moves[1..]);
      }
    }
  }

  /** Nothing of the relay's is left on the way to the host. */
  predicate AtRest(w: Wired) {
    Outstanding(w.v.link) == [] && w.relay.kbQueue == [] && w.relay.consQueue == [] && w.v.link.resync == {}
  }

  /** So, over the library as compiled in: once everything has drained in a run that spares the
    * reports, the host shows exactly the keys down and the modifiers they hold. */
  lemma HostShowsHeld(w: Wired, held: seq<KeyEvent>, moves: seq<Move>, depths: Depths)
    requires Sound(w, depths) && KeyboardFollows(w) && ConsumerFollows(w)
    requires HeldKeys.Shown(w.relay.local, held) && HeldKeys.Countables(held)
    requires forall move :: move in moves ==> Fair(move)
    requires var evs := HeldKeys.Events(moves);
      HeldKeys.AllMatched(held, evs) && HeldKeys.AllFit(held, evs, |w.relay.local.keys|, |w.relay.local.cons|)
    requires AllMovesSpare(w, moves, depths)
    ensures var t, down := Play(w, moves, depths), HeldKeys.HeldFinally(held, HeldKeys.Events(moves));
      && (AtRest(t) && t.relay.kbLive ==>
            && LastOf(KB, t.v.link.host) == Some(KeyboardReport(t.relay.local))
            && HeldKeys.NamesHeld(KeyboardReport(t.relay.local), down))
      && (AtRest(t) && t.relay.consLive ==>
            && LastOf(CONS, t.v.link.host) == Some(ConsumerReport(t.relay.local))
            && KeySlots.Lists(t.relay.local.cons, HeldKeys.ConsumerSlots(down)))
  {
    assert WellCounted(w.relay.local);
    hide Play, HeldKeys.Shown, HeldKeys.NamesHeld, Sound, AllMovesSpare, AlwaysFollows, LastOf;
    RelayExactly(w, moves, depths);
    PlayTracks(w, moves, depths);
    var t, down := Play(w, moves, depths), HeldKeys.HeldFinally(held, HeldKeys.Events(moves));
    HeldKeys.ShownExactly(w.relay.local, held, HeldKeys.Events(moves));
    HeldKeys.ShownNames(t.relay.local, down);
    HeldKeys.ShownConsumers(t.relay.local, down);
    if AtRest(t) {
      assert Trail(t.v.link) + [] == t.v.link.host;
    }
  }

  function PoweredOn(cfg: Config, count: nat, channel: nat, clock: nat, keySlots: nat, consSlots: nat): Wired {
    var v := V.Start(cfg, count, channel, clock);
    Wired(v, HidRelay.PoweredOn(v.link, keySlots, consSlots))
  }

  lemma PoweredOnSound(cfg: Config, count: nat, channel: nat, clock: nat, keySlots: nat, consSlots: nat, depths: Depths)
    requires 0 < cfg.fifoSize && 0 < depths.kb && 0 < depths.cons
    ensures var w := PoweredOn(cfg, count, channel, clock, keySlots, consSlots);
      Sound(w, depths) && KeyboardFollows(w) && ConsumerFollows(w)
  {
    V.StartInStep(cfg, count, channel, clock);
  }
}
