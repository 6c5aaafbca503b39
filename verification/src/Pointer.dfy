/** src/esb/input_processor_esb.c over the transport: pointer motion is conserved and
  * the host converges to the buttons held. */
module Pointer {
  import opened Packets
  import opened Clock32
  import opened Link
  import opened Convergence
  import opened Parking
  import opened Replay

  datatype Limits = Limits(depth: nat, staleMs: nat)

  /** Where input motion went before it reached the transport. */
  datatype Gains = Gains(
    input: Motion,     // from the sensor
    offered: Motion,   // in reports the transport accepted
    stale: Motion,     // accumulated for too long and dropped
    clamped: Motion)   // beyond a signed 16-bit field

  datatype Processor = Processor(link: State, acc: Motion, start: nat, buttons: set<nat>,
                                 queue: seq<Payload>, active: bool, live: bool, gains: Gains)

  /** A relative event adds to one axis, or to none when its code is unknown. */
  datatype Delta = Delta(motion: Motion)

  datatype Event =
    | Rel(delta: Delta, sync: bool)
    | Button(number: nat, pressed: bool, sync: bool)
    | Other(sync: bool)

  /** What the environment does during one call: before the sends of the drain, and
    * before the last send, when unsynchronised deltas may arrive too. */
  datatype Traffic = Traffic(gaps: seq<Gap>, last: seq<Step>, late: seq<Delta>)

  datatype Move =
    | Outside(step: Step)
    | Input(event: Event, traffic: Traffic)
    | Retry(traffic: Traffic)
    | Resync(before: seq<Step>, traffic: Traffic)
    | Session(active: bool)

  function ButtonsOnly(buttons: set<nat>): Payload {
    Hid(Mouse(buttons, STILL))
  }

  /** `send_hid_report_raw`: each axis clamped to the report's field. */
  function MouseReport(buttons: set<nat>, m: Motion): Payload {
    Hid(Mouse(buttons, m.Clamp()))
  }

  function Accumulate(p: Processor, delta: Delta): Processor {
    p.(acc := p.acc.Plus(delta.motion),
       start := if p.start == 0 then Stamp(p.link.clock) else p.start,
       gains := p.gains.(input := p.gains.input.Plus(delta.motion)))
  }

  function AccumulateAll(p: Processor, late: seq<Delta>): Processor
    decreases |late|
  {
    if late == [] then p else AccumulateAll(Accumulate(p, late[0]), late[1..])
  }

  function ParkButtons(p: Processor, limits: Limits): Processor {
    p.(queue := Park(p.queue, ButtonsOnly(p.buttons), limits.depth), live := true)
  }

  predicate Deferred(s: State) {
    Quiet(s) || Backpressure(s)
  }

  predicate TooOld(p: Processor, limits: Limits) {
    p.start != 0 && Elapsed(p.link.clock, p.start) > limits.staleMs
  }

  function DropStale(p: Processor): Processor {
    p.(acc := STILL, start := 0, gains := p.gains.(stale := p.gains.stale.Plus(p.acc)))
  }

  /** Snapshot and clear the accumulator, send, and merge back when refused. The
    * second result tells whether the transport took the report. */
  function SendAccumulated(p: Processor, traffic: Traffic): (Processor, bool) {
    var cleared := AccumulateAll(p.(acc := STILL, start := 0), traffic.late);
    var s1 := Run(p.link, traffic.last);
    var (s2, result) := SendPacket(s1, MouseReport(p.buttons, p.acc));
    if result == Again then
      (cleared.(link := s2, acc := cleared.acc.Plus(p.acc),
                start := if cleared.start == 0 then p.start else cleared.start), false)
    else
      (cleared.(link := s2, live := true,
                gains := cleared.gains.(offered := cleared.gains.offered.Plus(p.acc.Clamp()),
                                        clamped := cleared.gains.clamped.Plus(p.acc.Minus(p.acc.Clamp())))), true)
  }

  function Replayed(p: Processor, traffic: Traffic, limits: Limits): Drained {
    Drain(p.link, p.queue, [], traffic.gaps, limits.depth)
  }

  /** `send_mouse_report` */
  function SendMouse(p: Processor, changed: bool, traffic: Traffic, limits: Limits): Processor {
    if Deferred(p.link) then (if changed then ParkButtons(p, limits) else p)
    else
      var d := Replayed(p, traffic, limits);
      var p1 := p.(link := d.link, queue := d.queue);
      if d.again then (if changed then ParkButtons(p1, limits) else p1)
      else if !changed && TooOld(p1, limits) then DropStale(p1)
      else
        var (p2, sent) := SendAccumulated(p1, traffic);
        if !sent && changed then ParkButtons(p2, limits) else p2
  }

  /** `retry_work_fn` */
  function OnRetry(p: Processor, traffic: Traffic, limits: Limits): Processor {
    if Deferred(p.link) then p
    else
      var d := Replayed(p, traffic, limits);
      var p1 := p.(link := d.link, queue := d.queue);
      if d.again then p1
      else if TooOld(p1, limits) || p1.start == 0 || p1.acc.Still() then DropStale(p1)
      else SendAccumulated(p1, traffic).0
  }

  /** What callbacks registered earlier send after the mask was taken. */
  function Taken(p: Processor, before: seq<Step>): Processor {
    p.(link := Run(p.link.(resync := {}), before))
  }

  /** `esb_ip_resync_cb`, called with the fetched mask after the other callbacks. */
  function OnResync(p: Processor, before: seq<Step>, traffic: Traffic, limits: Limits): Processor {
    var due := MOUSE in p.link.resync;
    var p0 := Taken(p, before);
    if !due then p0
    else if !p.active then p0.(live := false)
    else if Deferred(p0.link) then ParkButtons(p0, limits)
    else
      var d := Replayed(p0, traffic, limits);
      var p1 := p0.(link := d.link, queue := d.queue);
      if d.again then ParkButtons(p1, limits)
      else
        var (s2, result) := SendPacket(Run(p1.link, traffic.last), ButtonsOnly(p1.buttons));
        var p2 := p1.(link := s2);
        if result == Again then ParkButtons(p2, limits) else p2.(live := true)
  }

  function Pressed(buttons: set<nat>, number: nat, pressed: bool): set<nat> {
    if number > 4 then buttons else if pressed then buttons + {number} else buttons - {number}
  }

  /** `esb_ip_handle_event` */
  function OnInput(p: Processor, event: Event, traffic: Traffic, limits: Limits): Processor {
    if !p.active then p else
    match event
    case Rel(delta, sync) =>
      var p1 := Accumulate(p, delta);
      if sync then SendMouse(p1, false, traffic, limits) else p1
    case Button(number, pressed, sync) =>
      var p1 := p.(buttons := Pressed(p.buttons, number, pressed));
      var changed := p1.buttons != p.buttons;
      if sync || changed then SendMouse(p1, changed, traffic, limits) else p1
    case Other(sync) => if sync then SendMouse(p, false, traffic, limits) else p
  }

  function Moved(p: Processor, move: Move, limits: Limits): Processor {
    match move
    case Outside(step) => p.(link := Apply(p.link, step))
    case Input(event, traffic) => OnInput(p, event, traffic, limits)
    case Retry(traffic) => OnRetry(p, traffic, limits)
    case Resync(before, traffic) => OnResync(p, before, traffic, limits)
    case Session(active) => p.(active := active, live := p.live && active)
  }

  function Play(p: Processor, moves: seq<Move>, limits: Limits): Processor
    decreases |moves|
  {
    if moves == [] then p else Play(Moved(p, moves[0], limits), moves[1..], limits)
  }

  // ---- Invariants ----

  /** Input motion is offered, still accumulated, or in a named drop. */
  predicate GainsBalance(p: Processor, axis: Axis) {
    p.gains.input.On(axis) ==
      p.gains.offered.On(axis) + p.acc.On(axis) + p.gains.stale.On(axis) + p.gains.clamped.On(axis)
  }

  predicate Sole(p: Processor, axis: Axis) {
    p.link.ledger.accepted.On(axis) == p.gains.offered.On(axis)
  }

  /** End to end, on one axis: every unit of input is acknowledged, on its way,
    * waiting in the refund pool or the accumulator, or in exactly one named drop. */
  predicate Conserved(p: Processor, axis: Axis) {
    p.gains.input.On(axis) ==
      p.link.ledger.acked.On(axis) + Total(Outstanding(p.link), axis) + p.link.pool.On(axis) + p.acc.On(axis)
      + p.gains.stale.On(axis) + p.gains.clamped.On(axis)
      + p.link.ledger.staleRefund.On(axis) + p.link.ledger.hopWiped.On(axis) + p.link.ledger.flushed.On(axis)
  }

  ghost predicate Steady(p: Processor, limits: Limits) {
    && Inv(p.link) && 0 < p.link.cfg.fifoSize < 256 && 0 < limits.depth
    && OfKind(MOUSE, p.queue) && StillAll(p.queue) && |p.queue| <= limits.depth
  }

  ghost predicate StillAll(ps: seq<Payload>) {
    forall q :: q in ps ==> MotionOf(q).Still()
  }

  ghost predicate Balanced(p: Processor) {
    && (forall axis :: GainsBalance(p, axis) && Sole(p, axis))
    && (!p.acc.Still() ==> p.start != 0)
  }

  /** Acknowledged mouse reports: a resync is due, or the last report heard, queued
    * or parked shows the buttons held. */
  ghost predicate HostFollows(p: Processor) {
    p.live && !p.link.cfg.hidNoack ==> Converging(MOUSE, p.link, p.queue, ButtonsOnly(p.buttons))
  }

  ghost predicate PointerInv(p: Processor, limits: Limits) {
    Steady(p, limits) && Balanced(p) && HostFollows(p)
  }

  ghost predicate OnlyPointer(traffic: Traffic) {
    Unparked(traffic.gaps) && ForeignGaps(MOUSE, traffic.gaps) && Foreign(MOUSE, traffic.last)
  }

  ghost predicate Fair(move: Move) {
    match move
    case Outside(step) => step.Send? ==> ReportKind(step.packet) != MOUSE
    case Input(_, traffic) => OnlyPointer(traffic)
    case Retry(traffic) => OnlyPointer(traffic)
    case Resync(before, traffic) => Foreign(MOUSE, before) && OnlyPointer(traffic)
    case Session(_) => true
  }

  // ---- Accepted motion ----

  lemma AcceptedBySend(s: State, p: Payload)
    ensures var (t, result) := SendPacket(s, p);
      t.ledger.accepted == if result == Accepted then s.ledger.accepted.Plus(MotionOf(p)) else s.ledger.accepted
  {
    if !Quiet(s) {
      var s0 := s.(quietUntil := 0);
      if !(|s0.fifo| >= s0.cfg.fifoSize && IsShell(p)) {
        var s1 := if |s0.fifo| >= s0.cfg.fifoSize then DropAll(s0) else s0;
        PrepareAccepted(s1, p);
      }
    }
  }

  lemma PrepareAccepted(s: State, p: Payload)
    ensures Prepare(s, p).0.ledger.accepted == s.ledger.accepted
  {
  }

  lemma AcceptedByApply(s: State, step: Step)
    requires step.Send? ==> ReportKind(step.packet) != MOUSE
    ensures Apply(s, step).ledger.accepted == s.ledger.accepted
  {
    if Enabled(s, step) && step.Send? {
      AcceptedBySend(s, step.packet);
      assert s.ledger.accepted.Plus(STILL) == s.ledger.accepted;
    }
  }

  lemma {:induction false} AcceptedByRun(s: State, steps: seq<Step>)
    requires Foreign(MOUSE, steps)
    ensures Run(s, steps).ledger.accepted == s.ledger.accepted
    decreases |steps|
  {
    if steps != [] {
      assert steps[0] in steps;
      AcceptedByApply(s, steps[0]);
      AcceptedByRun(Apply(s, steps[0]), steps[1..]);
    }
  }

  lemma {:induction false} AcceptedByDrain(s: State, snap: seq<Payload>, live: seq<Payload>, gaps: seq<Gap>, depth: nat)
    requires StillAll(snap) && ForeignGaps(MOUSE, gaps)
    ensures Drain(s, snap, live, gaps, depth).link.ledger.accepted == s.ledger.accepted
    decreases |snap|
  {
    hide SendPacket, Run;
    if snap != [] {
      var s1 := Run(s, First(gaps).events);
      assert Foreign(MOUSE, First(gaps).events);
      AcceptedByRun(s, First(gaps).events);
      AcceptedBySend(s1, snap[0]);
      assert MotionOf(snap[0]) == STILL && s1.ledger.accepted.Plus(STILL) == s1.ledger.accepted;
      assert StillAll(snap[1..]) && ForeignGaps(MOUSE, Rest(gaps));
      if SendPacket(s1, snap[0]).1 != Again {
        AcceptedByDrain(SendPacket(s1, snap[0]).0, snap[1..], ParkAll(live, First(gaps).parked, depth), Rest(gaps), depth);
      }
    }
  }

  // ---- The parts of a call ----

  lemma TrafficExclusive(traffic: Traffic)
    requires OnlyPointer(traffic)
    ensures Exclusive(MOUSE, traffic.gaps) && Unparked(traffic.gaps)
    ensures ForeignGaps(MOUSE, traffic.gaps) && Foreign(MOUSE, traffic.last)
  {
  }

  /** Draining the parked edges keeps everything, and empties the queue unless refused. */
  lemma ReplayKeeps(p: Processor, traffic: Traffic, limits: Limits)
    requires PointerInv(p, limits) && OnlyPointer(traffic)
    ensures var d := Replayed(p, traffic, limits);
      PointerInv(p.(link := d.link, queue := d.queue), limits) && (!d.again ==> d.queue == [])
  {
    hide Inv, Converging, Drain, Run, SendPacket, Newest, GainsBalance;
    var d := Replayed(p, traffic, limits);
    TrafficExclusive(traffic);
    DrainKeeps(MOUSE, p.link, p.queue, [], traffic.gaps, limits.depth);
    AcceptedByDrain(p.link, p.queue, [], traffic.gaps, limits.depth);
    DrainExact(p.link, p.queue, [], traffic.gaps, limits.depth);
    UnparkedNone(traffic.gaps, Turns(d));
    var rest := p.queue[d.sent..] + [] + [];
    assert rest == p.queue[d.sent..];
    assert StillAll(d.queue) by { NewestStill(rest, limits.depth); }
    assert !d.again ==> d.queue == [] by { NewestAll([], limits.depth); }
    if p.live && !p.link.cfg.hidNoack {
      assert p.queue + [] == p.queue;
      DrainConverges(MOUSE, p.link, p.queue, [], traffic.gaps, limits.depth, ButtonsOnly(p.buttons));
    }
    var q := p.(link := d.link, queue := d.queue);
    assert forall axis :: GainsBalance(q, axis) by {
      forall axis ensures GainsBalance(q, axis) { GainsOnly(p, q, axis); }
    }
    assert forall axis :: Sole(q, axis) by {
      forall axis ensures Sole(q, axis) { assert Sole(p, axis); }
    }
  }

  lemma GainsOnly(p: Processor, q: Processor, axis: Axis)
    requires p.gains == q.gains && p.acc == q.acc && GainsBalance(p, axis)
    ensures GainsBalance(q, axis)
  {
  }

  lemma NewestStill(q: seq<Payload>, depth: nat)
    requires StillAll(q)
    ensures StillAll(Newest(q, depth))
  {
  }

  lemma ParkKeeps(p: Processor, limits: Limits)
    requires Steady(p, limits) && Balanced(p)
    ensures PointerInv(ParkButtons(p, limits), limits)
  {
    hide Inv, Converging;
    var q := ParkButtons(p, limits);
    ParkConverges(MOUSE, p.link, p.queue, ButtonsOnly(p.buttons), limits.depth);
    assert StillAll(p.queue + [ButtonsOnly(p.buttons)]);
    NewestStill(p.queue + [ButtonsOnly(p.buttons)], limits.depth);
    forall axis ensures GainsBalance(q, axis) && Sole(q, axis) {
      assert GainsBalance(p, axis) && Sole(p, axis);
    }
  }

  lemma AccumulateKeeps(p: Processor, delta: Delta)
    requires Balanced(p)
    ensures Balanced(Accumulate(p, delta))
  {
    var q := Accumulate(p, delta);
    forall axis ensures GainsBalance(q, axis) && Sole(q, axis) {
      assert GainsBalance(p, axis) && Sole(p, axis);
    }
  }

  /** Deltas only add to the accumulator and to the input total, and stamp it. */
  lemma {:induction false} AccumulateAllAdds(p: Processor, late: seq<Delta>, axis: Axis)
    ensures var q := AccumulateAll(p, late);
      && q == p.(acc := q.acc, start := q.start, gains := p.gains.(input := q.gains.input))
      && q.acc.On(axis) - p.acc.On(axis) == q.gains.input.On(axis) - p.gains.input.On(axis)
      && (p.start != 0 ==> q.start == p.start)
      && ((p.acc.Still() || p.start != 0) && !q.acc.Still() ==> q.start != 0)
    decreases |late|
  {
    if late != [] {
      AccumulateAllAdds(Accumulate(p, late[0]), late[1..], axis);
    }
  }

  lemma DropStaleKeeps(p: Processor, limits: Limits)
    requires PointerInv(p, limits)
    ensures PointerInv(DropStale(p), limits)
  {
    hide Inv, Converging;
    var q := DropStale(p);
    forall axis ensures GainsBalance(q, axis) && Sole(q, axis) {
      assert GainsBalance(p, axis) && Sole(p, axis);
    }
  }

  /** Sending the accumulator: accepted motion is counted once, refused motion is
    * back in the accumulator with what arrived meanwhile. */
  lemma SendBalances(p: Processor, traffic: Traffic)
    requires Balanced(p) && Foreign(MOUSE, traffic.last)
    ensures Balanced(SendAccumulated(p, traffic).0)
  {
    hide SendPacket, Run, GainsBalance, Sole;
    var s1 := Run(p.link, traffic.last);
    var q := SendAccumulated(p, traffic).0;
    AgainKeeps(s1, MouseReport(p.buttons, p.acc));
    forall axis ensures GainsBalance(q, axis) && Sole(q, axis) {
      SendBalancesOn(p, traffic, axis);
    }
    AccumulateAllAdds(p.(acc := STILL, start := 0), traffic.late, DX);
    assert !q.acc.Still() ==> q.start != 0;
  }

  lemma SendBalancesOn(p: Processor, traffic: Traffic, axis: Axis)
    requires GainsBalance(p, axis) && Sole(p, axis) && (!p.acc.Still() ==> p.start != 0) && Foreign(MOUSE, traffic.last)
    ensures GainsBalance(SendAccumulated(p, traffic).0, axis) && Sole(SendAccumulated(p, traffic).0, axis)
  {
    hide SendPacket, Run, AccumulateAll, Motion.Plus, Motion.Minus, Motion.Clamp;
    var s1, cleared := Run(p.link, traffic.last), AccumulateAll(p.(acc := STILL, start := 0), traffic.late);
    AcceptedByRun(p.link, traffic.last);
    AcceptedBySend(s1, MouseReport(p.buttons, p.acc));
    AgainKeeps(s1, MouseReport(p.buttons, p.acc));
    AccumulateAllAdds(p.(acc := STILL, start := 0), traffic.late, axis);
    var sent := p.acc.Clamp();
    SumOn(cleared.acc, p.acc, axis);
    SumOn(cleared.gains.offered, sent, axis);
    SumOn(cleared.gains.clamped, p.acc.Minus(sent), axis);
    SumOn(s1.ledger.accepted, sent, axis);
    DifferenceOn(p.acc, sent, axis);
  }

  lemma SumOn(a: Motion, b: Motion, axis: Axis)
    ensures a.Plus(b).On(axis) == a.On(axis) + b.On(axis)
  {
  }

  lemma DifferenceOn(a: Motion, b: Motion, axis: Axis)
    ensures a.Minus(b).On(axis) == a.On(axis) - b.On(axis)
  {
  }

  lemma SendFollows(p: Processor, traffic: Traffic, limits: Limits)
    requires Steady(p, limits) && p.queue == [] && Foreign(MOUSE, traffic.last)
    requires HostFollows(p)
    ensures var (q, sent) := SendAccumulated(p, traffic);
      && Steady(q, limits) && q.buttons == p.buttons && HostFollows(q)
  {
    hide SendPacket, Run, Inv, Converging;
    var report := MouseReport(p.buttons, p.acc);
    var s1 := Run(p.link, traffic.last);
    RunKeepsInv(p.link, traffic.last);
    SendKeepsInv(s1, report);
    AgainKeeps(s1, report);
    AccumulateAllAdds(p.(acc := STILL, start := 0), traffic.late, DX);
    if !p.link.cfg.hidNoack {
      if SendPacket(s1, report).1 == Again {
        if p.live {
          RunConverges(MOUSE, p.link, traffic.last, [], ButtonsOnly(p.buttons));
        }
      } else {
        InvWellFormed(s1);
        OwnSendConverges(MOUSE, s1, report, []);
      }
    }
  }

  /** `send_mouse_report` keeps everything; when the buttons changed the host follows
    * the new ones whether or not it followed the old. */
  lemma SendMouseKeeps(p: Processor, changed: bool, traffic: Traffic, limits: Limits)
    requires Steady(p, limits) && Balanced(p) && OnlyPointer(traffic)
    requires changed || HostFollows(p)
    ensures PointerInv(SendMouse(p, changed, traffic, limits), limits)
  {
    hide Replayed, SendAccumulated, Deferred, TooOld, HostFollows, Steady, Balanced;
    // A call that changed the buttons need not follow the old ones.
    var p0 := if changed then p.(live := false) else p;
    assert PointerInv(p0, limits) by { Unfollowed(p, limits); }
    assert Replayed(p0, traffic, limits) == Replayed(p, traffic, limits) by { SameReplay(p, p0, traffic, limits); }
    if Deferred(p.link) {
      if changed {
        ParkKeeps(p, limits);
      }
    } else {
      var d := Replayed(p, traffic, limits);
      var p1, q1 := p.(link := d.link, queue := d.queue), p0.(link := d.link, queue := d.queue);
      ReplayKeeps(p0, traffic, limits);
      assert ParkButtons(p1, limits) == ParkButtons(q1, limits);
      if d.again {
        if changed {
          ParkKeeps(q1, limits);
        }
      } else if !changed && TooOld(p1, limits) {
        DropStaleKeeps(q1, limits);
      } else {
        SentKeeps(q1, traffic, limits);
        SameSend(p1, q1, traffic);
      }
    }
  }

  lemma Unfollowed(p: Processor, limits: Limits)
    requires Steady(p, limits) && Balanced(p)
    ensures PointerInv(p.(live := false), limits)
  {
    hide Inv;
    var q := p.(live := false);
    forall axis ensures GainsBalance(q, axis) && Sole(q, axis) {
      assert GainsBalance(p, axis) && Sole(p, axis);
    }
  }

  lemma SameReplay(p: Processor, q: Processor, traffic: Traffic, limits: Limits)
    requires p.link == q.link && p.queue == q.queue
    ensures Replayed(p, traffic, limits) == Replayed(q, traffic, limits)
  {
  }

  lemma {:induction false} SameAccumulation(p: Processor, late: seq<Delta>, live: bool)
    ensures AccumulateAll(p.(live := live), late) == AccumulateAll(p, late).(live := live)
    decreases |late|
  {
    if late != [] {
      SameAccumulation(Accumulate(p, late[0]), late[1..], live);
    }
  }

  lemma SameSend(p: Processor, q: Processor, traffic: Traffic)
    requires q == p.(live := q.live)
    ensures SendAccumulated(p, traffic).1 == SendAccumulated(q, traffic).1
    ensures SendAccumulated(p, traffic).0 == SendAccumulated(q, traffic).0
         || (!SendAccumulated(q, traffic).1 && SendAccumulated(q, traffic).0 == SendAccumulated(p, traffic).0.(live := q.live))
  {
    hide SendPacket, Run;
    SameAccumulation(p.(acc := STILL, start := 0), traffic.late, q.live);
  }

  lemma SentKeeps(p: Processor, traffic: Traffic, limits: Limits)
    requires PointerInv(p, limits) && p.queue == [] && OnlyPointer(traffic)
    ensures var (q, sent) := SendAccumulated(p, traffic);
      && PointerInv(q, limits) && PointerInv(ParkButtons(q, limits), limits)
  {
    hide SendAccumulated, Inv, Converging;
    TrafficExclusive(traffic);
    SendBalances(p, traffic);
    SendFollows(p, traffic, limits);
    ParkKeeps(SendAccumulated(p, traffic).0, limits);
  }

  lemma RetryKeeps(p: Processor, traffic: Traffic, limits: Limits)
    requires PointerInv(p, limits) && OnlyPointer(traffic)
    ensures PointerInv(OnRetry(p, traffic, limits), limits)
  {
    hide Replayed, SendAccumulated, Deferred, TooOld, HostFollows, Balanced;
    if !Deferred(p.link) {
      ReplayKeeps(p, traffic, limits);
      var d := Replayed(p, traffic, limits);
      var p1 := p.(link := d.link, queue := d.queue);
      if !d.again {
        if TooOld(p1, limits) || p1.start == 0 || p1.acc.Still() {
          DropStaleKeeps(p1, limits);
        } else {
          SentKeeps(p1, traffic, limits);
        }
      }
    }
  }

  lemma ClearedMask(p: Processor, limits: Limits)
    requires PointerInv(p, limits)
    ensures var q := p.(link := p.link.(resync := {}));
      Steady(q, limits) && Balanced(q) && (MOUSE !in p.link.resync ==> HostFollows(q))
  {
    var q := p.(link := p.link.(resync := {}));
    assert Trail(q.link) == Trail(p.link);
    forall axis ensures MotionConservedOn(q.link, axis) && GainsBalance(q, axis) && Sole(q, axis) {
      assert MotionConservedOn(p.link, axis) && GainsBalance(p, axis) && Sole(p, axis);
    }
  }

  /** What others do on the link leaves the processor's books in order and its state shown. */
  lemma ElsewhereKeeps(p: Processor, steps: seq<Step>, limits: Limits)
    requires Steady(p, limits) && Balanced(p) && Foreign(MOUSE, steps)
    ensures var q := p.(link := Run(p.link, steps));
      Steady(q, limits) && Balanced(q) && (HostFollows(p) ==> HostFollows(q))
  {
    hide Run, Inv, Converging;
    var q := p.(link := Run(p.link, steps));
    RunKeepsInv(p.link, steps);
    AcceptedByRun(p.link, steps);
    if HostFollows(p) && p.live && !p.link.cfg.hidNoack {
      RunConverges(MOUSE, p.link, steps, p.queue, ButtonsOnly(p.buttons));
    }
    forall axis ensures GainsBalance(q, axis) && Sole(q, axis) {
      assert GainsBalance(p, axis) && Sole(p, axis);
    }
  }

  /** Sending the buttons alone. */
  lemma ButtonsSentKeeps(p: Processor, steps: seq<Step>, limits: Limits)
    requires Steady(p, limits) && Balanced(p) && p.queue == [] && Foreign(MOUSE, steps)
    ensures var (t, result) := SendPacket(Run(p.link, steps), ButtonsOnly(p.buttons));
      var q := p.(link := t);
      && Steady(q, limits) && Balanced(q) && (result != Again ==> HostFollows(q.(live := true)))
  {
    hide SendPacket, Run, Inv, Converging;
    var s1, report := Run(p.link, steps), ButtonsOnly(p.buttons);
    RunKeepsInv(p.link, steps);
    AcceptedByRun(p.link, steps);
    SendKeepsInv(s1, report);
    AcceptedBySend(s1, report);
    AgainKeeps(s1, report);
    InvWellFormed(s1);
    if SendPacket(s1, report).1 != Again && !p.link.cfg.hidNoack {
      OwnSendConverges(MOUSE, s1, report, []);
    }
    var q := p.(link := SendPacket(s1, report).0);
    assert s1.ledger.accepted.Plus(STILL) == s1.ledger.accepted;
    forall axis ensures GainsBalance(q, axis) && Sole(q, axis) {
      assert GainsBalance(p, axis) && Sole(p, axis);
    }
  }

  /** Taking the mask is safe because the buttons are sent or parked again. */
  lemma ResyncKeeps(p: Processor, before: seq<Step>, traffic: Traffic, limits: Limits)
    requires PointerInv(p, limits) && Foreign(MOUSE, before) && OnlyPointer(traffic)
    ensures PointerInv(OnResync(p, before, traffic, limits), limits)
  {
    hide Replayed, Deferred, Balanced, Steady, Run, SendPacket, HostFollows;
    var due := MOUSE in p.link.resync;
    var p0 := Taken(p, before);
    ClearedMask(p, limits);
    ElsewhereKeeps(p.(link := p.link.(resync := {})), before, limits);
    Unfollowed(p0, limits);
    if due && p.active {
      if Deferred(p0.link) {
        ParkKeeps(p0, limits);
      } else {
        var q0 := p0.(live := false);
        SameReplay(p0, q0, traffic, limits);
        ReplayKeeps(q0, traffic, limits);
        var d := Replayed(p0, traffic, limits);
        var q1 := q0.(link := d.link, queue := d.queue);
        if d.again {
          ParkKeeps(q1, limits);
        } else {
          TrafficExclusive(traffic);
          ButtonsSentKeeps(q1, traffic.last, limits);
          ResyncSent(q1, traffic, limits);
        }
      }
    }
  }

  lemma ResyncSent(p: Processor, traffic: Traffic, limits: Limits)
    requires var (t, result) := SendPacket(Run(p.link, traffic.last), ButtonsOnly(p.buttons));
      var q := p.(link := t);
      && Steady(q, limits) && Balanced(q) && (result != Again ==> HostFollows(q.(live := true)))
    ensures var (t, result) := SendPacket(Run(p.link, traffic.last), ButtonsOnly(p.buttons));
      var q := p.(link := t);
      PointerInv(if result == Again then ParkButtons(q, limits) else q.(live := true), limits)
  {
    hide SendPacket, Run, Inv, Converging;
    var (t, result) := SendPacket(Run(p.link, traffic.last), ButtonsOnly(p.buttons));
    var q := p.(link := t);
    if result == Again {
      ParkKeeps(q, limits);
    } else {
      var r := q.(live := true);
      forall axis ensures GainsBalance(r, axis) && Sole(r, axis) {
        assert GainsBalance(q, axis) && Sole(q, axis);
      }
    }
  }

  lemma InputKeeps(p: Processor, event: Event, traffic: Traffic, limits: Limits)
    requires PointerInv(p, limits) && OnlyPointer(traffic)
    ensures PointerInv(OnInput(p, event, traffic, limits), limits)
  {
    hide SendMouse, Inv, Converging, OnlyPointer, Balanced;
    if p.active {
      match event
      case Rel(delta, sync) =>
        AccumulateKeeps(p, delta);
        SendMouseKeeps(Accumulate(p, delta), false, traffic, limits);
      case Button(number, pressed, sync) =>
        var q := p.(buttons := Pressed(p.buttons, number, pressed));
        assert Balanced(q) by { ButtonsAside(p, q); }
        SendMouseKeeps(q, q.buttons != p.buttons, traffic, limits);
      case Other(sync) =>
        SendMouseKeeps(p, false, traffic, limits);
    }
  }

  lemma ButtonsAside(p: Processor, q: Processor)
    requires Balanced(p) && q == p.(buttons := q.buttons)
    ensures Balanced(q)
  {
    forall axis ensures GainsBalance(q, axis) && Sole(q, axis) {
      assert GainsBalance(p, axis) && Sole(p, axis);
    }
  }

  lemma OutsideKeeps(p: Processor, step: Step, limits: Limits)
    requires PointerInv(p, limits) && Fair(Outside(step))
    ensures PointerInv(p.(link := Apply(p.link, step)), limits)
  {
    hide Apply, Inv, Converging;
    ApplyKeepsInv(p.link, step);
    AcceptedByApply(p.link, step);
    InvWellFormed(p.link);
    if p.live && !p.link.cfg.hidNoack {
      ApplyConverges(MOUSE, p.link, step, p.queue, ButtonsOnly(p.buttons));
    }
    var q := p.(link := Apply(p.link, step));
    forall axis ensures GainsBalance(q, axis) && Sole(q, axis) {
      assert GainsBalance(p, axis) && Sole(p, axis);
    }
  }

  /** Over every run of sensor events, retries, resyncs, radio events and session
    * changes: motion stays balanced and the host keeps following the buttons. */
  lemma {:induction false} PlayKeeps(p: Processor, moves: seq<Move>, limits: Limits)
    requires PointerInv(p, limits)
    requires forall move :: move in moves ==> Fair(move)
    ensures PointerInv(Play(p, moves, limits), limits)
    decreases |moves|
  {
    if moves != [] {
      hide OnInput, OnRetry, OnResync, Apply, HostFollows, Balanced, Steady;
      assert Fair(moves[0]);
      match moves[0] {
        case Outside(step) => OutsideKeeps(p, step, limits);
        case Input(event, traffic) => InputKeeps(p, event, traffic, limits);
        case Retry(traffic) => RetryKeeps(p, traffic, limits);
        case Resync(before, traffic) => ResyncKeeps(p, before, traffic, limits);
        case Session(active) => SessionKeeps(p, active, limits);
      }
      PlayKeeps(Moved(p, moves[0], limits), moves[1..], limits);
    }
  }

  lemma SessionKeeps(p: Processor, active: bool, limits: Limits)
    requires PointerInv(p, limits)
    ensures PointerInv(Moved(p, Session(active), limits), limits)
  {
    hide Inv, Converging;
    var q := p.(active := active, live := p.live && active);
    forall axis ensures GainsBalance(q, axis) && Sole(q, axis) {
      assert GainsBalance(p, axis) && Sole(p, axis);
    }
  }

  lemma BalanceConserves(p: Processor, limits: Limits, axis: Axis)
    requires Steady(p, limits) && Balanced(p)
    ensures Conserved(p, axis)
  {
    assert GainsBalance(p, axis) && Sole(p, axis) && MotionConservedOn(p.link, axis);
  }

  /** Motion conservation over every run, on every axis, with stamps that let stale
    * motion be recognised. */
  lemma MotionAccounted(p: Processor, moves: seq<Move>, limits: Limits, axis: Axis)
    requires PointerInv(p, limits)
    requires forall move :: move in moves ==> Fair(move)
    ensures var q := Play(p, moves, limits);
      && Conserved(q, axis)
      && (!q.acc.Still() ==> q.start != 0) && PoolStamped(q.link)
  {
    hide Play;
    PlayKeeps(p, moves, limits);
    BalanceConserves(Play(p, moves, limits), limits, axis);
  }

  /** Once nothing is on its way or parked and no resync is due, the host shows the
    * buttons that are held. */
  lemma ButtonsConverge(p: Processor, moves: seq<Move>, limits: Limits)
    requires PointerInv(p, limits)
    requires forall move :: move in moves ==> Fair(move)
    ensures var q := Play(p, moves, limits);
      q.live && Outstanding(q.link) == [] && q.queue == [] && MOUSE !in q.link.resync && !q.link.cfg.hidNoack ==>
        LastOf(MOUSE, q.link.host) == Some(ButtonsOnly(q.buttons))
  {
    hide Play;
    PlayKeeps(p, moves, limits);
    var q := Play(p, moves, limits);
    assert Outstanding(q.link) == [] && q.queue == [] ==> Trail(q.link) + q.queue == q.link.host;
  }

  function PoweredOn(link: State): Processor {
    Processor(link, STILL, 0, {}, [], false, false, Gains(STILL, STILL, STILL, STILL))
  }

  lemma PoweredOnKeeps(cfg: Config, count: nat, channel: nat, clock: nat, limits: Limits)
    requires 0 < cfg.fifoSize < 256 && 0 < limits.depth
    ensures PointerInv(PoweredOn(Fresh(cfg, count, channel, clock)), limits)
  {
    FreshInv(cfg, count, channel, clock);
    var p := PoweredOn(Fresh(cfg, count, channel, clock));
    assert forall axis :: GainsBalance(p, axis) && Sole(p, axis);
  }
}
