/** When accumulated motion leaves the input processor (src/esb/input_processor_esb.c): what a
  * synchronised event, a button change and the retry worker send, keep or drop. */
module MotionSent {
  import opened Packets
  import opened Clock32
  import opened Link
  import opened Convergence
  import opened Parking
  import opened Replay
  import opened Pointer
  import HopTiming
  import LinkTiming

  /** Motion that arrives unsynchronised during the call. */
  function LateOn(late: seq<Delta>, axis: Axis): int
    decreases |late|
  {
    if late == [] then 0 else late[0].motion.On(axis) + LateOn(late[1..], axis)
  }

  lemma {:induction false} LateAdds(p: Processor, late: seq<Delta>, axis: Axis)
    ensures AccumulateAll(p, late).acc.On(axis) == p.acc.On(axis) + LateOn(late, axis)
    ensures AccumulateAll(p, late) == p.(acc := AccumulateAll(p, late).acc, start := AccumulateAll(p, late).start,
                                          gains := AccumulateAll(p, late).gains)
    decreases |late|
  {
    if late != [] {
      LateAdds(Accumulate(p, late[0]), late[1..], axis);
    }
  }

  predicate RefundIsStale(s: State) {
    s.poolStamp != 0 && Elapsed(s.clock, s.poolStamp) >= s.cfg.refundStaleMs
  }

  /** The link after the backlog was replayed. */
  function AfterReplay(p: Processor, traffic: Traffic, limits: Limits): Processor {
    p.(link := Pointer.Replayed(p, traffic, limits).link, queue := Pointer.Replayed(p, traffic, limits).queue)
  }

  /** The call gets as far as the last send: the link is not quiet, fewer moving reports than the
    * cap are in flight, and the backlog goes through. */
  predicate ReachesSend(p: Processor, traffic: Traffic, limits: Limits) {
    !Quiet(p.link) && p.link.inflight < p.link.cfg.inflightCap && !Pointer.Replayed(p, traffic, limits).again
  }

  /** A report with the buttons and all accumulated motion was queued last, within 16 bits an
    * axis and with a fresh refund on top; what is left is what arrived meanwhile. */
  ghost predicate Sent(p: Processor, q: Processor, traffic: Traffic, limits: Limits) {
    var s := Run(AfterReplay(p, traffic, limits).link, traffic.last);
    var fifo := q.link.fifo;
    && fifo != [] && StateOf(fifo[|fifo| - 1]) == ButtonsOnly(p.buttons)
    && MotionOf(fifo[|fifo| - 1]) == (if RefundIsStale(s) then p.acc.Clamp() else p.acc.Clamp().Plus(s.pool).Clamp())
    && (forall axis :: q.acc.On(axis) == LateOn(traffic.late, axis))
    && q.queue == AfterReplay(p, traffic, limits).queue
  }

  /** Nothing was queued with motion: it is all still there. */
  ghost predicate Kept(p: Processor, q: Processor, late: seq<Delta>) {
    && q.link.ledger.accepted == p.link.ledger.accepted
    && (forall axis :: q.acc.On(axis) == p.acc.On(axis) + LateOn(late, axis))
    && q.gains.stale == p.gains.stale
  }

  ghost predicate Dropped(p: Processor, q: Processor) {
    && q.link.ledger.accepted == p.link.ledger.accepted && q.acc.Still() && q.start == 0
    && (forall axis :: q.gains.stale.On(axis) == p.gains.stale.On(axis) + p.acc.On(axis))
  }

  lemma TakenReport(p: Processor, traffic: Traffic)
    requires !Quiet(Run(p.link, traffic.last))
    ensures var (q, sent) := SendAccumulated(p, traffic);
      var s, fifo := Run(p.link, traffic.last), q.link.fifo;
      && sent && fifo != [] && StateOf(fifo[|fifo| - 1]) == ButtonsOnly(p.buttons)
      && MotionOf(fifo[|fifo| - 1]) == (if RefundIsStale(s) then p.acc.Clamp() else p.acc.Clamp().Plus(s.pool).Clamp())
      && (forall axis :: q.acc.On(axis) == LateOn(traffic.late, axis)) && q.queue == p.queue
  {
    hide Run, SendPacket, Quiet, Motion.Clamp, Motion.Plus, Motion.Minus;
    var s, report := Run(p.link, traffic.last), MouseReport(p.buttons, p.acc);
    assert MotionOf(report).InRange() by { ClampInRange(p.acc); }
    AgainKeeps(s, report);
    LateAdds(p.(acc := STILL, start := 0), traffic.late, DX);
    LinkTiming.SendReturns(s, report);
    forall axis ensures SendAccumulated(p, traffic).0.acc.On(axis) == LateOn(traffic.late, axis) {
      LateAdds(p.(acc := STILL, start := 0), traffic.late, axis);
    }
  }

  lemma ClampInRange(m: Motion)
    ensures m.Clamp().InRange()
  {
  }

  lemma RefusedReport(p: Processor, traffic: Traffic)
    requires Quiet(Run(p.link, traffic.last)) && Foreign(MOUSE, traffic.last)
    ensures var (q, sent) := SendAccumulated(p, traffic);
      !sent && Kept(p, q, traffic.late) && q.queue == p.queue && q.buttons == p.buttons && q.link == Run(p.link, traffic.last)
  {
    hide Run, SendPacket, Quiet, Motion.Plus;
    AgainKeeps(Run(p.link, traffic.last), MouseReport(p.buttons, p.acc));
    AcceptedByRun(p.link, traffic.last);
    LateAdds(p.(acc := STILL, start := 0), traffic.late, DX);
    forall axis ensures SendAccumulated(p, traffic).0.acc.On(axis) == p.acc.On(axis) + LateOn(traffic.late, axis) {
      LateAdds(p.(acc := STILL, start := 0), traffic.late, axis);
      PlusOn(AccumulateAll(p.(acc := STILL, start := 0), traffic.late).acc, p.acc, axis);
    }
    LateGains(p.(acc := STILL, start := 0), traffic.late);
  }

  lemma PlusOn(a: Motion, b: Motion, axis: Axis)
    ensures a.Plus(b).On(axis) == a.On(axis) + b.On(axis)
  {
  }

  lemma {:induction false} LateGains(p: Processor, late: seq<Delta>)
    ensures AccumulateAll(p, late).gains.stale == p.gains.stale
    decreases |late|
  {
    if late != [] {
      LateGains(Accumulate(p, late[0]), late[1..]);
    }
  }

  // ---- The three callers ----

  lemma ReplayAccepts(p: Processor, traffic: Traffic, limits: Limits)
    requires StillAll(p.queue) && ForeignGaps(MOUSE, traffic.gaps)
    ensures AfterReplay(p, traffic, limits).link.ledger.accepted == p.link.ledger.accepted
  {
    AcceptedByDrain(p.link, p.queue, [], traffic.gaps, limits.depth);
  }

  /** What a send of the accumulated motion comes to. `due`: the report must go out now, for a
    * button changed; otherwise motion that is too old is dropped instead. */
  ghost predicate Outcome(p: Processor, q: Processor, due: bool, traffic: Traffic, limits: Limits) {
    if !ReachesSend(p, traffic, limits) then Kept(p, q, [])
    else if !due && TooOld(AfterReplay(p, traffic, limits), limits) then Dropped(p, q)
    else if Quiet(Run(AfterReplay(p, traffic, limits).link, traffic.last)) then Kept(p, q, traffic.late)
    else Sent(p, q, traffic, limits)
  }

  lemma ParkedLast(queue: seq<Payload>, p: Payload, depth: nat)
    requires 0 < depth
    ensures Park(queue, p, depth) != [] && Last(Park(queue, p, depth)) == p
  {
  }

  /** `send_mouse_report` sends exactly when nothing defers it, the backlog goes through, the
    * motion is fresh or a button changed, and the link does not turn quiet; it drops exactly
    * what is stale then, and keeps the motion otherwise. A change that is not sent is parked. */
  lemma SendOutcome(p: Processor, changed: bool, traffic: Traffic, limits: Limits)
    requires StillAll(p.queue) && ForeignGaps(MOUSE, traffic.gaps) && Foreign(MOUSE, traffic.last) && 0 < limits.depth
    ensures var q := SendMouse(p, changed, traffic, limits);
      && Outcome(p, q, changed, traffic, limits)
      && (changed && !(ReachesSend(p, traffic, limits) && !Quiet(Run(AfterReplay(p, traffic, limits).link, traffic.last))) ==>
            q.queue != [] && Last(q.queue) == ButtonsOnly(p.buttons))
  {
    hide Pointer.Replayed, SendAccumulated, TooOld, Run, Quiet, Motion.Plus, Motion.Clamp, Park;
    ReplayAccepts(p, traffic, limits);
    var r := AfterReplay(p, traffic, limits);
    ParkedLast(p.queue, ButtonsOnly(p.buttons), limits.depth);
    ParkedLast(r.queue, ButtonsOnly(p.buttons), limits.depth);
    if ReachesSend(p, traffic, limits) {
      if Quiet(Run(r.link, traffic.last)) { RefusedReport(r, traffic); } else { TakenReport(r, traffic); }
      forall axis ensures p.gains.stale.Plus(p.acc).On(axis) == p.gains.stale.On(axis) + p.acc.On(axis) {
        PlusOn(p.gains.stale, p.acc, axis);
      }
    }
  }

  /** The retry worker does the same with motion that is still fresh, and drops the rest. */
  lemma RetryOutcome(p: Processor, traffic: Traffic, limits: Limits)
    requires StillAll(p.queue) && ForeignGaps(MOUSE, traffic.gaps) && Foreign(MOUSE, traffic.last)
    ensures var q := OnRetry(p, traffic, limits);
      if ReachesSend(p, traffic, limits) && (p.start == 0 || p.acc.Still()) then Dropped(p, q)
      else Outcome(p, q, false, traffic, limits)
  {
    hide Pointer.Replayed, SendAccumulated, TooOld, Run, Quiet, Motion.Plus, Motion.Clamp;
    ReplayAccepts(p, traffic, limits);
    var r := AfterReplay(p, traffic, limits);
    if ReachesSend(p, traffic, limits) {
      if Quiet(Run(r.link, traffic.last)) { RefusedReport(r, traffic); } else { TakenReport(r, traffic); }
      forall axis ensures p.gains.stale.Plus(p.acc).On(axis) == p.gains.stale.On(axis) + p.acc.On(axis) {
        PlusOn(p.gains.stale, p.acc, axis);
      }
    }
  }

  /** Motion with one more delta: the first one starts the clock. */
  ghost predicate Gained(p: Processor, q: Processor, delta: Delta) {
    && (forall axis :: q.acc.On(axis) == p.acc.On(axis) + delta.motion.On(axis))
    && q.start == (if p.start == 0 then Stamp(p.link.clock) else p.start)
    && q == p.(acc := q.acc, start := q.start, gains := q.gains) && q.gains.stale == p.gains.stale
  }

  lemma AccumulateGains(p: Processor, delta: Delta)
    ensures Gained(p, Accumulate(p, delta), delta)
  {
    hide Motion.Plus;
    forall axis ensures Accumulate(p, delta).acc.On(axis) == p.acc.On(axis) + delta.motion.On(axis) {
      PlusOn(p.acc, delta.motion, axis);
    }
  }

  /** What one input event does. An inactive session ignores it; a delta waits for the
    * synchronisation; a synchronised event and a button change send what there is. */
  lemma InputOutcome(p: Processor, event: Event, traffic: Traffic, limits: Limits)
    requires StillAll(p.queue) && ForeignGaps(MOUSE, traffic.gaps) && Foreign(MOUSE, traffic.last) && 0 < limits.depth
    ensures var q := OnInput(p, event, traffic, limits);
      && (!p.active ==> q == p)
      && (p.active && event.Rel? && !event.sync ==> Gained(p, q, event.delta))
      && (p.active && event.Rel? && event.sync ==>
            exists gained :: Gained(p, gained, event.delta) && Outcome(gained, q, false, traffic, limits))
      && (p.active && event.Button? ==>
            var pressed := p.(buttons := Pressed(p.buttons, event.number, event.pressed));
            if pressed.buttons != p.buttons then Outcome(pressed, q, true, traffic, limits)
            else if event.sync then Outcome(p, q, false, traffic, limits) else q == p)
      && (p.active && event.Other? ==> if event.sync then Outcome(p, q, false, traffic, limits) else q == p)
  {
    hide SendMouse, Outcome, Gained, Accumulate;
    if p.active {
      match event
      case Rel(delta, sync) =>
        AccumulateGains(p, delta);
        assert Accumulate(p, delta).queue == p.queue by { SameQueue(p, delta); }
        SendOutcome(Accumulate(p, delta), false, traffic, limits);
      case Button(n, down, sync) =>
        var q := p.(buttons := Pressed(p.buttons, n, down));
        SendOutcome(q, q.buttons != p.buttons, traffic, limits);
      case Other(_) => SendOutcome(p, false, traffic, limits);
    }
  }

  lemma SameQueue(p: Processor, delta: Delta)
    ensures Accumulate(p, delta).queue == p.queue
  {
  }

  /** The motion event of the simplest case: on a quiet desk a synchronised delta leaves at once,
    * clamped, with whatever refund is fresh, and nothing is left. */
  lemma DeltaLeaves(p: Processor, delta: Delta, limits: Limits)
    requires p.active && p.queue == [] && p.acc.Still() && p.start == 0 && 0 < limits.depth
    requires !Quiet(p.link) && p.link.inflight < p.link.cfg.inflightCap
    requires p.link.clock != 0
    ensures var q := OnInput(p, Rel(delta, true), Traffic([], [], []), limits);
      && q.acc.Still() && q.link.fifo != []
      && MotionOf(q.link.fifo[|q.link.fifo| - 1]) ==
           if RefundIsStale(p.link) then delta.motion.Clamp() else delta.motion.Clamp().Plus(p.link.pool).Clamp()
  {
    var traffic, g := Traffic([], [], []), Accumulate(p, delta);
    assert g.acc == delta.motion;
    assert Pointer.Replayed(g, traffic, limits) == Parking.Drained(g.link, [], 0, false);
    assert !TooOld(AfterReplay(g, traffic, limits), limits);
    SendOutcome(g, false, traffic, limits);
    hide SendMouse, Motion.Clamp, Motion.Plus;
    assert Sent(g, SendMouse(g, false, traffic, limits), traffic, limits);
    assert SendMouse(g, false, traffic, limits).acc.On(DX) == SendMouse(g, false, traffic, limits).acc.On(DY)
        == SendMouse(g, false, traffic, limits).acc.On(SX) == SendMouse(g, false, traffic, limits).acc.On(SY) == 0;
  }

  /** In true time: motion whose first delta came at `at` is too old `d` milliseconds later if
    * and only if its measured age exceeds the limit. */
  lemma MotionAge(p: Processor, delta: Delta, at: nat, d: nat, later: Processor, limits: Limits)
    requires p.start == 0 && p.link.clock == at % WORD && d < HALF
    requires later.start == Accumulate(p, delta).start && later.link.clock == (at + d) % WORD
    ensures TooOld(later, limits) <==> HopTiming.Measured(at, d) > limits.staleMs
  {
    HopTiming.SilenceIsMeasured(at, d);
  }
}
