/** Where motion goes over the library as compiled in: every event adds a known amount to
  * what is accounted for twice, or to what is not accounted for. */
module VendoredBalance {
  import opened Packets
  import opened Link
  import opened VendoredRadio

  /** By how much more motion is accounted for than was accepted. */
  function Surplus(s: State, axis: Axis): int {
    s.ledger.acked.On(axis) + Total(Outstanding(s), axis) + s.pool.On(axis) + s.ledger.flushed.On(axis)
    + s.ledger.staleRefund.On(axis) + s.ledger.hopWiped.On(axis) - s.ledger.accepted.On(axis)
  }

  function MotionOn(ps: seq<Payload>, axis: Axis): int {
    if ps == [] then 0 else MotionOf(ps[0]).On(axis)
  }

  /** A failure keeps its packet queued and refunds the motion of the oldest slot; a flush
    * knows nothing of packets without a slot; an acknowledgement counts the packet that was
    * on the air and removes the one at the front. */
  ghost function Gain(v: Vendored, e: Step, axis: Axis): int
    requires Drifted(v)
  {
    if !Happens(v, e) then 0
    else if Flushes(v, e) || (e.Failure? && Full(v)) then -Total(Slotless(v), axis)
    else if e.Failure? then MotionOn(v.slots, axis)
    else if e.Success? then MotionOf(v.radio.packet).On(axis) - MotionOn(v.link.fifo, axis)
    else 0
  }

  /** The books kept beside the queue: a non-empty pool has a stamp, and the in-flight
    * count is that of the slots. */
  ghost predicate Booked(v: Vendored) {
    && Drifted(v) && v.link.cfg.fifoSize < 256
    && PoolStamped(v.link) && v.link.inflight == Moving(v.slots)
  }

  lemma FlushedBalance(v: Vendored, axis: Axis)
    requires v.link.stash == [] && v.link.trip.NoTrip?
    ensures Surplus(Flushed(v).link, axis) == Surplus(v.link, axis) + Total(v.slots, axis) - Total(v.link.fifo, axis)
    ensures Flushed(v).slots == [] && Flushed(v).link.inflight == 0
    ensures Flushed(v).link.pool == v.link.pool && Flushed(v).link.poolStamp == v.link.poolStamp
  {
    hide Kinds;
    assert TotalMotion(v.slots).On(axis) == Total(v.slots, axis);
    assert Outstanding(Flushed(v).link) == [] && Outstanding(v.link) == v.link.fifo;
  }

  lemma PoppedBalance(v: Vendored, failed: bool, axis: Axis)
    requires PoolStamped(v.link) && v.link.inflight == Moving(v.slots)
    ensures var t := Popped(v, failed);
      && t.link.ledger == v.link.ledger && Outstanding(t.link) == Outstanding(v.link)
      && t.link.pool.On(axis) == v.link.pool.On(axis) + (if failed then MotionOn(v.slots, axis) else 0)
      && PoolStamped(t.link) && t.link.inflight == Moving(t.slots)
  {
    hide Kinds, Overrides;
    if v.slots != [] {
      SumsCons(v.slots, axis);
    }
  }

  lemma WriteBalance(v: Vendored, p: Payload, axis: Axis)
    requires Admits(v, p) && !Full(v) && Booked(v)
    ensures Surplus(AfterSend(v, p).link, axis) == Surplus(v.link, axis)
    ensures PoolStamped(AfterSend(v, p).link) && AfterSend(v, p).link.inflight == Moving(AfterSend(v, p).slots)
  {
    var v1 := Emptied(v);
    assert v1.slots == v.slots && v1.link == v.link.(quietUntil := 0);
    var (ready, out) := Prepare(v1.link, p);
    PrepareBalances(v1.link, p, axis);
    assert |v.slots| <= |Outstanding(v.link)| < 256;
    MovingBound(v.slots);
    WrittenBalance(v, ready, p, out, axis);
    SumsAppend(v.slots, out, axis);
  }

  lemma WrittenBalance(v: Vendored, ready: State, p: Payload, out: Payload, axis: Axis)
    requires v.link.trip.NoTrip? && ready.trip.NoTrip? && ready.fifo == v.link.fifo && ready.stash == v.link.stash
    requires ready.ledger == v.link.ledger.(staleRefund := ready.ledger.staleRefund)
    requires MotionOf(p).On(axis) + v.link.pool.On(axis) + v.link.ledger.staleRefund.On(axis)
          == MotionOf(out).On(axis) + ready.pool.On(axis) + ready.ledger.staleRefund.On(axis)
    ensures Surplus(Write(ready, p, out), axis) == Surplus(v.link, axis)
  {
    var t := Write(ready, p, out);
    assert Outstanding(t) == Outstanding(v.link) + [out];
    SumsAppend(Outstanding(v.link), out, axis);
  }

  lemma EmptiedBalance(v: Vendored, p: Payload, axis: Axis)
    requires Booked(v) && Admits(v, p)
    ensures Booked(Emptied(v))
    ensures Surplus(Emptied(v).link, axis) == Surplus(v.link, axis) - (if Full(v) then Total(Slotless(v), axis) else 0)
  {
    hide Flushed, Total, Moving, Drifted;
    var cleared := v.(link := v.link.(quietUntil := 0));
    AdmittedNoTrip(v, p);
    SameDrift(v, cleared);
    assert Outstanding(cleared.link) == Outstanding(v.link);
    if Full(v) {
      FlushBalance(cleared, axis);
    }
  }

  lemma SendAgain(v: Vendored, p: Payload)
    requires Admits(v, p) && v.link.cfg.fifoSize > 0
    ensures Admits(Emptied(v), p) && !Full(Emptied(v)) && AfterSend(Emptied(v), p) == AfterSend(v, p)
  {
    hide Prepare, Kinds, TotalMotion;
    EmptiedFrame(v);
    assert Emptied(v).link.quietUntil == 0;
    assert Emptied(Emptied(v)) == Emptied(v);
  }

  lemma SlotlessTotal(v: Vendored, axis: Axis)
    requires Drifted(v)
    ensures Total(Outstanding(v.link), axis) == Total(Slotless(v), axis) + Total(v.slots, axis)
  {
    SlotlessThenSlots(v);
    SumsConcat(Slotless(v), v.slots, axis);
  }

  lemma SendBalance(v: Vendored, p: Payload, axis: Axis)
    requires Booked(v)
    ensures Booked(AfterSend(v, p)) && Surplus(AfterSend(v, p).link, axis) == Surplus(v.link, axis) + Gain(v, Send(p), axis)
  {
    hide AfterSend, Emptied, SendPacket, Total, Moving;
    SendDrifts(v, p);
    if Admits(v, p) {
      EmptiedBalance(v, p, axis);
      SendAgain(v, p);
      WriteBalance(Emptied(v), p, axis);
    } else {
      RefusedSend(v, p);
      RefusedFrame(v, p);
      assert Outstanding(AfterSend(v, p).link) == Outstanding(v.link);
    }
  }

  lemma AckBalance(v: Vendored, axis: Axis)
    requires Booked(v) && Happens(v, Success)
    ensures Booked(AfterAck(v)) && Surplus(AfterAck(v).link, axis) == Surplus(v.link, axis) + Gain(v, Success, axis)
  {
    hide AfterAck, Suffix, Total, Moving, OnAir;
    AckDrifts(v);
    AckFrame(v);
    AckBooks(v);
    AckTotal(v, axis);
  }

  lemma AckTotal(v: Vendored, axis: Axis)
    requires v.link.trip.NoTrip? && v.link.stash == [] && v.radio.Busy?
    ensures Total(Outstanding(v.link), axis) == MotionOn(v.link.fifo, axis) + Total(Outstanding(AfterAck(v).link), axis)
  {
    hide AfterAck;
    AckFrame(v);
    assert Outstanding(v.link) == v.link.fifo && Outstanding(AfterAck(v).link) == Rest(v);
    if v.link.fifo != [] {
      SumsCons(v.link.fifo, axis);
    }
  }

  lemma AckBooks(v: Vendored)
    requires Booked(v) && v.radio.Busy?
    ensures AfterAck(v).link.poolStamp == v.link.poolStamp && AfterAck(v).link.inflight == Moving(AfterAck(v).slots)
  {
    hide Noack, Started, Overrides;
    if v.slots != [] {
      SumsCons(v.slots, DX);
    }
  }

  /** The pop of a failure, before the full-check. */
  lemma PopGains(v: Vendored, heard: bool, axis: Axis)
    requires Booked(v) && Happens(v, Failure(heard, true))
    ensures var t := Popped(GivingUp(v, heard), true);
      && t.link.trip == v.link.trip && t.link.stash == v.link.stash == [] && t.link.fifo == v.link.fifo
      && t.slots == (if v.slots == [] then [] else v.slots[1..])
      && Surplus(t.link, axis) == Surplus(v.link, axis) + MotionOn(v.slots, axis)
      && PoolStamped(t.link) && t.link.inflight == Moving(t.slots)
  {
    hide Popped, Total, Moving;
    var v0 := GivingUp(v, heard);
    assert Outstanding(v0.link) == Outstanding(v.link);
    PoppedFrame(v0, true);
    PoppedBalance(v0, true, axis);
  }

  lemma GivenUpBalance(v: Vendored, heard: bool, axis: Axis)
    requires Booked(v) && Happens(v, Failure(heard, true))
    ensures Booked(AfterGivenUp(v, heard))
    ensures Surplus(AfterGivenUp(v, heard).link, axis) == Surplus(v.link, axis) + Gain(v, Failure(heard, true), axis)
  {
    hide Popped, Flushed, GivingUp, Surplus, Suffix;
    GivenUpDrifts(v, heard);
    PopGains(v, heard, axis);
    if Full(v) {
      FlushedBalance(Popped(GivingUp(v, heard), true), axis);
      SlotlessTotal(v, axis);
      assert Outstanding(v.link) == v.link.fifo;
      if v.slots != [] { SumsCons(v.slots, axis); }
    }
  }

  lemma FlushBalance(v: Vendored, axis: Axis)
    requires Booked(v) && v.link.trip.NoTrip?
    ensures Booked(Flushed(v)) && Surplus(Flushed(v).link, axis) == Surplus(v.link, axis) - Total(Slotless(v), axis)
  {
    assert Outstanding(v.link) == v.link.fifo && v.link.stash == [];
    FlushDrifts(v);
    FlushedBalance(v, axis);
    SlotlessTotal(v, axis);
    hide Flushed, Drifted, Slotless, Surplus, Outstanding;
  }

  lemma FlushDrifts(v: Vendored)
    requires Drifted(v) && v.link.trip.NoTrip?
    ensures Drifted(Flushed(v)) && Flushed(v).link.cfg == v.link.cfg
  {
    hide Flushed, Drifted;
    FlushedFrame(v);
    ApplyDrifts(v, Flush);
  }

  lemma OtherBalance(v: Vendored, e: Step, axis: Axis)
    requires Booked(v) && Happens(v, e) && !TouchesQueue(e)
    ensures Booked(After(v, e)) && Surplus(After(v, e).link, axis) == Surplus(v.link, axis)
  {
    hide AfterSend, AfterAck, AfterGivenUp, Flushed, Suffix, Moving, Total;
    ApplyDrifts(v, e);
    assert Outstanding(After(v, e).link) == Outstanding(v.link);
  }

  lemma GainsOf(v: Vendored, e: Step, axis: Axis)
    requires Drifted(v) && Happens(v, e)
    ensures e.Flush? ==> Gain(v, e, axis) == -Total(Slotless(v), axis)
    ensures e.Failure? ==> Gain(v, e, axis) == Gain(v, Failure(e.heard, true), axis)
    ensures !TouchesQueue(e) ==> Gain(v, e, axis) == 0
  {
    hide Total, Slotless;
  }

  /** What one event does to the balance, from every state a run can reach. */
  lemma ApplyGains(v: Vendored, e: Step, axis: Axis)
    requires Booked(v)
    ensures Booked(After(v, e)) && Surplus(After(v, e).link, axis) == Surplus(v.link, axis) + Gain(v, e, axis)
  {
    BookedDrifts(v);
    if Happens(v, e) {
      hide AfterSend, AfterAck, AfterGivenUp, Flushed, Booked, Surplus, Drifted, Total, Gain, Slotless;
      GainsOf(v, e, axis);
      match e
      case Send(p) => SendBalance(v, p, axis);
      case Success => AckBalance(v, axis);
      case Failure(heard, _) => GivenUpBalance(v, heard, axis);
      case Flush => FlushBalance(v, axis);
      case Hop(_, _) => OtherBalance(v, e, axis);
      case TripStart(_, _) => OtherBalance(v, e, axis);
      case TripDone(_) => OtherBalance(v, e, axis);
      case Retune(_) => OtherBalance(v, e, axis);
      case Tick(_) => OtherBalance(v, e, axis);
    }
  }

  lemma BookedDrifts(v: Vendored)
    requires Booked(v)
    ensures Drifted(v)
  {
  }

  // ---- Over whole runs ----

  ghost function Gains(v: Vendored, es: seq<Step>, axis: Axis): int
    requires Drifted(v)
    decreases |es|
  {
    if es == [] then 0 else
      ApplyDrifts(v, es[0]);
      Gain(v, es[0], axis) + Gains(After(v, es[0]), es[1..], axis)
  }

  /** The balance after any run is the sum of its events' gains, and the in-flight count is
    * that of the slots still outstanding. */
  lemma {:induction false} RunGains(v: Vendored, es: seq<Step>, axis: Axis)
    requires Booked(v)
    ensures Booked(Play(v, es)) && Surplus(Play(v, es).link, axis) == Surplus(v.link, axis) + Gains(v, es, axis)
    decreases |es|
  {
    hide After, Booked, Surplus, Gain, Drifted;
    BookedDrifts(v);
    if es != [] {
      ApplyDrifts(v, es[0]);
      ApplyGains(v, es[0], axis);
      RunGains(After(v, es[0]), es[1..], axis);
    }
  }

  /** No event of the run keeps a moving packet whose motion it refunds, flushes motion that
    * has no slot, or takes the motion of one packet for another's. */
  ghost predicate AllBalance(v: Vendored, es: seq<Step>, axis: Axis)
    requires Drifted(v)
    decreases |es|
  {
    es != [] ==> (ApplyDrifts(v, es[0]); Balances(v, es[0], axis) && AllBalance(After(v, es[0]), es[1..], axis))
  }

  ghost predicate Balances(v: Vendored, e: Step, axis: Axis)
    requires Drifted(v)
  {
    Happens(v, e) ==>
      && (Flushes(v, e) || (e.Failure? && Full(v)) ==> Total(Slotless(v), axis) == 0)
      && (e.Failure? && !Full(v) && v.slots != [] ==> MotionOf(v.slots[0]).On(axis) == 0)
      && (e.Success? && !v.radio.queued ==>
            MotionOf(v.radio.packet).On(axis) == if v.link.fifo == [] then 0 else MotionOf(v.link.fifo[0]).On(axis))
  }

  ghost predicate AlwaysBalanced(v: Vendored, es: seq<Step>, axis: Axis)
    decreases |es|
  {
    Surplus(v.link, axis) == 0 && (es != [] ==> AlwaysBalanced(After(v, es[0]), es[1..], axis))
  }

  lemma BalancesIsNoGain(v: Vendored, e: Step, axis: Axis)
    requires Drifted(v)
    ensures Balances(v, e, axis) <==> Gain(v, e, axis) == 0
  {
    hide Total;
  }

  /** Over every run from a balanced state: motion is conserved in every state if and only
    * if every event balances. */
  lemma {:induction false} BalancedExactly(v: Vendored, es: seq<Step>, axis: Axis)
    requires Booked(v) && Surplus(v.link, axis) == 0
    ensures Drifted(v) && (AlwaysBalanced(v, es, axis) <==> AllBalance(v, es, axis))
    decreases |es|
  {
    hide After, Booked, Surplus, Gain, Balances, Drifted;
    BookedDrifts(v);
    if es != [] {
      ApplyDrifts(v, es[0]);
      ApplyGains(v, es[0], axis);
      BalancesIsNoGain(v, es[0], axis);
      if Balances(v, es[0], axis) {
        BalancedExactly(After(v, es[0]), es[1..], axis);
      }
    }
  }

  lemma StartIsBooked(cfg: Config, count: nat, channel: nat, clock: nat, axis: Axis)
    requires 0 < cfg.fifoSize < 256
    ensures Booked(Start(cfg, count, channel, clock)) && Surplus(Start(cfg, count, channel, clock).link, axis) == 0
  {
  }

  /** Whenever nothing is outstanding, in any run of a session: the in-flight count is zero, and
    * what was accepted differs from what is accounted for by exactly the run's gains. */
  lemma NothingOutstanding(cfg: Config, count: nat, channel: nat, clock: nat, es: seq<Step>, axis: Axis)
    requires 0 < cfg.fifoSize < 256
    ensures var v := Start(cfg, count, channel, clock);
      var s := Play(v, es).link;
      Drifted(v) && (Outstanding(s) == [] ==>
        && s.inflight == 0
        && s.ledger.accepted.On(axis) + Gains(v, es, axis) == s.ledger.acked.On(axis) + s.pool.On(axis)
             + s.ledger.flushed.On(axis) + s.ledger.staleRefund.On(axis) + s.ledger.hopWiped.On(axis))
  {
    hide Play, Gains;
    var v := Start(cfg, count, channel, clock);
    StartIsBooked(cfg, count, channel, clock, axis);
    BookedDrifts(v);
    RunGains(v, es, axis);
    if Outstanding(Play(v, es).link) == [] { AtRest(Play(v, es)); }
  }

  lemma AtRest(v: Vendored)
    requires Booked(v) && Outstanding(v.link) == []
    ensures v.slots == [] && v.link.inflight == 0
  {
  }

  /** A failure that meets room refunds motion that is still on its way to the host: from a
    * state in step, exactly the motion of its own packet. */
  lemma MotionTwice(v: Vendored, heard: bool, axis: Axis)
    requires Booked(v) && InStep(v) && Happens(v, Failure(heard, true)) && !Full(v)
    ensures Surplus(After(v, Failure(heard, true)).link, axis) == Surplus(v.link, axis) + MotionOf(v.radio.packet).On(axis)
  {
    hide After, Surplus, Booked;
    ApplyGains(v, Failure(heard, true), axis);
    assert v.slots == v.link.fifo;
  }
}
