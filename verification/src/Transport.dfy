/** src/esb/esb_transport.c as it is written: fields updated in place, three rings,
  * an explicit in-flight counter. Every method is proved to take the step of `Link`
  * it is named after; lockstep of rings and FIFO is part of `Valid`. */
module Transport {
  import opened Packets
  import opened Clock32
  import opened SendRing
  import opened SendRings
  import Link

  class EsbTransport {
    const cfg: Config
    const rings: Rings

    // The radio library: TX FIFO, parked FIFO and current retransmit count.
    var fifo: seq<Payload>
    var stash: seq<Payload>
    var retransmit: nat

    var steady: nat
    var channel: nat
    var trip: Link.Trip
    var pool: Motion
    var poolStamp: nat
    var inflight: nat
    var resync: set<Kind>
    var quietUntil: nat
    var clock: nat

    // What the other side saw, and where motion went.
    ghost var host: seq<Payload>
    ghost var ledger: Link.Ledger

    ghost function View(): Link.State
      reads this
    {
      Link.State(cfg, fifo, stash, trip, retransmit, steady, channel, pool, poolStamp, inflight,
                 resync, quietUntil, clock, host, ledger)
    }

    ghost function Parts(): set<object> {
      rings.Parts()
    }

    ghost predicate Valid()
      reads this, Parts()
    {
      && Link.WellFormed(View())
      && rings.cfg == cfg
      && this !in Parts()
      && rings.Describe(Link.Outstanding(View()))
    }

    /** Whatever the ring sizes, a session starts empty; the rings can be kept in step with the
      * FIFO exactly if they can hold a full one. */
    constructor (cfg: Config, noackSize: nat, criticalSize: nat, motionSize: nat,
                 count: nat, channel: nat, clock: nat)
      requires cfg.fifoSize > 0
      requires 0 < noackSize < 0x100 && 0 < criticalSize < 0x100 && 0 < motionSize < 0x1_0000_0000
      ensures fresh(Parts())
      ensures Valid() <==> SafeSizes(cfg, noackSize, criticalSize, motionSize)
      ensures View() == Link.Fresh(cfg, count, channel, clock)
    {
      this.cfg := cfg;
      rings := new Rings(cfg, noackSize, criticalSize, motionSize);
      fifo, stash, retransmit, steady := [], [], count, count;
      this.channel, trip, pool, poolStamp, inflight := channel, Link.NoTrip, STILL, 0, 0;
      resync, quietUntil, this.clock := {}, 0, clock;
      host, ledger := [], Link.NOTHING;
    }

    method IsQuiet() returns (quiet: bool)
      ensures quiet == Link.Quiet(View())
    {
      if trip.Waiting? {
        return true;
      }
      if quietUntil != 0 && Ahead(quietUntil, clock) {
        return true;
      }
      return false;
    }

    method PointerBackpressure() returns (full: bool)
      ensures full == Link.Backpressure(View())
    {
      full := inflight >= cfg.inflightCap;
    }

    /** `tx_bookkeeping_resync`: forget the slots of packets the radio dropped. */
    method BookkeepingResync(ghost gone: seq<Payload>)
      requires rings.cfg == cfg && this !in Parts() && rings.Describe(gone)
      modifies this`resync, this`inflight, this`retransmit, Parts()
      ensures rings.Describe([])
      ensures resync == old(resync) + Link.Kinds(cfg, gone) && inflight == 0 && retransmit == steady
    {
      var kinds := rings.HarvestKinds(gone);
      if kinds != {} {
        resync := resync + kinds;
      }
      rings.Forget();
      inflight := 0;
      retransmit := steady;
    }

    /** `esb_flush_tx_and_reset`; no side-trip is running. */
    method FlushTx()
      requires Valid() && trip.NoTrip?
      modifies this, Parts()
      ensures Valid() && View() == Link.DropAll(old(View()))
    {
      hide Rings.Describe, Link.TotalMotion, Link.Kinds;
      ghost var before := View();
      ghost var gone := Link.Outstanding(View());
      fifo := [];
      BookkeepingResync(gone);
      ledger := ledger.(flushed := ledger.flushed.Plus(Link.TotalMotion(gone)));
      assert Link.Outstanding(View()) == [];
      assert View() == Link.DropAll(before);
    }

    /** `motion_refund_apply` on the motion `m` of an outgoing mouse report. */
    method RefundApply(m: Motion) returns (out: Motion)
      modifies this`pool, this`poolStamp, this`ledger
      ensures forall p :: IsMouse(p) && MotionOf(p) == m ==>
        (View(), WithMotion(p, out)) == Link.ApplyRefund(old(View()), p)
    {
      if poolStamp != 0 {
        var age := Elapsed(clock, poolStamp);
        if age >= cfg.refundStaleMs {
          ledger := ledger.(staleRefund := ledger.staleRefund.Plus(pool));
          pool, poolStamp := STILL, 0;
          return m;
        }
      }
      if pool.Still() {
        return m;
      }
      var total := m.Plus(pool);
      out := Motion(Sat16(total.dx), Sat16(total.dy), Sat16(total.sx), Sat16(total.sy));
      pool := total.Minus(out);
      if pool.Still() {
        poolStamp := 0;
      }
    }

    /** `esb_transport_send` */
    method Send(packet: Payload) returns (result: Link.Result)
      requires Valid()
      modifies this, Parts()
      ensures Valid() && (View(), result) == Link.SendPacket(old(View()), packet)
    {
      if trip.Waiting? {
        return Link.Again;
      }
      if quietUntil != 0 {
        if Ahead(quietUntil, clock) {
          return Link.Again;
        }
        quietUntil := 0;
      }
      if |fifo| >= cfg.fifoSize {
        if IsShell(packet) {
          return Link.NoMemory;
        }
        FlushTx();
      }
      WritePacket(packet);
      return Link.Accepted;
    }

    /** The part of a send before the FIFO write: overrides, refund, in-flight count. */
    method PreparePacket(packet: Payload) returns (out: Payload, lowered: bool)
      modifies this`retransmit, this`pool, this`poolStamp, this`ledger, this`inflight
      ensures var (ready, sent) := Link.Prepare(old(View()), packet);
        && out == sent && lowered == LowersRetransmit(cfg, out)
        && View() == ready.(inflight := Link.Write(ready, packet, out).inflight)
    {
      out, lowered := packet, false;
      if IsCritical(packet) {
        retransmit := cfg.criticalCount;
      }
      if IsMouse(packet) {
        var motion := RefundApply(packet.report.motion);
        out := WithMotion(packet, motion);
        lowered := !motion.Still() && out.report.buttons == {} && !Noack(cfg, packet);
        if lowered {
          retransmit := cfg.pointerCount;
        }
        if !motion.Still() && inflight < 255 {
          inflight := inflight + 1;
        }
      }
    }

    method WritePacket(packet: Payload)
      requires Valid() && trip.NoTrip? && |fifo| < cfg.fifoSize
      modifies this, Parts()
      ensures Valid()
      ensures var (ready, out) := Link.Prepare(old(View()), packet); View() == Link.Write(ready, packet, out)
    {
      hide Rings.Describe;
      ghost var before := View();
      assert Link.Outstanding(before) == fifo;
      var out, lowered := PreparePacket(packet);
      rings.Push(Noack(cfg, packet), IsCritical(packet),
                 MotionRecord(MotionOf(out), lowered, KindOf(cfg, packet)), before.fifo, out);
      fifo := fifo + [out];
      ledger := ledger.(accepted := ledger.accepted.Plus(MotionOf(packet)));
      assert Link.Outstanding(View()) == fifo;
    }

    /** What the popped slots ask for: counts, refund, resync request, restored retransmit count. */
    method SettleRecord(failed: bool, isCritical: bool, record: MotionRecord, ghost p: Payload)
      requires isCritical == IsCritical(p) && record == RecordOf(cfg, p)
      modifies this`retransmit, this`inflight, this`pool, this`poolStamp, this`resync
      ensures var s := Link.Settle(old(View()), p); View() == if failed then Link.Refund(s, p) else s
    {
      hide Link.Kinds;
      KindsOne(cfg, p);
      if isCritical || record.overrode {
        retransmit := steady;
      }
      if !record.motion.Still() {
        SettleMotion(failed, record.motion);
      }
      if failed && record.kind != NoKind {
        resync := resync + {record.kind};
      }
    }

    /** `motion_ring_consume` for a record that carries motion. */
    method SettleMotion(failed: bool, motion: Motion)
      modifies this`inflight, this`pool, this`poolStamp
      ensures inflight == if old(inflight) > 0 then old(inflight) - 1 else 0
      ensures if failed then pool == old(pool).Plus(motion) && poolStamp == if old(poolStamp) == 0 then Stamp(clock) else old(poolStamp)
              else pool == old(pool) && poolStamp == old(poolStamp)
    {
      if inflight > 0 {
        inflight := inflight - 1;
      }
      if failed {
        pool := pool.Plus(motion);
        if poolStamp == 0 {
          poolStamp := Stamp(clock);
        }
      }
    }

    /** The ring pops shared by both TX events; the result says whether the event
      * counts towards link quality. */
    method Consume(failed: bool) returns (counted: bool)
      requires Valid() && trip.NoTrip? && fifo != []
      modifies this, Parts()
      ensures Valid() && counted == !Noack(cfg, old(fifo)[0])
      ensures var s := Link.Settle(old(View()), old(fifo)[0]);
        View() == (if failed then Link.Refund(s, s.fifo[0]) else s).(fifo := s.fifo[1..])
    {
      hide Rings.Describe;
      ghost var p := fifo[0];
      assert Link.Outstanding(View()) == fifo;
      var isNoack, isCritical, record := rings.Pop(fifo);
      SettleRecord(failed, isCritical, record, p);
      fifo := fifo[1..];
      assert Link.Outstanding(View()) == fifo;
      counted := !isNoack;
    }

    /** ESB_EVENT_TX_SUCCESS outside a side-trip. */
    method OnTxSuccess() returns (counted: bool)
      requires Valid() && trip.NoTrip? && fifo != []
      modifies this, Parts()
      ensures Valid() && View() == Link.TxSuccess(old(View())) && counted == !Noack(cfg, old(fifo)[0])
    {
      ghost var p := fifo[0];
      counted := Consume(false);
      host := host + [p];
      ledger := ledger.(acked := ledger.acked.Plus(MotionOf(p)));
    }

    /** ESB_EVENT_TX_FAILED outside a side-trip. */
    method OnTxFailed(ghost heard: bool, lingers: bool)
      requires Valid() && trip.NoTrip? && fifo != []
      modifies this, Parts()
      ensures Valid() && View() == Link.TxFailure(old(View()), heard, lingers)
    {
      hide Rings.Describe, Link.TotalMotion, Link.Kinds;
      ghost var before := View();
      ghost var p := fifo[0];
      var _ := Consume(true);
      if heard {
        host := host + [p];
        ledger := ledger.(duplicated := ledger.duplicated.Plus(MotionOf(p)));
      }
      assert View() == Link.PopFailed(before, heard);
      var held := |fifo| + (if lingers then 1 else 0);
      if held >= cfg.fifoSize {
        FlushTx();
      }
    }

    /** `esb_restore_tx_or_drop`: put the parked packets back in front, or give
      * them up when they no longer fit. */
    method RestoreOrDrop()
      requires rings.cfg == cfg && this !in Parts() && rings.Describe(stash)
      modifies this`fifo, this`stash, this`resync, this`inflight, this`retransmit, Parts()
      ensures stash == []
      ensures |old(stash)| + |old(fifo)| <= cfg.fifoSize ==>
        && fifo == old(stash) + old(fifo) && rings.Describe(old(stash))
        && resync == old(resync) && inflight == old(inflight) && retransmit == old(retransmit)
      ensures |old(stash)| + |old(fifo)| > cfg.fifoSize ==>
        && fifo == old(fifo) && rings.Describe([])
        && resync == old(resync) + Link.Kinds(cfg, old(stash)) && inflight == 0 && retransmit == steady
    {
      if |stash| + |fifo| > cfg.fifoSize {
        BookkeepingResync(stash);
      } else {
        fifo := stash + fifo;
      }
      stash := [];
    }

    /** `esb_transport_set_channel`; `tuned` is the radio accepting the retune. The
      * parked packets always fit back, so nothing outstanding is lost by a hop. */
    method SetChannel(target: nat, tuned: bool) returns (ok: bool)
      requires Valid() && trip.NoTrip?
      modifies this, Parts()
      ensures Valid() && ok == tuned
      ensures View() == if tuned then Link.HopTo(old(View()), target) else old(View())
    {
      hide Rings.Describe, Link.Kinds, Link.HopTo;
      ghost var before := View();
      assert Link.Outstanding(before) == fifo;
      stash, fifo := fifo, [];
      RestoreOrDrop();
      assert Link.Outstanding(View()) == fifo;
      assert View() == before;
      if !tuned {
        return false;
      }
      ForgetOldChannel(target);
      return true;
    }

    /** The channel-dependent state after a retune that went through. */
    method ForgetOldChannel(target: nat)
      requires Valid() && trip.NoTrip?
      modifies this`channel, this`ledger, this`pool, this`poolStamp, this`quietUntil
      ensures Valid() && View() == Link.HopTo(old(View()), target)
    {
      hide Rings.Describe;
      channel := target;
      ledger := ledger.(hopWiped := ledger.hopWiped.Plus(pool));
      pool, poolStamp := STILL, 0;
      quietUntil := Stamp((clock + cfg.postQuietMs) % WORD);
      assert Link.Outstanding(View()) == old(Link.Outstanding(View()));
    }

    /** First half of `esb_transport_send_blocking`, up to the wait. */
    method TripStart(packet: Payload, tuned: bool) returns (waiting: bool)
      requires Valid() && trip.NoTrip?
      modifies this, Parts()
      ensures Valid() && waiting == tuned
      ensures View() == Link.Apply(old(View()), Link.TripStart(packet, tuned))
    {
      hide Rings.Describe, Link.Kinds;
      ghost var before := View();
      assert Link.Outstanding(before) == fifo;
      stash, fifo := fifo, [];
      if !tuned {
        RestoreOrDrop();
        assert View() == before;
        return false;
      }
      trip := Link.Waiting(packet);
      fifo := [packet];
      assert Link.Outstanding(View()) == stash;
      return true;
    }

    /** The TX event of a side-trip's packet and the waiter's return: the packet is
      * gone (acknowledged, or failed and flushed bare), the rings are not touched,
      * and the parked packets go back in front. */
    method TripDone(success: bool) returns (ok: bool)
      requires Valid() && trip.Waiting?
      modifies this, Parts()
      ensures Valid() && ok == success
      ensures View() == Link.Apply(old(View()), Link.TripDone(success))
    {
      hide Rings.Describe, Link.Kinds;
      assert Link.Outstanding(View()) == stash;
      fifo, trip := [], Link.NoTrip;
      RestoreOrDrop();
      assert Link.Outstanding(View()) == fifo;
      return success;
    }

    /** `adaptive_retry_work_fn` with its computed target; a busy radio refuses the count. */
    method AdaptiveRetry(want: nat, taken: bool)
      requires Valid()
      modifies this`retransmit, this`steady
      ensures Valid() && View() == if taken then Link.Apply(old(View()), Link.Retune(want)) else old(View())
    {
      hide Rings.Describe;
      if want != steady && taken {
        retransmit := want;
        steady := want;
      }
      assert Link.Outstanding(View()) == old(Link.Outstanding(View()));
    }

    method SetClock(now: nat)
      requires Valid()
      modifies this`clock
      ensures Valid() && View() == Link.Apply(old(View()), Link.Tick(now))
    {
      clock := now % WORD;
      assert Link.Outstanding(View()) == old(Link.Outstanding(View()));
    }

    /** `hid_resync_work_fn` fetching and clearing the mask. */
    method TakeResync() returns (kinds: set<Kind>)
      requires Valid()
      modifies this`resync
      ensures Valid() && kinds == old(resync) && View() == old(View()).(resync := {})
    {
      kinds := resync;
      resync := {};
      assert Link.Outstanding(View()) == old(Link.Outstanding(View()));
    }

    /** One event of the environment; one that cannot happen now is skipped. */
    method Perform(step: Link.Step)
      requires Valid()
      modifies this, Parts()
      ensures Valid() && View() == Link.Apply(old(View()), step)
    {
      match step
      case Send(packet) => var _ := Send(packet);
      case Success => if trip.NoTrip? && fifo != [] { var _ := OnTxSuccess(); }
      case Failure(heard, lingers) => if trip.NoTrip? && fifo != [] { OnTxFailed(heard, lingers); }
      case Flush => if trip.NoTrip? { FlushTx(); }
      case Hop(target, tuned) => if trip.NoTrip? { var _ := SetChannel(target, tuned); }
      case TripStart(packet, tuned) => if trip.NoTrip? { var _ := TripStart(packet, tuned); }
      case TripDone(success) => if trip.Waiting? { var _ := TripDone(success); }
      case Retune(count) => AdaptiveRetry(count, true);
      case Tick(now) => SetClock(now);
    }

    method PerformAll(steps: seq<Link.Step>)
      requires Valid()
      modifies this, Parts()
      ensures Valid() && View() == Link.Run(old(View()), steps)
    {
      var i := 0;
      while i < |steps|
        invariant i <= |steps| && Valid()
        invariant Link.Run(View(), steps[i..]) == Link.Run(old(View()), steps)
      {
        Perform(steps[i]);
        assert steps[i..][1..] == steps[i + 1..];
        i := i + 1;
      }
    }
  }

  lemma KindsOne(cfg: Config, p: Payload)
    ensures Link.Kinds(cfg, [p]) == {KindOf(cfg, p)} - {NoKind}
  {
  }
}
