/** `struct esb_ip_data` and its functions as written, proved to take the steps of `Pointer`. */
module InputProcessor {
  import opened Packets
  import opened Clock32
  import opened Parking
  import opened Transport
  import opened Lane
  import Link
  import P = Pointer

  class EsbInputProcessor {
    const link: EsbTransport
    const pending: ReportLane
    const staleMs: nat
    var acc: Motion
    var accumStart: nat
    var buttons: set<nat>
    ghost var live: bool
    ghost var gains: P.Gains

    constructor (link: EsbTransport, pending: ReportLane, staleMs: nat)
      requires link.Valid() && pending.Valid() && pending.Queue() == []
      requires pending as object != link && pending !in link.Parts() && pending.buf !in link.Parts()
      ensures Valid() && View(false) == P.PoweredOn(link.View())
      ensures Limits() == P.Limits(pending.buf.Length, staleMs)
    {
      hide EsbTransport.Valid;
      this.link, this.pending, this.staleMs := link, pending, staleMs;
      acc, accumStart, buttons := STILL, 0, {};
      live, gains := false, P.Gains(STILL, STILL, STILL, STILL);
    }

    ghost predicate Valid()
      reads this, pending, link, link.Parts()
    {
      && link.Valid() && pending.Valid()
      && this as object != link && this as object != pending && pending as object != link
      && this !in link.Parts() && pending !in link.Parts() && pending.buf !in link.Parts()
    }

    ghost function View(active: bool): P.Processor
      requires pending.Valid()
      reads this, pending, pending.buf, link
    {
      P.Processor(link.View(), acc, accumStart, buttons, pending.Queue(), active, live, gains)
    }

    function Limits(): P.Limits {
      P.Limits(pending.buf.Length, staleMs)
    }

    method Deferred() returns (deferred: bool)
      ensures deferred == P.Deferred(link.View())
    {
      var quiet := link.IsQuiet();
      var full := link.PointerBackpressure();
      deferred := quiet || full;
    }

    /** The INPUT_EV_REL branch of the event handler. */
    method Accumulate(delta: P.Delta, ghost active: bool)
      requires Valid()
      modifies this`acc, this`accumStart, this`gains
      ensures View(active) == P.Accumulate(old(View(active)), delta)
    {
      if accumStart == 0 {
        accumStart := Stamp(link.clock);
      }
      acc := acc.Plus(delta.motion);
      gains := gains.(input := gains.input.Plus(delta.motion));
    }

    method AccumulateAll(late: seq<P.Delta>, ghost active: bool)
      requires Valid()
      modifies this`acc, this`accumStart, this`gains
      ensures View(active) == P.AccumulateAll(old(View(active)), late)
    {
      hide EsbTransport.Valid;
      ghost var all := P.AccumulateAll(View(active), late);
      var i := 0;
      while i < |late|
        invariant i <= |late|
        invariant P.AccumulateAll(View(active), late[i..]) == all
      {
        Accumulate(late[i], active);
        assert late[i..][1..] == late[i + 1..];
        i := i + 1;
      }
    }

    method ParkButtons(ghost active: bool)
      requires Valid()
      modifies this`live, pending, pending.buf
      ensures Valid() && View(active) == P.ParkButtons(old(View(active)), Limits())
    {
      hide EsbTransport.Valid;
      pending.Enqueue(P.ButtonsOnly(buttons));
      live := true;
    }

    method DropAccumulated(ghost active: bool)
      requires Valid()
      modifies this`acc, this`accumStart, this`gains
      ensures View(active) == P.DropStale(old(View(active)))
    {
      gains := gains.(stale := gains.stale.Plus(acc));
      acc, accumStart := STILL, 0;
    }

    method MergeBack(snap: Motion, start: nat)
      modifies this`acc, this`accumStart
      ensures acc == old(acc).Plus(snap) && accumStart == if old(accumStart) == 0 then start else old(accumStart)
    {
      acc := acc.Plus(snap);
      if accumStart == 0 {
        accumStart := start;
      }
    }

    /** Snapshot and clear, send from the copy, merge back on -EAGAIN. */
    method SendAccumulated(traffic: P.Traffic, ghost active: bool) returns (sent: bool)
      requires Valid()
      modifies this`acc, this`accumStart, this`gains, this`live, link, link.Parts()
      ensures Valid() && (View(active), sent) == P.SendAccumulated(old(View(active)), traffic)
    {
      hide EsbTransport.Valid, Link.SendPacket, Link.Run, P.AccumulateAll, P.MouseReport, Motion.Plus, Motion.Minus, Motion.Clamp;
      var start, snap, btns := accumStart, acc, buttons;
      acc, accumStart := STILL, 0;
      AccumulateAll(traffic.late, active);
      link.PerformAll(traffic.last);
      var result := link.Send(P.MouseReport(btns, snap));
      if result == Link.Again {
        MergeBack(snap, start);
        return false;
      }
      live := true;
      gains := gains.(offered := gains.offered.Plus(snap.Clamp()),
                      clamped := gains.clamped.Plus(snap.Minus(snap.Clamp())));
      return true;
    }

    /** `send_mouse_report` */
    method SendMouseReport(changed: bool, traffic: P.Traffic, ghost active: bool)
      requires Valid()
      modifies this, pending, pending.buf, link, link.Parts()
      ensures Valid() && View(active) == P.SendMouse(old(View(active)), changed, traffic, Limits())
    {
      hide EsbTransport.Valid, Drain, P.SendAccumulated, P.Deferred;
      var deferred := Deferred();
      if deferred {
        if changed {
          ParkButtons(active);
        }
        return;
      }
      var _, again := pending.DrainPending(link, traffic.gaps);
      if again {
        if changed {
          ParkButtons(active);
        }
        return;
      }
      if !changed && accumStart != 0 && Elapsed(link.clock, accumStart) > staleMs {
        DropAccumulated(active);
        return;
      }
      var sent := SendAccumulated(traffic, active);
      if !sent && changed {
        ParkButtons(active);
      }
    }

    /** `retry_work_fn` */
    method OnRetryWork(traffic: P.Traffic, ghost active: bool)
      requires Valid()
      modifies this, pending, pending.buf, link, link.Parts()
      ensures Valid() && View(active) == P.OnRetry(old(View(active)), traffic, Limits())
    {
      hide EsbTransport.Valid, Drain, P.SendAccumulated, P.Deferred;
      var deferred := Deferred();
      if deferred {
        return;
      }
      var _, again := pending.DrainPending(link, traffic.gaps);
      if again {
        return;
      }
      if accumStart == 0 || Elapsed(link.clock, accumStart) > staleMs || acc.Still() {
        DropAccumulated(active);
        return;
      }
      var _ := SendAccumulated(traffic, active);
    }

    /** `hid_resync_work_fn` calling `esb_ip_resync_cb` after the callbacks registered before it. */
    method OnResyncWork(before: seq<Link.Step>, traffic: P.Traffic, active: bool)
      requires Valid()
      modifies this, pending, pending.buf, link, link.Parts()
      ensures Valid() && View(active) == P.OnResync(old(View(active)), before, traffic, Limits())
    {
      hide EsbTransport.Valid, Drain, P.Deferred, Link.SendPacket, Link.Run;
      var kinds := link.TakeResync();
      link.PerformAll(before);
      if MOUSE !in kinds {
        return;
      }
      if !active {
        live := false;
        return;
      }
      var deferred := Deferred();
      if !deferred {
        var _, again := pending.DrainPending(link, traffic.gaps);
        if !again {
          link.PerformAll(traffic.last);
          var result := link.Send(P.ButtonsOnly(buttons));
          if result != Link.Again {
            live := true;
            return;
          }
        }
      }
      ParkButtons(active);
    }

    /** `esb_ip_handle_event` */
    method OnInputEvent(event: P.Event, traffic: P.Traffic, active: bool)
      requires Valid()
      modifies this, pending, pending.buf, link, link.Parts()
      ensures Valid() && View(active) == P.OnInput(old(View(active)), event, traffic, Limits())
    {
      hide EsbTransport.Valid, P.SendMouse;
      if !active {
        return;
      }
      var changed := false;
      match event {
        case Rel(delta, _) =>
          Accumulate(delta, active);
        case Button(number, pressed, _) =>
          if number <= 4 {
            var before := buttons;
            buttons := if pressed then buttons + {number} else buttons - {number};
            changed := buttons != before;
          }
        case Other(_) =>
      }
      if event.sync || changed {
        SendMouseReport(changed, traffic, active);
      }
    }
  }
}
