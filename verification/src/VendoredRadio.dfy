/** The radio library the build compiles in (vendor/nrf-esb/subsys/esb.c) under the
  * transport's event handler (src/esb/esb_transport.c). `Link` takes the contract the
  * transport's own comments state. The library keeps less than that:
  *
  * - a payload whose retransmits ran out stays at the front of the FIFO and goes on the
  *   air again with the next write, although the handler has popped its ring slots;
  * - a flush does not stop the packet on the air: its event still comes, and if it was
  *   acknowledged the library removes whatever is then at the front of the FIFO;
  * - the retransmit count can be set only while the radio is idle, and after an
  *   acknowledgement the next packet is on the air before the handler runs.
  *
  * This module gives the machine, the shape every state keeps, and when the two agree. */
module VendoredRadio {
  import opened Packets
  import opened Link

  /** `Hot` is the carrier kept up after an unacknowledged packet emptied the FIFO. A packet
    * on the air is `queued` while it is also the front of the FIFO. */
  datatype Radio = Idle | Hot | Busy(packet: Payload, queued: bool)

  /** `slots` are the packets the outstanding ring slots were pushed for, oldest first, and
    * `count` is the radio's retransmit count; `link.retransmit` is what it is meant to be. */
  datatype Vendored = Vendored(link: State, slots: seq<Payload>, radio: Radio, count: nat)

  function Start(cfg: Config, count: nat, channel: nat, clock: nat): Vendored {
    Vendored(Fresh(cfg, count, channel, clock), [], Idle, count)
  }

  /** `esb_set_retransmit_count`, whose refusal every caller ignores. */
  function Set(v: Vendored, count: nat): Vendored {
    if v.radio.Idle? then v.(count := count) else v
  }

  function Started(fifo: seq<Payload>): Radio {
    if fifo == [] then Idle else Busy(fifo[0], true)
  }

  /** A flush with its resync: the kinds come from the slots, not from the packets. */
  function Flushed(v: Vendored): Vendored {
    var s := v.link;
    var t := s.(fifo := [], inflight := 0, retransmit := s.steady, resync := s.resync + Kinds(s.cfg, v.slots),
                ledger := s.ledger.(flushed := s.ledger.flushed.Plus(TotalMotion(v.slots))));
    var radio := if v.radio.Busy? then v.radio.(queued := false) else v.radio;
    Set(Vendored(t, [], radio, v.count), s.steady)
  }

  /** The ring pops of one TX event; an empty ring pops nothing. */
  function Popped(v: Vendored, failed: bool): Vendored {
    if v.slots == [] then v else
      var p := v.slots[0];
      var s := Settle(v.link, p);
      var v1 := v.(link := if failed then Refund(s, p) else s, slots := v.slots[1..]);
      if Overrides(s.cfg, p) then Set(v1, s.steady) else v1
  }

  predicate Full(v: Vendored) { |v.link.fifo| >= v.link.cfg.fifoSize }

  /** A send that gets as far as the write. */
  predicate Admits(v: Vendored, p: Payload) {
    !Quiet(v.link) && !(Full(v) && IsShell(p))
  }

  function Emptied(v: Vendored): Vendored {
    var cleared := v.(link := v.link.(quietUntil := 0));
    if Full(v) then Flushed(cleared) else cleared
  }

  /** The count a packet asks for. */
  function Wanted(cfg: Config, out: Payload): nat
    requires Overrides(cfg, out)
  {
    if IsCritical(out) then cfg.criticalCount else cfg.pointerCount
  }

  function AfterSend(v: Vendored, p: Payload): Vendored {
    if !Admits(v, p) then v.(link := SendPacket(v.link, p).0) else
      var v1 := Emptied(v);
      var (ready, out) := Prepare(v1.link, p);
      var v2 := if Overrides(v.link.cfg, out) then Set(v1, Wanted(v.link.cfg, out)) else v1;
      var t := Write(ready, p, out);
      Vendored(t, v1.slots + [out], if v1.radio.Busy? then v1.radio else Started(t.fifo), v2.count)
  }

  function Rest(v: Vendored): seq<Payload> {
    if v.link.fifo == [] then [] else v.link.fifo[1..]
  }

  /** The packet on the air was acknowledged: the front of the FIFO leaves, the next packet
    * starts, and only then does the handler run. */
  function AfterAck(v: Vendored): Vendored
    requires v.radio.Busy?
  {
    var s, p, rest := v.link, v.radio.packet, Rest(v);
    var radio := if rest == [] && Noack(s.cfg, p) then Hot else Started(rest);
    Popped(v.(link := s.(fifo := rest, host := s.host + [p], ledger := s.ledger.(acked := s.ledger.acked.Plus(MotionOf(p)))),
              radio := radio), false)
  }

  /** The packet on the air ran out of retransmits: the FIFO stays as it is, and only a full
    * one is flushed. */
  function AfterGivenUp(v: Vendored, heard: bool): Vendored
    requires v.radio.Busy?
  {
    var v1 := Popped(GivingUp(v, heard), true);
    if Full(v) then Flushed(v1) else v1
  }

  /** Which events the library and the callers allow. An unacknowledged packet cannot fail,
    * and a side-trip or a new count is refused by a radio that is not idle. */
  predicate Happens(v: Vendored, e: Step) {
    match e
    case Send(_) => true
    case Success => v.link.trip.NoTrip? && v.radio.Busy?
    case Failure(_, _) => v.link.trip.NoTrip? && v.radio.Busy? && !Noack(v.link.cfg, v.radio.packet)
    case Flush => v.link.trip.NoTrip?
    case Hop(_, _) => v.link.trip.NoTrip?
    case TripStart(_, tuned) => v.link.trip.NoTrip? && (tuned ==> v.radio.Idle?)
    case TripDone(_) => v.link.trip.Waiting?
    case Retune(_) => v.radio.Idle?
    case Tick(_) => true
  }

  /** One event; whether a failed packet lingers is settled here, so that part of a failure
    * is ignored. */
  function After(v: Vendored, e: Step): Vendored {
    if !Happens(v, e) then v else
    match e
    case Send(p) => AfterSend(v, p)
    case Success => AfterAck(v)
    case Failure(heard, _) => AfterGivenUp(v, heard)
    case Flush => Flushed(v)
    case Hop(channel, tuned) => if tuned then v.(link := HopTo(v.link, channel), radio := Idle) else v
    case TripStart(p, tuned) => if tuned then v.(link := Link.Apply(v.link, e), radio := Busy(p, true)) else v
    case TripDone(_) => v.(link := Link.Apply(v.link, e), radio := Started(v.link.stash))
    case Retune(count) => if count != v.link.steady then v.(link := Link.Apply(v.link, e), count := count) else v
    case Tick(_) => v.(link := Link.Apply(v.link, e))
  }

  function Play(v: Vendored, es: seq<Step>): Vendored
    decreases |es|
  {
    if es == [] then v else Play(After(v, es[0]), es[1..])
  }

  lemma {:induction false} RunSplit(v: Vendored, es: seq<Step>, more: seq<Step>)
    ensures Play(v, es + more) == Play(Play(v, es), more)
    decreases |es|
  {
    hide After;
    if es == [] {
      assert es + more == more;
    } else {
      RunSplit(After(v, es[0]), es[1..], more);
      assert (es + more)[1..] == es[1..] + more;
    }
  }

  // ---- What every state keeps ----

  /** The slots are those of the youngest outstanding packets: a failure or an early
    * acknowledgement pops a slot too many, never one too few. */
  ghost predicate Drifted(v: Vendored) {
    && WellFormed(v.link)
    && Suffix(v.slots, Outstanding(v.link))
    && OnAir(v)
  }

  predicate Suffix(a: seq<Payload>, b: seq<Payload>) {
    |a| <= |b| && a == b[|b| - |a|..]
  }

  /** What the radio is sending. */
  ghost predicate OnAir(v: Vendored) {
    && (v.link.trip.Waiting? ==> v.radio == Busy(v.link.trip.packet, true))
    && (v.link.trip.NoTrip? && v.radio.Busy? && v.radio.queued ==> v.link.fifo != [] && v.link.fifo[0] == v.radio.packet)
  }

  /** Outstanding packets whose slots are gone. */
  ghost function Slotless(v: Vendored): seq<Payload>
    requires Drifted(v)
  {
    Outstanding(v.link)[..|Outstanding(v.link)| - |v.slots|]
  }

  lemma SlotlessThenSlots(v: Vendored)
    requires Drifted(v)
    ensures Outstanding(v.link) == Slotless(v) + v.slots
  {
  }

  /** What the pops leave alone. */
  lemma PoppedFrame(v: Vendored, failed: bool)
    ensures var t := Popped(v, failed);
      && t.link == v.link.(retransmit := t.link.retransmit, inflight := t.link.inflight, pool := t.link.pool,
                           poolStamp := t.link.poolStamp, resync := t.link.resync)
      && t.radio == v.radio && t.slots == (if v.slots == [] then [] else v.slots[1..])
  {
  }

  lemma FlushedFrame(v: Vendored)
    ensures var t := Flushed(v);
      && t.link == v.link.(fifo := [], inflight := 0, retransmit := v.link.steady, resync := t.link.resync, ledger := t.link.ledger)
      && t.slots == [] && (t.radio == if v.radio.Busy? then Busy(v.radio.packet, false) else v.radio)
  {
  }

  /** The packet as it goes out. */
  function Out(v: Vendored, p: Payload): Payload { Prepare(Emptied(v).link, p).1 }

  lemma SendFrame(v: Vendored, p: Payload)
    requires Admits(v, p)
    ensures var t, kept := AfterSend(v, p), Emptied(v);
      && t.link.fifo == kept.link.fifo + [Out(v, p)] && t.slots == kept.slots + [Out(v, p)]
      && t.radio == (if kept.radio.Busy? then kept.radio else Started(t.link.fifo))
      && t.link.stash == kept.link.stash && t.link.trip == kept.link.trip && t.link.cfg == kept.link.cfg
      && t.link.host == kept.link.host && t.link.resync == kept.link.resync && t.link.steady == kept.link.steady
      && t.link.quietUntil == 0
  {
    hide Prepare, Emptied, Started;
    PrepareFrame(Emptied(v).link, p);
    EmptiedFrame(v);
  }

  lemma EmptiedFrame(v: Vendored)
    ensures var t := Emptied(v);
      && t.link.fifo == (if Full(v) then [] else v.link.fifo) && t.slots == (if Full(v) then [] else v.slots)
      && t.radio == (if Full(v) && v.radio.Busy? then Busy(v.radio.packet, false) else v.radio)
      && t.link.stash == v.link.stash && t.link.trip == v.link.trip && t.link.cfg == v.link.cfg
      && t.link.host == v.link.host && t.link.steady == v.link.steady && t.link.quietUntil == 0
      && t.link.resync == (if Full(v) then v.link.resync + Kinds(v.link.cfg, v.slots) else v.link.resync)
  {
    hide Kinds, TotalMotion;
  }

  lemma EmptiedDrifts(v: Vendored)
    requires Drifted(v) && v.link.trip.NoTrip?
    ensures Drifted(Emptied(v)) && Emptied(v).link.cfg == v.link.cfg && !Full(Emptied(v))
    ensures InStep(v) ==> Emptied(v).slots == Outstanding(Emptied(v).link)
  {
    hide Emptied;
    EmptiedFrame(v);
    assert Outstanding(v.link) == v.link.fifo && Outstanding(Emptied(v).link) == Emptied(v).link.fifo;
  }

  lemma SuffixPush(a: seq<Payload>, b: seq<Payload>, p: Payload)
    requires Suffix(a, b)
    ensures Suffix(a + [p], b + [p]) && (a == b <==> a + [p] == b + [p])
  {
    assert (b + [p])[|b| - |a|..] == b[|b| - |a|..] + [p];
    assert a == (a + [p])[..|a|] && b == (b + [p])[..|b|];
  }

  /** A packet with its slot goes behind those that are there. */
  lemma PushDrifts(v: Vendored, t: Vendored, out: Payload)
    requires Drifted(v) && v.link.trip.NoTrip? && !Full(v)
    requires t.link.fifo == v.link.fifo + [out] && t.slots == v.slots + [out]
    requires t.radio == if v.radio.Busy? then v.radio else Started(t.link.fifo)
    requires t.link.stash == v.link.stash && t.link.trip == v.link.trip && t.link.cfg == v.link.cfg
    ensures Drifted(t) && (v.slots == Outstanding(v.link) <==> t.slots == Outstanding(t.link))
  {
    hide Suffix;
    assert Outstanding(v.link) == v.link.fifo && Outstanding(t.link) == t.link.fifo;
    SuffixPush(v.slots, v.link.fifo, out);
  }

  lemma SendDrifts(v: Vendored, p: Payload)
    requires Drifted(v)
    ensures Drifted(AfterSend(v, p)) && AfterSend(v, p).link.cfg == v.link.cfg
  {
    hide AfterSend, Emptied, Out, SendPacket, Drifted;
    if Admits(v, p) {
      AdmittedNoTrip(v, p);
      EmptiedDrifts(v);
      EmptiedFrame(v);
      SendFrame(v, p);
      PushDrifts(Emptied(v), AfterSend(v, p), Out(v, p));
    } else {
      RefusedFrame(v, p);
      RefusedSend(v, p);
      SameDrift(v, AfterSend(v, p));
    }
  }

  lemma AdmittedNoTrip(v: Vendored, p: Payload)
    requires Admits(v, p)
    ensures v.link.trip.NoTrip?
  {
  }

  lemma SameDrift(v: Vendored, t: Vendored)
    requires Drifted(v) && t == v.(link := v.link.(quietUntil := t.link.quietUntil))
    ensures Drifted(t) && (InStep(v) <==> InStep(t))
  {
    assert Outstanding(v.link) == Outstanding(t.link);
  }

  lemma RefusedSend(v: Vendored, p: Payload)
    requires !Admits(v, p)
    ensures AfterSend(v, p) == v.(link := SendPacket(v.link, p).0)
  {
    hide SendPacket;
  }

  lemma PrepareFrame(s: State, p: Payload)
    ensures var (t, out) := Prepare(s, p);
      t == s.(retransmit := t.retransmit, pool := t.pool, poolStamp := t.poolStamp, ledger := t.ledger)
  {
  }

  lemma RefusedFrame(v: Vendored, p: Payload)
    requires !Admits(v, p)
    ensures var t := SendPacket(v.link, p).0; t == v.link.(quietUntil := t.quietUntil)
  {
    hide DropAll, Prepare, Write;
  }

  lemma AckFrame(v: Vendored)
    requires v.radio.Busy?
    ensures var t, s := AfterAck(v), v.link;
      && t.link.fifo == Rest(v) && t.slots == (if v.slots == [] then [] else v.slots[1..])
      && t.radio == (if Rest(v) == [] && Noack(s.cfg, v.radio.packet) then Hot else Started(Rest(v)))
      && t.link.stash == s.stash && t.link.trip == s.trip && t.link.cfg == s.cfg && t.link.steady == s.steady
      && t.link.resync == s.resync && t.link.pool == s.pool && t.link.quietUntil == s.quietUntil && t.link.host == s.host + [v.radio.packet]
      && t.link.ledger == s.ledger.(acked := s.ledger.acked.Plus(MotionOf(v.radio.packet)))
  {
    hide Noack, Started, Overrides;
  }

  lemma SuffixTail(a: seq<Payload>, b: seq<Payload>)
    requires Suffix(a, b) && b != []
    ensures Suffix(if a == [] then [] else a[1..], b[1..])
  {
  }

  lemma AckDrifts(v: Vendored)
    requires Drifted(v) && Happens(v, Success)
    ensures Drifted(AfterAck(v)) && AfterAck(v).link.cfg == v.link.cfg
  {
    hide AfterAck, Suffix;
    AckFrame(v);
    assert Outstanding(v.link) == v.link.fifo && Outstanding(AfterAck(v).link) == Rest(v);
    if v.link.fifo == [] {
      assert v.slots == [] by { EmptySuffix(v.slots); }
    } else {
      SuffixTail(v.slots, v.link.fifo);
    }
  }

  lemma EmptySuffix(a: seq<Payload>)
    requires Suffix(a, [])
    ensures a == []
  {
  }

  /** The state the handler sees a failure in. */
  function GivingUp(v: Vendored, heard: bool): Vendored
    requires v.radio.Busy?
  {
    v.(link := if heard then Heard(v.link, v.radio.packet) else v.link, radio := Idle)
  }

  lemma GivenUpFrame(v: Vendored, heard: bool)
    requires v.radio.Busy?
    ensures var t := AfterGivenUp(v, heard);
      && t.link.fifo == (if Full(v) then [] else v.link.fifo)
      && t.slots == (if Full(v) || v.slots == [] then [] else v.slots[1..])
      && t.radio == Idle && t.link.stash == v.link.stash && t.link.trip == v.link.trip && t.link.cfg == v.link.cfg
      && t.link.steady == v.link.steady && t.link.host == (if heard then v.link.host + [v.radio.packet] else v.link.host)
      && t.link.quietUntil == v.link.quietUntil
  {
    hide Popped, Flushed;
    var v0 := GivingUp(v, heard);
    PoppedFrame(v0, true);
    FlushedFrame(Popped(v0, true));
  }

  lemma GivenUpDrifts(v: Vendored, heard: bool)
    requires Drifted(v) && Happens(v, Failure(heard, true))
    ensures Drifted(AfterGivenUp(v, heard)) && AfterGivenUp(v, heard).link.cfg == v.link.cfg
  {
    hide AfterGivenUp;
    GivenUpFrame(v, heard);
    assert Outstanding(AfterGivenUp(v, heard).link) == AfterGivenUp(v, heard).link.fifo;
    assert Outstanding(v.link) == v.link.fifo;
  }

  lemma ApplyDrifts(v: Vendored, e: Step)
    requires Drifted(v)
    ensures Drifted(After(v, e)) && After(v, e).link.cfg == v.link.cfg
  {
    hide AfterSend, AfterAck, AfterGivenUp, Flushed;
    if Happens(v, e) {
      match e
      case Send(p) => SendDrifts(v, p);
      case Success => AckDrifts(v);
      case Failure(heard, _) => GivenUpDrifts(v, heard);
      case Flush => FlushedFrame(v);
      case Hop(_, _) =>
      case TripStart(_, _) => assert Outstanding(After(v, e).link) == Outstanding(v.link);
      case TripDone(_) => assert Outstanding(After(v, e).link) == Outstanding(v.link);
      case Retune(_) => assert Outstanding(After(v, e).link) == Outstanding(v.link);
      case Tick(_) => assert Outstanding(After(v, e).link) == Outstanding(v.link);
    }
  }

  /** In every state of every run the ring slots describe a suffix of what is outstanding. */
  lemma {:induction false} RunDrifts(v: Vendored, es: seq<Step>)
    requires Drifted(v)
    ensures Drifted(Play(v, es)) && Play(v, es).link.cfg == v.link.cfg
    decreases |es|
  {
    hide After, Drifted;
    if es != [] {
      ApplyDrifts(v, es[0]);
      RunDrifts(After(v, es[0]), es[1..]);
    }
  }

  // ---- When library and contract agree ----

  /** Every outstanding packet has its slot and the packet on the air is the front one. */
  ghost predicate InStep(v: Vendored) {
    && Drifted(v)
    && v.slots == Outstanding(v.link)
    && (v.radio.Busy? ==> v.radio.queued)
  }

  /** A flush: of its own, or by a send that finds the FIFO full. */
  predicate Flushes(v: Vendored, e: Step) {
    Happens(v, e) && (e.Flush? || (e.Send? && Admits(v, e.packet) && Full(v)))
  }

  /** No packet is given up while the FIFO has room, and no flush while one is on the air. */
  predicate Harmless(v: Vendored, e: Step) {
    && (Happens(v, e) && e.Failure? ==> Full(v))
    && (Flushes(v, e) ==> !v.radio.Busy?)
  }

  /** The event as `Link` sees it. */
  function Seen(v: Vendored, e: Step): seq<Step> {
    if !Happens(v, e) then [] else if e.Failure? then [e.(lingers := true)] else [e]
  }

  function AllSeen(v: Vendored, es: seq<Step>): seq<Step>
    decreases |es|
  {
    if es == [] then [] else Seen(v, es[0]) + AllSeen(After(v, es[0]), es[1..])
  }

  lemma SendInStep(v: Vendored, p: Payload)
    requires InStep(v)
    ensures InStep(AfterSend(v, p)) <==> Harmless(v, Send(p))
    ensures AfterSend(v, p).link == SendPacket(v.link, p).0
  {
    hide AfterSend, SendPacket, Emptied, Out;
    if Admits(v, p) {
      AdmittedNoTrip(v, p);
      assert v.link.stash == [];
      hide Drifted;
      EmptiedDrifts(v);
      EmptiedFrame(v);
      SendFrame(v, p);
      PushDrifts(Emptied(v), AfterSend(v, p), Out(v, p));
      SendAgrees(v, p);
    } else {
      RefusedSend(v, p);
      RefusedFrame(v, p);
      SameDrift(v, AfterSend(v, p));
    }
  }

  lemma SendAgrees(v: Vendored, p: Payload)
    requires Admits(v, p) && v.slots == Outstanding(v.link) && v.link.stash == []
    ensures AfterSend(v, p).link == SendPacket(v.link, p).0
  {
    hide Prepare, Write, Kinds, TotalMotion;
    var cleared := v.link.(quietUntil := 0);
    assert Outstanding(cleared) == v.slots;
  }

  lemma AckInStep(v: Vendored)
    requires InStep(v) && Happens(v, Success)
    ensures InStep(AfterAck(v)) && AfterAck(v).link == TxSuccess(v.link)
  {
    assert v.slots == v.link.fifo == Outstanding(v.link);
    AckDrifts(v);
    AckFrame(v);
    AckAgrees(v);
    hide AfterAck, Drifted;
    assert Outstanding(AfterAck(v).link) == Rest(v);
  }

  lemma AckAgrees(v: Vendored)
    requires v.link.fifo != [] && v.radio == Busy(v.link.fifo[0], true) && v.slots == v.link.fifo
    ensures AfterAck(v).link == TxSuccess(v.link)
  {
    hide Noack, Overrides;
  }

  /** One failure keeps the rings in step if and only if it meets a full FIFO. */
  lemma GivenUpInStep(v: Vendored, heard: bool)
    requires InStep(v) && Happens(v, Failure(heard, true))
    ensures InStep(AfterGivenUp(v, heard)) <==> Full(v)
    ensures Full(v) ==> AfterGivenUp(v, heard).link == TxFailure(v.link, heard, true)
  {
    hide AfterGivenUp, TxFailure;
    GivenUpDrifts(v, heard);
    GivenUpFrame(v, heard);
    var t := AfterGivenUp(v, heard);
    assert Outstanding(v.link) == v.link.fifo && Outstanding(t.link) == t.link.fifo;
    if Full(v) {
      GivenUpAgrees(v, heard);
    } else {
      assert |t.slots| != |t.link.fifo|;
    }
  }

  lemma GivenUpAgrees(v: Vendored, heard: bool)
    requires v.link.fifo != [] && v.radio == Busy(v.link.fifo[0], true) && v.slots == v.link.fifo && Full(v)
    requires v.link.trip.NoTrip? && v.link.stash == []
    ensures AfterGivenUp(v, heard).link == TxFailure(v.link, heard, true)
  {
    hide Kinds, TotalMotion, Settle, Refund;
    var popped, s := Popped(GivingUp(v, heard), true), PopFailed(v.link, heard);
    PoppedFrame(GivingUp(v, heard), true);
    assert s == popped.link.(fifo := v.link.fifo[1..]);
    assert Outstanding(s) == v.link.fifo[1..] == popped.slots;
    assert s.cfg == v.link.cfg;
  }

  lemma ApplyInStep(v: Vendored, e: Step)
    requires InStep(v)
    ensures InStep(After(v, e)) <==> Harmless(v, e)
    ensures Harmless(v, e) ==> After(v, e).link == Link.Run(v.link, Seen(v, e))
  {
    if Happens(v, e) {
      hide AfterSend, AfterAck, AfterGivenUp, Flushed, SendPacket, TxSuccess, TxFailure, DropAll, InStep;
      OneStep(v.link, Seen(v, e)[0]);
      match e
      case Send(p) => SendInStep(v, p);
      case Success => AckInStep(v);
      case Failure(heard, _) => GivenUpInStep(v, heard);
      case Flush => FlushInStep(v);
      case Hop(_, _) => OtherInStep(v, e);
      case TripStart(_, _) => OtherInStep(v, e);
      case TripDone(_) => OtherInStep(v, e);
      case Retune(_) => OtherInStep(v, e);
      case Tick(_) => OtherInStep(v, e);
    }
  }

  predicate TouchesQueue(e: Step) { e.Send? || e.Success? || e.Failure? || e.Flush? }

  /** Hops, side-trips, retunes and the clock leave slots and packets paired as they were. */
  lemma OtherInStep(v: Vendored, e: Step)
    requires InStep(v) && Happens(v, e) && !TouchesQueue(e)
    ensures InStep(After(v, e)) && After(v, e).link == Link.Apply(v.link, e)
  {
    hide AfterSend, AfterAck, AfterGivenUp, Flushed, Suffix;
    ApplyDrifts(v, e);
    assert Outstanding(After(v, e).link) == Outstanding(v.link);
  }

  lemma OneStep(s: State, step: Step)
    ensures Link.Run(s, [step]) == Link.Apply(s, step)
  {
    hide Link.Apply;
    assert Link.Run(Link.Apply(s, step), []) == Link.Apply(s, step);
  }

  lemma FlushInStep(v: Vendored)
    requires InStep(v) && v.link.trip.NoTrip?
    ensures Flushed(v).link == DropAll(v.link)
    ensures InStep(Flushed(v)) <==> !v.radio.Busy?
  {
    hide Kinds, TotalMotion;
    FlushedFrame(v);
  }

  ghost predicate AlwaysInStep(v: Vendored, es: seq<Step>)
    decreases |es|
  {
    InStep(v) && (es != [] ==> AlwaysInStep(After(v, es[0]), es[1..]))
  }

  predicate AllHarmless(v: Vendored, es: seq<Step>)
    decreases |es|
  {
    es != [] ==> Harmless(v, es[0]) && AllHarmless(After(v, es[0]), es[1..])
  }

  /** Over every run: the rings stay in step if and only if every failure meets a full FIFO
    * and every flush a radio that is not sending; the bookkeeping of such a run is that of a
    * run of `Link`. The radio's own retransmit count is not part of it. */
  lemma {:induction false} InStepExactly(v: Vendored, es: seq<Step>)
    requires InStep(v)
    ensures AlwaysInStep(v, es) <==> AllHarmless(v, es)
    ensures AllHarmless(v, es) ==> Play(v, es).link == Link.Run(v.link, AllSeen(v, es))
    decreases |es|
  {
    hide After, InStep, Harmless, Link.Apply, Seen;
    if es != [] {
      ApplyInStep(v, es[0]);
      if Harmless(v, es[0]) {
        InStepExactly(After(v, es[0]), es[1..]);
        LinkRunSplit(v.link, Seen(v, es[0]), AllSeen(After(v, es[0]), es[1..]));
      } else {
        NotInStep(After(v, es[0]), es[1..]);
      }
    }
  }

  lemma {:induction false} LinkRunSplit(s: State, steps: seq<Step>, more: seq<Step>)
    ensures Link.Run(s, steps + more) == Link.Run(Link.Run(s, steps), more)
    decreases |steps|
  {
    hide Link.Apply;
    if steps == [] {
      assert steps + more == more;
    } else {
      LinkRunSplit(Link.Apply(s, steps[0]), steps[1..], more);
      assert (steps + more)[1..] == steps[1..] + more;
    }
  }

  lemma NotInStep(v: Vendored, es: seq<Step>)
    requires !InStep(v)
    ensures !AlwaysInStep(v, es)
  {
    hide InStep, After;
  }

  lemma StartInStep(cfg: Config, count: nat, channel: nat, clock: nat)
    requires cfg.fifoSize > 0
    ensures InStep(Start(cfg, count, channel, clock))
  {
  }

  /** For a whole session: in step throughout if and only if every event is harmless, and
    * then what `Link` promises of queue, in-flight count, pool and motion holds over the
    * library too. */
  lemma SessionInStep(cfg: Config, count: nat, channel: nat, clock: nat, es: seq<Step>)
    requires 0 < cfg.fifoSize < 256
    ensures var v := Start(cfg, count, channel, clock);
      var t := Play(v, es).link;
      && (AlwaysInStep(v, es) <==> AllHarmless(v, es))
      && (AllHarmless(v, es) ==> t == Link.Run(v.link, AllSeen(v, es)) && MotionConserved(t) && InflightExact(t) && PoolStamped(t))
  {
    hide Play, AllSeen, AllHarmless, AlwaysInStep, Link.Run, MotionConserved;
    var v := Start(cfg, count, channel, clock);
    StartInStep(cfg, count, channel, clock);
    InStepExactly(v, es);
    FreshInv(cfg, count, channel, clock);
    RunKeepsInv(v.link, AllSeen(v, es));
  }

  // ---- Concrete runs ----

  /** No side-trip and no quiet window. */
  predicate Ready(v: Vendored) {
    v.link.stash == [] && v.link.trip.NoTrip? && v.link.quietUntil == 0
  }

  lemma PlainSend(v: Vendored, p: Payload)
    requires Ready(v) && !Full(v) && !IsMouse(p)
    ensures var t := After(v, Send(p));
      && Out(v, p) == p
      && Ready(t) && t.link.fifo == v.link.fifo + [p] && t.slots == v.slots + [p] && t.link.cfg == v.link.cfg
      && t.radio == (if v.radio.Busy? then v.radio else Started(t.link.fifo))
      && t.link.host == v.link.host && t.link.resync == v.link.resync
  {
    hide AfterSend;
    SendFrame(v, p);
    EmptiedFrame(v);
  }

  lemma StartedWith(fifo: seq<Payload>)
    requires fifo != []
    ensures Started(fifo) == Busy(fifo[0], true)
  {
  }

  lemma FourSteps(v: Vendored, es: seq<Step>)
    requires |es| == 4
    ensures Play(v, es) == After(After(After(After(v, es[0]), es[1]), es[2]), es[3])
  {
    hide After;
    var v1 := After(v, es[0]);
    assert es[1..][1..] == es[2..] && es[2..][1..] == es[3..] && es[3..][1..] == [];
    assert Play(v1, es[1..]) == Play(After(v1, es[1]), es[2..]);
    var v2 := After(v1, es[1]);
    assert Play(v2, es[2..]) == Play(After(v2, es[2]), es[3..]);
    var v3 := After(v2, es[2]);
    assert Play(v3, es[3..]) == Play(After(v3, es[3]), []);
  }
}
