/** What one radio session does, without the rings: every outstanding packet is
  * its own record. `Transport` refines this machine with the three rings.
  *
  * The radio library is known by its contract only: an accepted payload yields
  * exactly one TX event, in FIFO order, unless the FIFO is flushed. A failed
  * payload leaves the FIFO either before its event is handled or right after
  * (`lingers`), and the host may have heard it although its ACK was lost (`heard`).
  */
module Link {
  import opened Packets
  import opened Clock32

  /** Where the motion handed to the transport went. */
  datatype Ledger = Ledger(
    accepted: Motion,    // in reports the transport accepted
    acked: Motion,       // in reports whose TX succeeded
    flushed: Motion,     // in reports dropped by a FIFO flush
    staleRefund: Motion, // refund dropped for its age
    hopWiped: Motion,    // refund dropped by a channel change
    duplicated: Motion)  // in failed reports the host heard all the same

  /** A rendezvous side-trip: not running, or waiting for its packet's event. The
    * waiting thread is taken to restore the FIFO before any other sender runs. */
  datatype Trip = NoTrip | Waiting(packet: Payload)

  datatype State = State(
    cfg: Config,
    fifo: seq<Payload>,
    stash: seq<Payload>,
    trip: Trip,
    retransmit: nat,
    steady: nat,
    channel: nat,
    pool: Motion,
    poolStamp: nat,
    inflight: nat,
    resync: set<Kind>,
    quietUntil: nat,
    clock: nat,
    host: seq<Payload>,
    ledger: Ledger)

  const NOTHING := Ledger(STILL, STILL, STILL, STILL, STILL, STILL)

  function Fresh(cfg: Config, count: nat, channel: nat, clock: nat): State {
    State(cfg, [], [], NoTrip, count, count, channel, STILL, 0, 0, {}, 0, clock, [], NOTHING)
  }

  datatype Result = Accepted | Again | NoMemory

  datatype Step =
    | Send(packet: Payload)
    | Success
    | Failure(heard: bool, lingers: bool)
    | Flush
    | Hop(channel: nat, tuned: bool)
    | TripStart(packet: Payload, tuned: bool)
    | TripDone(success: bool)
    | Retune(count: nat)
    | Tick(now: nat)

  /** User packets whose TX event is still to come, oldest first. */
  function Outstanding(s: State): seq<Payload> {
    s.stash + (if s.trip.Waiting? then [] else s.fifo)
  }

  predicate WellFormed(s: State) {
    && s.cfg.fifoSize > 0
    && |Outstanding(s)| <= s.cfg.fifoSize
    && (s.trip.NoTrip? ==> s.stash == [])
    && (s.trip.Waiting? ==> s.fifo == [s.trip.packet])
  }

  predicate Quiet(s: State) {
    s.trip.Waiting? || (s.quietUntil != 0 && Ahead(s.quietUntil, s.clock))
  }

  predicate Backpressure(s: State) { s.inflight >= s.cfg.inflightCap }

  function Kinds(cfg: Config, ps: seq<Payload>): (kinds: set<Kind>)
  {
    (set p | p in ps :: KindOf(cfg, p)) - {NoKind}
  }

  /** Motion carried by a sequence of packets, on one axis and on all. */
  function Total(ps: seq<Payload>, axis: Axis): int {
    if ps == [] then 0 else Total(ps[..|ps| - 1], axis) + MotionOf(ps[|ps| - 1]).On(axis)
  }

  function TotalMotion(ps: seq<Payload>): Motion {
    Motion(Total(ps, DX), Total(ps, DY), Total(ps, SX), Total(ps, SY))
  }

  /** `tx_bookkeeping_resync` after everything outstanding was dropped. */
  function DropAll(s: State): State {
    s.(fifo := [], stash := [], inflight := 0, retransmit := s.steady,
       resync := s.resync + Kinds(s.cfg, Outstanding(s)),
       ledger := s.ledger.(flushed := s.ledger.flushed.Plus(TotalMotion(Outstanding(s)))))
  }

  predicate RefundStale(s: State) {
    s.poolStamp != 0 && Elapsed(s.clock, s.poolStamp) >= s.cfg.refundStaleMs
  }

  /** `motion_refund_apply`: the packet that leaves, and the pool it leaves behind. */
  function ApplyRefund(s: State, p: Payload): (State, Payload)
    requires IsMouse(p)
  {
    if RefundStale(s) then
      (s.(pool := STILL, poolStamp := 0,
          ledger := s.ledger.(staleRefund := s.ledger.staleRefund.Plus(s.pool))), p)
    else if s.pool.Still() then
      (s, p)
    else
      var total := MotionOf(p).Plus(s.pool);
      var rest := total.Minus(total.Clamp());
      (s.(pool := rest, poolStamp := if rest.Still() then 0 else s.poolStamp),
       WithMotion(p, total.Clamp()))
  }

  /** The payload as it goes out and the state just before it is written. */
  function Prepare(s: State, p: Payload): (State, Payload) {
    var s1 := if IsCritical(p) then s.(retransmit := s.cfg.criticalCount) else s;
    if IsMouse(p) then
      var (s2, out) := ApplyRefund(s1, p);
      (if LowersRetransmit(s.cfg, out) then s2.(retransmit := s.cfg.pointerCount) else s2, out)
    else
      (s1, p)
  }

  function Write(s: State, p: Payload, out: Payload): State {
    s.(fifo := s.fifo + [out],
       inflight := if !MotionOf(out).Still() && s.inflight < 255 then s.inflight + 1 else s.inflight,
       ledger := s.ledger.(accepted := s.ledger.accepted.Plus(MotionOf(p))))
  }

  /** `esb_transport_send` */
  function SendPacket(s: State, p: Payload): (State, Result) {
    if Quiet(s) then (s, Again)
    else
      var s0 := s.(quietUntil := 0);
      if |s0.fifo| >= s0.cfg.fifoSize && IsShell(p) then (s0, NoMemory)
      else
        var s1 := if |s0.fifo| >= s0.cfg.fifoSize then DropAll(s0) else s0;
        var (s2, out) := Prepare(s1, p);
        (Write(s2, p, out), Accepted)
  }

  /** What both TX events do to the bookkeeping of the packet they are about. */
  function Settle(s: State, p: Payload): State {
    s.(retransmit := if Overrides(s.cfg, p) then s.steady else s.retransmit,
       inflight := if !MotionOf(p).Still() && s.inflight > 0 then s.inflight - 1 else s.inflight)
  }

  function TxSuccess(s: State): State
    requires s.fifo != []
  {
    var p := s.fifo[0];
    Settle(s, p).(fifo := s.fifo[1..], host := s.host + [p],
                  ledger := s.ledger.(acked := s.ledger.acked.Plus(MotionOf(p))))
  }

  /** A failed report gives its motion back to the pool and asks for a resync of its kind. */
  function Refund(s: State, p: Payload): State {
    var s1 := if MotionOf(p).Still() then s else
      s.(pool := s.pool.Plus(MotionOf(p)),
         poolStamp := if s.poolStamp == 0 then Stamp(s.clock) else s.poolStamp);
    s1.(resync := s1.resync + Kinds(s1.cfg, [p]))
  }

  function Heard(s: State, p: Payload): State {
    s.(host := s.host + [p], ledger := s.ledger.(duplicated := s.ledger.duplicated.Plus(MotionOf(p))))
  }

  function PopFailed(s: State, heard: bool): State
    requires s.fifo != []
  {
    var p := s.fifo[0];
    var s1 := if heard then Heard(s, p) else s;
    Refund(Settle(s1, p), p).(fifo := s.fifo[1..])
  }

  function TxFailure(s: State, heard: bool, lingers: bool): State
    requires s.fifo != []
  {
    var s2 := PopFailed(s, heard);
    // The FIFO the handler measures may still count the failed packet.
    if |s2.fifo| + (if lingers then 1 else 0) >= s.cfg.fifoSize then DropAll(s2) else s2
  }

  function HopTo(s: State, channel: nat): State {
    s.(channel := channel, pool := STILL, poolStamp := 0,
       quietUntil := Stamp((s.clock + s.cfg.postQuietMs) % WORD),
       ledger := s.ledger.(hopWiped := s.ledger.hopWiped.Plus(s.pool)))
  }

  predicate Enabled(s: State, step: Step) {
    match step
    case Send(_) => true
    case Success => s.trip.NoTrip? && s.fifo != []
    case Failure(_, _) => s.trip.NoTrip? && s.fifo != []
    case Flush => s.trip.NoTrip?
    case Hop(_, _) => s.trip.NoTrip?
    case TripStart(_, _) => s.trip.NoTrip?
    case TripDone(_) => s.trip.Waiting?
    case Retune(_) => true
    case Tick(_) => true
  }

  /** One step; a step that cannot happen in this state changes nothing. */
  function Apply(s: State, step: Step): State {
    if !Enabled(s, step) then s else
    match step
    case Send(p) => SendPacket(s, p).0
    case Success => TxSuccess(s)
    case Failure(heard, lingers) => TxFailure(s, heard, lingers)
    case Flush => DropAll(s)
    case Hop(channel, tuned) => if tuned then HopTo(s, channel) else s
    case TripStart(p, tuned) =>
      if tuned then s.(stash := s.fifo, fifo := [p], trip := Waiting(p)) else s
    case TripDone(_) => s.(fifo := s.stash, stash := [], trip := NoTrip)
    case Retune(count) => if count != s.steady then s.(retransmit := count, steady := count) else s
    case Tick(now) => s.(clock := now % WORD)
  }

  function Run(s: State, steps: seq<Step>): State
    decreases |steps|
  {
    if steps == [] then s else Run(Apply(s, steps[0]), steps[1..])
  }

  // ---- Invariants of every run ----

  function Moving(ps: seq<Payload>): nat {
    if ps == [] then 0 else
      Moving(ps[..|ps| - 1]) + (if MotionOf(ps[|ps| - 1]).Still() then 0 else 1)
  }

  /** The back-pressure counter counts the outstanding reports with motion. */
  predicate InflightExact(s: State) { s.inflight == Moving(Outstanding(s)) }

  /** An override of the radio's retransmit count is owned by an outstanding packet. */
  predicate OverrideOwned(s: State) {
    s.retransmit == s.steady || exists p :: p in Outstanding(s) && Overrides(s.cfg, p)
  }

  /** Every unit of motion accepted is in exactly one place. */
  predicate MotionConservedOn(s: State, axis: Axis) {
    s.ledger.accepted.On(axis) ==
      s.ledger.acked.On(axis) + Total(Outstanding(s), axis) + s.pool.On(axis)
      + s.ledger.flushed.On(axis) + s.ledger.staleRefund.On(axis) + s.ledger.hopWiped.On(axis)
  }

  predicate MotionConserved(s: State) {
    forall axis :: MotionConservedOn(s, axis)
  }

  predicate PoolStamped(s: State) { !s.pool.Still() ==> s.poolStamp != 0 }

  predicate Inv(s: State) {
    WellFormed(s) && InflightExact(s) && OverrideOwned(s) && MotionConserved(s) && PoolStamped(s)
  }

  // ---- Sums and counts along a sequence ----

  lemma SumsAppend(ps: seq<Payload>, p: Payload, axis: Axis)
    ensures Total(ps + [p], axis) == Total(ps, axis) + MotionOf(p).On(axis)
    ensures Moving(ps + [p]) == Moving(ps) + (if MotionOf(p).Still() then 0 else 1)
  {
  }

  lemma {:induction false} SumsConcat(a: seq<Payload>, b: seq<Payload>, axis: Axis)
    ensures Total(a + b, axis) == Total(a, axis) + Total(b, axis)
    ensures Moving(a + b) == Moving(a) + Moving(b)
  {
    if b == [] {
      assert a + b == a;
    } else {
      var init, last := b[..|b| - 1], b[|b| - 1];
      SumsConcat(a, init, axis);
      assert a + b == (a + init) + [last];
      SumsAppend(a + init, last, axis);
      assert b == init + [last];
      SumsAppend(init, last, axis);
    }
  }

  lemma SumsCons(ps: seq<Payload>, axis: Axis)
    requires ps != []
    ensures Total(ps, axis) == MotionOf(ps[0]).On(axis) + Total(ps[1..], axis)
    ensures Moving(ps) == (if MotionOf(ps[0]).Still() then 0 else 1) + Moving(ps[1..])
  {
    assert ps == [ps[0]] + ps[1..];
    SumsConcat([ps[0]], ps[1..], axis);
  }

  lemma MovingBound(ps: seq<Payload>)
    ensures Moving(ps) <= |ps|
  {
  }

  // ---- Each step keeps the invariant ----

  lemma DropAllKeepsInv(s: State)
    requires Inv(s) && !s.trip.Waiting?
    ensures Inv(DropAll(s)) && Outstanding(DropAll(s)) == []
  {
    var t := DropAll(s);
    forall axis
      ensures MotionConservedOn(t, axis)
    {
      assert MotionConservedOn(s, axis);
      assert TotalMotion(Outstanding(s)).On(axis) == Total(Outstanding(s), axis);
    }
  }

  /** The refund moves motion between the pool and the packet, or names what it drops. */
  lemma RefundBalances(s: State, p: Payload, axis: Axis)
    requires PoolStamped(s) && IsMouse(p)
    ensures var (t, out) := ApplyRefund(s, p);
      && t == s.(pool := t.pool, poolStamp := t.poolStamp, ledger := s.ledger.(staleRefund := t.ledger.staleRefund))
      && PoolStamped(t) && IsMouse(out)
      && MotionOf(p).On(axis) + s.pool.On(axis) + s.ledger.staleRefund.On(axis)
           == MotionOf(out).On(axis) + t.pool.On(axis) + t.ledger.staleRefund.On(axis)
  {
  }

  lemma PrepareBalances(s: State, p: Payload, axis: Axis)
    requires PoolStamped(s)
    ensures var (t, out) := Prepare(s, p);
      && t == s.(retransmit := t.retransmit, pool := t.pool, poolStamp := t.poolStamp,
                 ledger := s.ledger.(staleRefund := t.ledger.staleRefund))
      && PoolStamped(t)
      && MotionOf(p).On(axis) + s.pool.On(axis) + s.ledger.staleRefund.On(axis)
           == MotionOf(out).On(axis) + t.pool.On(axis) + t.ledger.staleRefund.On(axis)
      && (!Overrides(s.cfg, out) ==> t.retransmit == s.retransmit)
  {
    var s1 := if IsCritical(p) then s.(retransmit := s.cfg.criticalCount) else s;
    if IsMouse(p) {
      RefundBalances(s1, p, axis);
    }
  }

  lemma WriteKeepsInv(s: State, p: Payload)
    requires Inv(s) && s.trip.NoTrip? && |s.fifo| < s.cfg.fifoSize < 256
    ensures var (s2, out) := Prepare(s, p); Inv(Write(s2, p, out))
  {
    var (s2, out) := Prepare(s, p);
    var t := Write(s2, p, out);
    PrepareBalances(s, p, DX);
    assert Outstanding(t) == Outstanding(s) + [out];
    forall axis
      ensures MotionConservedOn(t, axis)
    {
      assert MotionConservedOn(s, axis);
      PrepareBalances(s, p, axis);
      SumsAppend(Outstanding(s), out, axis);
    }
    SumsAppend(Outstanding(s), out, DX);
    MovingBound(Outstanding(s));
    OverridePush(s, t, out);
  }

  /** A send that overrides the count owns it; any other leaves the owner queued. */
  lemma OverridePush(s: State, t: State, out: Payload)
    requires OverrideOwned(s) && Outstanding(t) == Outstanding(s) + [out]
    requires t.cfg == s.cfg && t.steady == s.steady
    requires !Overrides(s.cfg, out) ==> t.retransmit == s.retransmit
    ensures OverrideOwned(t)
  {
    if Overrides(s.cfg, out) {
      assert out in Outstanding(t);
    } else if t.retransmit != t.steady {
      var q :| q in Outstanding(s) && Overrides(s.cfg, q);
      assert q in Outstanding(t);
    }
  }

  lemma SendKeepsInv(s: State, p: Payload)
    requires Inv(s) && s.cfg.fifoSize < 256
    ensures Inv(SendPacket(s, p).0) && SendPacket(s, p).0.cfg == s.cfg
  {
    if !Quiet(s) {
      var s0 := s.(quietUntil := 0);
      assert Inv(s0) by { assert forall axis :: MotionConservedOn(s, axis) ==> MotionConservedOn(s0, axis); }
      if !(|s0.fifo| >= s0.cfg.fifoSize && IsShell(p)) {
        if |s0.fifo| >= s0.cfg.fifoSize {
          DropAllKeepsInv(s0);
        }
        var s1 := if |s0.fifo| >= s0.cfg.fifoSize then DropAll(s0) else s0;
        WriteKeepsInv(s1, p);
      }
    }
  }

  /** The head packet's event restores the count, or the owner is still queued. */
  lemma OverridePop(s: State, t: State)
    requires OverrideOwned(s) && Outstanding(s) != [] && Outstanding(t) == Outstanding(s)[1..]
    requires t.cfg == s.cfg && t.steady == s.steady
    requires t.retransmit == if Overrides(s.cfg, Outstanding(s)[0]) then s.steady else s.retransmit
    ensures OverrideOwned(t)
  {
    if t.retransmit != t.steady {
      var p :| p in Outstanding(s) && Overrides(s.cfg, p);
      assert p in Outstanding(t);
    }
  }

  lemma SuccessKeepsInv(s: State)
    requires Inv(s) && s.trip.NoTrip? && s.fifo != []
    ensures Inv(TxSuccess(s))
  {
    var t := TxSuccess(s);
    assert Outstanding(s) == s.fifo && Outstanding(t) == s.fifo[1..];
    forall axis
      ensures MotionConservedOn(t, axis)
    {
      assert MotionConservedOn(s, axis);
      SumsCons(s.fifo, axis);
    }
    SumsCons(s.fifo, DX);
    OverridePop(s, t);
  }

  lemma FailureBalances(s: State, heard: bool, axis: Axis)
    requires Inv(s) && s.trip.NoTrip? && s.fifo != []
    ensures MotionConservedOn(PopFailed(s, heard), axis)
  {
    hide PopFailed, Inv;
    ConservedOn(s, axis);
    PopFailedMoves(s, heard, axis);
    SumsCons(s.fifo, axis);
  }

  lemma ConservedOn(s: State, axis: Axis)
    requires Inv(s)
    ensures MotionConservedOn(s, axis) && WellFormed(s)
  {
  }

  /** A failed packet's motion goes from the FIFO to the pool. */
  lemma PopFailedMoves(s: State, heard: bool, axis: Axis)
    requires s.trip.NoTrip? && s.fifo != [] && s.stash == []
    ensures var t, moved := PopFailed(s, heard), MotionOf(s.fifo[0]).On(axis);
      && Outstanding(s) == s.fifo && Outstanding(t) == s.fifo[1..]
      && t.pool.On(axis) == s.pool.On(axis) + moved
      && t.ledger == s.ledger.(duplicated := t.ledger.duplicated)
  {
  }

  lemma PopFailedShape(s: State, heard: bool)
    requires WellFormed(s) && PoolStamped(s) && s.trip.NoTrip? && s.fifo != []
    ensures var t := PopFailed(s, heard);
      && Outstanding(s) == s.fifo && Outstanding(t) == s.fifo[1..]
      && WellFormed(t) && PoolStamped(t)
      && t.cfg == s.cfg && t.steady == s.steady
      && t.retransmit == (if Overrides(s.cfg, s.fifo[0]) then s.steady else s.retransmit)
      && t.inflight == (if !MotionOf(s.fifo[0]).Still() && s.inflight > 0 then s.inflight - 1 else s.inflight)
  {
  }

  lemma PopFailedKeepsInv(s: State, heard: bool)
    requires Inv(s) && s.trip.NoTrip? && s.fifo != []
    ensures Inv(PopFailed(s, heard))
  {
    var t := PopFailed(s, heard);
    PopFailedShape(s, heard);
    assert InflightExact(t) by { SumsCons(s.fifo, DX); }
    assert OverrideOwned(t) by { OverridePop(s, t); }
    forall axis
      ensures MotionConservedOn(t, axis)
    {
      FailureBalances(s, heard, axis);
    }
  }

  lemma FailureKeepsInv(s: State, heard: bool, lingers: bool)
    requires Inv(s) && s.trip.NoTrip? && s.fifo != []
    ensures Inv(TxFailure(s, heard, lingers))
  {
    PopFailedKeepsInv(s, heard);
    DropAllKeepsInv(PopFailed(s, heard));
  }

  lemma ParkingKeepsInv(s: State, t: State)
    requires Inv(s) && WellFormed(t) && Outstanding(t) == Outstanding(s)
    requires t == s.(fifo := t.fifo, stash := t.stash, trip := t.trip)
    ensures Inv(t)
  {
    forall axis
      ensures MotionConservedOn(t, axis)
    {
      assert MotionConservedOn(s, axis);
    }
  }

  lemma HopKeepsInv(s: State, channel: nat)
    requires Inv(s) && s.trip.NoTrip?
    ensures Inv(HopTo(s, channel))
  {
    forall axis
      ensures MotionConservedOn(HopTo(s, channel), axis)
    {
      assert MotionConservedOn(s, axis);
    }
  }

  lemma RetuneKeepsInv(s: State, t: State)
    requires Inv(s) && t == s.(retransmit := t.retransmit, steady := t.steady, clock := t.clock)
    requires (t.steady == s.steady && t.retransmit == s.retransmit) || t.retransmit == t.steady
    ensures Inv(t)
  {
    forall axis
      ensures MotionConservedOn(t, axis)
    {
      assert MotionConservedOn(s, axis);
    }
  }

  lemma TripKeepsInv(s: State, step: Step)
    requires Inv(s) && Enabled(s, step) && (step.TripStart? || step.TripDone?)
    ensures Inv(Apply(s, step)) && Apply(s, step).cfg == s.cfg
  {
    assert Outstanding(Apply(s, step)) == Outstanding(s);
    ParkingKeepsInv(s, Apply(s, step));
  }

  lemma ApplyKeepsInv(s: State, step: Step)
    requires Inv(s) && s.cfg.fifoSize < 256
    ensures Inv(Apply(s, step)) && Apply(s, step).cfg == s.cfg
  {
    if Enabled(s, step) {
      match step
      case Send(p) => SendKeepsInv(s, p);
      case Success => SuccessKeepsInv(s);
      case Failure(heard, lingers) => FailureKeepsInv(s, heard, lingers);
      case Flush => DropAllKeepsInv(s);
      case Hop(channel, tuned) => HopKeepsInv(s, channel);
      case TripStart(p, tuned) => TripKeepsInv(s, step);
      case TripDone(success) => TripKeepsInv(s, step);
      case Retune(count) => RetuneKeepsInv(s, Apply(s, step));
      case Tick(now) => RetuneKeepsInv(s, Apply(s, step));
    }
  }

  /** Over every run from a fresh session: FIFO bound, in-flight count, override
    * ownership, motion conservation and refund stamp all hold. */
  lemma {:induction false} RunKeepsInv(s: State, steps: seq<Step>)
    requires Inv(s) && s.cfg.fifoSize < 256
    ensures Inv(Run(s, steps)) && Run(s, steps).cfg == s.cfg
    decreases |steps|
  {
    if steps != [] {
      ApplyKeepsInv(s, steps[0]);
      RunKeepsInv(Apply(s, steps[0]), steps[1..]);
    }
  }

  lemma FreshInv(cfg: Config, count: nat, channel: nat, clock: nat)
    requires cfg.fifoSize > 0
    ensures Inv(Fresh(cfg, count, channel, clock))
  {
  }

  /** Whenever no send is outstanding, in any run of a session, the radio is back at its
    * steady retransmit count, the in-flight count is zero, and every unit of motion
    * accepted was acknowledged, waits in the pool, or was dropped by name. */
  lemma NothingOutstanding(cfg: Config, count: nat, channel: nat, clock: nat, steps: seq<Step>, axis: Axis)
    requires 0 < cfg.fifoSize < 256
    ensures var s := Run(Fresh(cfg, count, channel, clock), steps); Outstanding(s) == [] ==>
      && s.retransmit == s.steady && s.inflight == 0
      && s.ledger.accepted.On(axis) == s.ledger.acked.On(axis) + s.pool.On(axis)
           + s.ledger.flushed.On(axis) + s.ledger.staleRefund.On(axis) + s.ledger.hopWiped.On(axis)
  {
    FreshInv(cfg, count, channel, clock);
    RunKeepsInv(Fresh(cfg, count, channel, clock), steps);
    var s := Run(Fresh(cfg, count, channel, clock), steps);
    ConservedOn(s, axis);
  }
}
