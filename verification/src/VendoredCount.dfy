/** The retransmit count over the library as compiled in. An override is set and restored
  * only while the radio is idle, so it can outlive its packet; this module says exactly
  * when. */
module VendoredCount {
  import opened Packets
  import opened Link
  import opened VendoredRadio

  /** The radio is not at the count the program believes it restored. */
  predicate Off(v: Vendored) { v.count != v.link.steady }

  /** A send that takes an idle radio off the steady count. */
  predicate Raises(v: Vendored, e: Step) {
    && e.Send? && Admits(v, e.packet) && v.radio.Idle?
    && Overrides(v.link.cfg, Out(v, e.packet)) && Wanted(v.link.cfg, Out(v, e.packet)) != v.link.steady
  }

  /** The slot a TX event would pop carried an override. */
  predicate PopsOverride(v: Vendored) {
    v.slots != [] && Overrides(v.link.cfg, v.slots[0])
  }

  /** An event that sets the count of a radio it finds or leaves idle. A failure always leaves
    * it idle, an acknowledgement only when nothing waits behind the packet. */
  predicate Restores(v: Vendored, e: Step) {
    Happens(v, e) &&
    match e
    case Send(p) => v.radio.Idle? && Admits(v, p) && (Full(v) || Overrides(v.link.cfg, Out(v, p)))
    case Success => Rest(v) == [] && !Noack(v.link.cfg, v.radio.packet) && PopsOverride(v)
    case Failure(_, _) => Full(v) || PopsOverride(v)
    case Flush => v.radio.Idle?
    case Retune(count) => count != v.link.steady
    case Hop(_, _) => false
    case TripStart(_, _) => false
    case TripDone(_) => false
    case Tick(_) => false
  }

  lemma PoppedCount(v: Vendored, failed: bool)
    ensures var t := Popped(v, failed);
      t.count == (if PopsOverride(v) && v.radio.Idle? then v.link.steady else v.count) && t.link.steady == v.link.steady
      && t.radio == v.radio
  {
    hide Overrides;
  }

  lemma FlushedCount(v: Vendored)
    ensures var t := Flushed(v);
      t.count == (if v.radio.Idle? then v.link.steady else v.count) && t.link.steady == v.link.steady
      && (t.radio.Idle? <==> v.radio.Idle?)
  {
    hide Kinds, TotalMotion;
  }

  lemma SendCount(v: Vendored, p: Payload)
    requires Admits(v, p)
    ensures var t, out := AfterSend(v, p), Out(v, p);
      && t.link.steady == v.link.steady && !t.radio.Idle?
      && t.count == if !v.radio.Idle? then v.count
                    else if Overrides(v.link.cfg, out) then Wanted(v.link.cfg, out)
                    else if Full(v) then v.link.steady else v.count
  {
    hide Flushed, Prepare, Overrides, Wanted;
    FlushedCount(v.(link := v.link.(quietUntil := 0)));
    PrepareFrame(Emptied(v).link, p);
    FlushedFrame(v.(link := v.link.(quietUntil := 0)));
  }

  lemma AckCount(v: Vendored)
    requires v.radio.Busy?
    ensures var t := AfterAck(v);
      && t.link.steady == v.link.steady
      && (t.radio.Idle? <==> Rest(v) == [] && !Noack(v.link.cfg, v.radio.packet))
      && t.count == if t.radio.Idle? && PopsOverride(v) then v.link.steady else v.count
  {
    hide Popped, Overrides, Noack;
    var s, p, rest := v.link, v.radio.packet, Rest(v);
    var radio := if rest == [] && Noack(s.cfg, p) then Hot else Started(rest);
    PoppedCount(v.(link := s.(fifo := rest, host := s.host + [p], ledger := s.ledger.(acked := s.ledger.acked.Plus(MotionOf(p)))),
                   radio := radio), false);
  }

  lemma GivenUpCount(v: Vendored, heard: bool)
    requires v.radio.Busy?
    ensures var t := AfterGivenUp(v, heard);
      && t.link.steady == v.link.steady && t.radio.Idle?
      && t.count == if Full(v) || PopsOverride(v) then v.link.steady else v.count
  {
    hide Popped, Flushed, Overrides;
    PoppedCount(GivingUp(v, heard), true);
    FlushedCount(Popped(GivingUp(v, heard), true));
  }

  /** One event: the radio is off the steady count afterwards if and only if the event raised
    * it, or it was off before and the event did not restore it. */
  lemma OffStep(v: Vendored, e: Step)
    ensures Off(After(v, e)) <==> Raises(v, e) || (Off(v) && !Restores(v, e))
  {
    if Happens(v, e) {
      hide AfterSend, AfterAck, AfterGivenUp, Flushed, Out, Overrides, Noack, Wanted, PopsOverride;
      match e
      case Send(p) => if Admits(v, p) { SendCount(v, p); } else { RefusedSend(v, p); RefusedFrame(v, p); }
      case Success => AckCount(v);
      case Failure(heard, _) => GivenUpCount(v, heard);
      case Flush => FlushedCount(v);
      case Hop(_, _) =>
      case TripStart(_, _) =>
      case TripDone(_) =>
      case Retune(_) =>
      case Tick(_) =>
    }
  }

  // ---- Over whole runs ----

  /** Where the run is before its event `i`. */
  function At(v: Vendored, es: seq<Step>, i: nat): Vendored
    requires i <= |es|
  {
    Play(v, es[..i])
  }

  /** Nothing restores the count from event `i` on. */
  ghost predicate Unrestored(v: Vendored, es: seq<Step>, i: nat) {
    forall j :: i <= j < |es| ==> !Restores(At(v, es, j), es[j])
  }

  ghost predicate RaisedAt(v: Vendored, es: seq<Step>, i: nat)
    requires i < |es|
  {
    Raises(At(v, es, i), es[i]) && Unrestored(v, es, i + 1)
  }

  /** Over every run: the radio ends off the steady count if and only if some send raised it
    * and nothing restored it since, or it started off and nothing ever did. */
  lemma {:induction false} OffExactly(v: Vendored, es: seq<Step>)
    ensures Off(Play(v, es)) <==>
      (Off(v) && Unrestored(v, es, 0)) || exists i :: 0 <= i < |es| && RaisedAt(v, es, i)
    decreases |es|
  {
    hide After, Raises, Restores, Off;
    if es != [] {
      var init, last := es[..|es| - 1], es[|es| - 1];
      OffExactly(v, init);
      OffStep(Play(v, init), last);
      LastStep(v, init, last);
      assert es == init + [last];
      forall j | 0 <= j < |es|
        ensures At(v, es, j) == if j < |init| then At(v, init, j) else Play(v, init)
      {
        assert es[..j] == if j < |init| then init[..j] else init;
      }
      assert forall i :: 0 <= i <= |init| ==>
        (Unrestored(v, es, i) <==> Unrestored(v, init, i) && !Restores(Play(v, init), last));
      assert forall i :: 0 <= i < |init| ==>
        (RaisedAt(v, es, i) <==> RaisedAt(v, init, i) && !Restores(Play(v, init), last));
      assert RaisedAt(v, es, |init|) <==> Raises(Play(v, init), last);
    }
  }

  lemma LastStep(v: Vendored, es: seq<Step>, last: Step)
    ensures Play(v, es + [last]) == After(Play(v, es), last)
  {
    hide After;
    RunSplit(v, es, [last]);
    assert Play(After(Play(v, es), last), []) == After(Play(v, es), last);
  }

  /** The radio is not idle in any state of the run. */
  predicate StaysBusy(v: Vendored, es: seq<Step>)
    decreases |es|
  {
    !v.radio.Idle? && (es != [] ==> StaysBusy(After(v, es[0]), es[1..]))
  }

  lemma BusyStep(v: Vendored, e: Step)
    requires !v.radio.Idle? && !After(v, e).radio.Idle?
    ensures After(v, e).count == v.count && After(v, e).link.steady == v.link.steady
  {
    if Happens(v, e) {
      hide AfterSend, AfterAck, AfterGivenUp, Flushed, Out, Overrides, Noack, Wanted, PopsOverride;
      match e
      case Send(p) => if Admits(v, p) { SendCount(v, p); } else { RefusedSend(v, p); RefusedFrame(v, p); }
      case Success => AckCount(v);
      case Failure(heard, _) => GivenUpCount(v, heard);
      case Flush => FlushedCount(v);
      case Hop(_, _) =>
      case TripStart(_, _) =>
      case TripDone(_) =>
      case Retune(_) =>
      case Tick(_) =>
    }
  }

  lemma {:induction false} BusyRun(v: Vendored, es: seq<Step>)
    requires StaysBusy(v, es)
    ensures Play(v, es).count == v.count && Play(v, es).link.steady == v.link.steady && !Play(v, es).radio.Idle?
    decreases |es|
  {
    hide After;
    if es != [] {
      BusyStep(v, es[0]);
      BusyRun(After(v, es[0]), es[1..]);
    }
  }

  /** A busy period: an idle radio accepts a packet, and is next idle after `last`. The count
    * is the steady one then if and only if the event that ended the period popped a slot with
    * an override or flushed a full FIFO, or the period began at the steady count: with a packet
    * that asks for it, or with one that asks for none after a flush or from a steady radio. */
  lemma BusyPeriod(v: Vendored, p: Payload, es: seq<Step>, last: Step)
    requires v.radio.Idle? && Admits(v, p) && StaysBusy(After(v, Send(p)), es)
    requires After(Play(After(v, Send(p)), es), last).radio.Idle?
    ensures var w, out := Play(After(v, Send(p)), es), Out(v, p);
      Off(After(w, last)) <==>
        && !(last.Success? && PopsOverride(w)) && !(last.Failure? && (Full(w) || PopsOverride(w)))
        && (if Overrides(v.link.cfg, out) then Wanted(v.link.cfg, out) != v.link.steady else Off(v) && !Full(v))
  {
    var w := Play(After(v, Send(p)), es);
    BusyRun(After(v, Send(p)), es);
    SendCount(v, p);
    OffStep(w, last);
    EndsBusy(w, last);
  }

  /** How a busy radio becomes idle. */
  lemma EndsBusy(w: Vendored, last: Step)
    requires !w.radio.Idle? && After(w, last).radio.Idle?
    ensures Happens(w, last) && !Raises(w, last)
    ensures Restores(w, last) <==> (last.Success? && PopsOverride(w)) || (last.Failure? && (Full(w) || PopsOverride(w)))
  {
    hide AfterSend, AfterAck, AfterGivenUp, Flushed, Out, Overrides, Noack, Wanted, PopsOverride;
    if last.Send? && Admits(w, last.packet) { SendCount(w, last.packet); }
    else if last.Send? { RefusedSend(w, last.packet); }
    else if last.Success? && Happens(w, last) { AckCount(w); }
    else if last.Flush? && Happens(w, last) { FlushedCount(w); }
  }

  const BEACON := Control(PKT_BEACON)
  const PLAIN := Hid(Consumer([0xE2]))

  /** So the override of one packet outlives it when another is queued behind: after both are
    * acknowledged the radio is idle, nothing is outstanding, and the count is still the
    * override's. */
  lemma OverrideOutlives(cfg: Config, count: nat, channel: nat, clock: nat)
    requires cfg.fifoSize >= 2 && cfg.criticalCount != count
    ensures var v := Play(Start(cfg, count, channel, clock), [Send(BEACON), Send(PLAIN), Success, Success]);
      v.radio.Idle? && Outstanding(v.link) == [] == v.slots && v.link.steady == count && v.count == cfg.criticalCount
  {
    var v0 := Start(cfg, count, channel, clock);
    assert Ready(v0) && !Full(v0);
    hide After, Ready;
    var v1 := After(v0, Send(BEACON));
    PlainSend(v0, BEACON);
    SendTakes(v0, BEACON);
    StartedWith([BEACON]);
    var v2 := After(v1, Send(PLAIN));
    PlainSend(v1, PLAIN);
    SendTakes(v1, PLAIN);
    assert [BEACON] + [PLAIN] == [BEACON, PLAIN];
    var v3 := After(v2, Success);
    AckTakes(v2);
    StartedWith([PLAIN]);
    AckTakes(v3);
    FourSteps(v0, [Send(BEACON), Send(PLAIN), Success, Success]);
  }

  lemma SendTakes(v: Vendored, p: Payload)
    requires Ready(v) && !Full(v) && !IsMouse(p)
    ensures var t := After(v, Send(p));
      t.count == (if v.radio.Idle? && IsCritical(p) then v.link.cfg.criticalCount else v.count) && t.link.steady == v.link.steady
  {
    PlainSend(v, p);
    SendCount(v, p);
  }

  lemma AckTakes(v: Vendored)
    requires Ready(v) && v.radio.Busy? && !IsMouse(v.radio.packet)
    ensures var t := After(v, Success);
      && Ready(t) && t.link.fifo == Rest(v) && t.slots == (if v.slots == [] then [] else v.slots[1..])
      && t.radio == Started(Rest(v)) && t.link.cfg == v.link.cfg && t.link.steady == v.link.steady
      && t.count == if Rest(v) == [] && PopsOverride(v) then v.link.steady else v.count
  {
    AckFrame(v);
    AckCount(v);
  }

  /** The same run is in step throughout, so it is a run of `Link`, where the intended count is
    * back at the steady one, as `Link.NothingOutstanding` says: the radio's count is not.
    * Lockstep does not carry that promise over. */
  lemma InStepYetOff(cfg: Config, count: nat, channel: nat, clock: nat)
    requires 2 <= cfg.fifoSize < 256 && cfg.criticalCount != count
    ensures var v, es := Start(cfg, count, channel, clock), [Send(BEACON), Send(PLAIN), Success, Success];
      && AllHarmless(v, es) && AlwaysInStep(v, es) && Outstanding(Play(v, es).link) == []
      && Play(v, es).link.retransmit == Play(v, es).link.steady && Off(Play(v, es))
  {
    var v, es := Start(cfg, count, channel, clock), [Send(BEACON), Send(PLAIN), Success, Success];
    OverrideOutlives(cfg, count, channel, clock);
    TwoSendsHarmless(v);
    hide Play, AllSeen, AllHarmless, AlwaysInStep, Link.Run;
    SessionInStep(cfg, count, channel, clock, es);
    Link.NothingOutstanding(cfg, count, channel, clock, AllSeen(v, es), DX);
  }

  lemma TwoSendsHarmless(v: Vendored)
    requires Ready(v) && v.link.fifo == [] && v.link.cfg.fifoSize >= 2
    ensures AllHarmless(v, [Send(BEACON), Send(PLAIN), Success, Success])
  {
    PlainSend(v, BEACON);
    hide After;
    var v1 := After(v, Send(BEACON));
    var v2 := After(v1, Send(PLAIN));
    SuccessHarmless(v2, [Success, Success]);
    assert [Send(BEACON), Send(PLAIN), Success, Success][1..][1..] == [Success, Success];
    assert AllHarmless(v1, [Send(BEACON), Send(PLAIN), Success, Success][1..]);
  }

  lemma {:induction false} SuccessHarmless(v: Vendored, es: seq<Step>)
    requires forall e :: e in es ==> e.Success?
    ensures AllHarmless(v, es)
    decreases |es|
  {
    hide After;
    if es != [] {
      assert es[0] in es;
      SuccessHarmless(After(v, es[0]), es[1..]);
    }
  }
}
