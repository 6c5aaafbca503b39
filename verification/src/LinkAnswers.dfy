/** What the transport answers and what becomes of a packet (src/esb/esb_transport.c), seen from
  * outside: the counts a send asks the radio for, the flushes, and the marks events leave. */
module LinkAnswers {
  import opened Packets
  import opened Clock32
  import opened Link
  import opened Convergence

  /** A send is put off exactly during a side-trip or a quiet window, and turned away exactly
    * when it is a shell packet for a full FIFO; either way no packet is touched. */
  lemma SendAnswers(s: State, p: Payload)
    ensures var (t, result) := SendPacket(s, p);
      && (result == Again <==> s.trip.Waiting? || (s.quietUntil != 0 && Ahead(s.quietUntil, s.clock)))
      && (result == NoMemory <==> result != Again && |s.fifo| >= s.cfg.fifoSize && IsShell(p))
      && (result == Again ==> t == s)
      && (result == NoMemory ==> t == s.(quietUntil := 0))
      && (result == Accepted ==> t.quietUntil == 0)
  {
    hide DropAll, Prepare, Kinds, TotalMotion;
    PrepareLeaves(if |s.fifo| >= s.cfg.fifoSize then DropAll(s.(quietUntil := 0)) else s.(quietUntil := 0), p);
    DropLeaves(s.(quietUntil := 0));
  }

  lemma PrepareLeaves(s: State, p: Payload)
    ensures var (t, out) := Prepare(s, p);
      && t.quietUntil == s.quietUntil && t.fifo == s.fifo && t.inflight == s.inflight && t.resync == s.resync
      && t.cfg == s.cfg && t.trip == s.trip && t.stash == s.stash && t.host == s.host
      && StateOf(out) == StateOf(p) && (!IsMouse(p) ==> out == p)
      && t.retransmit ==
           if IsCritical(p) then s.cfg.criticalCount
           else if IsMouse(out) && !MotionOf(out).Still() && out.report.buttons == {} && !s.cfg.hidNoack then s.cfg.pointerCount
           else s.retransmit
  {
  }

  lemma DropLeaves(s: State)
    ensures var t := DropAll(s);
      && t.fifo == [] == t.stash && t.inflight == 0 && t.retransmit == s.steady && t.quietUntil == s.quietUntil
      && t.cfg == s.cfg && t.trip == s.trip && t.host == s.host && t.steady == s.steady
      && t.resync == s.resync + Kinds(s.cfg, Outstanding(s))
  {
    hide Kinds, TotalMotion;
  }

  /** A packet that is taken goes to the end of the FIFO, which a full one is flushed for. A
    * critical packet asks for the elevated count, motion without a button, when acknowledged,
    * for the lowered one, and every other leaves the count; motion adds one in flight. */
  lemma SendTakes(s: State, p: Payload)
    requires SendPacket(s, p).1 == Accepted
    ensures var t, full := SendPacket(s, p).0, |s.fifo| >= s.cfg.fifoSize;
      && t.fifo != [] && t.fifo[..|t.fifo| - 1] == (if full then [] else s.fifo)
      && var out := t.fifo[|t.fifo| - 1];
      && StateOf(out) == StateOf(p) && (!IsMouse(p) ==> out == p)
      && t.retransmit ==
           (if IsCritical(p) then s.cfg.criticalCount
            else if IsMouse(out) && !MotionOf(out).Still() && out.report.buttons == {} && !s.cfg.hidNoack then s.cfg.pointerCount
            else if full then s.steady else s.retransmit)
      && t.inflight ==
           (var kept := if full then 0 else s.inflight; if !MotionOf(out).Still() && kept < 255 then kept + 1 else kept)
      && t.resync == (if full then s.resync + Kinds(s.cfg, Outstanding(s)) else s.resync)
  {
    hide DropAll, Prepare, Kinds, TotalMotion;
    var s0 := s.(quietUntil := 0);
    DropLeaves(s0);
    assert Outstanding(s0) == Outstanding(s);
    PrepareLeaves(if |s.fifo| >= s.cfg.fifoSize then DropAll(s0) else s0, p);
  }

  /** A failure takes the front packet and flushes the rest exactly if the FIFO the handler sees
    * is still full. */
  lemma FailureFlushes(s: State, heard: bool, lingers: bool)
    requires s.trip.NoTrip? && s.fifo != [] && s.stash == []
    ensures var t, full := TxFailure(s, heard, lingers), |s.fifo| - 1 + (if lingers then 1 else 0) >= s.cfg.fifoSize;
      && Outstanding(t) == (if full then [] else s.fifo[1..])
      && t.resync == s.resync + Kinds(s.cfg, if full then s.fifo else [s.fifo[0]])
      && t.retransmit == if full || Overrides(s.cfg, s.fifo[0]) then s.steady else s.retransmit
  {
    hide Kinds, TotalMotion, Overrides;
    var popped := PopFailed(s, heard);
    DropLeaves(popped);
    assert Outstanding(popped) == s.fifo[1..];
    assert popped.resync == s.resync + Kinds(s.cfg, [s.fifo[0]]);
    KindsOfBoth(s.cfg, s.fifo[0], s.fifo[1..]);
    assert [s.fifo[0]] + s.fifo[1..] == s.fifo;
  }

  lemma KindsOfBoth(cfg: Config, p: Payload, ps: seq<Payload>)
    ensures Kinds(cfg, [p] + ps) == Kinds(cfg, [p]) + Kinds(cfg, ps)
  {
    assert forall q :: q in [p] + ps <==> q == p || q in ps;
  }

  /** An acknowledgement tells the host, and restores the count exactly after an override. */
  lemma SuccessTells(s: State)
    requires s.trip.NoTrip? && s.fifo != [] && s.stash == []
    ensures var t := TxSuccess(s);
      && Outstanding(t) == s.fifo[1..] && t.host == s.host + [s.fifo[0]] && t.resync == s.resync
      && t.pool == s.pool && t.poolStamp == s.poolStamp
      && t.retransmit == if Overrides(s.cfg, s.fifo[0]) then s.steady else s.retransmit
  {
  }

  /** Pointer reports are held back exactly while as many moving ones as the cap are outstanding. */
  lemma HeldBack(s: State)
    requires Inv(s)
    ensures Backpressure(s) <==> Moving(Outstanding(s)) >= s.cfg.inflightCap
  {
  }

  /** A new steady count is set when it differs, and is what the radio is meant to run at. */
  lemma RetuneSets(s: State, count: nat)
    ensures var t := Apply(s, Retune(count));
      t.steady == count && (t.retransmit == if count == s.steady then s.retransmit else count)
  {
  }

  /** Which packets are sent at the elevated count and which belong to the shell: BEACON,
    * PAIR_RESP, DISCONNECT, VERIFY_REQ, HOP_PROPOSAL, IDLE and HOP_OFFER, and SHELL_STOP,
    * SHELL_DATA and SHELL_POLL, by their type bytes. */
  lemma TypeBytes(code: nat, report: Report)
    ensures IsCritical(Control(code)) <==> code in {0x01, 0x03, 0x07, 0x10, 0x14, 0x17, 0x18}
    ensures IsShell(Control(code)) <==> code in {0x09, 0x0A, 0x0B}
    ensures !IsCritical(Hid(report)) && !IsShell(Hid(report))
  {
  }
}
