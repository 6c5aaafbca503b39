/** The transport's two clocks against true time (src/esb/esb_transport.c): how long a hop keeps
  * it quiet, and how old a refund may get. */
module LinkTiming {
  import opened Packets
  import opened Clock32
  import opened Link
  import opened Modulo
  import Quarantine
  import HopTiming

  // ---- The quiet window after a hop ----

  /** For how long a hop at true time `at` quiets the link: a deadline that would read zero is
    * one millisecond late. */
  function QuietFor(cfg: Config, at: nat): nat {
    if (at + cfg.postQuietMs) % WORD == 0 then cfg.postQuietMs + 1 else cfg.postQuietMs
  }

  lemma DeadlineWord(cfg: Config, at: nat)
    ensures Stamp((at % WORD + cfg.postQuietMs) % WORD) == (at + QuietFor(cfg, at)) % WORD != 0
  {
    Quarantine.WrappedSum(at, cfg.postQuietMs);
    if (at + cfg.postQuietMs) % WORD == 0 {
      ModStep(at + cfg.postQuietMs, 1, WORD);
    }
  }

  /** The clock reads a time between the hop and `d` milliseconds later. */
  ghost predicate ReadsWithin(clock: nat, at: nat, d: nat) {
    exists e: nat :: e <= d && ReadsAfter(clock, at, e)
  }

  predicate ReadsAfter(clock: nat, at: nat, e: nat) { clock == (at + e) % WORD }

  /** What may happen after the hop: anything but another hop, on a clock that runs from the hop
    * to `d` milliseconds later. */
  ghost predicate Since(steps: seq<Step>, at: nat, d: nat) {
    forall step :: step in steps ==>
      !(step.Hop? && step.tuned) && (step.Tick? ==> ReadsWithin(step.now % WORD, at, d))
  }

  /** The window is still armed, or a send that came after its end has cleared it. */
  ghost predicate Armed(s: State, at: nat, d: nat) {
    && ReadsWithin(s.clock, at, d)
    && (s.quietUntil == (at + QuietFor(s.cfg, at)) % WORD || (s.quietUntil == 0 && d >= QuietFor(s.cfg, at)))
  }

  lemma AheadAfter(cfg: Config, at: nat, e: nat)
    requires e < HALF && cfg.postQuietMs < HALF - 1
    ensures Ahead((at + QuietFor(cfg, at)) % WORD, (at + e) % WORD) <==> e < QuietFor(cfg, at)
  {
    Quarantine.AheadIsTrueTime(at + QuietFor(cfg, at), at + e);
  }

  lemma QuietOrOver(s: State, at: nat, d: nat)
    requires Armed(s, at, d) && d < HALF && s.cfg.postQuietMs < HALF - 1 && s.trip.NoTrip?
    ensures !Quiet(s) ==> d >= QuietFor(s.cfg, at)
  {
    var e: nat :| e <= d && ReadsAfter(s.clock, at, e);
    AheadAfter(s.cfg, at, e);
    DeadlineWord(s.cfg, at);
  }

  lemma StepStaysArmed(s: State, step: Step, at: nat, d: nat)
    requires Armed(s, at, d) && d < HALF && s.cfg.postQuietMs < HALF - 1
    requires !(step.Hop? && step.tuned) && (step.Tick? ==> ReadsWithin(step.now % WORD, at, d))
    ensures Armed(Apply(s, step), at, d) && Apply(s, step).cfg == s.cfg
  {
    hide Kinds, TotalMotion, Prepare, Total;
    if step.Send? && !Quiet(s) {
      QuietOrOver(s, at, d);
      PrepareClock(if |s.fifo| >= s.cfg.fifoSize then DropAll(s.(quietUntil := 0)) else s.(quietUntil := 0), step.packet);
    }
  }

  lemma PrepareClock(s: State, p: Payload)
    ensures var t := Prepare(s, p).0; t.clock == s.clock && t.quietUntil == s.quietUntil && t.cfg == s.cfg
  {
  }

  lemma {:induction false} RunStaysArmed(s: State, steps: seq<Step>, at: nat, d: nat)
    requires Armed(s, at, d) && d < HALF && s.cfg.postQuietMs < HALF - 1 && Since(steps, at, d)
    ensures Armed(Run(s, steps), at, d) && Run(s, steps).cfg == s.cfg
    decreases |steps|
  {
    hide Armed, Apply;
    if steps != [] {
      assert steps[0] in steps;
      StepStaysArmed(s, steps[0], at, d);
      RunStaysArmed(Apply(s, steps[0]), steps[1..], at, d);
    }
  }

  /** A hop quiets the link for exactly its time: `d` milliseconds after a hop that tuned, over
    * any run without another and with no side-trip running, every send is refused if and only
    * if d is still inside. */
  lemma QuietAfterHop(s: State, channel: nat, steps: seq<Step>, at: nat, d: nat, p: Payload)
    requires s.trip.NoTrip? && s.clock == at % WORD && s.cfg.postQuietMs < HALF - 1 && d < HALF && Since(steps, at, d)
    requires var t := Run(Apply(s, Hop(channel, true)), steps); t.trip.NoTrip? && t.clock == (at + d) % WORD
    ensures SendPacket(Run(Apply(s, Hop(channel, true)), steps), p).1 == Again <==> d < QuietFor(s.cfg, at)
  {
    hide Run, Kinds, TotalMotion, Prepare, Write, DropAll;
    var hopped := Apply(s, Hop(channel, true));
    DeadlineWord(s.cfg, at);
    assert ReadsAfter(hopped.clock, at, 0);
    RunStaysArmed(hopped, steps, at, d);
    AheadAfter(s.cfg, at, d);
  }

  /** A hop moves the radio, keeps every packet queued and forgets the refunds. */
  lemma HopMoves(s: State, channel: nat, tuned: bool)
    requires s.trip.NoTrip?
    ensures var t := Apply(s, Hop(channel, tuned));
      && Outstanding(t) == Outstanding(s)
      && t.channel == (if tuned then channel else s.channel)
      && (tuned ==> t.pool.Still() && t.poolStamp == 0) && (!tuned ==> t == s)
  {
  }

  // ---- The age of a refund ----

  /** Nothing that reaches the pool's stamp: no mouse report is sent, and no hop tunes. */
  ghost predicate PoolWaits(steps: seq<Step>) {
    forall step :: step in steps ==> !(step.Hop? && step.tuned) && !(step.Send? && IsMouse(step.packet))
  }

  lemma StepKeepsStamp(s: State, step: Step)
    requires s.poolStamp != 0 && !(step.Hop? && step.tuned) && !(step.Send? && IsMouse(step.packet))
    ensures Apply(s, step).poolStamp == s.poolStamp && Apply(s, step).cfg == s.cfg
  {
    hide Kinds, TotalMotion;
  }

  lemma {:induction false} StampStays(s: State, steps: seq<Step>)
    requires s.poolStamp != 0 && PoolWaits(steps)
    ensures Run(s, steps).poolStamp == s.poolStamp && Run(s, steps).cfg == s.cfg
    decreases |steps|
  {
    hide Apply;
    if steps != [] {
      assert steps[0] in steps;
      StepKeepsStamp(s, steps[0]);
      StampStays(Apply(s, steps[0]), steps[1..]);
    }
  }

  /** The first failure of a moving report stamps an empty pool; later ones keep the stamp. */
  lemma FailureStamps(s: State, heard: bool, lingers: bool)
    requires s.trip.NoTrip? && s.fifo != [] && !MotionOf(s.fifo[0]).Still()
    ensures var t := Apply(s, Failure(heard, lingers));
      && t.poolStamp == (if s.poolStamp == 0 then Stamp(s.clock) else s.poolStamp)
      && t.pool == s.pool.Plus(MotionOf(s.fifo[0])) && t.cfg == s.cfg
  {
    hide Kinds, TotalMotion, Motion.Plus;
  }

  /** The packet that leaves, and the pool, after a send that the transport takes. */
  ghost predicate Returns(s: State, p: Payload, stale: bool) {
    var t := SendPacket(s, p).0;
    && t.fifo != [] && StateOf(t.fifo[|t.fifo| - 1]) == StateOf(p)
    && var m, sum := MotionOf(t.fifo[|t.fifo| - 1]), MotionOf(p).Plus(s.pool);
    && t.ledger.staleRefund == (if stale then s.ledger.staleRefund.Plus(s.pool) else s.ledger.staleRefund)
    && m == (if stale then MotionOf(p) else sum.Clamp())
    && t.pool == (if stale then STILL else sum.Minus(sum.Clamp()))
    && t.poolStamp == if stale || (t.pool.Still() && !s.pool.Still()) then 0 else s.poolStamp
  }

  /** Clamping takes, on every axis, the 16-bit value closest to what was asked. */
  lemma ClampIsClosest(m: Motion, axis: Axis, v: int)
    requires -0x8000 <= v <= 0x7FFF
    ensures var c := m.Clamp().On(axis);
      -0x8000 <= c <= 0x7FFF && if m.On(axis) < c then m.On(axis) < c <= v else v <= c <= m.On(axis) || c == m.On(axis)
  {
  }

  lemma ClampRest(m: Motion)
    requires m.InRange()
    ensures m.Clamp() == m && m.Minus(m.Clamp()) == STILL && m.Plus(STILL) == m
  {
  }

  /** A mouse report takes the refund with it, up to 16 bits an axis, if and only if the refund
    * is fresh: a stale one is dropped by name and the report leaves as it is. */
  lemma SendReturns(s: State, p: Payload)
    requires IsMouse(p) && MotionOf(p).InRange() && !Quiet(s)
    ensures Returns(s, p, s.poolStamp != 0 && Elapsed(s.clock, s.poolStamp) >= s.cfg.refundStaleMs)
  {
    ClampRest(MotionOf(p));
    if s.pool.Still() { assert s.pool == STILL; }
    hide Kinds, TotalMotion, Motion.Clamp, Motion.Minus, Motion.Plus;
  }

  /** In true time: a failure stamps an empty pool at `at`, anything but a mouse report or a hop
    * follows, and a mouse report that is taken `d` milliseconds later carries the refund if and
    * only if the pool's measured age is below the limit. The age is exact, except for a failure
    * at clock reading zero. */
  lemma RefundByAge(s: State, heard: bool, lingers: bool, steps: seq<Step>, at: nat, d: nat, p: Payload)
    requires s.trip.NoTrip? && s.fifo != [] && !MotionOf(s.fifo[0]).Still() && s.poolStamp == 0 && s.clock == at % WORD
    requires PoolWaits(steps) && d < HALF && IsMouse(p) && MotionOf(p).InRange()
    requires var t := Run(Apply(s, Failure(heard, lingers)), steps);
      t.clock == (at + d) % WORD && !Quiet(t)
    ensures Returns(Run(Apply(s, Failure(heard, lingers)), steps), p, HopTiming.Measured(at, d) >= s.cfg.refundStaleMs)
  {
    hide Run, Apply, Returns, Quiet;
    FailureStamps(s, heard, lingers);
    StampStays(Apply(s, Failure(heard, lingers)), steps);
    SendReturns(Run(Apply(s, Failure(heard, lingers)), steps), p);
    HopTiming.SilenceIsMeasured(at, d);
  }

  /** Other packets neither take the refund nor drop it. */
  lemma OthersLeaveRefund(s: State, p: Payload)
    requires !IsMouse(p)
    ensures var t := SendPacket(s, p).0;
      t.pool == s.pool && t.poolStamp == s.poolStamp && t.ledger.staleRefund == s.ledger.staleRefund
  {
    hide Kinds, TotalMotion;
  }
}
