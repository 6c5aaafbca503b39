/** What the host ends up with over the library as compiled in: exactly which events can hide
  * the last report of a kind that `Convergence` proves is never hidden over the contract. */
module VendoredHost {
  import opened Packets
  import opened Link
  import opened VendoredRadio
  import opened Convergence

  predicate Has(k: Kind, ps: seq<Payload>) { LastOf(k, ps).Some? }

  /** The packet on the air is acknowledged, or heard without its acknowledgement. */
  predicate Hears(v: Vendored, e: Step) {
    Happens(v, e) && (e.Success? || (e.Failure? && e.heard))
  }

  predicate Ends(v: Vendored, e: Step) {
    Happens(v, e) && (e.Success? || e.Failure?)
  }

  function HostAfter(v: Vendored, e: Step): seq<Payload> {
    if Hears(v, e) then v.link.host + [v.radio.packet] else v.link.host
  }

  /** The host hears a packet that a flush had already taken off the FIFO. */
  predicate Stale(v: Vendored, e: Step) { Hears(v, e) && !v.radio.queued }

  predicate Clears(v: Vendored, e: Step) {
    Flushes(v, e) || (Happens(v, e) && e.Failure? && Full(v))
  }

  /** The condition under which an event hides nothing. A flush loses the reports without a
    * slot, and asks for no resync unless the kind also has a slot; a stale acknowledgement
    * shows the host a report that is older than what it replaces. */
  ghost predicate Spares(k: Kind, v: Vendored, e: Step, queue: seq<Payload>, current: Payload)
    requires Drifted(v)
  {
    || k in v.link.resync || Has(k, queue) || LastOf(k, HostAfter(v, e)) == Some(current)
    || if Clears(v, e) then Has(k, v.slots) || (!Stale(v, e) && !Has(k, Slotless(v)))
       else Stale(v, e) ==> Has(k, if e.Success? then Rest(v) else v.link.fifo)
  }

  /** A kind has a report among the packets if and only if a flush of those asks for it. */
  lemma KindsExact(cfg: Config, k: Kind, ps: seq<Payload>)
    requires Tracked(cfg, k)
    ensures k in Kinds(cfg, ps) <==> Has(k, ps)
  {
    LastOfNone(k, ps);
    if Has(k, ps) {
      var p :| p in ps && ReportKind(p) == k;
      assert KindOf(cfg, p) in Kinds(cfg, ps);
    }
  }

  /** Whether a state converges, in terms of its parts. */
  lemma ConvergingParts(k: Kind, s: State, queue: seq<Payload>, current: Payload)
    ensures Converging(k, s, queue, current) <==>
      k in s.resync || (if Has(k, queue) then LastOf(k, queue)
                        else if Has(k, Outstanding(s)) then LastOf(k, Outstanding(s)) else LastOf(k, s.host)) == Some(current)
  {
    LastOfConcat(k, s.host, Outstanding(s));
    LastOfConcat(k, Trail(s), queue);
  }

  lemma OutKind(v: Vendored, p: Payload)
    ensures ReportKind(Out(v, p)) == ReportKind(p) && StateOf(Out(v, p)) == StateOf(p)
  {
    hide Emptied;
    Convergence.PrepareKind(Emptied(v).link, p);
  }

  lemma HasOne(k: Kind, ps: seq<Payload>, p: Payload)
    requires ReportKind(p) != k
    ensures LastOf(k, ps + [p]) == LastOf(k, ps)
  {
  }

  /** After a flush: nothing of the kind is queued, and a resync is due if and only if one
    * was or the kind had a slot. */
  lemma ClearedParts(k: Kind, v: Vendored, e: Step)
    requires Drifted(v) && Tracked(v.link.cfg, k) && Clears(v, e) && (e.Send? ==> ReportKind(e.packet) != k)
    ensures var t := After(v, e).link;
      t.host == HostAfter(v, e) && !Has(k, Outstanding(t)) && (k in t.resync <==> k in v.link.resync || Has(k, v.slots))
  {
    hide Kinds, Prepare, TotalMotion, SendPacket, AfterSend, AfterGivenUp, Suffix, LastOf, Out;
    KindsExact(v.link.cfg, k, v.slots);
    assert LastOf(k, []) == None by { NoneInEmpty(k); }
    if e.Send? {
      AdmittedNoTrip(v, e.packet);
      EmptiedFrame(v);
      SendFrame(v, e.packet);
      OutKind(v, e.packet);
      HasOne(k, [], Out(v, e.packet));
      assert After(v, e).link.fifo == [] + [Out(v, e.packet)] == Outstanding(After(v, e).link);
    } else if e.Failure? {
      GivenUpFrame(v, e.heard);
      GivenUpResync(v, e.heard);
      assert Outstanding(After(v, e).link) == [];
    } else {
      assert Outstanding(After(v, e).link) == [];
    }
  }

  lemma NoneInEmpty(k: Kind)
    ensures LastOf(k, []) == None
  {
  }

  lemma GivenUpResync(v: Vendored, heard: bool)
    requires v.radio.Busy?
    ensures AfterGivenUp(v, heard).link.resync
         == v.link.resync + Kinds(v.link.cfg, if Full(v) then v.slots else if v.slots == [] then [] else [v.slots[0]])
  {
    hide Kinds, TotalMotion, Overrides;
    KindsOfNone(v.link.cfg);
    if v.slots != [] {
      KindsSplit(v.link.cfg, v.slots[0], v.slots[1..]);
      assert [v.slots[0]] + v.slots[1..] == v.slots;
    }
  }

  lemma KindsOfNone(cfg: Config)
    ensures Kinds(cfg, []) == {}
  {
  }

  lemma KindsSplit(cfg: Config, p: Payload, ps: seq<Payload>)
    ensures Kinds(cfg, [p] + ps) == Kinds(cfg, [p]) + Kinds(cfg, ps)
  {
    assert forall q :: q in [p] + ps <==> q == p || q in ps;
  }

  lemma QueuedParts(k: Kind, v: Vendored, e: Step)
    requires Drifted(v) && Tracked(v.link.cfg, k) && !Clears(v, e) && Ends(v, e)
    ensures var t, left := After(v, e).link, if e.Success? then Rest(v) else v.link.fifo;
      t.host == HostAfter(v, e) && Outstanding(t) == left
      && (k in t.resync <==> k in v.link.resync || (e.Failure? && v.slots != [] && Has(k, [v.slots[0]])))
  {
    hide Kinds, AfterAck, AfterGivenUp, LastOf, Suffix;
    if e.Success? {
      AckFrame(v);
    } else {
      GivenUpFrame(v, e.heard);
      GivenUpResync(v, e.heard);
      KindsExact(v.link.cfg, k, []);
      NoneInEmpty(k);
      if v.slots != [] { KindsExact(v.link.cfg, k, [v.slots[0]]); }
    }
  }

  /** Every other event keeps what was heard, asked for and last queued of the kind. */
  lemma OtherParts(k: Kind, v: Vendored, e: Step)
    requires Drifted(v) && !Clears(v, e) && !Ends(v, e) && (e.Send? ==> ReportKind(e.packet) != k)
    ensures var t := After(v, e).link;
      t.host == v.link.host && t.resync == v.link.resync && LastOf(k, Outstanding(t)) == LastOf(k, Outstanding(v.link))
  {
    hide AfterSend, SendPacket, LastOf, Prepare, Suffix;
    if e.Send? && Admits(v, e.packet) {
      AdmittedNoTrip(v, e.packet);
      EmptiedFrame(v);
      SendFrame(v, e.packet);
      OutKind(v, e.packet);
      HasOne(k, v.link.fifo, Out(v, e.packet));
      assert Outstanding(v.link) == v.link.fifo && Outstanding(After(v, e).link) == After(v, e).link.fifo;
    } else if e.Send? {
      RefusedSend(v, e.packet);
      RefusedFrame(v, e.packet);
      assert Outstanding(After(v, e).link) == Outstanding(v.link);
    } else {
      assert Outstanding(After(v, e).link) == Outstanding(v.link);
    }
  }

  /** What is last among the outstanding packets, from the FIFO's front and from the slots. */
  lemma OutstandingParts(k: Kind, v: Vendored)
    requires Drifted(v)
    ensures LastOf(k, Outstanding(v.link)) == if Has(k, v.slots) then LastOf(k, v.slots) else LastOf(k, Slotless(v))
    ensures v.slots != [] && Has(k, [v.slots[0]]) ==> Has(k, v.slots)
    ensures v.link.trip.NoTrip? && v.link.fifo != [] ==>
      LastOf(k, v.link.fifo) == if Has(k, Rest(v)) then LastOf(k, Rest(v)) else LastOf(k, [v.link.fifo[0]])
  {
    hide LastOf, Suffix, WellFormed;
    SlotlessThenSlots(v);
    LastOfConcat(k, Slotless(v), v.slots);
    if v.slots != [] { LastOfCons(k, v.slots); }
    if v.link.fifo != [] { LastOfCons(k, v.link.fifo); }
  }

  lemma LastOfCons(k: Kind, ps: seq<Payload>)
    requires ps != []
    ensures LastOf(k, ps) == if Has(k, ps[1..]) then LastOf(k, ps[1..]) else LastOf(k, [ps[0]])
  {
    hide LastOf;
    assert ps == [ps[0]] + ps[1..];
    LastOfConcat(k, [ps[0]], ps[1..]);
  }

  /** The host's last report after the event, and the front packet it may have been. */
  lemma HostParts(k: Kind, v: Vendored, e: Step)
    requires Drifted(v)
    ensures Hears(v, e) && !Stale(v, e) ==> v.link.fifo != [] && v.radio.packet == v.link.fifo[0]
    ensures LastOf(k, HostAfter(v, e)) ==
      if Hears(v, e) && Has(k, [v.radio.packet]) then LastOf(k, [v.radio.packet]) else LastOf(k, v.link.host)
  {
    hide LastOf, Suffix;
    if Hears(v, e) {
      LastOfConcat(k, v.link.host, [v.radio.packet]);
    }
  }

  lemma ClearSpares(k: Kind, v: Vendored, e: Step, queue: seq<Payload>, current: Payload)
    requires Drifted(v) && Tracked(v.link.cfg, k) && Clears(v, e) && (e.Send? ==> ReportKind(e.packet) != k)
    requires Converging(k, v.link, queue, current)
    ensures Converging(k, After(v, e).link, queue, current) <==> Spares(k, v, e, queue, current)
  {
    hide After, LastOf, Converging, Slotless, Clears, Suffix, HostAfter, Outstanding, WellFormed;
    ConvergingParts(k, v.link, queue, current);
    ConvergingParts(k, After(v, e).link, queue, current);
    OutstandingParts(k, v);
    HostParts(k, v, e);
    ClearedParts(k, v, e);
    FifoOutstanding(v);
  }

  lemma FifoOutstanding(v: Vendored)
    requires Drifted(v)
    ensures v.link.trip.NoTrip? ==> Outstanding(v.link) == v.link.fifo
  {
  }

  lemma EndSpares(k: Kind, v: Vendored, e: Step, queue: seq<Payload>, current: Payload)
    requires Drifted(v) && Tracked(v.link.cfg, k) && !Clears(v, e) && Ends(v, e)
    requires Converging(k, v.link, queue, current)
    ensures Converging(k, After(v, e).link, queue, current) <==> Spares(k, v, e, queue, current)
  {
    hide After, LastOf, Converging, Slotless, Clears, Suffix, HostAfter, Outstanding, WellFormed;
    ConvergingParts(k, v.link, queue, current);
    ConvergingParts(k, After(v, e).link, queue, current);
    OutstandingParts(k, v);
    HostParts(k, v, e);
    QueuedParts(k, v, e);
    FifoOutstanding(v);
  }

  /** One event, from every state a run can reach: the kind still converges afterwards if and
    * only if the event spares it. */
  lemma SparesExactly(k: Kind, v: Vendored, e: Step, queue: seq<Payload>, current: Payload)
    requires Drifted(v) && Tracked(v.link.cfg, k) && (e.Send? ==> ReportKind(e.packet) != k)
    requires Converging(k, v.link, queue, current)
    ensures Converging(k, After(v, e).link, queue, current) <==> Spares(k, v, e, queue, current)
  {
    if Clears(v, e) {
      ClearSpares(k, v, e, queue, current);
    } else if Ends(v, e) {
      EndSpares(k, v, e, queue, current);
    } else {
      hide After, LastOf, Slotless, Drifted, Clears;
      ConvergingParts(k, v.link, queue, current);
      ConvergingParts(k, After(v, e).link, queue, current);
      OtherParts(k, v, e);
    }
  }

  // ---- Over whole runs ----

  ghost predicate AllSpare(k: Kind, v: Vendored, es: seq<Step>, queue: seq<Payload>, current: Payload)
    requires Drifted(v)
    decreases |es|
  {
    es != [] ==> (ApplyDrifts(v, es[0]);
                  Spares(k, v, es[0], queue, current) && AllSpare(k, After(v, es[0]), es[1..], queue, current))
  }

  ghost predicate AlwaysConverging(k: Kind, v: Vendored, es: seq<Step>, queue: seq<Payload>, current: Payload)
    decreases |es|
  {
    Converging(k, v.link, queue, current) && (es != [] ==> AlwaysConverging(k, After(v, es[0]), es[1..], queue, current))
  }

  /** Over every run in which nobody else sends the kind: the host keeps converging on the
    * same state in every state of the run if and only if every event spares it. */
  lemma {:induction false} ConvergesExactly(k: Kind, v: Vendored, es: seq<Step>, queue: seq<Payload>, current: Payload)
    requires Drifted(v) && Tracked(v.link.cfg, k) && Foreign(k, es) && Converging(k, v.link, queue, current)
    ensures AlwaysConverging(k, v, es, queue, current) <==> AllSpare(k, v, es, queue, current)
    decreases |es|
  {
    hide After, Converging, Spares, Drifted;
    if es != [] {
      assert es[0] in es;
      ApplyDrifts(v, es[0]);
      SparesExactly(k, v, es[0], queue, current);
      if Spares(k, v, es[0], queue, current) {
        ConvergesExactly(k, After(v, es[0]), es[1..], queue, current);
      }
    }
  }

  /** Without a flush nothing is hidden: a failure that meets room never loses a report. */
  lemma RoomySpares(k: Kind, v: Vendored, e: Step, queue: seq<Payload>, current: Payload)
    requires Drifted(v) && !Clears(v, e) && (v.radio.Busy? ==> v.radio.queued)
    ensures Spares(k, v, e, queue, current)
    ensures After(v, e).radio.Busy? ==> After(v, e).radio.queued
  {
    if Happens(v, e) {
      hide LastOf, AfterSend, AfterAck, AfterGivenUp, Flushed, Suffix, Out;
      match e
      case Send(p) => if Admits(v, p) { SendFrame(v, p); EmptiedFrame(v); } else { RefusedSend(v, p); }
      case Success => AckFrame(v);
      case Failure(heard, _) => GivenUpFrame(v, heard);
      case Flush =>
      case Hop(_, _) =>
      case TripStart(_, _) =>
      case TripDone(_) =>
      case Retune(_) =>
      case Tick(_) =>
    }
  }

  predicate NeverClears(v: Vendored, es: seq<Step>)
    decreases |es|
  {
    es != [] ==> !Clears(v, es[0]) && NeverClears(After(v, es[0]), es[1..])
  }

  /** So the host keeps converging over every run without a flush, however many packets fail
    * early: it takes a flush to lose a report. */
  lemma {:induction false} NoFlushSpares(k: Kind, v: Vendored, es: seq<Step>, queue: seq<Payload>, current: Payload)
    requires Drifted(v) && (v.radio.Busy? ==> v.radio.queued) && NeverClears(v, es)
    ensures AllSpare(k, v, es, queue, current)
    decreases |es|
  {
    hide After, Spares, Drifted, Clears;
    if es != [] {
      RoomySpares(k, v, es[0], queue, current);
      ApplyDrifts(v, es[0]);
      NoFlushSpares(k, After(v, es[0]), es[1..], queue, current);
    }
  }

  /** And over every harmless run, flushes included: what `Convergence` proves over the
    * contract carries over with lockstep. */
  lemma {:induction false} HarmlessSpares(k: Kind, v: Vendored, es: seq<Step>, queue: seq<Payload>, current: Payload)
    requires InStep(v) && AllHarmless(v, es)
    ensures AllSpare(k, v, es, queue, current)
    decreases |es|
  {
    hide After, Spares, Harmless, InStep;
    assert Drifted(v) by { InStepSpares(k, v, Tick(0), queue, current); }
    if es != [] {
      InStepSpares(k, v, es[0], queue, current);
      ApplyInStep(v, es[0]);
      HarmlessSpares(k, After(v, es[0]), es[1..], queue, current);
    }
  }

  lemma InStepSpares(k: Kind, v: Vendored, e: Step, queue: seq<Payload>, current: Payload)
    requires InStep(v)
    ensures Drifted(v) && Spares(k, v, e, queue, current)
  {
    hide LastOf, HostAfter, Outstanding;
    assert Slotless(v) == [];
    NoneInEmpty(k);
  }

  lemma AlwaysFinally(k: Kind, v: Vendored, es: seq<Step>, queue: seq<Payload>, current: Payload)
    requires AlwaysConverging(k, v, es, queue, current)
    ensures Converging(k, Play(v, es).link, queue, current)
    decreases |es|
  {
    hide After, Converging;
  }

  /** An accepted report becomes the one the host converges on, from any state. */
  lemma OwnSendTakes(k: Kind, v: Vendored, p: Payload)
    requires Drifted(v) && Admits(v, p) && ReportKind(p) == k
    ensures Converging(k, After(v, Send(p)).link, [], StateOf(p))
  {
    hide AfterSend, Emptied, Out;
    var t := After(v, Send(p));
    AdmittedNoTrip(v, p);
    SendFrame(v, p);
    EmptiedFrame(v);
    OutKind(v, p);
    assert Outstanding(t.link) == t.link.fifo;
    var trail := Trail(t.link) + [];
    assert trail[|trail| - 1] == Out(v, p);
  }

  /** So a report that was accepted, at whatever state of the rings, is the last of its kind
    * the host heard once everything has drained, if every event since spared it. */
  lemma ReportArrives(k: Kind, v: Vendored, p: Payload, es: seq<Step>)
    requires Drifted(v) && Tracked(v.link.cfg, k) && Admits(v, p) && ReportKind(p) == k && Foreign(k, es)
    requires Drifted(After(v, Send(p))) && AllSpare(k, After(v, Send(p)), es, [], StateOf(p))
    ensures var t := Play(After(v, Send(p)), es).link;
      Outstanding(t) == [] && k !in t.resync ==> LastOf(k, t.host) == Some(StateOf(p))
  {
    hide After, AllSpare, Drifted, LastOf;
    var v1 := After(v, Send(p));
    OwnSendTakes(k, v, p);
    ApplyDrifts(v, Send(p));
    ConvergesExactly(k, v1, es, [], StateOf(p));
    AlwaysFinally(k, v1, es, [], StateOf(p));
    var t := Play(v1, es).link;
    if Outstanding(t) == [] {
      assert Trail(t) + [] == t.host;
    }
  }

  // ---- A key report that is lost ----

  const KEY := Hid(Keyboard({}, [4]))
  const MUTE := Hid(Consumer([0xE2]))

  /** Sends of a report that carries no motion and overrides nothing. */
  function Mutes(n: nat): seq<Step> {
    if n == 0 then [] else Mutes(n - 1) + [Send(MUTE)]
  }

  function MutePackets(n: nat): seq<Payload> {
    if n == 0 then [] else MutePackets(n - 1) + [MUTE]
  }

  /** The FIFO holds the key report, whose slot is gone, in front of `n` others. */
  ghost predicate KeyUnslotted(v: Vendored, n: nat) {
    && v.link.fifo == [KEY] + MutePackets(n) && v.slots == MutePackets(n) && v.radio == Busy(KEY, true)
    && v.link.host == [MUTE] && v.link.stash == [] && v.link.trip.NoTrip? && v.link.quietUntil == 0
    && KB !in v.link.resync
  }

  lemma {:induction false} FillUp(v: Vendored, n: nat)
    requires KeyUnslotted(v, 0) && n < v.link.cfg.fifoSize
    ensures KeyUnslotted(Play(v, Mutes(n)), n) && Play(v, Mutes(n)).link.cfg == v.link.cfg
  {
    if n > 0 {
      FillUp(v, n - 1);
      RunSplit(v, Mutes(n - 1), [Send(MUTE)]);
      OneMore(Play(v, Mutes(n - 1)), n - 1);
    }
  }

  lemma OneMore(v: Vendored, n: nat)
    requires KeyUnslotted(v, n) && n + 1 < v.link.cfg.fifoSize
    ensures KeyUnslotted(Play(v, [Send(MUTE)]), n + 1) && Play(v, [Send(MUTE)]).link.cfg == v.link.cfg
  {
    hide After;
    PlainSend(v, MUTE) by { NoKeyInMutes(n); }
    assert [KEY] + MutePackets(n) + [MUTE] == [KEY] + MutePackets(n + 1);
    assert Play(v, [Send(MUTE)]) == Play(After(v, Send(MUTE)), []);
  }

  const EARLY_FAILURE := [Send(MUTE), Failure(false, true), Send(KEY), Success]

  lemma KeyTakesOver(v: Vendored)
    requires Ready(v) && v.link.fifo == v.slots == v.link.host == [] && v.radio.Idle? && v.link.cfg.fifoSize >= 2
    requires v.link.resync == {}
    ensures KeyUnslotted(Play(v, EARLY_FAILURE), 0) && Play(v, EARLY_FAILURE).link.cfg == v.link.cfg
  {
    hide After, Ready, KeyUnslotted;
    var v1 := After(v, Send(MUTE));
    PlainSend(v, MUTE);
    StartedWith([MUTE]);
    EarlyFailure(v1);
    var v2 := After(v1, Failure(false, true));
    PlainSend(v2, KEY);
    StartedWith([MUTE, KEY]);
    assert [MUTE] + [KEY] == [MUTE, KEY];
    LateAck(After(v2, Send(KEY)));
    FourSteps(v, EARLY_FAILURE);
  }

  lemma EarlyFailure(v: Vendored)
    requires Ready(v) && v.link.fifo == v.slots == [MUTE] && v.radio == Busy(MUTE, true) && !Full(v) && KB !in v.link.resync
    ensures var t := After(v, Failure(false, true));
      && Ready(t) && t.link.fifo == [MUTE] && t.slots == [] && t.radio.Idle? && t.link.cfg == v.link.cfg
      && t.link.host == v.link.host && KB !in t.link.resync
  {
    hide AfterGivenUp;
    GivenUpFrame(v, false);
    GivenUpResync(v, false);
  }

  lemma LateAck(v: Vendored)
    requires Ready(v) && v.link.fifo == [MUTE, KEY] && v.slots == [KEY] && v.radio == Busy(MUTE, true)
    requires v.link.host == [] && KB !in v.link.resync
    ensures KeyUnslotted(After(v, Success), 0) && After(v, Success).link.cfg == v.link.cfg
  {
    hide AfterAck, Started;
    AckFrame(v);
    StartedWith([KEY]);
  }

  /** For every FIFO of at least two packets: after one early failure the slots run ahead, and
    * the flush of a full FIFO loses a key report that has not been sent. Everything is empty,
    * no keyboard resync is due, and the host never heard of the key. */
  lemma KeyLost(cfg: Config, count: nat, channel: nat, clock: nat)
    requires cfg.fifoSize >= 2
    ensures var v := Play(Play(Start(cfg, count, channel, clock), EARLY_FAILURE), Mutes(cfg.fifoSize - 1));
      var t := After(v, Failure(false, true)).link;
      && Converging(KB, v.link, [], KEY) && !Converging(KB, t, [], KEY)
      && Outstanding(t) == [] && t.host == [MUTE] && KB !in t.resync
  {
    var v4 := Play(Start(cfg, count, channel, clock), EARLY_FAILURE);
    KeyTakesOver(Start(cfg, count, channel, clock));
    FillUp(v4, cfg.fifoSize - 1);
    FlushLosesKey(Play(v4, Mutes(cfg.fifoSize - 1)), cfg.fifoSize - 1);
  }

  lemma FlushLosesKey(v: Vendored, n: nat)
    requires KeyUnslotted(v, n) && v.link.cfg.fifoSize == n + 1
    ensures var t := After(v, Failure(false, true)).link;
      && Converging(KB, v.link, [], KEY) && !Converging(KB, t, [], KEY)
      && Outstanding(t) == [] && t.host == [MUTE] && KB !in t.resync
  {
    hide AfterGivenUp, Kinds, MutePackets, LastOf;
    KeyIsLast(n);
    LastOfMute();
    NoKeyInMutes(n);
    GivenUpFrame(v, false);
    GivenUpResync(v, false);
    KindsExact(v.link.cfg, KB, v.slots);
    var t := After(v, Failure(false, true)).link;
    assert Trail(v.link) + [] == [MUTE] + [KEY] + MutePackets(n);
    assert Trail(t) + [] == [MUTE];
  }

  lemma LastOfMute()
    ensures LastOf(KB, [MUTE]) == None
  {
  }

  lemma {:induction false} NoKeyInMutes(n: nat)
    ensures |MutePackets(n)| == n && LastOf(KB, MutePackets(n)) == None
  {
    if n > 0 {
      NoKeyInMutes(n - 1);
      HasOne(KB, MutePackets(n - 1), MUTE);
    }
  }

  lemma KeyIsLast(n: nat)
    ensures LastOf(KB, [MUTE] + [KEY] + MutePackets(n)) == Some(KEY)
  {
    NoKeyInMutes(n);
    LastOfConcat(KB, [MUTE] + [KEY], MutePackets(n));
  }
}
