/** Which report of a kind the host will end up with, and why losses cannot hide it. */
module Convergence {
  import opened Packets
  import opened Link

  datatype Option<T> = None | Some(value: T)

  /** State conveyed by the last report of kind `k` in a stream of packets. */
  function LastOf(k: Kind, ps: seq<Payload>): Option<Payload> {
    if ps == [] then None
    else if ReportKind(ps[|ps| - 1]) == k then Some(StateOf(ps[|ps| - 1]))
    else LastOf(k, ps[..|ps| - 1])
  }

  /** Reports whose loss is noticed; an unacknowledged mouse stream is not. */
  predicate Tracked(cfg: Config, k: Kind) {
    k != NoKind && !(k == MOUSE && cfg.hidNoack)
  }

  /** What the host heard, then what is on its way to it. */
  function Trail(s: State): seq<Payload> {
    s.host + Outstanding(s)
  }

  /** Either a resync of the kind is due, or the last report that was heard, is in
    * the FIFO or is parked in `queue` conveys the state `current`. */
  predicate Converging(k: Kind, s: State, queue: seq<Payload>, current: Payload) {
    k in s.resync || LastOf(k, Trail(s) + queue) == Some(current)
  }

  lemma {:induction false} LastOfConcat(k: Kind, a: seq<Payload>, b: seq<Payload>)
    ensures LastOf(k, a + b) == if LastOf(k, b).Some? then LastOf(k, b) else LastOf(k, a)
  {
    if b == [] {
      assert a + b == a;
    } else {
      assert (a + b)[|a + b| - 1] == b[|b| - 1];
      assert (a + b)[..|a + b| - 1] == a + b[..|b| - 1];
      LastOfConcat(k, a, b[..|b| - 1]);
    }
  }

  lemma {:induction false} LastOfNone(k: Kind, ps: seq<Payload>)
    ensures LastOf(k, ps) == None <==> forall p :: p in ps ==> ReportKind(p) != k
  {
    if ps != [] {
      LastOfNone(k, ps[..|ps| - 1]);
      assert ps == ps[..|ps| - 1] + [ps[|ps| - 1]];
    }
  }

  /** Losing packets of other kinds does not change the last report of this kind. */
  lemma LastOfDrop(k: Kind, a: seq<Payload>, gone: seq<Payload>, b: seq<Payload>)
    requires forall p :: p in gone ==> ReportKind(p) != k
    ensures LastOf(k, a + gone + b) == LastOf(k, a + b)
  {
    LastOfConcat(k, a + gone, b);
    LastOfConcat(k, a, gone);
    LastOfConcat(k, a, b);
    LastOfNone(k, gone);
  }

  /** A flush that drops a tracked report leaves its resync request behind. */
  lemma DropAllConverges(k: Kind, s: State, queue: seq<Payload>, current: Payload)
    requires Tracked(s.cfg, k) && !s.trip.Waiting? && Converging(k, s, queue, current)
    ensures Converging(k, DropAll(s), queue, current)
  {
    var t := DropAll(s);
    if k !in t.resync {
      forall p | p in Outstanding(s)
        ensures ReportKind(p) != k
      {
        assert KindOf(s.cfg, p) in Kinds(s.cfg, Outstanding(s)) || KindOf(s.cfg, p) == NoKind;
      }
      LastOfDrop(k, s.host, Outstanding(s), queue);
      assert Trail(t) + queue == s.host + queue;
    }
  }

  /** A send of another kind moves this kind's last report nowhere. */
  lemma SendConverges(k: Kind, s: State, p: Payload, queue: seq<Payload>, current: Payload)
    requires Tracked(s.cfg, k) && WellFormed(s) && ReportKind(p) != k
    requires Converging(k, s, queue, current)
    ensures Converging(k, SendPacket(s, p).0, queue, current)
  {
    if !Quiet(s) {
      var s0 := s.(quietUntil := 0);
      assert Trail(s0) == Trail(s);
      if !(|s0.fifo| >= s0.cfg.fifoSize && IsShell(p)) {
        var s1 := if |s0.fifo| >= s0.cfg.fifoSize then DropAll(s0) else s0;
        DropAllConverges(k, s0, queue, current);
        var (s2, out) := Prepare(s1, p);
        PrepareKind(s1, p);
        assert Trail(Write(s2, p, out)) + queue == Trail(s1) + [out] + queue;
        LastOfDrop(k, Trail(s1), [out], queue);
      }
    }
  }

  lemma PrepareKind(s: State, p: Payload)
    ensures var (t, out) := Prepare(s, p);
      && t == s.(retransmit := t.retransmit, pool := t.pool, poolStamp := t.poolStamp, ledger := t.ledger)
      && ReportKind(out) == ReportKind(p) && StateOf(out) == StateOf(p)
  {
  }

  lemma PopFailedShape(s: State, heard: bool)
    requires WellFormed(s) && s.trip.NoTrip? && s.fifo != []
    ensures var p, t := s.fifo[0], PopFailed(s, heard);
      && t.resync == s.resync + Kinds(s.cfg, [p]) && t.cfg == s.cfg && !t.trip.Waiting?
      && Trail(s) == s.host + [p] + s.fifo[1..]
      && Trail(t) == (if heard then s.host + [p] else s.host) + s.fifo[1..]
  {
  }

  lemma PopFailedConverges(k: Kind, s: State, heard: bool, queue: seq<Payload>, current: Payload)
    requires Tracked(s.cfg, k) && WellFormed(s) && s.trip.NoTrip? && s.fifo != []
    requires Converging(k, s, queue, current)
    ensures Converging(k, PopFailed(s, heard), queue, current)
  {
    var p, t, rest := s.fifo[0], PopFailed(s, heard), s.fifo[1..];
    PopFailedShape(s, heard);
    if k !in t.resync && !heard {
      assert KindOf(s.cfg, p) in Kinds(s.cfg, [p]) || KindOf(s.cfg, p) == NoKind;
      assert s.host + [p] + rest + queue == s.host + [p] + (rest + queue);
      assert s.host + rest + queue == s.host + (rest + queue);
      LastOfDrop(k, s.host, [p], rest + queue);
    }
  }

  /** A failed report of the kind asks for a resync; another kind's failure does not matter. */
  lemma FailureConverges(k: Kind, s: State, heard: bool, lingers: bool, queue: seq<Payload>, current: Payload)
    requires Tracked(s.cfg, k) && WellFormed(s) && s.trip.NoTrip? && s.fifo != []
    requires Converging(k, s, queue, current)
    ensures Converging(k, TxFailure(s, heard, lingers), queue, current)
  {
    PopFailedConverges(k, s, heard, queue, current);
    PopFailedShape(s, heard);
    DropAllConverges(k, PopFailed(s, heard), queue, current);
  }

  /** Whatever the radio and the other senders do, a kind keeps converging on the
    * same state as long as nobody else sends reports of that kind. */
  lemma ApplyConverges(k: Kind, s: State, step: Step, queue: seq<Payload>, current: Payload)
    requires Tracked(s.cfg, k) && WellFormed(s)
    requires step.Send? ==> ReportKind(step.packet) != k
    requires Converging(k, s, queue, current)
    ensures Converging(k, Apply(s, step), queue, current)
  {
    if Enabled(s, step) {
      match step
      case Send(p) => SendConverges(k, s, p, queue, current);
      case Success => assert Trail(TxSuccess(s)) == Trail(s);
      case Failure(heard, lingers) => FailureConverges(k, s, heard, lingers, queue, current);
      case Flush => DropAllConverges(k, s, queue, current);
      case Hop(_, _) => assert Trail(Apply(s, step)) == Trail(s);
      case TripStart(_, _) => assert Trail(Apply(s, step)) == Trail(s);
      case TripDone(_) => assert Trail(Apply(s, step)) == Trail(s);
      case Retune(_) => assert Trail(Apply(s, step)) == Trail(s);
      case Tick(_) => assert Trail(Apply(s, step)) == Trail(s);
    }
  }

  predicate Foreign(k: Kind, steps: seq<Step>) {
    forall step :: step in steps && step.Send? ==> ReportKind(step.packet) != k
  }

  lemma {:induction false} RunConverges(k: Kind, s: State, steps: seq<Step>, queue: seq<Payload>, current: Payload)
    requires Tracked(s.cfg, k) && Inv(s) && s.cfg.fifoSize < 256 && Foreign(k, steps)
    requires Converging(k, s, queue, current)
    ensures Converging(k, Run(s, steps), queue, current)
    decreases |steps|
  {
    if steps != [] {
      assert steps[0] in steps;
      ApplyConverges(k, s, steps[0], queue, current);
      ApplyKeepsInv(s, steps[0]);
      RunConverges(k, Apply(s, steps[0]), steps[1..], queue, current);
    }
  }

  /** An accepted send of the kind itself becomes the last report. */
  lemma OwnSendConverges(k: Kind, s: State, p: Payload, queue: seq<Payload>)
    requires WellFormed(s) && ReportKind(p) == k
    requires SendPacket(s, p).1 == Accepted
    ensures var t := SendPacket(s, p).0;
      && Converging(k, t, [], StateOf(p))
      && (forall current :: Converging(k, s, [p] + queue, current) ==> Converging(k, t, queue, current))
  {
    var s0 := s.(quietUntil := 0);
    var s1 := if |s0.fifo| >= s0.cfg.fifoSize then DropAll(s0) else s0;
    var (s2, out) := Prepare(s1, p);
    PrepareKind(s1, p);
    var t := Write(s2, p, out);
    assert Trail(t) == Trail(s1) + [out];
    assert (Trail(t) + [])[|Trail(t)| - 1] == out;
    forall current | Converging(k, s, [p] + queue, current)
      ensures Converging(k, t, queue, current)
    {
      LastOfConcat(k, Trail(s), [p] + queue);
      LastOfConcat(k, [p], queue);
      LastOfConcat(k, Trail(t), queue);
      assert LastOf(k, Trail(t)) == Some(StateOf(p));
      assert LastOf(k, [p]) == Some(StateOf(p));
    }
  }
}
