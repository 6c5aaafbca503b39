/** Draining a queue and offering a report keep the host converging. */
module Replay {
  import opened Packets
  import opened Link
  import opened Convergence
  import opened Parking

  ghost predicate OfKind(k: Kind, ps: seq<Payload>) {
    forall p :: p in ps ==> ReportKind(p) == k
  }

  /** Between the sends of a drain only other senders use the transport, and what
    * the other context parks are reports of the queue's own kind. */
  ghost predicate Exclusive(k: Kind, gaps: seq<Gap>) {
    forall gap :: gap in gaps ==> Foreign(k, gap.events) && OfKind(k, gap.parked)
  }

  ghost predicate Unparked(gaps: seq<Gap>) {
    forall gap :: gap in gaps ==> gap.parked == []
  }

  /** The state to converge on once `parked` was parked. */
  function Newer(current: Payload, parked: seq<Payload>): Payload {
    if parked == [] then current else StateOf(Last(parked))
  }

  lemma LastOfOwn(k: Kind, ps: seq<Payload>, q: seq<Payload>)
    requires OfKind(k, q) && q != []
    ensures LastOf(k, ps + q) == Some(StateOf(Last(q)))
  {
  }

  /** Dropping the oldest parked reports does not change where the queue ends. */
  lemma NewestConverges(k: Kind, s: State, q: seq<Payload>, depth: nat, current: Payload)
    requires OfKind(k, q) && 0 < depth && Converging(k, s, q, current)
    ensures Converging(k, s, Newest(q, depth), current) && OfKind(k, Newest(q, depth))
  {
    var kept := Newest(q, depth);
    forall p | p in kept ensures p in q {}
    if q != [] {
      assert Last(kept) == Last(q);
      LastOfOwn(k, Trail(s), q);
      LastOfOwn(k, Trail(s), kept);
    }
  }

  lemma ParkConverges(k: Kind, s: State, q: seq<Payload>, p: Payload, depth: nat)
    requires OfKind(k, q) && 0 < depth && ReportKind(p) == k
    ensures Converging(k, s, Park(q, p, depth), StateOf(p)) && OfKind(k, Park(q, p, depth))
  {
    assert OfKind(k, q + [p]);
    LastOfOwn(k, Trail(s), q + [p]);
    NewestConverges(k, s, q + [p], depth, StateOf(p));
  }

  /** Parking into the live queue behind an unsent snapshot. */
  lemma LiveConverges(k: Kind, s: State, snap: seq<Payload>, live: seq<Payload>, parked: seq<Payload>,
                      depth: nat, current: Payload)
    requires OfKind(k, snap) && OfKind(k, live) && OfKind(k, parked) && 0 < depth && |live| <= depth
    requires Converging(k, s, snap + live, current)
    ensures Converging(k, s, snap + ParkAll(live, parked, depth), Newer(current, parked))
    ensures OfKind(k, ParkAll(live, parked, depth)) && |ParkAll(live, parked, depth)| <= depth
  {
    var kept := Newest(live + parked, depth);
    ParkAllIsNewest(live, parked, depth);
    assert OfKind(k, kept) by {
      forall p | p in kept ensures p in live + parked {}
    }
    if parked == [] {
      assert live + parked == live;
    } else {
      assert Last(snap + kept) == Last(parked);
      assert OfKind(k, snap + kept);
      LastOfOwn(k, Trail(s), snap + kept);
    }
  }

  /** A drain, whatever happens between its sends, keeps the host converging on the
    * newest report. */
  lemma {:induction false} DrainConverges(k: Kind, s: State, snap: seq<Payload>, live: seq<Payload>,
                                          gaps: seq<Gap>, depth: nat, current: Payload)
    requires Tracked(s.cfg, k) && Inv(s) && s.cfg.fifoSize < 256
    requires OfKind(k, snap) && OfKind(k, live) && 0 < depth && |live| <= depth
    requires Exclusive(k, gaps)
    requires Converging(k, s, snap + live, current)
    ensures var d := Drain(s, snap, live, gaps, depth);
      Converging(k, d.link, d.queue, Newer(current, ParkedIn(gaps, Turns(d))))
    decreases |snap|
  {
    hide SendPacket, Run, Inv, Converging, Newest, ParkAll, OfKind, Tracked, Foreign, Newer;
    if snap == [] {
      NewerNothing(current);
      assert snap + live == live;
    } else {
      var gap := First(gaps);
      var s1, live1 := Run(s, gap.events), ParkAll(live, gap.parked, depth);
      var current1 := Newer(current, gap.parked);
      FirstExclusive(k, gaps);
      GapConverges(k, s, snap, live, gap, depth, current);
      assert ReportKind(snap[0]) == k by { OfKindAt(k, snap); }
      AgainKeeps(s1, snap[0]);
      if SendPacket(s1, snap[0]).1 == Again {
        NewestConverges(k, s1, snap + live1, depth, current1);
        assert ParkedIn(gaps, 1) == gap.parked + [] == gap.parked;
      } else {
        var s2 := SendPacket(s1, snap[0]).0;
        NextConverges(k, s1, snap, live1, current1);
        assert Exclusive(k, Rest(gaps));
        DrainConverges(k, s2, snap[1..], live1, Rest(gaps), depth, current1);
        NewerConcat(current, gap.parked, ParkedIn(Rest(gaps), Turns(Drain(s2, snap[1..], live1, Rest(gaps), depth))));
      }
    }
  }

  lemma FirstExclusive(k: Kind, gaps: seq<Gap>)
    requires Exclusive(k, gaps)
    ensures Foreign(k, First(gaps).events) && OfKind(k, First(gaps).parked)
    ensures Exclusive(k, Rest(gaps))
  {
  }

  lemma OfKindAt(k: Kind, ps: seq<Payload>)
    requires OfKind(k, ps) && ps != []
    ensures ReportKind(ps[0]) == k && OfKind(k, ps[1..])
  {
  }

  lemma GapConverges(k: Kind, s: State, snap: seq<Payload>, live: seq<Payload>, gap: Gap, depth: nat, current: Payload)
    requires Tracked(s.cfg, k) && Inv(s) && s.cfg.fifoSize < 256
    requires snap != [] && OfKind(k, snap) && OfKind(k, live) && 0 < depth && |live| <= depth
    requires Foreign(k, gap.events) && OfKind(k, gap.parked)
    requires Converging(k, s, snap + live, current)
    ensures var s1, live1 := Run(s, gap.events), ParkAll(live, gap.parked, depth);
      && Inv(s1) && s1.cfg == s.cfg
      && OfKind(k, live1) && |live1| <= depth && OfKind(k, snap + live1) && OfKind(k, snap[1..])
      && Converging(k, s1, snap + live1, Newer(current, gap.parked))
  {
    hide Run, Inv, Converging;
    RunConverges(k, s, gap.events, snap + live, current);
    RunKeepsInv(s, gap.events);
    LiveConverges(k, Run(s, gap.events), snap, live, gap.parked, depth, current);
  }

  lemma NewerNothing(current: Payload)
    ensures Newer(current, []) == current
  {
  }

  lemma NewerConcat(current: Payload, a: seq<Payload>, b: seq<Payload>)
    ensures Newer(Newer(current, a), b) == Newer(current, a + b)
  {
    if b == [] {
      assert a + b == a;
    }
  }

  lemma AgainKeeps(s: State, p: Payload)
    ensures SendPacket(s, p).1 == Again <==> Quiet(s)
    ensures SendPacket(s, p).1 == Again ==> SendPacket(s, p).0 == s
    ensures p.Hid? ==> SendPacket(s, p).1 != NoMemory
  {
  }

  /** A snapshot the transport accepts moves from the queue to the FIFO, or its
    * kind is due for a resync because the FIFO was flushed for it. */
  lemma NextConverges(k: Kind, s: State, snap: seq<Payload>, live: seq<Payload>, current: Payload)
    requires Tracked(s.cfg, k) && Inv(s) && s.cfg.fifoSize < 256
    requires snap != [] && ReportKind(snap[0]) == k && SendPacket(s, snap[0]).1 != Again
    requires Converging(k, s, snap + live, current)
    ensures var t := SendPacket(s, snap[0]).0;
      Inv(t) && t.cfg == s.cfg && Converging(k, t, snap[1..] + live, current)
  {
    hide SendPacket, Converging, Inv;
    AgainKeeps(s, snap[0]);
    assert snap + live == [snap[0]] + (snap[1..] + live);
    assert WellFormed(s) by { InvWellFormed(s); }
    OwnSendConverges(k, s, snap[0], snap[1..] + live);
    SendKeepsInv(s, snap[0]);
  }

  lemma InvWellFormed(s: State)
    requires Inv(s)
    ensures WellFormed(s)
  {
  }

  lemma {:induction false} UnparkedNone(gaps: seq<Gap>, turns: nat)
    requires Unparked(gaps)
    ensures ParkedIn(gaps, turns) == []
    decreases turns
  {
    if turns > 0 {
      UnparkedNone(Rest(gaps), turns - 1);
    }
  }

  lemma {:induction false} RefusedUnsent(s: State, snap: seq<Payload>, live: seq<Payload>, gaps: seq<Gap>, depth: nat)
    ensures var d := Drain(s, snap, live, gaps, depth); d.again ==> d.sent < |snap|
    decreases |snap|
  {
    hide SendPacket, Run, Newest, ParkAll;
    if snap != [] {
      var s1 := Run(s, First(gaps).events);
      RefusedUnsent(SendPacket(s1, snap[0]).0, snap[1..], ParkAll(live, First(gaps).parked, depth), Rest(gaps), depth);
    }
  }

  /** A drain is refused if and only if it leaves something parked. */
  lemma RefusedIffParked(s: State, queue: seq<Payload>, gaps: seq<Gap>, depth: nat)
    requires Unparked(gaps) && 0 < depth
    ensures var d := Drain(s, queue, [], gaps, depth); d.again <==> d.queue != []
  {
    hide Drain, Newest;
    var d := Drain(s, queue, [], gaps, depth);
    DrainExact(s, queue, [], gaps, depth);
    RefusedUnsent(s, queue, [], gaps, depth);
    UnparkedNone(gaps, Turns(d));
    NewestEmpty(queue[d.sent..] + [] + [], depth);
  }

  lemma NewestEmpty(q: seq<Payload>, depth: nat)
    requires 0 < depth
    ensures Newest(q, depth) == [] <==> q == []
  {
  }

  /** After a report was offered the host converges on it, from any state at all. */
  lemma OfferConverges(k: Kind, s: State, queue: seq<Payload>, p: Payload, gaps: seq<Gap>, depth: nat)
    requires Tracked(s.cfg, k) && Inv(s) && s.cfg.fifoSize < 256
    requires OfKind(k, queue) && 0 < depth && |queue| <= depth && ReportKind(p) == k
    requires Exclusive(k, gaps) && Unparked(gaps)
    ensures var d := Offer(s, queue, p, gaps, depth);
      && Inv(d.link) && d.link.cfg == s.cfg && OfKind(k, d.queue) && |d.queue| <= depth
      && Converging(k, d.link, d.queue, StateOf(p))
  {
    hide SendPacket, Run, Inv, Converging, Newest, Drain, Quiet;
    if Quiet(s) {
      ParkConverges(k, s, queue, p, depth);
      return;
    }
    var d := Drain(s, queue, [], gaps, depth);
    DrainKeeps(k, s, queue, [], gaps, depth);
    DrainExact(s, queue, [], gaps, depth);
    if d.again {
      ParkConverges(k, d.link, d.queue, p, depth);
      return;
    }
    UnparkedNone(gaps, Turns(d));
    assert d.queue == [] by {
      assert queue[d.sent..] + [] + [] == [];
      NewestAll([], depth);
    }
    var gap := First(if d.sent <= |gaps| then gaps[d.sent..] else []);
    assert Foreign(k, gap.events) && gap.parked == [];
    var s1 := Run(d.link, gap.events);
    RunKeepsInv(d.link, gap.events);
    var (s2, result) := SendPacket(s1, p);
    AgainKeeps(s1, p);
    if result == Again {
      ParkConverges(k, s1, [], p, depth);
    } else {
      SendKeepsInv(s1, p);
      InvWellFormed(s1);
      OwnSendConverges(k, s1, p, []);
    }
  }

  lemma NewestAll(q: seq<Payload>, depth: nat)
    requires |q| <= depth
    ensures Newest(q, depth) == q
  {
  }

  /** The drain's own invariants, from a state that need not be converging. */
  lemma {:induction false} DrainKeeps(k: Kind, s: State, snap: seq<Payload>, live: seq<Payload>,
                                      gaps: seq<Gap>, depth: nat)
    requires Inv(s) && s.cfg.fifoSize < 256
    requires OfKind(k, snap) && OfKind(k, live) && |live| <= depth && Exclusive(k, gaps)
    ensures var d := Drain(s, snap, live, gaps, depth);
      Inv(d.link) && d.link.cfg == s.cfg && OfKind(k, d.queue) && |d.queue| <= depth
    decreases |snap|
  {
    hide SendPacket, Run, Inv;
    if snap != [] {
      var gap := First(gaps);
      assert OfKind(k, gap.parked);
      var s1, live1 := Run(s, gap.events), ParkAll(live, gap.parked, depth);
      RunKeepsInv(s, gap.events);
      ParkAllIsNewest(live, gap.parked, depth);
      assert OfKind(k, live1) by {
        forall p | p in live1 ensures p in live + gap.parked {}
      }
      SendKeepsInv(s1, snap[0]);
      if SendPacket(s1, snap[0]).1 == Again {
        forall p | p in Newest(snap + live1, depth) ensures p in snap + live1 {}
      } else {
        assert OfKind(k, snap[1..]) && Exclusive(k, Rest(gaps));
        DrainKeeps(k, SendPacket(s1, snap[0]).0, snap[1..], live1, Rest(gaps), depth);
      }
    }
  }

  /** Another kind's drain does not disturb what this kind converges on. */
  lemma {:induction false} OtherDrainConverges(j: Kind, k: Kind, s: State, snap: seq<Payload>, live: seq<Payload>,
                                               gaps: seq<Gap>, depth: nat, queue: seq<Payload>, current: Payload)
    requires j != k && Tracked(s.cfg, j) && Inv(s) && s.cfg.fifoSize < 256
    requires OfKind(k, snap) && ForeignGaps(j, gaps)
    requires Converging(j, s, queue, current)
    ensures Converging(j, Drain(s, snap, live, gaps, depth).link, queue, current)
    decreases |snap|
  {
    hide SendPacket, Run, Inv, Converging, ParkAll;
    if snap != [] {
      var gap := First(gaps);
      assert Foreign(j, gap.events);
      var s1, live1 := Run(s, gap.events), ParkAll(live, gap.parked, depth);
      RunConverges(j, s, gap.events, queue, current);
      RunKeepsInv(s, gap.events);
      OtherSendConverges(j, s1, snap[0], queue, current);
      AgainKeeps(s1, snap[0]);
      if SendPacket(s1, snap[0]).1 != Again {
        assert OfKind(k, snap[1..]) && ForeignGaps(j, Rest(gaps));
        OtherDrainConverges(j, k, SendPacket(s1, snap[0]).0, snap[1..], live1, Rest(gaps), depth, queue, current);
      }
    }
  }

  ghost predicate ForeignGaps(j: Kind, gaps: seq<Gap>) {
    forall gap :: gap in gaps ==> Foreign(j, gap.events)
  }

  lemma OtherSendConverges(j: Kind, s: State, p: Payload, queue: seq<Payload>, current: Payload)
    requires Tracked(s.cfg, j) && Inv(s) && s.cfg.fifoSize < 256 && ReportKind(p) != j
    requires Converging(j, s, queue, current)
    ensures var t := SendPacket(s, p).0; Converging(j, t, queue, current) && Inv(t) && t.cfg == s.cfg
  {
    SendConverges(j, s, p, queue, current);
    SendKeepsInv(s, p);
  }

  lemma OtherOfferConverges(j: Kind, k: Kind, s: State, snap: seq<Payload>, p: Payload, gaps: seq<Gap>,
                            depth: nat, queue: seq<Payload>, current: Payload)
    requires j != k && Tracked(s.cfg, j) && Inv(s) && s.cfg.fifoSize < 256
    requires OfKind(k, snap) && ReportKind(p) == k && ForeignGaps(j, gaps) && Exclusive(k, gaps)
    requires Converging(j, s, queue, current)
    ensures Converging(j, Offer(s, snap, p, gaps, depth).link, queue, current)
  {
    hide SendPacket, Run, Inv, Converging, Drain, Newest, Quiet;
    if !Quiet(s) {
      var d := Drain(s, snap, [], gaps, depth);
      OtherDrainConverges(j, k, s, snap, [], gaps, depth, queue, current);
      DrainKeeps(k, s, snap, [], gaps, depth);
      if !d.again {
        var gap := First(if d.sent <= |gaps| then gaps[d.sent..] else []);
        assert Foreign(j, gap.events);
        RunConverges(j, d.link, gap.events, queue, current);
        RunKeepsInv(d.link, gap.events);
        OtherSendConverges(j, Run(d.link, gap.events), p, queue, current);
        AgainKeeps(Run(d.link, gap.events), p);
      }
    }
  }
}
