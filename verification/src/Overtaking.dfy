/** Two contexts sending reports of one kind: which interleavings still end on the newest one.
  * The relay's locks are not held across sends, so while one context replays its backlog and
  * sends its report, the other may send newer reports directly or park them. */
module Overtaking {
  import opened Packets
  import opened Link
  import opened Convergence
  import opened Parking
  import opened Replay

  /** Reports of the kind among the sends, in order. */
  function SentIn(k: Kind, steps: seq<Step>): seq<Payload> {
    if steps == [] then [] else
      var e := steps[|steps| - 1];
      SentIn(k, steps[..|steps| - 1]) + if e.Send? && ReportKind(e.packet) == k then [e.packet] else []
  }

  /** Reports the other context makes during the first gaps, oldest first: those it sends, then
    * those it parks. All are newer than the report being offered. */
  function MadeIn(k: Kind, gaps: seq<Gap>, turns: nat): seq<Payload>
    decreases turns
  {
    if turns == 0 then []
    else SentIn(k, First(gaps).events) + First(gaps).parked + MadeIn(k, Rest(gaps), turns - 1)
  }

  ghost predicate ParksKind(k: Kind, gaps: seq<Gap>) {
    forall gap :: gap in gaps ==> OfKind(k, gap.parked)
  }

  /** How many gaps an offer goes through. */
  function GapsUsed(s: State, queue: seq<Payload>, gaps: seq<Gap>, depth: nat): nat {
    if Quiet(s) then 0 else Drain(s, queue, [], gaps, depth).sent + 1
  }

  /** The state of the newest report made by either context. */
  function NewestState(k: Kind, p: Payload, made: seq<Payload>): Payload {
    if made == [] then StateOf(p) else StateOf(Last(made))
  }

  /** Where the host ends: on the offered report, or on the last one parked behind it while it
    * was sent. */
  function EndsOn(o: Drained, p: Payload, parked: seq<Payload>): Payload {
    if !o.again && parked != [] then StateOf(Last(parked)) else StateOf(p)
  }

  lemma SentIsLast(k: Kind, s: State, p: Payload)
    requires SendPacket(s, p).1 == Accepted && ReportKind(p) == k && WellFormed(s)
    ensures LastOf(k, Trail(SendPacket(s, p).0)) == Some(StateOf(p))
  {
    var s0 := s.(quietUntil := 0);
    var s1 := if |s0.fifo| >= s0.cfg.fifoSize then DropAll(s0) else s0;
    var (s2, out) := Prepare(s1, p);
    PrepareKind(s1, p);
    assert Trail(Write(s2, p, out)) == Trail(s1) + [out];
  }

  /** What a drain keeps when the other context may send the same kind. */
  lemma {:induction false} DrainOfKind(k: Kind, s: State, snap: seq<Payload>, live: seq<Payload>, gaps: seq<Gap>, depth: nat)
    requires Inv(s) && s.cfg.fifoSize < 256
    requires OfKind(k, snap) && OfKind(k, live) && |live| <= depth && ParksKind(k, gaps)
    ensures var d := Drain(s, snap, live, gaps, depth);
      && Inv(d.link) && d.link.cfg == s.cfg && OfKind(k, d.queue) && |d.queue| <= depth
    decreases |snap|
  {
    hide SendPacket, Run, Inv;
    if snap != [] {
      var gap := First(gaps);
      assert OfKind(k, gap.parked);
      var s1, live1 := Run(s, gap.events), ParkAll(live, gap.parked, depth);
      RunKeepsInv(s, gap.events);
      ParkAllIsNewest(live, gap.parked, depth);
      assert OfKind(k, live1) by { forall p | p in live1 ensures p in live + gap.parked {} }
      SendKeepsInv(s1, snap[0]);
      if SendPacket(s1, snap[0]).1 == Again {
        forall p | p in Newest(snap + live1, depth) ensures p in snap + live1 {}
      } else {
        assert OfKind(k, snap[1..]) && ParksKind(k, Rest(gaps));
        DrainOfKind(k, SendPacket(s1, snap[0]).0, snap[1..], live1, Rest(gaps), depth);
      }
    }
  }

  lemma {:induction false} ParkedNext(gaps: seq<Gap>, turns: nat)
    ensures ParkedIn(gaps, turns + 1) == ParkedIn(gaps, turns) + First(if turns <= |gaps| then gaps[turns..] else []).parked
    decreases turns
  {
    if turns > 0 {
      ParkedNext(Rest(gaps), turns - 1);
      assert gaps != [] && turns <= |gaps| ==> gaps[1..][turns - 1..] == gaps[turns..];
    } else {
      assert gaps[0..] == gaps;
      assert ParkedIn(gaps, 1) == First(gaps).parked + ParkedIn(Rest(gaps), 0);
    }
  }

  /** The last report of the kind among what the host heard, what is queued and what is parked
    * after an offer, whatever the other context did meanwhile. */
  lemma OfferEnds(k: Kind, s: State, queue: seq<Payload>, p: Payload, gaps: seq<Gap>, depth: nat)
    requires Inv(s) && s.cfg.fifoSize < 256 && OfKind(k, queue) && 0 < depth && |queue| <= depth
    requires ReportKind(p) == k && k != NoKind && ParksKind(k, gaps)
    ensures var o := Offer(s, queue, p, gaps, depth);
      LastOf(k, Trail(o.link) + o.queue) == Some(EndsOn(o, p, ParkedIn(gaps, GapsUsed(s, queue, gaps, depth))))
  {
    hide SendPacket, Run, Inv, Drain, Quiet, LastOf, Trail;
    var o := Offer(s, queue, p, gaps, depth);
    if Quiet(s) {
      ParkedLast(k, Trail(s), queue, p, depth);
      return;
    }
    var d := Drain(s, queue, [], gaps, depth);
    DrainOfKind(k, s, queue, [], gaps, depth);
    DrainExact(s, queue, [], gaps, depth);
    if d.again {
      ParkedLast(k, Trail(d.link), d.queue, p, depth);
      return;
    }
    var gap := First(if d.sent <= |gaps| then gaps[d.sent..] else []);
    assert OfKind(k, gap.parked);
    var s1, live := Run(d.link, gap.events), ParkAll(d.queue, gap.parked, depth);
    RunKeepsInv(d.link, gap.events);
    AgainKeeps(s1, p);
    ParkAllIsNewest(d.queue, gap.parked, depth);
    assert OfKind(k, live) by { forall q | q in live ensures q in d.queue + gap.parked {} }
    if SendPacket(s1, p).1 == Again {
      ParkedLast(k, Trail(s1), live, p, depth);
    } else {
      InvWellFormed(s1);
      SentIsLast(k, s1, p);
      ParkedNext(gaps, d.sent);
      assert queue[d.sent..] == [];
      assert [] + [] + ParkedIn(gaps, d.sent) == ParkedIn(gaps, d.sent);
      NewestAppend(ParkedIn(gaps, d.sent), gap.parked, depth);
      LiveLast(k, Trail(SendPacket(s1, p).0), live, ParkedIn(gaps, d.sent + 1), p, depth);
    }
  }

  lemma ParkedLast(k: Kind, trail: seq<Payload>, queue: seq<Payload>, p: Payload, depth: nat)
    requires OfKind(k, queue) && ReportKind(p) == k && 0 < depth
    ensures LastOf(k, trail + Park(queue, p, depth)) == Some(StateOf(p))
  {
    assert OfKind(k, Park(queue, p, depth)) by { forall q | q in Park(queue, p, depth) ensures q in queue + [p] {} }
    LastOfOwn(k, trail, Park(queue, p, depth));
  }

  lemma LiveLast(k: Kind, trail: seq<Payload>, live: seq<Payload>, parked: seq<Payload>, p: Payload, depth: nat)
    requires live == Newest(parked, depth) && OfKind(k, live) && 0 < depth && LastOf(k, trail) == Some(StateOf(p))
    ensures LastOf(k, trail + live) == Some(if parked != [] then StateOf(Last(parked)) else StateOf(p))
  {
    if parked == [] {
      assert trail + live == trail;
    } else {
      LastOfOwn(k, trail, live);
    }
  }

  /** Exactly which interleavings still end on the newest report, unless a resync is due: the
    * other context made no report, or its last one shows what the offer ends on. That is the
    * last one it parked, if the offered report was sent and any was parked, and the offered
    * report itself otherwise. */
  lemma OvertakenExactly(k: Kind, s: State, queue: seq<Payload>, p: Payload, gaps: seq<Gap>, depth: nat)
    requires Inv(s) && s.cfg.fifoSize < 256 && OfKind(k, queue) && 0 < depth && |queue| <= depth
    requires ReportKind(p) == k && k != NoKind && ParksKind(k, gaps)
    ensures var o, used := Offer(s, queue, p, gaps, depth), GapsUsed(s, queue, gaps, depth);
      var made, parked := MadeIn(k, gaps, used), ParkedIn(gaps, used);
      Converging(k, o.link, o.queue, NewestState(k, p, made)) <==>
        || k in o.link.resync || made == []
        || StateOf(Last(made)) == if !o.again && parked != [] then StateOf(Last(parked)) else StateOf(p)
  {
    hide Offer, GapsUsed, Inv;
    OfferEnds(k, s, queue, p, gaps, depth);
    NothingMade(k, gaps, GapsUsed(s, queue, gaps, depth));
  }

  lemma {:induction false} NothingMade(k: Kind, gaps: seq<Gap>, turns: nat)
    ensures MadeIn(k, gaps, turns) == [] ==> ParkedIn(gaps, turns) == []
    decreases turns
  {
    if turns > 0 {
      hide SentIn, First, Rest;
      NothingMade(k, Rest(gaps), turns - 1);
      var sent, parked, more := SentIn(k, First(gaps).events), First(gaps).parked, MadeIn(k, Rest(gaps), turns - 1);
      assert |sent + parked + more| == |sent| + |parked| + |more|;
    }
  }

  /** With direct sends only: the offer overtakes the other context if and only if that sent
    * something newer that shows another state last. */
  lemma DirectSendsOvertaken(k: Kind, s: State, queue: seq<Payload>, p: Payload, gaps: seq<Gap>, depth: nat)
    requires Inv(s) && s.cfg.fifoSize < 256 && OfKind(k, queue) && 0 < depth && |queue| <= depth
    requires ReportKind(p) == k && k != NoKind && Unparked(gaps)
    ensures var o, made := Offer(s, queue, p, gaps, depth), MadeIn(k, gaps, GapsUsed(s, queue, gaps, depth));
      Converging(k, o.link, o.queue, NewestState(k, p, made)) <==>
        k in o.link.resync || made == [] || StateOf(Last(made)) == StateOf(p)
  {
    hide Offer, GapsUsed, Inv, Converging;
    OvertakenExactly(k, s, queue, p, gaps, depth);
    UnparkedNone(gaps, GapsUsed(s, queue, gaps, depth));
  }
}
