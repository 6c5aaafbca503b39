/** The bounded queues of reports parked past a transport-quiet window
  * (kb_pending and cons_pending of src/esb/hid_relay.c, pending_buttons of
  * src/esb/input_processor_esb.c) and the drain that replays them. */
module Parking {
  import opened Packets
  import opened Link

  /** Longest suffix of a queue that fits its depth. */
  function Newest(q: seq<Payload>, depth: nat): (kept: seq<Payload>)
    ensures |kept| <= depth
  {
    if |q| <= depth then q else q[|q| - depth..]
  }

  function Park(q: seq<Payload>, p: Payload, depth: nat): seq<Payload> {
    Newest(q + [p], depth)
  }

  function ParkAll(q: seq<Payload>, ps: seq<Payload>, depth: nat): seq<Payload>
    decreases |ps|
  {
    if ps == [] then q else ParkAll(Park(q, ps[0], depth), ps[1..], depth)
  }

  /** What happens before one send of a drain: events of the radio and of other
    * senders, then reports the other context parks in the live queue. */
  datatype Gap = Gap(events: seq<Step>, parked: seq<Payload>)

  function First(gaps: seq<Gap>): Gap {
    if gaps == [] then Gap([], []) else gaps[0]
  }

  function Rest(gaps: seq<Gap>): seq<Gap> {
    if gaps == [] then [] else gaps[1..]
  }

  /** Result of a drain: `sent` snapshots were taken by the transport; if the
    * transport went quiet, the rest is back in the queue. */
  datatype Drained = Drained(link: State, queue: seq<Payload>, sent: nat, again: bool)

  /** Sends the snapshot `snap` in order while `live` collects what is parked meanwhile. */
  function Drain(s: State, snap: seq<Payload>, live: seq<Payload>, gaps: seq<Gap>, depth: nat): Drained
    decreases |snap|
  {
    if snap == [] then Drained(s, live, 0, false)
    else
      var s1 := Run(s, First(gaps).events);
      var live1 := ParkAll(live, First(gaps).parked, depth);
      var (s2, result) := SendPacket(s1, snap[0]);
      if result == Again then Drained(s2, Newest(snap + live1, depth), 0, true)
      else
        var rest := Drain(s2, snap[1..], live1, Rest(gaps), depth);
        rest.(sent := rest.sent + 1)
  }

  /** Everything parked before the drain returned. */
  function ParkedIn(gaps: seq<Gap>, turns: nat): seq<Payload>
    decreases turns
  {
    if turns == 0 then [] else First(gaps).parked + ParkedIn(Rest(gaps), turns - 1)
  }

  function Turns(d: Drained): nat {
    d.sent + if d.again then 1 else 0
  }

  /** A report offered while the queue may hold older ones: parked when the
    * transport is quiet, else sent after the backlog (`send_keyboard`). */
  function Offer(s: State, queue: seq<Payload>, p: Payload, gaps: seq<Gap>, depth: nat): Drained {
    if Quiet(s) then Drained(s, Park(queue, p, depth), 0, true)
    else
      var d := Drain(s, queue, [], gaps, depth);
      if d.again then d.(queue := Park(d.queue, p, depth))
      else
        var gap := First(if d.sent <= |gaps| then gaps[d.sent..] else []);
        var s1 := Run(d.link, gap.events);
        var live := ParkAll(d.queue, gap.parked, depth);
        var (s2, result) := SendPacket(s1, p);
        if result == Again then Drained(s2, Park(live, p, depth), d.sent, true)
        else Drained(s2, live, d.sent + 1, false)
  }

  // ---- Algebra of bounded queues ----

  lemma NewestAppend(a: seq<Payload>, b: seq<Payload>, depth: nat)
    ensures Newest(Newest(a, depth) + b, depth) == Newest(a + b, depth)
  {
  }

  lemma NewestPrepend(a: seq<Payload>, b: seq<Payload>, depth: nat)
    ensures Newest(a + Newest(b, depth), depth) == Newest(a + b, depth)
  {
  }

  lemma {:induction false} ParkAllIsNewest(q: seq<Payload>, ps: seq<Payload>, depth: nat)
    requires |q| <= depth
    ensures ParkAll(q, ps, depth) == Newest(q + ps, depth)
    decreases |ps|
  {
    if ps == [] {
      assert q + ps == q;
    } else {
      ParkAllIsNewest(Park(q, ps[0], depth), ps[1..], depth);
      NewestAppend(q + [ps[0]], ps[1..], depth);
      assert q + [ps[0]] + ps[1..] == q + ps;
    }
  }

  /** Closed form of a drain. The transport took the oldest `sent` snapshots in
    * order, and the queue is exactly the longest suffix that fits of what was not
    * sent, then what was live, then what was parked meanwhile. */
  lemma {:induction false} DrainExact(s: State, snap: seq<Payload>, live: seq<Payload>, gaps: seq<Gap>, depth: nat)
    requires |live| <= depth
    ensures var d := Drain(s, snap, live, gaps, depth);
      && d.sent <= |snap|
      && (!d.again ==> d.sent == |snap|)
      && d.queue == Newest(snap[d.sent..] + live + ParkedIn(gaps, Turns(d)), depth)
    decreases |snap|
  {
    hide SendPacket, Run, Newest;
    var d := Drain(s, snap, live, gaps, depth);
    if snap == [] {
      DrainedNone(live, depth);
    } else {
      var parked, live1 := First(gaps).parked, ParkAll(live, First(gaps).parked, depth);
      assert live1 == Newest(live + parked, depth) by { ParkAllIsNewest(live, parked, depth); }
      var (s2, result) := SendPacket(Run(s, First(gaps).events), snap[0]);
      if result == Again {
        SentNone(snap, live, parked, depth);
        assert ParkedIn(gaps, 1) == parked + [] == parked;
      } else {
        DrainExact(s2, snap[1..], live1, Rest(gaps), depth);
        var e := Drain(s2, snap[1..], live1, Rest(gaps), depth);
        SentOne(snap, e.sent, live, parked, ParkedIn(Rest(gaps), Turns(e)), depth);
      }
    }
  }

  lemma DrainedNone(live: seq<Payload>, depth: nat)
    requires |live| <= depth
    ensures Newest([] + live + [], depth) == live
  {
  }

  lemma SentNone(snap: seq<Payload>, live: seq<Payload>, parked: seq<Payload>, depth: nat)
    ensures Newest(snap + Newest(live + parked, depth), depth) == Newest(snap[0..] + live + parked, depth)
  {
    NewestPrepend(snap, live + parked, depth);
    assert snap[0..] + live + parked == snap + (live + parked);
  }

  lemma SentOne(snap: seq<Payload>, sent: nat, live: seq<Payload>, parked: seq<Payload>,
                later: seq<Payload>, depth: nat)
    requires sent < |snap|
    ensures Newest(snap[1..][sent..] + Newest(live + parked, depth) + later, depth)
         == Newest(snap[sent + 1..] + live + (parked + later), depth)
  {
    var unsent := snap[sent + 1..];
    assert snap[1..][sent..] == unsent;
    NewestMiddle(unsent, live + parked, later, depth);
    assert unsent + (live + parked) + later == unsent + live + (parked + later);
  }

  lemma NewestMiddle(a: seq<Payload>, b: seq<Payload>, c: seq<Payload>, depth: nat)
    ensures Newest(a + Newest(b, depth) + c, depth) == Newest(a + b + c, depth)
  {
    NewestAppend(a + Newest(b, depth), c, depth);
    NewestPrepend(a, b, depth);
    NewestAppend(a + b, c, depth);
  }

  // ---- Order and freshness over any history ----

  /** `sub` lists elements of `all`, in the same order. */
  ghost predicate Subsequence(sub: seq<Payload>, all: seq<Payload>) {
    exists at: seq<nat> :: Embeds(at, sub, all)
  }

  ghost predicate Embeds(at: seq<nat>, sub: seq<Payload>, all: seq<Payload>) {
    && |at| == |sub|
    && (forall i :: 0 <= i < |at| ==> at[i] < |all| && all[at[i]] == sub[i])
    && (forall i, j :: 0 <= i < j < |at| ==> at[i] < at[j])
  }

  lemma SubsequenceSame(q: seq<Payload>)
    ensures Subsequence(q, q)
  {
    assert Embeds(seq(|q|, i => i), q, q);
  }

  lemma SubsequenceConcat(a: seq<Payload>, all: seq<Payload>, b: seq<Payload>, more: seq<Payload>)
    requires Subsequence(a, all) && Subsequence(b, more)
    ensures Subsequence(a + b, all + more)
  {
    var f: seq<nat> :| Embeds(f, a, all);
    var g: seq<nat> :| Embeds(g, b, more);
    var shifted := seq(|g|, i requires 0 <= i < |g| => g[i] + |all|);
    assert Embeds(f + shifted, a + b, all + more);
  }

  lemma SubsequenceTrans(a: seq<Payload>, b: seq<Payload>, c: seq<Payload>)
    requires Subsequence(a, b) && Subsequence(b, c)
    ensures Subsequence(a, c)
  {
    var f: seq<nat> :| Embeds(f, a, b);
    var g: seq<nat> :| Embeds(g, b, c);
    assert Embeds(seq(|f|, i requires 0 <= i < |f| => g[f[i]]), a, c);
  }

  lemma SubsequenceNewest(q: seq<Payload>, depth: nat)
    ensures Subsequence(Newest(q, depth), q)
  {
    var k := |q| - |Newest(q, depth)|;
    assert Embeds(seq(|q| - k, i requires 0 <= i < |q| - k => (i + k) as nat), Newest(q, depth), q);
  }

  /** History of a queue: what arrived, what the transport took, what is parked. */
  datatype History = History(arrived: seq<Payload>, taken: seq<Payload>, queue: seq<Payload>)

  /** Order is never changed, only old entries go missing, and the newest survives. */
  ghost predicate Faithful(h: History, depth: nat) {
    && |h.queue| <= depth
    && Subsequence(h.taken + h.queue, h.arrived)
    && (h.arrived != [] ==> h.taken + h.queue != [] && Last(h.taken + h.queue) == Last(h.arrived))
  }

  function Last(q: seq<Payload>): Payload
    requires q != []
  {
    q[|q| - 1]
  }

  /** A whole drain of the queue, with whatever was parked between its sends. */
  function AfterDrain(h: History, d: Drained, gaps: seq<Gap>): History {
    History(h.arrived + ParkedIn(gaps, Turns(d)),
            h.taken + h.queue[..if d.sent <= |h.queue| then d.sent else |h.queue|],
            d.queue)
  }

  lemma FaithfulPark(h: History, p: Payload, depth: nat)
    requires Faithful(h, depth) && 0 < depth
    ensures Faithful(h.(arrived := h.arrived + [p], queue := Park(h.queue, p, depth)), depth)
  {
    var q := Park(h.queue, p, depth);
    SubsequenceNewest(h.queue + [p], depth);
    SubsequenceSame(h.taken);
    SubsequenceConcat(h.taken, h.taken, q, h.queue + [p]);
    SubsequenceSame([p]);
    SubsequenceConcat(h.taken + h.queue, h.arrived, [p], [p]);
    assert h.taken + (h.queue + [p]) == h.taken + h.queue + [p];
    SubsequenceTrans(h.taken + q, h.taken + h.queue + [p], h.arrived + [p]);
    assert Last(q) == p;
  }

  lemma FaithfulDrain(h: History, s: State, gaps: seq<Gap>, depth: nat)
    requires Faithful(h, depth) && 0 < depth
    ensures Faithful(AfterDrain(h, Drain(s, h.queue, [], gaps, depth), gaps), depth)
  {
    hide SendPacket, Run, Drain, Faithful;
    var d := Drain(s, h.queue, [], gaps, depth);
    DrainExact(s, h.queue, [], gaps, depth);
    assert h.queue[d.sent..] + [] == h.queue[d.sent..];
    FaithfulSplit(h, d.sent, ParkedIn(gaps, Turns(d)), depth);
  }

  /** Taking a prefix of the queue and dropping the oldest of the rest is faithful. */
  lemma FaithfulSplit(h: History, sent: nat, parked: seq<Payload>, depth: nat)
    requires Faithful(h, depth) && 0 < depth && sent <= |h.queue|
    ensures Faithful(History(h.arrived + parked, h.taken + h.queue[..sent],
                             Newest(h.queue[sent..] + parked, depth)), depth)
  {
    var head, tail := h.taken + h.queue[..sent], h.queue[sent..] + parked;
    assert head + tail == h.taken + h.queue + parked;
    SplitOrder(h, parked, head, tail, depth);
    if h.arrived + parked != [] {
      assert Last(h.taken + h.queue + parked) == Last(h.arrived + parked) by {
        LastOfSum(h.taken + h.queue, parked);
        LastOfSum(h.arrived, parked);
      }
      SplitNewest(head, tail, depth);
    }
  }

  lemma LastOfSum(a: seq<Payload>, b: seq<Payload>)
    ensures a + b != [] ==> Last(a + b) == if b != [] then Last(b) else Last(a)
  {
    if b == [] {
      assert a + b == a;
    }
  }

  lemma SplitNewest(head: seq<Payload>, tail: seq<Payload>, depth: nat)
    requires head + tail != [] && 0 < depth
    ensures head + Newest(tail, depth) != []
    ensures Last(head + Newest(tail, depth)) == Last(head + tail)
  {
  }

  lemma SplitOrder(h: History, parked: seq<Payload>, head: seq<Payload>, tail: seq<Payload>, depth: nat)
    requires Subsequence(h.taken + h.queue, h.arrived)
    requires head + tail == h.taken + h.queue + parked
    ensures Subsequence(head + Newest(tail, depth), h.arrived + parked)
  {
    SubsequenceNewest(tail, depth);
    SubsequenceSame(head);
    SubsequenceConcat(head, head, Newest(tail, depth), tail);
    SubsequenceSame(parked);
    SubsequenceConcat(h.taken + h.queue, h.arrived, parked, parked);
    SubsequenceTrans(head + Newest(tail, depth), head + tail, h.arrived + parked);
  }

  /** A report accepted by the transport after the queue was drained empty. */
  lemma FaithfulSend(h: History, p: Payload, depth: nat)
    requires Faithful(h, depth) && h.queue == []
    ensures Faithful(h.(arrived := h.arrived + [p], taken := h.taken + [p]), depth)
  {
    SubsequenceSame([p]);
    assert h.taken + h.queue == h.taken;
    SubsequenceConcat(h.taken, h.arrived, [p], [p]);
    assert h.taken + [p] + h.queue == h.taken + [p];
  }

  /** One use of a queue: a report is offered, or the retry worker replays it. The
    * transport may be in any state at that time. */
  datatype Use = Offered(link: State, report: Payload, gaps: seq<Gap>) | Replayed(link: State, gaps: seq<Gap>)

  function AfterOffer(h: History, s: State, p: Payload, gaps: seq<Gap>, depth: nat): History {
    var o := Offer(s, h.queue, p, gaps, depth);
    var replayed := if Quiet(s) then h.taken else AfterDrain(h, Drain(s, h.queue, [], gaps, depth), gaps).taken;
    History(h.arrived + [p], if o.again then replayed else replayed + [p], o.queue)
  }

  function AfterUse(h: History, use: Use, depth: nat): History {
    match use
    case Offered(s, p, gaps) => AfterOffer(h, s, p, gaps, depth)
    case Replayed(s, gaps) => AfterDrain(h, Drain(s, h.queue, [], gaps, depth), gaps)
  }

  function AfterUses(h: History, uses: seq<Use>, depth: nat): History
    decreases |uses|
  {
    if uses == [] then h else AfterUses(AfterUse(h, uses[0], depth), uses[1..], depth)
  }

  /** Nobody parks into the queue while a report is being offered. */
  ghost predicate Alone(use: Use) {
    use.Offered? ==> forall gap :: gap in use.gaps ==> gap.parked == []
  }

  lemma {:induction false} AloneParksNothing(gaps: seq<Gap>, turns: nat)
    requires forall gap :: gap in gaps ==> gap.parked == []
    ensures ParkedIn(gaps, turns) == []
    decreases turns
  {
    if turns > 0 {
      AloneParksNothing(Rest(gaps), turns - 1);
    }
  }

  lemma FaithfulOffer(h: History, s: State, p: Payload, gaps: seq<Gap>, depth: nat)
    requires Faithful(h, depth) && 0 < depth && Alone(Offered(s, p, gaps))
    ensures Faithful(AfterOffer(h, s, p, gaps, depth), depth)
  {
    hide SendPacket, Run, Drain, Faithful, Quiet, Newest;
    if Quiet(s) {
      FaithfulPark(h, p, depth);
    } else {
      var d := Drain(s, h.queue, [], gaps, depth);
      FaithfulDrain(h, s, gaps, depth);
      AloneParksNothing(gaps, Turns(d));
      var g := AfterDrain(h, d, gaps);
      assert g.arrived == h.arrived;
      if d.again {
        FaithfulPark(g, p, depth);
      } else {
        DrainExact(s, h.queue, [], gaps, depth);
        assert d.queue == [] by {
          assert h.queue[d.sent..] + [] + [] == [];
          DrainedNone([], depth);
        }
        assert First(if d.sent <= |gaps| then gaps[d.sent..] else []).parked == [];
        FaithfulPark(g, p, depth);
        FaithfulSend(g, p, depth);
      }
    }
  }

  /** Over every history of offers and replays, with the transport in any state and
    * any events between sends: what was taken, then what is parked, is the arrival
    * order with old entries missing, and ends in the newest report. */
  lemma {:induction false} FaithfulUses(h: History, uses: seq<Use>, depth: nat)
    requires Faithful(h, depth) && 0 < depth
    requires forall use :: use in uses ==> Alone(use)
    ensures Faithful(AfterUses(h, uses, depth), depth)
    decreases |uses|
  {
    if uses != [] {
      assert uses[0] in uses;
      match uses[0] {
        case Offered(s, p, gaps) => FaithfulOffer(h, s, p, gaps, depth);
        case Replayed(s, gaps) => FaithfulDrain(h, s, gaps, depth);
      }
      FaithfulUses(AfterUse(h, uses[0], depth), uses[1..], depth);
    }
  }
}
