/** Draining a queue and offering a report over the library as compiled in. The calls are those
  * of `Parking`; what they do to the kind they send is safe whatever the library does, and
  * what they do to the other kinds is exactly what their sends and gaps do. */
module VendoredReplay {
  import opened Packets
  import opened Link
  import opened VendoredRadio
  import opened VendoredHost
  import opened Convergence
  import Parking
  import Replay

  type Gap = Parking.Gap

  datatype Drained = Drained(v: Vendored, queue: seq<Payload>, sent: nat, again: bool)

  function Drain(v: Vendored, snap: seq<Payload>, live: seq<Payload>, gaps: seq<Gap>, depth: nat): Drained
    decreases |snap|
  {
    if snap == [] then Drained(v, live, 0, false)
    else
      var v1 := Play(v, Parking.First(gaps).events);
      var live1 := Parking.ParkAll(live, Parking.First(gaps).parked, depth);
      if Quiet(v1.link) then Drained(v1, Parking.Newest(snap + live1, depth), 0, true)
      else
        var rest := Drain(After(v1, Send(snap[0])), snap[1..], live1, Parking.Rest(gaps), depth);
        rest.(sent := rest.sent + 1)
  }

  function LastGap(d: Drained, gaps: seq<Gap>): Gap {
    Parking.First(if d.sent <= |gaps| then gaps[d.sent..] else [])
  }

  function Offer(v: Vendored, queue: seq<Payload>, p: Payload, gaps: seq<Gap>, depth: nat): Drained {
    if Quiet(v.link) then Drained(v, Parking.Park(queue, p, depth), 0, true)
    else
      var d := Drain(v, queue, [], gaps, depth);
      if d.again then d.(queue := Parking.Park(d.queue, p, depth))
      else
        var v1 := Play(d.v, LastGap(d, gaps).events);
        var live := Parking.ParkAll(d.queue, LastGap(d, gaps).parked, depth);
        if Quiet(v1.link) then Drained(v1, Parking.Park(live, p, depth), d.sent, true)
        else Drained(After(v1, Send(p)), live, d.sent + 1, false)
  }

  function Turns(d: Drained): nat {
    d.sent + if d.again then 1 else 0
  }

  // ---- What the library sees of a call ----

  function DrainSteps(v: Vendored, snap: seq<Payload>, gaps: seq<Gap>): seq<Step>
    decreases |snap|
  {
    if snap == [] then [] else
      var events := Parking.First(gaps).events;
      var v1 := Play(v, events);
      if Quiet(v1.link) then events
      else events + [Send(snap[0])] + DrainSteps(After(v1, Send(snap[0])), snap[1..], Parking.Rest(gaps))
  }

  function OfferSteps(v: Vendored, queue: seq<Payload>, p: Payload, gaps: seq<Gap>, depth: nat): seq<Step> {
    if Quiet(v.link) then [] else
      var d := Drain(v, queue, [], gaps, depth);
      var steps := DrainSteps(v, queue, gaps);
      if d.again then steps
      else steps + LastGap(d, gaps).events + if Quiet(Play(d.v, LastGap(d, gaps).events).link) then [] else [Send(p)]
  }

  lemma {:induction false} DrainPlays(v: Vendored, snap: seq<Payload>, live: seq<Payload>, gaps: seq<Gap>, depth: nat)
    ensures Drain(v, snap, live, gaps, depth).v == Play(v, DrainSteps(v, snap, gaps))
    decreases |snap|
  {
    hide After, Quiet, Parking.ParkAll, Parking.Newest;
    if snap != [] {
      var events := Parking.First(gaps).events;
      var v1 := Play(v, events);
      if !Quiet(v1.link) {
        var v2, rest := After(v1, Send(snap[0])), Parking.Rest(gaps);
        DrainPlays(v2, snap[1..], Parking.ParkAll(live, Parking.First(gaps).parked, depth), rest, depth);
        SplitAtSend(v, events, snap[0], DrainSteps(v2, snap[1..], rest));
      }
    }
  }

  lemma SplitAtSend(v: Vendored, before: seq<Step>, p: Payload, more: seq<Step>)
    ensures Play(v, before + [Send(p)] + more) == Play(After(Play(v, before), Send(p)), more)
  {
    hide After;
    RunSplit(v, before + [Send(p)], more);
    RunSplit(v, before, [Send(p)]);
    assert Play(After(Play(v, before), Send(p)), []) == After(Play(v, before), Send(p));
  }

  /** A call is a run of the library. */
  lemma OfferPlays(v: Vendored, queue: seq<Payload>, p: Payload, gaps: seq<Gap>, depth: nat)
    ensures Offer(v, queue, p, gaps, depth).v == Play(v, OfferSteps(v, queue, p, gaps, depth))
  {
    hide After, Quiet, Parking.ParkAll, Parking.Newest, Drain, DrainSteps;
    if !Quiet(v.link) {
      var d, steps := Drain(v, queue, [], gaps, depth), DrainSteps(v, queue, gaps);
      DrainPlays(v, queue, [], gaps, depth);
      if !d.again {
        var events := LastGap(d, gaps).events;
        RunSplit(v, steps, events);
        if Quiet(Play(d.v, events).link) {
          assert steps + events + [] == steps + events;
        } else {
          SplitAtSend(v, steps + events, p, []);
          assert steps + events + [Send(p)] + [] == steps + events + [Send(p)];
        }
      }
    }
  }

  // ---- The kind that is sent ----

  /** While a report of the kind is still to be sent, no event hides anything. */
  lemma {:induction false} PendingSpares(k: Kind, v: Vendored, es: seq<Step>, queue: seq<Payload>, current: Payload)
    requires Drifted(v) && Has(k, queue)
    ensures AllSpare(k, v, es, queue, current)
    decreases |es|
  {
    hide After, Drifted, Has;
    if es != [] {
      ApplyDrifts(v, es[0]);
      PendingSpares(k, After(v, es[0]), es[1..], queue, current);
    }
  }

  lemma PendingConverges(k: Kind, v: Vendored, es: seq<Step>, queue: seq<Payload>, current: Payload)
    requires Drifted(v) && Tracked(v.link.cfg, k) && Foreign(k, es) && Replay.OfKind(k, queue) && queue != []
    requires Converging(k, v.link, queue, current)
    ensures Converging(k, Play(v, es).link, queue, current)
    ensures Drifted(Play(v, es)) && Play(v, es).link.cfg == v.link.cfg
  {
    hide After, Drifted, Converging, AllSpare, AlwaysConverging, Play;
    Replay.LastOfOwn(k, [], queue);
    assert [] + queue == queue;
    RunDrifts(v, es);
    PendingSpares(k, v, es, queue, current);
    ConvergesExactly(k, v, es, queue, current);
    AlwaysFinally(k, v, es, queue, current);
  }

  /** The head of what is to be sent moves to the FIFO. */
  lemma HeadConverges(k: Kind, v: Vendored, p: Payload, rest: seq<Payload>, current: Payload)
    requires Drifted(v) && Tracked(v.link.cfg, k) && ReportKind(p) == k && !Quiet(v.link)
    requires Converging(k, v.link, [p] + rest, current)
    ensures var t := After(v, Send(p));
      Drifted(t) && t.link.cfg == v.link.cfg && Converging(k, t.link, rest, current)
  {
    hide After, Drifted, LastOf;
    ApplyDrifts(v, Send(p));
    OwnSendTakes(k, v, p) by { KindIsHid(p, k, v.link.cfg); }
    var t := After(v, Send(p)).link;
    LastOfConcat(k, Trail(v.link), [p] + rest);
    LastOfConcat(k, [p], rest);
    LastOfConcat(k, Trail(t), rest);
    assert Trail(t) + [] == Trail(t);
    SendKeepsMask(v, p);
    OneReport(k, p);
  }

  lemma KindIsHid(p: Payload, k: Kind, cfg: Config)
    requires ReportKind(p) == k && Tracked(cfg, k)
    ensures !IsShell(p)
  {
  }

  lemma OneReport(k: Kind, p: Payload)
    requires ReportKind(p) == k
    ensures LastOf(k, [p]) == Some(StateOf(p))
  {
  }

  lemma SendKeepsMask(v: Vendored, p: Payload)
    ensures v.link.resync <= After(v, Send(p)).link.resync
  {
    hide AfterSend, Kinds, SendPacket;
    if Admits(v, p) { SendFrame(v, p); EmptiedFrame(v); } else { RefusedSend(v, p); RefusedFrame(v, p); }
  }

  /** Over the library too, and from every state of its rings: a drain keeps the host converging
    * on the newest report, whatever fails, is flushed or is parked meanwhile. */
  lemma {:induction false} DrainShows(k: Kind, v: Vendored, snap: seq<Payload>, live: seq<Payload>,
                                      gaps: seq<Gap>, depth: nat, current: Payload)
    requires Drifted(v) && Tracked(v.link.cfg, k) && Replay.OfKind(k, snap) && Replay.OfKind(k, live)
    requires 0 < depth && |live| <= depth && Replay.Exclusive(k, gaps)
    requires Converging(k, v.link, snap + live, current)
    ensures var d := Drain(v, snap, live, gaps, depth);
      && Drifted(d.v) && d.v.link.cfg == v.link.cfg && Replay.OfKind(k, d.queue) && |d.queue| <= depth
      && Converging(k, d.v.link, d.queue, Replay.Newer(current, Parking.ParkedIn(gaps, Turns(d))))
    decreases |snap|
  {
    hide After, Play, Drifted, Converging, Parking.Newest, Parking.ParkAll, Replay.OfKind, Tracked, Foreign, Replay.Newer, Quiet;
    if snap == [] {
      Replay.NewerNothing(current);
      assert snap + live == live;
    } else {
      var gap, rest := Parking.First(gaps), Parking.Rest(gaps);
      var v1, live1, current1 := Play(v, gap.events), Parking.ParkAll(live, gap.parked, depth), Replay.Newer(current, gap.parked);
      Replay.FirstExclusive(k, gaps);
      GapShows(k, v, snap, live, gap, depth, current);
      if Quiet(v1.link) {
        Replay.NewestConverges(k, v1.link, snap + live1, depth, current1);
        assert Parking.ParkedIn(gaps, 1) == gap.parked + [] == gap.parked;
      } else {
        var v2 := After(v1, Send(snap[0]));
        Replay.OfKindAt(k, snap);
        assert snap + live1 == [snap[0]] + (snap[1..] + live1);
        HeadConverges(k, v1, snap[0], snap[1..] + live1, current1);
        DrainShows(k, v2, snap[1..], live1, rest, depth, current1);
        Replay.NewerConcat(current, gap.parked, Parking.ParkedIn(rest, Turns(Drain(v2, snap[1..], live1, rest, depth))));
      }
    }
  }

  lemma GapShows(k: Kind, v: Vendored, snap: seq<Payload>, live: seq<Payload>, gap: Gap, depth: nat, current: Payload)
    requires Drifted(v) && Tracked(v.link.cfg, k) && snap != [] && Replay.OfKind(k, snap) && Replay.OfKind(k, live)
    requires 0 < depth && |live| <= depth && Foreign(k, gap.events) && Replay.OfKind(k, gap.parked)
    requires Converging(k, v.link, snap + live, current)
    ensures var v1, live1 := Play(v, gap.events), Parking.ParkAll(live, gap.parked, depth);
      && Drifted(v1) && v1.link.cfg == v.link.cfg && Replay.OfKind(k, live1) && |live1| <= depth
      && Replay.OfKind(k, snap + live1) && Converging(k, v1.link, snap + live1, Replay.Newer(current, gap.parked))
  {
    hide Play, Drifted, Converging;
    PendingConverges(k, v, gap.events, snap + live, current);
    Replay.LiveConverges(k, Play(v, gap.events).link, snap, live, gap.parked, depth, current);
  }

  /** What a drain keeps from a state that need not be converging, and what it leaves. */
  lemma {:induction false} DrainKeeps(k: Kind, v: Vendored, snap: seq<Payload>, live: seq<Payload>, gaps: seq<Gap>, depth: nat)
    requires Drifted(v) && Replay.OfKind(k, snap) && Replay.OfKind(k, live) && |live| <= depth && Replay.Exclusive(k, gaps)
    ensures var d := Drain(v, snap, live, gaps, depth);
      && Drifted(d.v) && d.v.link.cfg == v.link.cfg && Replay.OfKind(k, d.queue) && |d.queue| <= depth
      && (Replay.Unparked(gaps) && !d.again ==> d.queue == live)
    decreases |snap|
  {
    hide After, Play, Drifted, Quiet;
    if snap != [] {
      var gap, rest := Parking.First(gaps), Parking.Rest(gaps);
      var v1, live1 := Play(v, gap.events), Parking.ParkAll(live, gap.parked, depth);
      assert Replay.OfKind(k, gap.parked);
      RunDrifts(v, gap.events);
      Parking.ParkAllIsNewest(live, gap.parked, depth);
      assert Replay.OfKind(k, live1) by { forall p | p in live1 ensures p in live + gap.parked {} }
      assert Replay.OfKind(k, Parking.Newest(snap + live1, depth)) by {
        forall p | p in Parking.Newest(snap + live1, depth) ensures p in snap + live1 {}
      }
      if !Quiet(v1.link) {
        ApplyDrifts(v1, Send(snap[0]));
        assert Replay.OfKind(k, snap[1..]) && Replay.Exclusive(k, rest) && (Replay.Unparked(gaps) ==> Replay.Unparked(rest));
        DrainKeeps(k, After(v1, Send(snap[0])), snap[1..], live1, rest, depth);
      }
    }
  }

  /** After a report was offered the host converges on it, from any state of the rings and
    * whatever the library does during the call. */
  lemma OfferShows(k: Kind, v: Vendored, queue: seq<Payload>, p: Payload, gaps: seq<Gap>, depth: nat)
    requires Drifted(v) && Tracked(v.link.cfg, k) && Replay.OfKind(k, queue) && 0 < depth && |queue| <= depth && ReportKind(p) == k
    requires Replay.Exclusive(k, gaps) && Replay.Unparked(gaps)
    ensures var d := Offer(v, queue, p, gaps, depth);
      && Drifted(d.v) && d.v.link.cfg == v.link.cfg && Replay.OfKind(k, d.queue) && |d.queue| <= depth
      && Converging(k, d.v.link, d.queue, StateOf(p))
  {
    hide After, Play, Drifted, Converging, Parking.Newest, Drain, Quiet;
    if Quiet(v.link) {
      Replay.ParkConverges(k, v.link, queue, p, depth);
      return;
    }
    var d := Drain(v, queue, [], gaps, depth);
    DrainKeeps(k, v, queue, [], gaps, depth);
    if d.again {
      Replay.ParkConverges(k, d.v.link, d.queue, p, depth);
      return;
    }
    var gap := LastGap(d, gaps);
    assert Foreign(k, gap.events) && gap.parked == [];
    var v1 := Play(d.v, gap.events);
    RunDrifts(d.v, gap.events);
    if Quiet(v1.link) {
      Replay.ParkConverges(k, v1.link, [], p, depth);
    } else {
      ApplyDrifts(v1, Send(p));
      KindIsHid(p, k, v.link.cfg);
      OwnSendTakes(k, v1, p);
    }
  }

  // ---- The other kinds ----

  lemma {:induction false} DrainForeign(j: Kind, k: Kind, v: Vendored, snap: seq<Payload>, gaps: seq<Gap>)
    requires j != k && Replay.OfKind(k, snap) && Replay.ForeignGaps(j, gaps)
    ensures Foreign(j, DrainSteps(v, snap, gaps))
    decreases |snap|
  {
    hide After, Play, Quiet;
    if snap != [] {
      assert Foreign(j, Parking.First(gaps).events);
      assert Replay.OfKind(k, snap[1..]) && Replay.ForeignGaps(j, Parking.Rest(gaps));
      DrainForeign(j, k, After(Play(v, Parking.First(gaps).events), Send(snap[0])), snap[1..], Parking.Rest(gaps));
    }
  }

  lemma OfferForeign(j: Kind, k: Kind, v: Vendored, queue: seq<Payload>, p: Payload, gaps: seq<Gap>, depth: nat)
    requires j != k && Replay.OfKind(k, queue) && ReportKind(p) == k && Replay.ForeignGaps(j, gaps)
    ensures Foreign(j, OfferSteps(v, queue, p, gaps, depth))
  {
    hide After, Play, Quiet, Drain, DrainSteps;
    DrainForeign(j, k, v, queue, gaps);
    var d := Drain(v, queue, [], gaps, depth);
    assert Foreign(j, LastGap(d, gaps).events);
  }
}
