/** One bounded queue of parked reports in its array, and the drain over it. */
module Lane {
  import opened Packets
  import opened Parking
  import opened Transport
  import Link

  class ReportLane {
    const buf: array<Payload>
    var count: nat

    ghost predicate Valid()
      reads this
    {
      0 < buf.Length && count <= buf.Length
    }

    ghost function Queue(): seq<Payload>
      requires Valid()
      reads this, buf
    {
      buf[..count]
    }

    constructor (depth: nat, filler: Payload)
      requires 0 < depth
      ensures Valid() && Queue() == [] && buf.Length == depth && fresh(buf)
    {
      buf := new Payload[depth](_ => filler);
      count := 0;
    }

    /** `enqueue_pending_*_locked`: on a full queue the oldest entry is shifted out. */
    method Enqueue(p: Payload)
      requires Valid()
      modifies this, buf
      ensures Valid() && Queue() == Park(old(Queue()), p, buf.Length)
    {
      if count >= buf.Length {
        forall i | 0 <= i < buf.Length - 1 {
          buf[i] := buf[i + 1];
        }
        count := buf.Length - 1;
      }
      buf[count] := p;
      count := count + 1;
    }

    method EnqueueAll(ps: seq<Payload>)
      requires Valid()
      modifies this, buf
      ensures Valid() && Queue() == ParkAll(old(Queue()), ps, buf.Length)
    {
      var i := 0;
      while i < |ps|
        invariant i <= |ps| && Valid()
        invariant ParkAll(Queue(), ps[i..], buf.Length) == ParkAll(old(Queue()), ps, buf.Length)
      {
        Enqueue(ps[i]);
        assert ps[i..][1..] == ps[i + 1..];
        i := i + 1;
      }
    }

    /** Puts the unsent tail `snap[i..]` back in front of what was parked meanwhile;
      * on overflow the oldest of the tail go. */
    method Repark(snap: seq<Payload>, i: nat)
      requires Valid() && i < |snap| <= buf.Length
      modifies this, buf
      ensures Valid() && Queue() == Newest(snap[i..] + old(Queue()), buf.Length)
    {
      var from, tail, live := i, |snap| - i, count;
      if tail + live > buf.Length {
        var drop := tail + live - buf.Length;
        from := from + drop;
        tail := if drop >= tail then 0 else tail - drop;
      }
      NewestSplit(snap[i..], Queue(), buf.Length);
      assert snap[i..][from - i..] == snap[from..];
      PutInFront(snap[from..]);
    }

    /** The memmove and memcpy of the re-park. */
    method PutInFront(tail: seq<Payload>)
      requires Valid() && |tail| + count <= buf.Length
      modifies this, buf
      ensures Valid() && Queue() == tail + old(Queue())
    {
      ghost var live := Queue();
      forall k | 0 <= k < count {
        buf[|tail| + k] := buf[k];
      }
      assert buf[|tail|..|tail| + count] == live;
      forall k | 0 <= k < |tail| {
        buf[k] := tail[k];
      }
      assert buf[..|tail|] == tail && buf[|tail|..|tail| + count] == live;
      count := |tail| + count;
      assert buf[..count] == buf[..|tail|] + buf[|tail|..count];
    }

    /** `drain_pending_*`: snapshot and clear, then send from the copy. Before each
      * send the environment acts as `gaps` says. */
    method DrainPending(link: EsbTransport, gaps: seq<Gap>) returns (sent: nat, again: bool)
      requires Valid() && link.Valid() && this !in link.Parts() && buf !in link.Parts()
      modifies this, buf, link, link.Parts()
      ensures Valid() && link.Valid()
      ensures Drained(link.View(), Queue(), sent, again) == Drain(old(link.View()), old(Queue()), [], gaps, buf.Length)
    {
      hide EsbTransport.Valid, Link.SendPacket, Link.Run, Newest, ParkAll;
      var snap := buf[..count];
      count := 0;
      ghost var all := Drain(link.View(), snap, Queue(), gaps, buf.Length);
      var i, todo := 0, gaps;
      while i < |snap|
        invariant i <= |snap| && Valid() && link.Valid()
        invariant var rest := Drain(link.View(), snap[i..], Queue(), todo, buf.Length);
          all == rest.(sent := rest.sent + i)
      {
        link.PerformAll(First(todo).events);
        EnqueueAll(First(todo).parked);
        var result := link.Send(snap[i]);
        if result == Link.Again {
          Repark(snap, i);
          return i, true;
        }
        assert snap[i..][0] == snap[i] && snap[i..][1..] == snap[i + 1..];
        todo := Rest(todo);
        i := i + 1;
      }
      return i, false;
    }

    /** `send_keyboard` and `send_consumer`: park while quiet; otherwise replay the
      * backlog and send, parking the report when the transport turns out quiet. */
    method OfferReport(link: EsbTransport, p: Payload, gaps: seq<Gap>)
      requires Valid() && link.Valid() && this !in link.Parts() && buf !in link.Parts()
      modifies this, buf, link, link.Parts()
      ensures Valid() && link.Valid()
      ensures var o := Offer(old(link.View()), old(Queue()), p, gaps, buf.Length);
        link.View() == o.link && Queue() == o.queue
    {
      hide EsbTransport.Valid, Drain, Newest, ParkAll, Link.SendPacket, Link.Run, Link.Quiet;
      var quiet := link.IsQuiet();
      if quiet {
        Enqueue(p);
        return;
      }
      var sent, again := DrainPending(link, gaps);
      if again {
        Enqueue(p);
        return;
      }
      var gap := First(if sent <= |gaps| then gaps[sent..] else []);
      link.PerformAll(gap.events);
      EnqueueAll(gap.parked);
      var result := link.Send(p);
      if result == Link.Again {
        Enqueue(p);
      }
    }
  }

  lemma NewestSplit(a: seq<Payload>, b: seq<Payload>, depth: nat)
    requires |b| <= depth
    ensures var drop := if |a| + |b| > depth then |a| + |b| - depth else 0;
      drop <= |a| && Newest(a + b, depth) == a[drop..] + b
  {
  }
}
