/** What the end of a session leaves behind in the relay (src/esb/hid_relay.c): nothing that was
  * parked in it is ever sent, and while no session runs the relay itself sends nothing. */
module RelaySessions {
  import opened Packets
  import opened Link
  import opened Parking
  import opened Replay
  import opened HidRelay

  /** Whether a session runs after the moves, and whether one ran at the last key event. */
  function RunsAfter(active: bool, moves: seq<Move>): bool {
    if moves == [] then active
    else if moves[|moves| - 1].Session? then moves[|moves| - 1].active
    else RunsAfter(active, moves[..|moves| - 1])
  }

  function RanAtLastKey(wasActive: bool, active: bool, moves: seq<Move>): bool {
    if moves == [] then wasActive
    else if moves[|moves| - 1].Key? then RunsAfter(active, moves[..|moves| - 1])
    else RanAtLastKey(wasActive, active, moves[..|moves| - 1])
  }

  lemma {:induction false} PlaySplit(r: Relay, moves: seq<Move>, more: seq<Move>, depths: Depths)
    requires WellCounted(r.local)
    ensures WellCounted(Play(r, moves, depths).local)
    ensures Play(r, moves + more, depths) == Play(Play(r, moves, depths), more, depths)
    decreases |moves|
  {
    hide Moved;
    if moves == [] {
      assert moves + more == more;
    } else {
      MovedWellCounted(r, moves[0], depths);
      PlaySplit(Moved(r, moves[0], depths), moves[1..], more, depths);
      assert (moves + more)[1..] == moves[1..] + more;
    }
  }

  lemma MovedFlags(r: Relay, move: Move, depths: Depths)
    requires WellCounted(r.local)
    ensures var t := Moved(r, move, depths);
      && t.active == (if move.Session? then move.active else r.active)
      && t.wasActive == if move.Key? then r.active else r.wasActive
  {
    hide Offer, Drain, Run, Apply, AfterEvent, Quiet;
  }

  lemma OneMove(r: Relay, move: Move, depths: Depths)
    requires WellCounted(r.local)
    ensures Play(r, [move], depths) == Moved(r, move, depths)
  {
    hide Moved;
    MovedWellCounted(r, move, depths);
    assert Play(Moved(r, move, depths), [], depths) == Moved(r, move, depths);
  }

  /** Over every run the two flags say just that. */
  lemma {:induction false} FlagsAreHistory(r: Relay, moves: seq<Move>, depths: Depths)
    requires WellCounted(r.local)
    ensures Play(r, moves, depths).active == RunsAfter(r.active, moves)
    ensures Play(r, moves, depths).wasActive == RanAtLastKey(r.wasActive, r.active, moves)
  {
    hide Moved;
    if moves != [] {
      var front, last := moves[..|moves| - 1], moves[|moves| - 1];
      FlagsAreHistory(r, front, depths);
      PlaySplit(r, front, [last], depths);
      assert moves == front + [last];
      OneMove(Play(r, front, depths), last, depths);
      MovedFlags(Play(r, front, depths), last, depths);
    }
  }

  /** One key event: outside a session nothing is sent, and what is parked is dropped if and only
    * if a session ran at the key event before. */
  lemma KeyOutside(r: Relay, ev: KeyEvent, kbGaps: seq<Gap>, consGaps: seq<Gap>, depths: Depths)
    requires WellCounted(r.local) && !r.active
    ensures var t := Moved(r, Key(ev, kbGaps, consGaps), depths);
      && t.link == r.link && t.local == AfterEvent(r.local, ev)
      && t.kbQueue == (if r.wasActive then [] else r.kbQueue) && t.consQueue == (if r.wasActive then [] else r.consQueue)
  {
  }

  /** Nor does the resync worker send anything outside a session. */
  lemma ResyncOutside(r: Relay, before: seq<Step>, kbGaps: seq<Gap>, consGaps: seq<Gap>, depths: Depths)
    requires WellCounted(r.local) && !r.active
    ensures var t := Moved(r, Resync(before, kbGaps, consGaps), depths);
      t.link == Run(r.link.(resync := {}), before) && t.kbQueue == r.kbQueue && t.consQueue == r.consQueue
  {
  }

  /** Over every run: a key event outside a session, after one inside, empties both queues; so
    * whatever was parked before has no part in anything the relay does afterwards. */
  lemma LeftoversForgotten(r: Relay, moves: seq<Move>, ev: KeyEvent, kbGaps: seq<Gap>, consGaps: seq<Gap>, depths: Depths,
                           kbParked: seq<Payload>, consParked: seq<Payload>, more: seq<Move>)
    requires WellCounted(r.local)
    requires RanAtLastKey(r.wasActive, r.active, moves) && !RunsAfter(r.active, moves)
    ensures var t := Play(r, moves, depths);
      && WellCounted(t.local)
      && var u := Moved(t, Key(ev, kbGaps, consGaps), depths);
      && u.kbQueue == [] == u.consQueue && u.link == t.link && WellCounted(u.local)
      && Moved(t.(kbQueue := kbParked, consQueue := consParked), Key(ev, kbGaps, consGaps), depths) == u
      && Play(t.(kbQueue := kbParked, consQueue := consParked), [Key(ev, kbGaps, consGaps)] + more, depths) == Play(u, more, depths)
  {
    PlaySplit(r, moves, [], depths);
    FlagsAreHistory(r, moves, depths);
    var t := Play(r, moves, depths);
    var other := t.(kbQueue := kbParked, consQueue := consParked);
    KeyOutside(t, ev, kbGaps, consGaps, depths);
    MovedWellCounted(t, Key(ev, kbGaps, consGaps), depths);
    assert Moved(other, Key(ev, kbGaps, consGaps), depths) == Moved(t, Key(ev, kbGaps, consGaps), depths);
    hide Moved;
    assert ([Key(ev, kbGaps, consGaps)] + more)[1..] == more;
  }
}
