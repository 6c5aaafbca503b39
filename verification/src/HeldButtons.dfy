/** The buttons the host shows and the buttons that are held: `Pointer` proves that the host
  * ends on the buttons the processor recorded; button events pass it by while the session is
  * inactive, so here is exactly when the record is right. */
module HeldButtons {
  import opened Packets
  import opened Link
  import opened Convergence
  import opened Pointer

  const BUTTONS: nat := 5

  /** The last press or release of a button, and the last one the processor saw. */
  function LastPress(n: nat, moves: seq<Move>): Option<bool> {
    if moves == [] then None else
      var m := moves[|moves| - 1];
      if m.Input? && m.event.Button? && m.event.number == n then Some(m.event.pressed)
      else LastPress(n, moves[..|moves| - 1])
  }

  function ActiveAfter(active: bool, moves: seq<Move>): bool {
    if moves == [] then active else
      var m := moves[|moves| - 1];
      if m.Session? then m.active else ActiveAfter(active, moves[..|moves| - 1])
  }

  function LastSeen(n: nat, active: bool, moves: seq<Move>): Option<bool> {
    if moves == [] then None else
      var m, front := moves[|moves| - 1], moves[..|moves| - 1];
      if m.Input? && m.event.Button? && m.event.number == n && ActiveAfter(active, front) then Some(m.event.pressed)
      else LastSeen(n, active, front)
  }

  /** Buttons that are really held after the moves. */
  ghost predicate HeldAfter(n: nat, held: set<nat>, moves: seq<Move>) {
    if LastPress(n, moves).Some? then LastPress(n, moves).value else n in held
  }

  lemma {:induction false} PlaySplit(p: Processor, moves: seq<Move>, more: seq<Move>, limits: Limits)
    ensures Play(p, moves + more, limits) == Play(Play(p, moves, limits), more, limits)
    decreases |moves|
  {
    hide Moved;
    if moves == [] {
      assert moves + more == more;
    } else {
      PlaySplit(Moved(p, moves[0], limits), moves[1..], more, limits);
      assert (moves + more)[1..] == moves[1..] + more;
    }
  }

  /** What a move does to the record. */
  lemma MovedButtons(p: Processor, move: Move, limits: Limits)
    ensures Moved(p, move, limits).active == (if move.Session? then move.active else p.active)
    ensures Moved(p, move, limits).buttons ==
      if move.Input? && move.event.Button? && p.active then Pressed(p.buttons, move.event.number, move.event.pressed) else p.buttons
  {
    hide Replayed, Run, SendPacket, Deferred, TooOld, Apply;
    match move
    case Outside(_) =>
    case Input(event, traffic) =>
      if p.active {
        match event
        case Rel(delta, _) => SendButtons(Accumulate(p, delta), false, traffic, limits);
        case Button(n, pressed, _) =>
          var q := p.(buttons := Pressed(p.buttons, n, pressed));
          SendButtons(q, q.buttons != p.buttons, traffic, limits);
        case Other(_) => SendButtons(p, false, traffic, limits);
      }
    case Retry(traffic) => AccumulatedButtons(p.(link := Replayed(p, traffic, limits).link, queue := Replayed(p, traffic, limits).queue), traffic);
    case Resync(_, _) =>
    case Session(_) =>
  }

  lemma {:induction false} LateButtons(p: Processor, late: seq<Delta>)
    ensures AccumulateAll(p, late).buttons == p.buttons && AccumulateAll(p, late).active == p.active
    decreases |late|
  {
    if late != [] {
      LateButtons(Accumulate(p, late[0]), late[1..]);
    }
  }

  lemma AccumulatedButtons(p: Processor, traffic: Traffic)
    ensures SendAccumulated(p, traffic).0.buttons == p.buttons && SendAccumulated(p, traffic).0.active == p.active
  {
    hide Run, SendPacket;
    LateButtons(p.(acc := STILL, start := 0), traffic.late);
  }

  lemma SendButtons(p: Processor, changed: bool, traffic: Traffic, limits: Limits)
    ensures SendMouse(p, changed, traffic, limits).buttons == p.buttons && SendMouse(p, changed, traffic, limits).active == p.active
  {
    hide Replayed, SendAccumulated, Deferred, TooOld;
    var d := Replayed(p, traffic, limits);
    AccumulatedButtons(p.(link := d.link, queue := d.queue), traffic);
  }

  /** The record is what the processor saw last of each button. */
  lemma {:induction false} RecordExactly(p: Processor, moves: seq<Move>, limits: Limits, n: nat)
    requires n < BUTTONS
    ensures var q := Play(p, moves, limits);
      && q.active == ActiveAfter(p.active, moves)
      && (n in q.buttons <==> if LastSeen(n, p.active, moves).Some? then LastSeen(n, p.active, moves).value else n in p.buttons)
  {
    hide Moved;
    if moves != [] {
      var front, m := moves[..|moves| - 1], moves[|moves| - 1];
      RecordExactly(p, front, limits, n);
      PlaySplit(p, front, [m], limits);
      assert moves == front + [m];
      var before := Play(p, front, limits);
      assert Play(before, [m], limits) == Play(Moved(before, m, limits), [], limits) == Moved(before, m, limits);
      MovedButtons(before, m, limits);
    }
  }

  /** Once nothing is on its way or parked and no resync is due, the host shows exactly the
    * buttons that are held if and only if, for each button, its last press or release was
    * seen, or changed nothing against the last one that was. */
  lemma HostShowsHeld(p: Processor, moves: seq<Move>, limits: Limits)
    requires PointerInv(p, limits) && forall move :: move in moves ==> Fair(move)
    requires forall n: nat :: n in p.buttons ==> n < BUTTONS
    ensures var q := Play(p, moves, limits);
      q.live && Outstanding(q.link) == [] && q.queue == [] && MOUSE !in q.link.resync && !q.link.cfg.hidNoack ==>
        && LastOf(MOUSE, q.link.host) == Some(ButtonsOnly(q.buttons))
        && ((forall n: nat :: n < BUTTONS ==> (n in q.buttons <==> HeldAfter(n, p.buttons, moves))) <==>
              forall n: nat :: n < BUTTONS ==> SeenRight(n, p.buttons, p.active, moves))
  {
    hide Play, SeenRight, HeldAfter;
    ButtonsConverge(p, moves, limits);
    forall n: nat | n < BUTTONS
      ensures (n in Play(p, moves, limits).buttons <==> HeldAfter(n, p.buttons, moves)) <==> SeenRight(n, p.buttons, p.active, moves)
    {
      RecordExactly(p, moves, limits, n);
      SeenRightExactly(n, p.buttons, p.active, moves);
    }
  }

  /** The last press or release of the button was seen or agrees with what the record has. */
  ghost predicate SeenRight(n: nat, held: set<nat>, active: bool, moves: seq<Move>) {
    LastPress(n, moves).Some? ==>
      LastPress(n, moves).value == if LastSeen(n, active, moves).Some? then LastSeen(n, active, moves).value else n in held
  }

  lemma {:induction false} SeenRightExactly(n: nat, held: set<nat>, active: bool, moves: seq<Move>)
    ensures LastPress(n, moves).None? ==> LastSeen(n, active, moves).None?
    ensures var recorded := if LastSeen(n, active, moves).Some? then LastSeen(n, active, moves).value else n in held;
      SeenRight(n, held, active, moves) <==> (recorded <==> HeldAfter(n, held, moves))
  {
    if moves != [] {
      SeenRightExactly(n, held, active, moves[..|moves| - 1]);
    }
  }
}
