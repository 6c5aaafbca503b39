/** The host's view of the keys: `HidRelay` proves that the host ends on the relay's local
  * state; here that state is, for every history of presses and matched releases, exactly
  * the keys down and the modifiers they hold. */
module HeldKeys {
  import opened Packets
  import opened Link
  import opened Convergence
  import opened Modifiers
  import opened KeySlots
  import opened Parking
  import opened Replay
  import opened HidRelay

  /** The keys 0xE0 to 0xE7 of the keyboard page are the eight modifiers themselves. */
  predicate NamesModifier(ev: KeyEvent) { ev.page.KeyPage? && 0xE0 <= ev.usage <= 0xE7 }

  /** What a key adds to the explicit and the implicit mask, and to the two reports' slots;
    * slot zero is none. Events of other usage pages are not keys of the relay. */
  function Explicit(ev: KeyEvent): set<nat> {
    if NamesModifier(ev) then {ev.usage - 0xE0} else ev.explicitMods
  }

  function Implicit(ev: KeyEvent): set<nat> {
    if NamesModifier(ev) then {} else ev.implicitMods
  }

  function KeyboardSlot(ev: KeyEvent): nat {
    if ev.page.KeyPage? && !NamesModifier(ev) then ev.usage % 0x100 else 0
  }

  function ConsumerSlot(ev: KeyEvent): nat {
    if ev.page.ConsumerPage? then ev.usage else 0
  }

  function Mapped<T>(held: seq<KeyEvent>, f: KeyEvent -> T): seq<T> {
    seq(|held|, i requires 0 <= i < |held| => f(held[i]))
  }

  function Explicits(held: seq<KeyEvent>): seq<set<nat>> { Mapped(held, Explicit) }
  function Implicits(held: seq<KeyEvent>): seq<set<nat>> { Mapped(held, Implicit) }
  function KeyboardSlots(held: seq<KeyEvent>): seq<nat> { Mapped(held, KeyboardSlot) }
  function ConsumerSlots(held: seq<KeyEvent>): seq<nat> { Mapped(held, ConsumerSlot) }

  /** The press that a release undoes, or the number of keys down. */
  function DownOf(held: seq<KeyEvent>, ev: KeyEvent): (i: nat)
    ensures i <= |held| && (i < |held| ==> held[i] == ev.(pressed := true))
    ensures i == |held| ==> ev.(pressed := true) !in held
  {
    if held == [] then 0
    else if held[0] == ev.(pressed := true) then 0
    else 1 + DownOf(held[1..], ev)
  }

  /** Every release is that of a key that went down, with the same usage and modifiers. */
  predicate Matched(held: seq<KeyEvent>, ev: KeyEvent) {
    ev.pressed || ev.(pressed := true) in held
  }

  function HeldAfter(held: seq<KeyEvent>, ev: KeyEvent): seq<KeyEvent>
    requires Matched(held, ev)
  {
    if ev.page.OtherPage? then held
    else if ev.pressed then held + [ev]
    else
      var i := DownOf(held, ev);
      held[..i] + held[i + 1..]
  }

  /** The local state is exactly what the keys down say. */
  ghost predicate Shown(h: Local, held: seq<KeyEvent>) {
    && Exact(h.explicit, Explicits(held)) && Exact(h.implicit, Implicits(held))
    && Lists(h.keys, KeyboardSlots(held)) && Lists(h.cons, ConsumerSlots(held))
  }

  ghost predicate Countables(held: seq<KeyEvent>) {
    Countable(Explicits(held)) && Countable(Implicits(held))
  }

  /** Room for a key among `size` slots: a press needs a free slot unless its key is down
    * already, a release must not take a slot that another key down shares. */
  predicate SlotFits(downs: seq<nat>, slot: nat, pressed: bool, left: seq<nat>, size: nat) {
    slot == 0 || if pressed then slot in downs || |Held(downs)| < size else slot !in left
  }

  /** The event leaves at most 255 keys holding any modifier, and finds room in the slots. */
  ghost predicate Fits(held: seq<KeyEvent>, ev: KeyEvent, kbSize: nat, consSize: nat)
    requires Matched(held, ev)
  {
    var after := HeldAfter(held, ev);
    ev.page.OtherPage? ||
      (&& Countables(after)
       && SlotFits(KeyboardSlots(held), KeyboardSlot(ev), ev.pressed, KeyboardSlots(after), kbSize)
       && SlotFits(ConsumerSlots(held), ConsumerSlot(ev), ev.pressed, ConsumerSlots(after), consSize))
  }

  lemma CountNone(m: Mods, pressed: bool)
    requires |m.count| == BITS
    ensures Count(m, {}, pressed) == m
  {
    assert Count(m, {}, pressed).count == m.count;
    assert Count(m, {}, pressed).mask == m.mask;
  }

  /** The local state after an event, part by part. */
  lemma AfterParts(h: Local, ev: KeyEvent)
    requires WellCounted(h) && !ev.page.OtherPage?
    ensures var t := AfterEvent(h, ev);
      && t.explicit == Count(h.explicit, Explicit(ev), ev.pressed)
      && t.implicit == Count(h.implicit, Implicit(ev), ev.pressed)
      && t.keys == (if ev.pressed then Press(h.keys, KeyboardSlot(ev)) else Release(h.keys, KeyboardSlot(ev)))
      && t.cons == (if ev.pressed then Press(h.cons, ConsumerSlot(ev)) else Release(h.cons, ConsumerSlot(ev)))
  {
    hide Press, Release, Inc, Dec;
    NoKeyKeeps(h.keys);
    NoKeyKeeps(h.cons);
    CountNone(h.implicit, ev.pressed);
  }

  lemma ModsStep(m: Mods, mods: seq<set<nat>>, i: nat, pressed: bool, delta: set<nat>)
    requires Exact(m, mods) && Countable(mods)
    requires !pressed ==> i < |mods| && mods[i] == delta
    ensures var after := if pressed then mods + [delta] else mods[..i] + mods[i + 1..];
      Exact(Count(m, delta, pressed), after) <==> Countable(after)
  {
    hide Exact, Countable, Inc, Dec;
    assert |m.count| == BITS by { ExactShape(m, mods); }
    KeyExact(m, mods, if pressed then Down(delta) else Up(i));
  }

  lemma ExactShape(m: Mods, mods: seq<set<nat>>)
    requires Exact(m, mods)
    ensures |m.count| == BITS
  {
  }

  lemma SlotsStep(keys: seq<nat>, downs: seq<nat>, i: nat, pressed: bool, slot: nat)
    requires Lists(keys, downs)
    requires !pressed ==> i < |downs| && downs[i] == slot
    ensures var after := if pressed then downs + [slot] else downs[..i] + downs[i + 1..];
      Lists(if pressed then Press(keys, slot) else Release(keys, slot), after) <==>
        SlotFits(downs, slot, pressed, after, |keys|)
  {
    hide Lists, Press, Release;
    if pressed {
      PressLists(keys, downs, slot);
    } else {
      ReleaseLists(keys, downs, i);
    }
  }

  /** One event keeps the local state exact if and only if it fits. */
  lemma EventShown(h: Local, held: seq<KeyEvent>, ev: KeyEvent)
    requires Shown(h, held) && Countables(held) && Matched(held, ev)
    ensures WellCounted(h)
    ensures Shown(AfterEvent(h, ev), HeldAfter(held, ev)) <==> Fits(held, ev, |h.keys|, |h.cons|)
  {
    ExactShape(h.explicit, Explicits(held));
    ExactShape(h.implicit, Implicits(held));
    if !ev.page.OtherPage? {
      hide AfterEvent, Exact, Countable, Lists, Press, Release, Inc, Dec, SlotFits;
      var i, after := DownOf(held, ev), HeldAfter(held, ev);
      AfterParts(h, ev);
      MappedStep(held, ev, Explicit);
      MappedStep(held, ev, Implicit);
      MappedStep(held, ev, KeyboardSlot);
      MappedStep(held, ev, ConsumerSlot);
      ModsStep(h.explicit, Explicits(held), i, ev.pressed, Explicit(ev));
      ModsStep(h.implicit, Implicits(held), i, ev.pressed, Implicit(ev));
      SlotsStep(h.keys, KeyboardSlots(held), i, ev.pressed, KeyboardSlot(ev));
      SlotsStep(h.cons, ConsumerSlots(held), i, ev.pressed, ConsumerSlot(ev));
    }
  }

  /** What a press adds to a list, its release takes away. */
  lemma MappedStep<T>(held: seq<KeyEvent>, ev: KeyEvent, f: KeyEvent -> T)
    requires Matched(held, ev) && !ev.page.OtherPage? && f(ev) == f(ev.(pressed := true))
    ensures var i, mapped := DownOf(held, ev), Mapped(held, f);
      && (ev.pressed ==> Mapped(HeldAfter(held, ev), f) == mapped + [f(ev)])
      && (!ev.pressed ==> i < |held| && mapped[i] == f(ev) && Mapped(HeldAfter(held, ev), f) == mapped[..i] + mapped[i + 1..])
  {
  }

  // ---- Over whole runs ----

  /** The local state depends on the key events alone. */
  function Events(moves: seq<Move>): seq<KeyEvent>
    decreases |moves|
  {
    if moves == [] then []
    else (if moves[0].Key? then [moves[0].ev] else []) + Events(moves[1..])
  }

  function LocalAfter(h: Local, evs: seq<KeyEvent>): Local
    requires WellCounted(h)
    decreases |evs|
  {
    if evs == [] then h else LocalAfter(AfterEvent(h, evs[0]), evs[1..])
  }

  predicate AllMatched(held: seq<KeyEvent>, evs: seq<KeyEvent>)
    decreases |evs|
  {
    evs != [] ==> Matched(held, evs[0]) && AllMatched(HeldAfter(held, evs[0]), evs[1..])
  }

  function HeldFinally(held: seq<KeyEvent>, evs: seq<KeyEvent>): seq<KeyEvent>
    requires AllMatched(held, evs)
    decreases |evs|
  {
    if evs == [] then held else HeldFinally(HeldAfter(held, evs[0]), evs[1..])
  }

  ghost predicate AllFit(held: seq<KeyEvent>, evs: seq<KeyEvent>, kbSize: nat, consSize: nat)
    requires AllMatched(held, evs)
    decreases |evs|
  {
    evs != [] ==> Fits(held, evs[0], kbSize, consSize) && AllFit(HeldAfter(held, evs[0]), evs[1..], kbSize, consSize)
  }

  ghost predicate AlwaysShown(h: Local, held: seq<KeyEvent>, evs: seq<KeyEvent>)
    requires WellCounted(h) && AllMatched(held, evs)
    decreases |evs|
  {
    Shown(h, held) && (evs != [] ==> AlwaysShown(AfterEvent(h, evs[0]), HeldAfter(held, evs[0]), evs[1..]))
  }

  lemma CountablesKept(held: seq<KeyEvent>, ev: KeyEvent, kbSize: nat, consSize: nat)
    requires Countables(held) && Matched(held, ev) && Fits(held, ev, kbSize, consSize)
    ensures Countables(HeldAfter(held, ev))
  {
  }

  lemma SlotsKept(h: Local, ev: KeyEvent)
    requires WellCounted(h)
    ensures |AfterEvent(h, ev).keys| == |h.keys| && |AfterEvent(h, ev).cons| == |h.cons|
  {
  }

  /** Over every sequence of presses and matched releases: masks and slots show exactly the
    * keys down, at every moment, if and only if every event fits. */
  lemma {:induction false} ShownExactly(h: Local, held: seq<KeyEvent>, evs: seq<KeyEvent>)
    requires Shown(h, held) && Countables(held) && AllMatched(held, evs)
    ensures WellCounted(h) && (AlwaysShown(h, held, evs) <==> AllFit(held, evs, |h.keys|, |h.cons|))
    ensures AllFit(held, evs, |h.keys|, |h.cons|) ==> Shown(LocalAfter(h, evs), HeldFinally(held, evs))
    decreases |evs|
  {
    hide AfterEvent, Shown, Countables, Fits, Matched, HeldAfter;
    ShownWellCounted(h, held);
    if evs != [] {
      var h1, held1 := AfterEvent(h, evs[0]), HeldAfter(held, evs[0]);
      EventShown(h, held, evs[0]);
      if Fits(held, evs[0], |h.keys|, |h.cons|) {
        CountablesKept(held, evs[0], |h.keys|, |h.cons|);
        SlotsKept(h, evs[0]);
        ShownExactly(h1, held1, evs[1..]);
      }
    }
  }

  lemma ShownWellCounted(h: Local, held: seq<KeyEvent>)
    requires Shown(h, held)
    ensures WellCounted(h)
  {
  }

  lemma {:induction false} PlayTracks(r: Relay, moves: seq<Move>, depths: Depths)
    requires WellCounted(r.local)
    ensures Play(r, moves, depths).local == LocalAfter(r.local, Events(moves))
    decreases |moves|
  {
    hide AfterEvent, OfferBoth, Offer, Drain, Run, Apply, Quiet;
    if moves != [] {
      MovedTracks(r, moves[0], depths);
      PlayTracks(Moved(r, moves[0], depths), moves[1..], depths);
      if moves[0].Key? {
        assert ([moves[0].ev] + Events(moves[1..]))[1..] == Events(moves[1..]);
      } else {
        assert Events(moves) == Events(moves[1..]);
      }
    }
  }

  lemma MovedTracks(r: Relay, move: Move, depths: Depths)
    requires WellCounted(r.local)
    ensures Moved(r, move, depths).local == if move.Key? then AfterEvent(r.local, move.ev) else r.local
  {
    hide AfterEvent, Offer, Drain, Run, Apply, Quiet;
  }

  // ---- What the host shows ----

  /** The report names exactly the modifiers that some key down holds, and exactly the keys
    * down, each once. */
  ghost predicate NamesHeld(report: Payload, held: seq<KeyEvent>) {
    && report.Hid? && report.report.Keyboard?
    && (forall b: nat :: b in report.report.mods <==>
          b < BITS && exists d :: d in held && (b in Explicit(d) || b in Implicit(d)))
    && Lists(report.report.keys, KeyboardSlots(held))
  }

  lemma {:induction false} HoldersPositive(mods: seq<set<nat>>, b: nat)
    ensures Holders(mods, b) > 0 <==> exists i :: 0 <= i < |mods| && b in mods[i]
  {
    if mods != [] {
      var init, last := mods[..|mods| - 1], mods[|mods| - 1];
      HoldersPositive(init, b);
      assert mods == init + [last];
      if Holders(init, b) > 0 {
        var i :| 0 <= i < |init| && b in init[i];
        assert b in mods[i];
      }
      if b in last {
        assert b in mods[|mods| - 1];
      }
    }
  }

  lemma ShownNames(h: Local, held: seq<KeyEvent>)
    requires Shown(h, held)
    ensures NamesHeld(KeyboardReport(h), held)
  {
    forall b: nat
      ensures b in h.explicit.mask + h.implicit.mask <==>
                b < BITS && exists d :: d in held && (b in Explicit(d) || b in Implicit(d))
    {
      HoldersPositive(Explicits(held), b);
      HoldersPositive(Implicits(held), b);
      assert forall i :: 0 <= i < |held| ==> Explicits(held)[i] == Explicit(held[i]) && Implicits(held)[i] == Implicit(held[i]);
    }
  }

  /** Over every run of the relay from a state that shows the keys down: whenever everything
    * has drained, the last keyboard report the host heard names exactly the keys that are
    * down and the modifiers they hold, and the last consumer report exactly the consumer
    * keys, as long as releases match presses and every event fits. */
  lemma HostShowsHeld(r: Relay, held: seq<KeyEvent>, moves: seq<Move>, depths: Depths)
    requires RelayInv(r, depths) && Shown(r.local, held) && Countables(held)
    requires forall move :: move in moves ==> Fair(move)
    requires AllMatched(held, Events(moves)) && AllFit(held, Events(moves), |r.local.keys|, |r.local.cons|)
    ensures var t, down := Play(r, moves, depths), HeldFinally(held, Events(moves));
      && (Idle(t) && t.kbLive ==>
            LastOf(KB, t.link.host) == Some(KeyboardReport(t.local)) && NamesHeld(KeyboardReport(t.local), down))
      && (Idle(t) && t.consLive ==>
            exists keys :: LastOf(CONS, t.link.host) == Some(Hid(Consumer(keys))) && Lists(keys, ConsumerSlots(down)))
  {
    hide Play, Shown, NamesHeld, RelayInv, Idle;
    ShownWellCounted(r.local, held);
    HostConverges(r, moves, depths);
    PlayTracks(r, moves, depths);
    ShownExactly(r.local, held, Events(moves));
    ShownNames(LocalAfter(r.local, Events(moves)), HeldFinally(held, Events(moves)));
    ShownConsumers(LocalAfter(r.local, Events(moves)), HeldFinally(held, Events(moves)));
  }

  lemma ShownConsumers(h: Local, held: seq<KeyEvent>)
    requires Shown(h, held)
    ensures Lists(h.cons, ConsumerSlots(held)) && ConsumerReport(h) == Hid(Consumer(h.cons))
  {
  }

  /** Power-on shows that no key is down. */
  lemma NoneShown(link: State, keySlots: nat, consSlots: nat)
    ensures Shown(PoweredOn(link, keySlots, consSlots).local, []) && Countables([])
  {
    NoneHeldExact();
    var zeros := seq(keySlots, _ => 0);
    assert Held(zeros) == {} && Held(seq(consSlots, _ => 0)) == {};
  }
}
