/** Reference-counted modifier masks (mods_inc and mods_dec of src/esb/hid_relay.c). */
module Modifiers {

  const BITS: nat := 8

  /** One byte-wide counter for each modifier bit, and the mask derived from them. */
  datatype Mods = Mods(count: seq<nat>, mask: set<nat>)

  const NONE_HELD := Mods([0, 0, 0, 0, 0, 0, 0, 0], {})

  ghost predicate IsByteCounts(m: Mods) {
    |m.count| == BITS && forall b :: 0 <= b < BITS ==> m.count[b] < 0x100
  }

  /** Counting one press: the counter is a byte, and the bit is set when it leaves zero. */
  function Inc(m: Mods, mods: set<nat>): Mods
    requires |m.count| == BITS
  {
    Mods(seq(BITS, b requires 0 <= b < BITS => if b in mods then (m.count[b] + 1) % 0x100 else m.count[b]),
         m.mask + set b | b in mods && b < BITS && m.count[b] == 0)
  }

  /** Counting one release: a zero counter stays, and the bit clears on reaching zero. */
  function Dec(m: Mods, mods: set<nat>): Mods
    requires |m.count| == BITS
  {
    Mods(seq(BITS, b requires 0 <= b < BITS => if b in mods && m.count[b] > 0 then m.count[b] - 1 else m.count[b]),
         m.mask - set b | b in mods && b < BITS && m.count[b] == 1)
  }

  class Counter {
    const rc: array<nat>
    var out: set<nat>

    ghost predicate Valid()
      reads this, rc
    {
      rc.Length == BITS && IsByteCounts(View())
    }

    ghost function View(): Mods
      reads this, rc
    {
      Mods(rc[..], out)
    }

    constructor ()
      ensures Valid() && View() == NONE_HELD && fresh(rc)
    {
      rc := new nat[BITS](_ => 0);
      out := {};
      new;
      assert rc[..] == NONE_HELD.count;
    }

    method ModsInc(mods: set<nat>)
      requires Valid()
      modifies this, rc
      ensures Valid() && View() == Inc(old(View()), mods)
    {
      ghost var before := View();
      var b := 0;
      while b < BITS
        invariant b <= BITS
        invariant forall i :: 0 <= i < b ==> rc[i] == Inc(before, mods).count[i]
        invariant forall i :: b <= i < BITS ==> rc[i] == before.count[i]
        invariant out == before.mask + set i | i in mods && i < b && before.count[i] == 0
      {
        if b in mods {
          if rc[b] == 0 {
            out := out + {b};
          }
          rc[b] := (rc[b] + 1) % 0x100;
        }
        b := b + 1;
      }
      assert rc[..] == Inc(before, mods).count;
    }

    method ModsDec(mods: set<nat>)
      requires Valid()
      modifies this, rc
      ensures Valid() && View() == Dec(old(View()), mods)
    {
      ghost var before := View();
      var b := 0;
      while b < BITS
        invariant b <= BITS
        invariant forall i :: 0 <= i < b ==> rc[i] == Dec(before, mods).count[i]
        invariant forall i :: b <= i < BITS ==> rc[i] == before.count[i]
        invariant out == before.mask - set i | i in mods && i < b && before.count[i] == 1
      {
        if b in mods && rc[b] > 0 {
          rc[b] := rc[b] - 1;
          if rc[b] == 0 {
            out := out - {b};
          }
        }
        b := b + 1;
      }
      assert rc[..] == Dec(before, mods).count;
    }
  }

  // ---- What the counters mean over any sequence of presses and releases ----

  /** A key goes down with its modifiers, or the i-th key still down goes up. */
  datatype Key = Down(mods: set<nat>) | Up(i: nat)

  /** Modifiers of the keys still down. */
  function HeldAfter(held: seq<set<nat>>, key: Key): seq<set<nat>> {
    match key
    case Down(mods) => held + [mods]
    case Up(i) => if i < |held| then held[..i] + held[i + 1..] else held
  }

  function Counted(m: Mods, held: seq<set<nat>>, key: Key): Mods
    requires |m.count| == BITS
  {
    match key
    case Down(mods) => Inc(m, mods)
    case Up(i) => if i < |held| then Dec(m, held[i]) else m
  }

  /** Number of keys down that hold bit b. */
  function Holders(held: seq<set<nat>>, b: nat): nat {
    if held == [] then 0 else
      Holders(held[..|held| - 1], b) + if b in held[|held| - 1] then 1 else 0
  }

  /** The counters count the holders, and the mask is exactly the held bits. */
  ghost predicate Exact(m: Mods, held: seq<set<nat>>) {
    && |m.count| == BITS
    && (forall b :: 0 <= b < BITS ==> m.count[b] == Holders(held, b))
    && (forall b: nat :: b in m.mask <==> b < BITS && Holders(held, b) > 0)
  }

  /** Each bit is held by no more keys than a byte can count. */
  ghost predicate Countable(held: seq<set<nat>>) {
    forall b :: 0 <= b < BITS ==> Holders(held, b) <= 0xFF
  }

  lemma {:induction false} HoldersConcat(p: seq<set<nat>>, q: seq<set<nat>>, b: nat)
    ensures Holders(p + q, b) == Holders(p, b) + Holders(q, b)
  {
    if q == [] {
      assert p + q == p;
    } else {
      assert (p + q)[..|p + q| - 1] == p + q[..|q| - 1];
      HoldersConcat(p, q[..|q| - 1], b);
    }
  }

  lemma HoldersAppend(held: seq<set<nat>>, mods: set<nat>, b: nat)
    ensures Holders(held + [mods], b) == Holders(held, b) + if b in mods then 1 else 0
  {
  }

  lemma HoldersRemove(held: seq<set<nat>>, i: nat, b: nat)
    requires i < |held|
    ensures Holders(held[..i] + held[i + 1..], b) == Holders(held, b) - if b in held[i] then 1 else 0
  {
    assert held == held[..i] + [held[i]] + held[i + 1..];
    HoldersConcat(held[..i] + [held[i]], held[i + 1..], b);
    HoldersAppend(held[..i], held[i], b);
    HoldersConcat(held[..i], held[i + 1..], b);
  }

  /** A press or a matched release keeps the counters exact, if and only if no bit
    * is then held by more than 255 keys. */
  lemma KeyExact(m: Mods, held: seq<set<nat>>, key: Key)
    requires Exact(m, held) && Countable(held)
    ensures Exact(Counted(m, held, key), HeldAfter(held, key)) <==> Countable(HeldAfter(held, key))
  {
    match key
    case Down(mods) =>
      forall b | 0 <= b < BITS
        ensures Holders(held + [mods], b) == Holders(held, b) + if b in mods then 1 else 0
      {
        HoldersAppend(held, mods, b);
      }
    case Up(i) =>
      if i < |held| {
        forall b | 0 <= b < BITS
          ensures Holders(HeldAfter(held, key), b) == Holders(held, b) - if b in held[i] then 1 else 0
        {
          HoldersRemove(held, i, b);
        }
        var after := Dec(m, held[i]);
        forall b: nat
          ensures b in after.mask <==> b < BITS && Holders(HeldAfter(held, key), b) > 0
        {
          assert b in m.mask <==> b < BITS && Holders(held, b) > 0;
        }
      }
  }

  /** Exact after every prefix of the keys. */
  ghost predicate AlwaysExact(m: Mods, held: seq<set<nat>>, keys: seq<Key>)
    decreases |keys|
  {
    && Exact(m, held)
    && (keys != [] ==> AlwaysExact(Counted(m, held, keys[0]), HeldAfter(held, keys[0]), keys[1..]))
  }

  ghost predicate AlwaysCountable(held: seq<set<nat>>, keys: seq<Key>)
    decreases |keys|
  {
    && Countable(held)
    && (keys != [] ==> AlwaysCountable(HeldAfter(held, keys[0]), keys[1..]))
  }

  /** Over every sequence of keys the mask shows exactly the modifiers of keys that
    * are down, at every moment, if and only if no bit ever has more than 255 holders. */
  lemma {:induction false} RefcountsExact(m: Mods, held: seq<set<nat>>, keys: seq<Key>)
    requires Exact(m, held) && Countable(held)
    ensures AlwaysExact(m, held, keys) <==> AlwaysCountable(held, keys)
    decreases |keys|
  {
    if keys != [] {
      KeyExact(m, held, keys[0]);
      var m', held' := Counted(m, held, keys[0]), HeldAfter(held, keys[0]);
      if Exact(m', held') {
        RefcountsExact(m', held', keys[1..]);
      }
    }
  }

  lemma NoneHeldExact()
    ensures Exact(NONE_HELD, []) && Countable([])
  {
  }
}
