/** The fixed slots of a report body that list the keys down: the usage slots of the
  * keyboard report and of the consumer report (src/esb/hid_relay.c). Zero is a free slot. */
module KeySlots {

  /** First index from `i` on where `key` stands, or the length. */
  function Find(keys: seq<nat>, key: nat, i: nat): (at: nat)
    requires i <= |keys|
    ensures i <= at <= |keys|
    ensures at < |keys| ==> keys[at] == key
    ensures forall j :: i <= j < at ==> keys[j] != key
    decreases |keys| - i
  {
    if i == |keys| || keys[i] == key then i else Find(keys, key, i + 1)
  }

  /** A key already listed or without a free slot changes nothing. */
  function Press(keys: seq<nat>, key: nat): (after: seq<nat>)
    ensures |after| == |keys|
  {
    var free := Find(keys, 0, 0);
    if key in keys || free == |keys| then keys else keys[free := key]
  }

  function Release(keys: seq<nat>, key: nat): (after: seq<nat>)
    ensures |after| == |keys|
  {
    seq(|keys|, i requires 0 <= i < |keys| => if keys[i] == key then 0 else keys[i])
  }

  function Held(keys: seq<nat>): set<nat> {
    (set k | k in keys) - {0}
  }

  /** No key is listed twice. */
  ghost predicate Distinct(keys: seq<nat>) {
    forall i, j :: 0 <= i < j < |keys| && keys[i] == keys[j] ==> keys[i] == 0
  }

  lemma PressHolds(keys: seq<nat>, key: nat)
    requires Distinct(keys)
    ensures Distinct(Press(keys, key))
    ensures Held(Press(keys, key)) == if 0 in keys then Held(keys) + ({key} - {0}) else Held(keys)
  {
    var free := Find(keys, 0, 0);
    if key !in keys && free < |keys| {
      var after := Press(keys, key);
      forall k | k != 0
        ensures k in after <==> k in keys || k == key
      {
        if k in keys {
          var i :| 0 <= i < |keys| && keys[i] == k;
          assert after[i] == k;
        }
        assert after[free] == key;
      }
    }
  }

  lemma ReleaseHolds(keys: seq<nat>, key: nat)
    requires Distinct(keys)
    ensures Distinct(Release(keys, key))
    ensures Held(Release(keys, key)) == Held(keys) - {key}
  {
    var after := Release(keys, key);
    forall k | k != 0
      ensures k in after <==> k in keys && k != key
    {
      if k in keys && k != key {
        var i :| 0 <= i < |keys| && keys[i] == k;
        assert after[i] == k;
      }
    }
  }

  // ---- What the slots list over presses and matched releases ----

  /** The slots list exactly the keys down, each once. */
  ghost predicate Lists(keys: seq<nat>, downs: seq<nat>) {
    Distinct(keys) && Held(keys) == Held(downs)
  }

  lemma {:induction false} FreeSlotExact(keys: seq<nat>)
    requires Distinct(keys)
    ensures |Held(keys)| <= |keys| && (|Held(keys)| < |keys| <==> 0 in keys)
  {
    hide Held, Distinct;
    if keys == [] {
      NoneHeld();
    } else {
      var init, last := keys[..|keys| - 1], keys[|keys| - 1];
      LastSlot(keys);
      FreeSlotExact(init);
      HeldGrows(init, last);
    }
  }

  lemma NoneHeld()
    ensures Held([]) == {}
  {
  }

  lemma LastSlot(keys: seq<nat>)
    requires Distinct(keys) && keys != []
    ensures var init, last := keys[..|keys| - 1], keys[|keys| - 1];
      keys == init + [last] && Distinct(init) && (0 in keys <==> 0 in init || last == 0)
  {
    var init, last := keys[..|keys| - 1], keys[|keys| - 1];
    assert keys == init + [last];
  }

  lemma HeldGrows(init: seq<nat>, last: nat)
    requires Distinct(init + [last])
    ensures |Held(init + [last])| == |Held(init)| + if last == 0 then 0 else 1
  {
    HeldAppend(init, last);
    if last != 0 {
      LastIsNew(init, last);
    }
  }

  lemma HeldAppend(keys: seq<nat>, key: nat)
    ensures Held(keys + [key]) == Held(keys) + ({key} - {0})
    ensures key == 0 ==> Held(keys + [key]) == Held(keys)
  {
    assert forall k :: k in keys + [key] <==> k in keys || k == key;
  }

  lemma LastIsNew(init: seq<nat>, last: nat)
    requires Distinct(init + [last]) && last != 0
    ensures last !in init && |Held(init) + ({last} - {0})| == |Held(init)| + 1
  {
    forall i | 0 <= i < |init|
      ensures init[i] != last
    {
      assert (init + [last])[i] == init[i] && (init + [last])[|init|] == last;
    }
    assert {last} - {0} == {last} && last !in Held(init);
  }

  /** A press keeps the list exact if and only if the key is no key, is already down, or
    * finds fewer keys down than there are slots. */
  lemma PressLists(keys: seq<nat>, downs: seq<nat>, key: nat)
    requires Lists(keys, downs)
    ensures Lists(Press(keys, key), downs + [key]) <==> key == 0 || key in downs || |Held(downs)| < |keys|
  {
    PressHolds(keys, key);
    FreeSlotExact(keys);
    HeldAppend(downs, key);
    HeldMember(downs, key);
    HeldMember(downs + [key], key);
    hide Held, Distinct, Press;
  }

  lemma HeldMember(keys: seq<nat>, key: nat)
    ensures key in Held(keys) <==> key in keys && key != 0
  {
  }

  function Without(downs: seq<nat>, i: nat): seq<nat>
    requires i < |downs|
  {
    downs[..i] + downs[i + 1..]
  }

  /** A release keeps the list exact if and only if no other key down shares the slot. */
  lemma ReleaseLists(keys: seq<nat>, downs: seq<nat>, i: nat)
    requires Lists(keys, downs) && i < |downs|
    ensures Lists(Release(keys, downs[i]), Without(downs, i)) <==> downs[i] == 0 || downs[i] !in Without(downs, i)
  {
    var key, left := downs[i], Without(downs, i);
    ReleaseHolds(keys, key);
    assert downs == downs[..i] + [key] + downs[i + 1..];
    assert forall k :: k in downs <==> k in left || k == key;
    assert Held(downs) == Held(left) + ({key} - {0});
    assert key in left && key != 0 ==> key in Held(left);
  }

  lemma NoKeyKeeps(keys: seq<nat>)
    ensures Press(keys, 0) == keys && Release(keys, 0) == keys
  {
  }

  class Slots {
    const keys: array<nat>

    constructor (size: nat)
      ensures keys[..] == seq(size, _ => 0) && fresh(keys)
    {
      keys := new nat[size](_ => 0);
    }

    method KeysPress(key: nat)
      modifies keys
      ensures keys[..] == Press(old(keys[..]), key)
    {
      var i := 0;
      while i < keys.Length
        invariant i <= keys.Length
        invariant forall j :: 0 <= j < i ==> keys[j] != key
        invariant keys[..] == old(keys[..])
      {
        if keys[i] == key {
          assert key in keys[..];
          return;
        }
        i := i + 1;
      }
      i := 0;
      while i < keys.Length
        invariant i <= keys.Length
        invariant forall j :: 0 <= j < i ==> keys[j] != 0
        invariant keys[..] == old(keys[..])
      {
        if keys[i] == 0 {
          keys[i] := key;
          return;
        }
        i := i + 1;
      }
    }

    method KeysRelease(key: nat)
      modifies keys
      ensures keys[..] == Release(old(keys[..]), key)
    {
      var i := 0;
      while i < keys.Length
        invariant i <= keys.Length
        invariant forall j :: 0 <= j < i ==> keys[j] == Release(old(keys[..]), key)[j]
        invariant forall j :: i <= j < keys.Length ==> keys[j] == old(keys[j])
      {
        if keys[i] == key {
          keys[i] := 0;
        }
        i := i + 1;
      }
    }
  }
}
