/** The per-send rings of src/esb/esb_transport.c.
  *
  * A send writes one slot at `head`, a TX event reads one slot at `tail`. Both
  * counters are unsigned machine words that wrap, while the slot is the counter
  * modulo the ring size; the two only fit together up to `SafeDepth`.
  */
module SendRing {
  import opened Modulo

  /** Slot used by the n-th push, counting from 0 without wrapping: the counter
    * holds n modulo `modulus`, and the code indexes with that modulo `size`. */
  function Slot(n: nat, size: nat, modulus: nat): (slot: nat)
    requires 0 < size && 0 < modulus
  {
    (n % modulus) % size
  }

  /** Largest backlog for which no two outstanding pushes ever share a slot. */
  function SafeDepth(size: nat, modulus: nat): (depth: nat)
    requires 0 < size <= modulus
  {
    if modulus % size == 0 then size else modulus % size
  }

  ghost predicate SameSlot(m: nat, n: nat, size: nat, modulus: nat)
    requires 0 < size && 0 < modulus
  {
    Slot(m, size, modulus) == Slot(n, size, modulus)
  }

  /** Any two pushes less than SafeDepth apart use different slots, wherever
    * the counter is in its range. */
  lemma SlotsDistinct(m: nat, n: nat, size: nat, modulus: nat)
    requires 0 < size <= modulus
    requires m < n < m + SafeDepth(size, modulus)
    ensures !SameSlot(m, n, size, modulus)
  {
    var d := n - m;
    DivModDecompose(modulus, size);
    ModStep(m, d, modulus);
    var a, b := m % modulus, n % modulus;
    if a + d < modulus {
      ModStep(a, d, size);
    } else if a % size == b % size {
      // b == a + d - modulus, so modulus - d is a multiple of size
      DivModDecompose(a, size);
      DivModDecompose(b, size);
      MulDistributes(a / size, b / size, size);
      DivModUnique(modulus, a / size - b / size, d, size);
    }
  }

  /** The collision that bounds the depth: the slot written SafeDepth pushes
    * before the counter wraps is written again right after it wrapped. */
  lemma SlotCollision(size: nat, modulus: nat)
    requires 0 < size <= modulus
    ensures SafeDepth(size, modulus) <= modulus
    ensures SameSlot(modulus - SafeDepth(size, modulus), modulus, size, modulus)
  {
    var s, k := SafeDepth(size, modulus), modulus / size;
    DivModDecompose(modulus, size);
    DivModUnique(modulus, 1, 0, modulus);
    ModSmall(0, size);
    MulDistributes(k, 1, size);
    ModSmall(modulus - s, modulus);
    DivModUnique(modulus - s, if modulus % size == 0 then k - 1 else k, 0, size);
  }

  /** SafeDepth is exact: a backlog of `depth` never reuses a slot, from any
    * starting point of the counters, if and only if depth <= SafeDepth. */
  lemma SafeDepthExact(depth: nat, size: nat, modulus: nat)
    requires 0 < size <= modulus
    ensures depth <= SafeDepth(size, modulus)
       <==> forall m: nat, n: nat :: m < n < m + depth ==> !SameSlot(m, n, size, modulus)
  {
    if depth <= SafeDepth(size, modulus) {
      forall m: nat, n: nat | m < n < m + depth
        ensures !SameSlot(m, n, size, modulus)
      {
        SlotsDistinct(m, n, size, modulus);
      }
    } else {
      SlotCollision(size, modulus);
    }
  }

  /** The shipped sizes: the two byte-indexed rings of 16 hold 16 packets, and the
    * motion ring of 48 under a 32-bit counter also holds only 16 across a wrap.
    * A TX FIFO of 8 fits; the FIFO of 32 used with the shell relay does not. */
  lemma ShippedDepths()
    ensures SafeDepth(16, 0x100) == 16
    ensures SafeDepth(48, 0x1_0000_0000) == 16
    ensures SafeDepth(64, 0x1_0000_0000) == 64
  {
  }

  class Ring<T> {
    const slots: array<T>
    const modulus: nat
    var head: nat
    var tail: nat

    // Pushes and pops since the session began, not wrapped.
    ghost var pushed: nat
    ghost var popped: nat

    ghost predicate Valid()
      reads this
    {
      && 0 < slots.Length < modulus
      && head == pushed % modulus
      && tail == popped % modulus
      && popped <= pushed <= popped + Depth()
    }

    function Depth(): nat
      requires 0 < slots.Length < modulus
    {
      SafeDepth(slots.Length, modulus)
    }

    /** The records of the sends whose TX event has not arrived, oldest first. */
    ghost function Outstanding(): (records: seq<T>)
      requires Valid()
      reads this, slots
      ensures |records| == pushed - popped
    {
      Entries(slots[..], popped, pushed - popped, modulus)
    }

    constructor (size: nat, modulus: nat, init: T)
      requires 0 < size < modulus
      ensures Valid() && Outstanding() == []
      ensures fresh(slots) && slots.Length == size && this.modulus == modulus
    {
      slots := new T[size](_ => init);
      this.modulus := modulus;
      head, tail := 0, 0;
      pushed, popped := 0, 0;
    }

    method Push(x: T)
      requires Valid() && |Outstanding()| < Depth()
      modifies this, slots
      ensures Valid() && Outstanding() == old(Outstanding()) + [x]
    {
      ghost var before := Outstanding();
      PushStep(slots[..], popped, pushed, modulus, x);
      slots[head % slots.Length] := x;
      head := (head + 1) % modulus;
      pushed := pushed + 1;
      assert Outstanding() == before + [x];
    }

    method IsEmpty() returns (empty: bool)
      requires Valid()
      ensures empty <==> Outstanding() == []
    {
      empty := tail == head;
      ModStep(popped, pushed - popped, modulus);
    }

    /** Pops the oldest record; an empty ring is left alone and yields `default`. */
    method Pop(default: T) returns (x: T)
      requires Valid()
      modifies this
      ensures Valid()
      ensures old(Outstanding()) == [] ==> x == default && Outstanding() == []
      ensures old(Outstanding()) != [] ==> old(Outstanding()) == [x] + Outstanding()
    {
      var empty := IsEmpty();
      if empty {
        return default;
      }
      PopStep(slots[..], popped, pushed, modulus);
      x := slots[tail % slots.Length];
      tail := (tail + 1) % modulus;
      popped := popped + 1;
    }

    /** Snaps the tail forward, forgetting every outstanding record. */
    method Forget()
      requires Valid()
      modifies this
      ensures Valid() && Outstanding() == []
    {
      tail := head;
      popped := pushed;
    }
  }

  ghost function Entries<T>(slots: seq<T>, first: nat, count: nat, modulus: nat): (entries: seq<T>)
    requires 0 < |slots| && 0 < modulus
    ensures |entries| == count
  {
    if count == 0 then [] else
      Entries(slots, first, count - 1, modulus) + [slots[Slot(first + count - 1, |slots|, modulus)]]
  }

  /** Writing the slot of push number n leaves the entries of the preceding backlog alone. */
  lemma EntriesWrite<T>(slots: seq<T>, first: nat, count: nat, n: nat, modulus: nat, x: T)
    requires 0 < |slots| <= modulus
    requires first + count <= n < first + SafeDepth(|slots|, modulus)
    ensures Entries(slots[Slot(n, |slots|, modulus) := x], first, count, modulus)
         == Entries(slots, first, count, modulus)
  {
    if count > 0 {
      EntriesWrite(slots, first, count - 1, n, modulus, x);
      SlotsDistinct(first + count - 1, n, |slots|, modulus);
    }
  }

  lemma EntriesPop<T>(slots: seq<T>, first: nat, count: nat, modulus: nat)
    requires 0 < |slots| && 0 < modulus && 0 < count
    ensures Entries(slots, first, count, modulus)
         == [slots[Slot(first, |slots|, modulus)]] + Entries(slots, first + 1, count - 1, modulus)
  {
    if count > 1 {
      EntriesPop(slots, first, count - 1, modulus);
    }
  }

  lemma PushStep<T>(slots: seq<T>, popped: nat, pushed: nat, modulus: nat, x: T)
    requires 0 < |slots| < modulus
    requires popped <= pushed < popped + SafeDepth(|slots|, modulus)
    ensures (pushed % modulus + 1) % modulus == (pushed + 1) % modulus
    ensures (pushed % modulus) % |slots| < |slots|
    ensures Entries(slots[(pushed % modulus) % |slots| := x], popped, pushed + 1 - popped, modulus)
         == Entries(slots, popped, pushed - popped, modulus) + [x]
  {
    EntriesWrite(slots, popped, pushed - popped, pushed, modulus, x);
    ModStep(pushed, 1, modulus);
    NextCounter(pushed, modulus);
  }

  lemma PopStep<T>(slots: seq<T>, popped: nat, pushed: nat, modulus: nat)
    requires 0 < |slots| < modulus
    requires popped < pushed
    ensures (popped % modulus + 1) % modulus == (popped + 1) % modulus
    ensures (popped % modulus) % |slots| < |slots|
    ensures Entries(slots, popped, pushed - popped, modulus)
         == [slots[(popped % modulus) % |slots|]] + Entries(slots, popped + 1, pushed - popped - 1, modulus)
  {
    EntriesPop(slots, popped, pushed - popped, modulus);
    NextCounter(popped, modulus);
  }

  lemma NextCounter(n: nat, modulus: nat)
    requires 1 < modulus
    ensures (n % modulus + 1) % modulus == (n + 1) % modulus
  {
    ModStep(n, 1, modulus);
    if n % modulus + 1 < modulus {
      ModSmall(n % modulus + 1, modulus);
    } else {
      DivModUnique(modulus, 1, 0, modulus);
    }
  }

  lemma EntryAt<T>(slots: seq<T>, first: nat, count: nat, modulus: nat, i: nat)
    requires 0 < |slots| && 0 < modulus && i < count
    ensures Entries(slots, first, count, modulus)[i] == slots[Slot(first + i, |slots|, modulus)]
  {
  }
}
