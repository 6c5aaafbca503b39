/** The three per-send rings kept in step with the radio's TX FIFO. */
module SendRings {
  import opened Packets
  import opened SendRing
  import opened Modulo
  import Link

  ghost function NoackFlags(cfg: Config, ps: seq<Payload>): seq<bool> {
    seq(|ps|, i requires 0 <= i < |ps| => Noack(cfg, ps[i]))
  }

  ghost function CriticalFlags(ps: seq<Payload>): seq<bool> {
    seq(|ps|, i requires 0 <= i < |ps| => IsCritical(ps[i]))
  }

  ghost function Records(cfg: Config, ps: seq<Payload>): seq<MotionRecord> {
    seq(|ps|, i requires 0 <= i < |ps| => RecordOf(cfg, ps[i]))
  }

  /** Ring sizes that can hold a full FIFO under their wrapping counters. */
  predicate SafeSizes(cfg: Config, noackSize: nat, criticalSize: nat, motionSize: nat)
    requires 0 < noackSize < 0x100 && 0 < criticalSize < 0x100 && 0 < motionSize < 0x1_0000_0000
  {
    && cfg.fifoSize <= SafeDepth(noackSize, 0x100) && cfg.fifoSize <= SafeDepth(criticalSize, 0x100)
    && cfg.fifoSize <= SafeDepth(motionSize, 0x1_0000_0000)
  }

  class Rings {
    const cfg: Config
    const noack: Ring<bool>
    const critical: Ring<bool>
    const motion: Ring<MotionRecord>

    ghost function Parts(): set<object> {
      {noack, noack.slots, critical, critical.slots, motion, motion.slots}
    }

    /** Every ring can hold a full FIFO and no two of them share storage. */
    ghost predicate Valid()
      reads noack, critical, motion
    {
      && noack != critical && noack.slots != critical.slots
      && noack.Valid() && critical.Valid() && motion.Valid()
      && cfg.fifoSize <= noack.Depth() && cfg.fifoSize <= critical.Depth() && cfg.fifoSize <= motion.Depth()
    }

    /** Lockstep: slot for slot, each ring describes the packets `ps` in order. */
    ghost predicate Describe(ps: seq<Payload>)
      reads Parts()
    {
      && Valid()
      && noack.Outstanding() == NoackFlags(cfg, ps)
      && critical.Outstanding() == CriticalFlags(ps)
      && motion.Outstanding() == Records(cfg, ps)
    }

    constructor (cfg: Config, noackSize: nat, criticalSize: nat, motionSize: nat)
      requires 0 < noackSize < 0x100 && 0 < criticalSize < 0x100 && 0 < motionSize < 0x1_0000_0000
      ensures this.cfg == cfg && fresh(Parts())
      ensures Describe([]) <==> SafeSizes(cfg, noackSize, criticalSize, motionSize)
    {
      this.cfg := cfg;
      noack := new Ring(noackSize, 0x100, false);
      critical := new Ring(criticalSize, 0x100, false);
      motion := new Ring(motionSize, 0x1_0000_0000, MotionRecord(STILL, false, NoKind));
    }

    /** One slot per written payload in every ring. */
    method Push(isNoack: bool, isCritical: bool, record: MotionRecord, ghost ps: seq<Payload>, ghost p: Payload)
      requires Describe(ps) && |ps| < cfg.fifoSize
      requires isNoack == Noack(cfg, p) && isCritical == IsCritical(p) && record == RecordOf(cfg, p)
      modifies Parts()
      ensures Describe(ps + [p])
    {
      PushAll(isNoack, isCritical, record);
      SlotsAppend(cfg, ps, p);
    }

    method PushAll(isNoack: bool, isCritical: bool, record: MotionRecord)
      requires Valid()
      requires |noack.Outstanding()| < noack.Depth()
      requires |critical.Outstanding()| < critical.Depth()
      requires |motion.Outstanding()| < motion.Depth()
      modifies Parts()
      ensures Valid()
      ensures noack.Outstanding() == old(noack.Outstanding()) + [isNoack]
      ensures critical.Outstanding() == old(critical.Outstanding()) + [isCritical]
      ensures motion.Outstanding() == old(motion.Outstanding()) + [record]
    {
      noack.Push(isNoack);
      critical.Push(isCritical);
      motion.Push(record);
    }

    /** One slot per TX event out of every ring: the slots of the oldest packet. */
    method Pop(ghost ps: seq<Payload>) returns (isNoack: bool, isCritical: bool, record: MotionRecord)
      requires Describe(ps) && ps != []
      modifies Parts()
      ensures Describe(ps[1..])
      ensures isNoack == Noack(cfg, ps[0]) && isCritical == IsCritical(ps[0]) && record == RecordOf(cfg, ps[0])
    {
      SlotsCons(cfg, ps);
      isNoack, isCritical, record := PopAll();
      ConsInjective(isNoack, noack.Outstanding(), Noack(cfg, ps[0]), NoackFlags(cfg, ps[1..]));
      ConsInjective(isCritical, critical.Outstanding(), IsCritical(ps[0]), CriticalFlags(ps[1..]));
      ConsInjective(record, motion.Outstanding(), RecordOf(cfg, ps[0]), Records(cfg, ps[1..]));
    }

    /** Popping an empty ring is harmless: it yields a slot that asks for nothing. */
    method PopAll() returns (isNoack: bool, isCritical: bool, record: MotionRecord)
      requires Valid()
      modifies Parts()
      ensures Valid()
      ensures old(noack.Outstanding()) == (if old(noack.Outstanding()) == [] then [] else [isNoack]) + noack.Outstanding()
      ensures old(critical.Outstanding()) == (if old(critical.Outstanding()) == [] then [] else [isCritical]) + critical.Outstanding()
      ensures old(motion.Outstanding()) == (if old(motion.Outstanding()) == [] then [] else [record]) + motion.Outstanding()
    {
      isNoack := noack.Pop(false);
      isCritical := critical.Pop(false);
      record := motion.Pop(MotionRecord(STILL, false, NoKind));
    }

    /** Kinds of the HID reports in the outstanding slots, read slot by slot from
      * the wrapped counters as `tx_bookkeeping_resync` does. */
    method HarvestKinds(ghost ps: seq<Payload>) returns (kinds: set<Kind>)
      requires Describe(ps)
      ensures kinds == Link.Kinds(cfg, ps)
    {
      var size, n := motion.slots.Length, (motion.head - motion.tail) % motion.modulus;
      CountFits(motion);
      if n > size {
        n := size;
      }
      kinds := {};
      var i := 0;
      while i < n
        invariant i <= n == |ps|
        invariant kinds == Link.Kinds(cfg, ps[..i])
      {
        IndexFits(motion, i);
        var kind := motion.slots[((motion.head - n + i) % motion.modulus) % size].kind;
        assert kind == KindOf(cfg, ps[i]);
        assert ps[..i + 1] == ps[..i] + [ps[i]];
        KindsAppend(cfg, ps[..i], ps[i]);
        if kind != NoKind {
          kinds := kinds + {kind};
        }
        i := i + 1;
      }
      assert ps[..i] == ps;
    }

    method Forget()
      requires Valid()
      modifies Parts()
      ensures Describe([])
    {
      noack.Forget();
      critical.Forget();
      motion.Forget();
    }
  }

  lemma KindsAppend(cfg: Config, ps: seq<Payload>, p: Payload)
    ensures Link.Kinds(cfg, ps + [p]) == Link.Kinds(cfg, ps) + ({KindOf(cfg, p)} - {NoKind})
  {
    var all, old_ := set q | q in ps + [p] :: KindOf(cfg, q), set q | q in ps :: KindOf(cfg, q);
    forall k
      ensures k in all <==> k in old_ || k == KindOf(cfg, p)
    {
      if k in old_ {
        var q :| q in ps && KindOf(cfg, q) == k;
        assert q in ps + [p];
      }
      assert p in ps + [p];
    }
  }

  lemma CountFits<T>(ring: Ring<T>)
    requires ring.Valid()
    ensures (ring.head - ring.tail) % ring.modulus == |ring.Outstanding()| <= ring.slots.Length
  {
    var d := ring.pushed - ring.popped;
    ModStep(ring.popped, d, ring.modulus);
    if ring.head >= ring.tail {
      ModSmall(ring.head - ring.tail, ring.modulus);
    } else {
      DivModUnique(ring.head - ring.tail, -1, d, ring.modulus);
    }
  }

  lemma IndexFits<T>(ring: Ring<T>, i: nat)
    requires ring.Valid() && i < |ring.Outstanding()|
    ensures var slot := ((ring.head - |ring.Outstanding()| + i) % ring.modulus) % ring.slots.Length;
      0 <= slot < ring.slots.Length && ring.slots[slot] == ring.Outstanding()[i]
  {
    EntryAt(ring.slots[..], ring.popped, ring.pushed - ring.popped, ring.modulus, i);
    CounterFromHead(ring.pushed, i - (ring.pushed - ring.popped), ring.modulus);
  }

  /** Counting back from the wrapped head lands where counting back from the true one does. */
  lemma CounterFromHead(pushed: nat, back: int, modulus: nat)
    requires 0 < modulus
    ensures (pushed % modulus + back) % modulus == (pushed + back) % modulus
  {
    var q, x := pushed / modulus, pushed % modulus + back;
    DivModDecompose(pushed, modulus);
    DivModDecompose(x, modulus);
    MulDistributes(x / modulus, -q, modulus);
    DivModUnique(pushed + back, x / modulus + q, x % modulus, modulus);
  }

  lemma SlotsAppend(cfg: Config, ps: seq<Payload>, p: Payload)
    ensures NoackFlags(cfg, ps + [p]) == NoackFlags(cfg, ps) + [Noack(cfg, p)]
    ensures CriticalFlags(ps + [p]) == CriticalFlags(ps) + [IsCritical(p)]
    ensures Records(cfg, ps + [p]) == Records(cfg, ps) + [RecordOf(cfg, p)]
  {
  }

  lemma ConsInjective<T>(x: T, xs: seq<T>, y: T, ys: seq<T>)
    requires [x] + xs == [y] + ys
    ensures x == y && xs == ys
  {
    assert ([x] + xs)[0] == x && ([x] + xs)[1..] == xs;
    assert ([y] + ys)[0] == y && ([y] + ys)[1..] == ys;
  }

  lemma SlotsCons(cfg: Config, ps: seq<Payload>)
    requires ps != []
    ensures NoackFlags(cfg, ps) == [Noack(cfg, ps[0])] + NoackFlags(cfg, ps[1..])
    ensures CriticalFlags(ps) == [IsCritical(ps[0])] + CriticalFlags(ps[1..])
    ensures Records(cfg, ps) == [RecordOf(cfg, ps[0])] + Records(cfg, ps[1..])
  {
  }
}
