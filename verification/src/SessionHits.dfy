/** What an entry's session count says (src/esb/channel_hop_ep.h, "condemnations recorded since
  * this boot"): exactly when it is the number of condemnations since boot, over every history
  * of condemnations, reclaims and agings. */
module SessionHits {
  import opened HitTable
  import opened Offenders

  /** `Condemned` is an accepted condemnation. */
  datatype Change = Condemned(channel: nat) | Reclaimed(channel: nat) | AgedBy(periods: nat)

  function After(es: Table, c: Change, size: nat): Table
    requires 0 < size
  {
    match c
    case Condemned(ch) => Record(es, ch, size)
    case Reclaimed(ch) => Reclaim(es, ch)
    case AgedBy(periods) => Decay(es, periods)
  }

  function Play(boot: Table, cs: seq<Change>, size: nat): Table
    requires 0 < size
  {
    if cs == [] then boot else After(Play(boot, cs[..|cs| - 1], size), cs[|cs| - 1], size)
  }

  /** Condemnations of a channel since boot. */
  function Truth(cs: seq<Change>, ch: nat): nat {
    if cs == [] then 0 else Truth(cs[..|cs| - 1], ch) + if cs[|cs| - 1] == Condemned(ch) then 1 else 0
  }

  /** A table loaded at boot: its hits are from flash, its session counts are zero. */
  ghost predicate Booted(es: Table, size: nat) {
    |es| <= size && Tidy(es) && forall i :: 0 <= i < |es| ==> es[i].session == 0
  }

  lemma {:induction false} ListIsBooted(off: seq<nat>, stored: nat, size: nat)
    requires 1 + 3 * stored <= |off| && Bytes(off)
    ensures Booted(LoadList([], off, stored, size), size)
  {
    if stored > 0 {
      ListIsBooted(off, stored - 1, size);
    }
  }

  /** Whatever flash holds, boot leads to such a table. */
  lemma LoadIsBooted(record: seq<nat>, size: nat, maxLength: nat)
    requires Bytes(record)
    ensures Booted(Load([], record, size, maxLength), size)
  {
    if AcceptedLength(record, maxLength) {
      ListIsBooted(record[2..], Stored(record[2..]), size);
    }
  }

  /** One entry a channel, and none without hits. */
  ghost predicate Tidy(es: Table) {
    Distinct(es) && forall i :: 0 <= i < |es| ==> 0 < es[i].hits
  }

  /** A change loses nothing of a channel's session count: it does not age it once the channel
    * was condemned, and a further condemnation finds its entry, below the largest count. */
  predicate Lossless(es: Table, c: Change, ch: nat, truth: nat) {
    && (c == Condemned(ch) && truth > 0 ==> Tracked(es, ch) && truth < HITS_MAX)
    && (c.AgedBy? && c.periods > 0 ==> truth == 0)
  }

  predicate AllLossless(boot: Table, cs: seq<Change>, ch: nat, size: nat)
    requires 0 < size
  {
    cs != [] ==>
      && AllLossless(boot, cs[..|cs| - 1], ch, size)
      && Lossless(Play(boot, cs[..|cs| - 1], size), cs[|cs| - 1], ch, Truth(cs[..|cs| - 1], ch))
  }

  /** The session count never exceeds the truth, and is the truth if and only if `exact`. */
  ghost predicate Tells(es: Table, ch: nat, truth: nat, exact: bool) {
    forall i :: 0 <= i < |es| && es[i].channel == ch ==> es[i].session <= truth && (es[i].session == truth <==> exact)
  }

  lemma CondemnedTells(es: Table, who: nat, ch: nat, truth: nat, exact: bool, size: nat)
    requires 0 < size && |es| <= size && Tidy(es) && Tells(es, ch, truth, exact) && (truth == 0 ==> exact)
    ensures var after := Record(es, who, size);
      && |after| <= size && Tidy(after)
      && Tells(after, ch, truth + (if who == ch then 1 else 0), exact && Lossless(es, Condemned(who), ch, truth))
  {
    var i := if Find(es, who) < |es| then Find(es, who) else if |es| < size then |es| else Least(es);
    var after := Record(es, who, size);
    assert after[i].channel == who;
    assert forall k :: 0 <= k < |after| && k != i ==> after[k] == es[k];
  }

  lemma ReclaimedTells(es: Table, of: nat, ch: nat, truth: nat, exact: bool)
    requires Tidy(es) && Tells(es, ch, truth, exact)
    ensures |Reclaim(es, of)| <= |es| && Tidy(Reclaim(es, of)) && Tells(Reclaim(es, of), ch, truth, exact)
  {
  }

  lemma {:induction false} DecayTidy(es: Table, periods: nat)
    requires Tidy(es)
    ensures Tidy(Decay(es, periods))
  {
    if es != [] {
      var rest := es[..|es| - 1];
      DecayTidy(rest, periods);
      DecayMembers(rest, periods);
      var after := Decay(rest, periods);
      forall k | 0 <= k < |after| ensures after[k].channel != es[|es| - 1].channel {
        assert after[k] in after;
      }
    }
  }

  lemma AgedTells(es: Table, periods: nat, ch: nat, truth: nat, exact: bool)
    requires Tidy(es) && Tells(es, ch, truth, exact)
    ensures |Decay(es, periods)| <= |es| && Tidy(Decay(es, periods))
    ensures Tells(Decay(es, periods), ch, truth, exact && (periods > 0 ==> truth == 0))
  {
    var after := Decay(es, periods);
    DecayTidy(es, periods);
    DecayMembers(es, periods);
    forall k | 0 <= k < |after| && after[k].channel == ch
      ensures after[k].session <= truth && (after[k].session == truth <==> exact && (periods > 0 ==> truth == 0))
    {
      assert after[k] in after;
      var i :| 0 <= i < |es| && es[i].hits > periods && after[k] == Aged(es[i], periods);
    }
  }

  /** Until its first condemnation nothing is lost of a channel. */
  lemma {:induction false} NothingToLose(boot: Table, cs: seq<Change>, ch: nat, size: nat)
    requires 0 < size && Truth(cs, ch) == 0
    ensures AllLossless(boot, cs, ch, size)
  {
    if cs != [] {
      NothingToLose(boot, cs[..|cs| - 1], ch, size);
    }
  }

  /** Over every history since boot: an entry's session count is at most the number of its
    * channel's condemnations, and it is that number if and only if no change lost any: the
    * entry was there at every condemnation but the first, was never aged after the first,
    * and the count fits 16 bits. */
  lemma {:induction false} SessionExactly(boot: Table, cs: seq<Change>, ch: nat, size: nat)
    requires 0 < size && Booted(boot, size)
    ensures |Play(boot, cs, size)| <= size && Tidy(Play(boot, cs, size))
    ensures Tells(Play(boot, cs, size), ch, Truth(cs, ch), AllLossless(boot, cs, ch, size))
  {
    if cs != [] {
      var front, last := cs[..|cs| - 1], cs[|cs| - 1];
      var es, truth, exact := Play(boot, front, size), Truth(front, ch), AllLossless(boot, front, ch, size);
      SessionExactly(boot, front, ch, size);
      if truth == 0 { NothingToLose(boot, front, ch, size); }
      hide Tells, Tidy, Tracked, Record, Reclaim, Decay;
      match last
      case Condemned(who) => CondemnedTells(es, who, ch, truth, exact, size);
      case Reclaimed(of) => ReclaimedTells(es, of, ch, truth, exact);
      case AgedBy(periods) => AgedTells(es, periods, ch, truth, exact);
    }
  }

  lemma Then(cs: seq<Change>, c: Change, ch: nat, size: nat)
    requires 0 < size
    ensures Play([], cs + [c], size) == After(Play([], cs, size), c, size)
    ensures Truth(cs + [c], ch) == Truth(cs, ch) + if c == Condemned(ch) then 1 else 0
  {
    assert (cs + [c])[..|cs|] == cs;
  }

  lemma ThreeChanges(a: Change, b: Change, c: Change, size: nat)
    requires 0 < size
    ensures Play([], [a, b, c], size) == After(After(After([], a, size), b, size), c, size)
    ensures Truth([a, b, c], 1) ==
      (if a == Condemned(1) then 1 else 0) + (if b == Condemned(1) then 1 else 0) + if c == Condemned(1) then 1 else 0
  {
    hide After, Play, Truth;
    assert Play([], [], size) == [] && Truth([], 1) == 0 by { NoChanges(size); }
    Then([], a, 1, size);
    Then([a], b, 1, size);
    Then([a, b], c, 1, size);
    assert [] + [a] == [a] && [a] + [b] == [a, b] && [a, b] + [c] == [a, b, c];
  }

  lemma NoChanges(size: nat)
    requires 0 < size
    ensures Play([], [], size) == [] && Truth([], 1) == 0
  {
  }

  /** Three histories after which the count is one and the truth is two: the entry was taken
    * over by another channel, aged, or reclaimed. */
  lemma SessionFallsShort()
    ensures Play([], [Condemned(1), Condemned(2), Condemned(1)], 1) == [Entry(1, 3, 1)]
    ensures Play([], [Condemned(1), Condemned(1), AgedBy(1)], 1) == [Entry(1, 1, 1)]
    ensures Play([], [Condemned(1), Reclaimed(1), Condemned(1)], 1) == [Entry(1, 1, 1)]
    ensures Truth([Condemned(1), Condemned(2), Condemned(1)], 1) == Truth([Condemned(1), Condemned(1), AgedBy(1)], 1)
         == Truth([Condemned(1), Reclaimed(1), Condemned(1)], 1) == 2
  {
    hide Play, Truth, After;
    ThreeChanges(Condemned(1), Condemned(2), Condemned(1), 1);
    ThreeChanges(Condemned(1), Condemned(1), AgedBy(1), 1);
    ThreeChanges(Condemned(1), Reclaimed(1), Condemned(1), 1);
    FirstOf(1);
    TakenOver(Entry(1, 1, 1), 2);
    TakenOver(Entry(2, 2, 1), 1);
    CountedAndAged();
    ReclaimedOnly();
  }

  lemma FirstOf(ch: nat)
    ensures After([], Condemned(ch), 1) == [Entry(ch, 1, 1)]
  {
  }

  lemma TakenOver(e: Entry, ch: nat)
    requires e.channel != ch && e.hits < HITS_MAX
    ensures After([e], Condemned(ch), 1) == [Entry(ch, e.hits + 1, 1)]
  {
  }

  lemma CountedAndAged()
    ensures After(After([Entry(1, 1, 1)], Condemned(1), 1), AgedBy(1), 1) == [Entry(1, 1, 1)]
  {
    assert After([Entry(1, 1, 1)], Condemned(1), 1) == [Entry(1, 2, 2)];
    assert Decay([Entry(1, 2, 2)], 1) == Decay([], 1) + [Entry(1, 1, 1)];
  }

  lemma ReclaimedOnly()
    ensures After([Entry(1, 1, 1)], Reclaimed(1), 1) == []
  {
  }
}
