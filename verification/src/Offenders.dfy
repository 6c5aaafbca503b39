/** The persistently avoided channels distilled from the evidence table, and their record
  * in flash (src/esb/channel_hop_ep.c). */
module Offenders {
  import opened HitTable
  import opened Modulo
  import opened Quarantine

  datatype Offence = Offence(channel: nat, hits: nat)

  // ---- The top N ----

  predicate Eligible(e: Entry, threshold: nat, rendezvous: nat) {
    e.hits >= threshold && e.channel != rendezvous
  }

  /** Worse first; among equals the earlier entry. */
  predicate Before(es: Table, i: nat, j: nat)
    requires i < |es| && j < |es|
  {
    es[i].hits > es[j].hits || (es[i].hits == es[j].hits && i < j)
  }

  ghost predicate Ranked(es: Table, threshold: nat, rendezvous: nat, picks: seq<nat>) {
    && (forall i :: 0 <= i < |picks| ==> picks[i] < |es| && Eligible(es[picks[i]], threshold, rendezvous))
    && (forall i, j :: 0 <= i < j < |picks| ==> Before(es, picks[i], picks[j]))
  }

  /** Every eligible entry left out comes after all those taken. */
  ghost predicate Dominated(es: Table, threshold: nat, rendezvous: nat, picks: seq<nat>) {
    forall k: nat, i :: k < |es| && Eligible(es[k], threshold, rendezvous) && k !in picks && 0 <= i < |picks| && picks[i] < |es|
                   ==> Before(es, picks[i], k)
  }

  ghost predicate Exhausted(es: Table, threshold: nat, rendezvous: nat, picks: seq<nat>) {
    forall k: nat :: k < |es| && Eligible(es[k], threshold, rendezvous) ==> k in picks
  }

  /** The n worst eligible entries, worst first; fewer only if there are no more. */
  ghost predicate IsTop(es: Table, threshold: nat, rendezvous: nat, n: nat, picks: seq<nat>) {
    && |picks| <= n
    && Ranked(es, threshold, rendezvous, picks)
    && Dominated(es, threshold, rendezvous, picks)
    && (|picks| < n ==> Exhausted(es, threshold, rendezvous, picks))
  }

  /** Position i of one top list is in the other and not earlier. */
  lemma NextComesFirst(es: Table, threshold: nat, rendezvous: nat, n: nat, p: seq<nat>, q: seq<nat>, i: nat)
    requires IsTop(es, threshold, rendezvous, n, p) && IsTop(es, threshold, rendezvous, n, q)
    requires i < |p| && i <= |q| && p[..i] == q[..i]
    ensures i < |q| && (q[i] == p[i] || Before(es, q[i], p[i]))
  {
    if p[i] in q {
      assert forall k :: 0 <= k < i ==> p[..i][k] == q[..i][k] && Before(es, p[k], p[i]);
    } else {
      assert |q| == n;
    }
  }

  /** There is only one top list. */
  lemma {:induction false} TopPrefix(es: Table, threshold: nat, rendezvous: nat, n: nat, p: seq<nat>, q: seq<nat>, i: nat)
    requires IsTop(es, threshold, rendezvous, n, p) && IsTop(es, threshold, rendezvous, n, q) && i <= |p|
    ensures i <= |q| && p[..i] == q[..i]
  {
    if i > 0 {
      TopPrefix(es, threshold, rendezvous, n, p, q, i - 1);
      NextComesFirst(es, threshold, rendezvous, n, p, q, i - 1);
      NextComesFirst(es, threshold, rendezvous, n, q, p, i - 1);
      assert p[..i] == p[..i - 1] + [p[i - 1]] && q[..i] == q[..i - 1] + [q[i - 1]];
    }
  }

  lemma TopUnique(es: Table, threshold: nat, rendezvous: nat, n: nat, p: seq<nat>, q: seq<nat>)
    requires IsTop(es, threshold, rendezvous, n, p) && IsTop(es, threshold, rendezvous, n, q)
    ensures p == q
  {
    TopPrefix(es, threshold, rendezvous, n, p, q, |p|);
    TopPrefix(es, threshold, rendezvous, n, q, p, |q|);
    assert p[..|p|] == p && q[..|q|] == q;
  }

  // ---- Who is on it ----

  /** Entry j is an offender that is worse than entry k, or as bad and longer known. */
  predicate Outranks(es: Table, threshold: nat, rendezvous: nat, j: nat, k: nat)
    requires j < |es| && k < |es|
  {
    && es[j].hits >= threshold && es[j].channel != rendezvous
    && (es[j].hits > es[k].hits || (es[j].hits == es[k].hits && j < k))
  }

  ghost function Outranking(es: Table, threshold: nat, rendezvous: nat, k: nat): set<nat>
    requires k < |es|
  {
    set j: nat | j < |es| && Outranks(es, threshold, rendezvous, j, k)
  }

  function Indices(picks: seq<nat>): set<nat> { set p | p in picks }

  lemma {:induction false} IndicesCount(es: Table, picks: seq<nat>)
    requires forall i :: 0 <= i < |picks| ==> picks[i] < |es|
    requires forall i, j :: 0 <= i < j < |picks| ==> Before(es, picks[i], picks[j])
    ensures |Indices(picks)| == |picks|
  {
    if picks != [] {
      var front, last := picks[..|picks| - 1], picks[|picks| - 1];
      IndicesCount(es, front);
      assert picks == front + [last];
      assert Indices(picks) == Indices(front) + {last};
      assert last !in front;
    }
  }

  /** An entry is picked if and only if it has reached the threshold, is not the rendezvous
    * channel, and fewer than n offenders outrank it. */
  lemma PickedExactly(es: Table, threshold: nat, rendezvous: nat, n: nat, picks: seq<nat>, k: nat)
    requires IsTop(es, threshold, rendezvous, n, picks) && k < |es|
    ensures k in picks <==>
      es[k].hits >= threshold && es[k].channel != rendezvous && |Outranking(es, threshold, rendezvous, k)| < n
  {
    var above := Outranking(es, threshold, rendezvous, k);
    if k in picks {
      var i :| 0 <= i < |picks| && picks[i] == k;
      assert above == Indices(picks[..i]) by { AboveArePicked(es, threshold, rendezvous, n, picks, i); }
      IndicesCount(es, picks[..i]);
    } else if es[k].hits >= threshold && es[k].channel != rendezvous {
      IndicesCount(es, picks);
      assert |picks| == n;
      assert Indices(picks) <= above;
      SubsetCount(Indices(picks), above);
    }
  }

  lemma AboveArePicked(es: Table, threshold: nat, rendezvous: nat, n: nat, picks: seq<nat>, i: nat)
    requires IsTop(es, threshold, rendezvous, n, picks) && i < |picks|
    ensures Outranking(es, threshold, rendezvous, picks[i]) == Indices(picks[..i])
  {
    forall j: nat
      ensures j in Outranking(es, threshold, rendezvous, picks[i]) <==> j in picks[..i]
    {
      if j in picks[..i] {
        var a :| 0 <= a < i && picks[a] == j;
        assert Before(es, picks[a], picks[i]);
      }
      assert j < |es| && Eligible(es[j], threshold, rendezvous) && j !in picks ==> Before(es, picks[i], j);
      assert forall b :: i < b < |picks| ==> Before(es, picks[i], picks[b]);
      if j < |es| && Outranks(es, threshold, rendezvous, j, picks[i]) {
        var a :| 0 <= a < |picks| && picks[a] == j;
        assert picks[..i][a] == j;
      }
    }
  }

  lemma SubsetCount(a: set<nat>, b: set<nat>)
    requires a <= b
    ensures |a| <= |b|
  {
    if a != {} {
      var x :| x in a;
      SubsetCount(a - {x}, b - {x});
    }
  }

  function Listed(es: Table, picks: seq<nat>): (list: seq<Offence>)
    requires forall i :: 0 <= i < |picks| ==> picks[i] < |es|
    ensures |list| == |picks|
  {
    seq(|picks|, i requires 0 <= i < |picks| => Offence(es[picks[i]].channel, es[picks[i]].hits))
  }

  // ---- The record ----

  function Triples(list: seq<Offence>): (bytes: seq<nat>)
    ensures |bytes| == 3 * |list|
  {
    if list == [] then [] else
      var o := list[|list| - 1];
      Triples(list[..|list| - 1]) + [o.channel, o.hits % 256, o.hits / 256]
  }

  lemma {:induction false} TripleAt(list: seq<Offence>, i: nat)
    requires i < |list|
    ensures Triples(list)[3 * i] == list[i].channel
    ensures Triples(list)[3 * i + 1] == list[i].hits % 256
    ensures Triples(list)[3 * i + 2] == list[i].hits / 256
  {
    if i < |list| - 1 {
      TripleAt(list[..|list| - 1], i);
    }
  }

  function Serialized(list: seq<Offence>): seq<nat> {
    [|list|] + Triples(list)
  }

  function Saturated(minutes: nat): (m: nat)
    ensures m <= 0xFFFF && m <= minutes && (minutes <= 0xFFFF ==> m == minutes)
  {
    if minutes > 0xFFFF then 0xFFFF else minutes
  }

  /** The bytes `persist_write` stores. */
  function Encoded(minutes: nat, off: seq<nat>): seq<nat> {
    [Saturated(minutes) % 256, Saturated(minutes) / 256] + off
  }

  /** Number of triples read: what the record says, or what fits in it. */
  function Stored(off: seq<nat>): (stored: nat)
    requires off != []
    ensures 1 + 3 * stored <= |off|
  {
    if 1 + 3 * off[0] > |off| then (|off| - 1) / 3 else off[0]
  }

  /** One triple merged into the table. */
  function LoadOne(es: Table, o: Offence, size: nat): Table {
    var ch, hits, j := o.channel, o.hits, Find(es, o.channel);
    if ch >= CHANNELS then es
    else if j < |es| then if hits > es[j].hits then es[j := es[j].(hits := hits)] else es
    else if |es| < size then es + [Entry(ch, if hits > 0 then hits else 1, 0)]
    else es
  }

  /** Channel and count of triple i. */
  function TripleOf(off: seq<nat>, i: nat): Offence
    requires 3 * i + 3 < |off|
  {
    Offence(off[3 * i + 1], off[3 * i + 2] + 256 * off[3 * i + 3])
  }

  /** A record is read as far as it says, or as far as it goes. */
  lemma StoredExactly(off: seq<nat>)
    requires off != []
    ensures Stored(off) <= off[0] && 1 + 3 * Stored(off) <= |off|
    ensures Stored(off) == off[0] || 1 + 3 * (Stored(off) + 1) > |off|
  {
  }

  function LoadList(es: Table, off: seq<nat>, stored: nat, size: nat): Table
    requires 1 + 3 * stored <= |off|
  {
    if stored == 0 then es else
      LoadOne(LoadList(es, off, stored - 1, size), TripleOf(off, stored - 1), size)
  }

  predicate AcceptedLength(record: seq<nat>, maxLength: nat) {
    3 <= |record| <= maxLength
  }

  /** The table after `persist_settings_load_cb`; other lengths are dropped. */
  function Load(es: Table, record: seq<nat>, size: nat, maxLength: nat): Table {
    if AcceptedLength(record, maxLength) then LoadList(es, record[2..], Stored(record[2..]), size) else es
  }

  // ---- What a record adds ----

  function HitsOf(es: Table, ch: nat): nat {
    if Find(es, ch) < |es| then es[Find(es, ch)].hits else 0
  }

  /** The largest count the triples give a channel. */
  function LargestIn(off: seq<nat>, stored: nat, ch: nat): nat
    requires 1 + 3 * stored <= |off|
  {
    if stored == 0 then 0 else
      var before, o := LargestIn(off, stored - 1, ch), TripleOf(off, stored - 1);
      if o.channel == ch && o.hits > before then o.hits else before
  }

  lemma LoadOneRaises(es: Table, o: Offence, size: nat, ch: nat)
    requires Distinct(es) && Tracked(es, ch) && ch < CHANNELS
    ensures var after := LoadOne(es, o, size);
      && Distinct(after) && Tracked(after, ch)
      && HitsOf(after, ch) == if o.channel == ch && o.hits > HitsOf(es, ch) then o.hits else HitsOf(es, ch)
  {
    var after, i := LoadOne(es, o, size), Find(es, ch);
    assert after[i].channel == ch;
    FoundOnce(after, ch, i);
    FoundOnce(es, ch, i);
  }

  lemma FoundOnce(es: Table, ch: nat, i: nat)
    requires Distinct(es) && i < |es| && es[i].channel == ch
    ensures Find(es, ch) == i
  {
    assert forall j :: 0 <= j < i ==> es[j].channel != es[i].channel;
  }

  /** A tracked channel ends with the larger of its own count and the largest the record gives. */
  lemma {:induction false} LoadRaises(es: Table, off: seq<nat>, stored: nat, size: nat, ch: nat)
    requires Distinct(es) && Tracked(es, ch) && ch < CHANNELS && 1 + 3 * stored <= |off|
    ensures var after, most := LoadList(es, off, stored, size), LargestIn(off, stored, ch);
      Distinct(after) && Tracked(after, ch) && HitsOf(after, ch) == if most > HitsOf(es, ch) then most else HitsOf(es, ch)
  {
    if stored > 0 {
      LoadRaises(es, off, stored - 1, size, ch);
      LoadOneRaises(LoadList(es, off, stored - 1, size), TripleOf(off, stored - 1), size, ch);
    }
  }

  function Minutes(minutes: nat, record: seq<nat>, maxLength: nat): nat {
    if AcceptedLength(record, maxLength) then record[0] + 256 * record[1] else minutes
  }

  ghost predicate Bytes(bytes: seq<nat>) {
    forall i :: 0 <= i < |bytes| ==> bytes[i] < 256
  }

  // ---- Whatever is in flash ----

  lemma {:induction false} LoadListKeepsSound(es: Table, off: seq<nat>, stored: nat, size: nat)
    requires Sound(es, size) && Bytes(off) && 1 + 3 * stored <= |off|
    ensures Sound(LoadList(es, off, stored, size), size)
  {
    if stored > 0 {
      LoadListKeepsSound(es, off, stored - 1, size);
    }
  }

  /** No record, however damaged, breaks the table. */
  lemma LoadKeepsSound(es: Table, record: seq<nat>, size: nat, maxLength: nat)
    requires Sound(es, size) && Bytes(record)
    ensures Sound(Load(es, record, size, maxLength), size)
  {
    if AcceptedLength(record, maxLength) {
      LoadListKeepsSound(es, record[2..], Stored(record[2..]), size);
    }
  }

  /** The table already holds what triple i says, or has no room for it. */
  ghost predicate Absorbed(es: Table, off: seq<nat>, i: nat, size: nat)
    requires 3 * i + 3 < |off|
  {
    LoadOne(es, TripleOf(off, i), size) == es
  }

  lemma LoadOneAbsorbs(es: Table, o: Offence, size: nat)
    requires Sound(es, size)
    ensures LoadOne(LoadOne(es, o, size), o, size) == LoadOne(es, o, size)
  {
    var after, j := LoadOne(es, o, size), Find(es, o.channel);
    if j < |after| && after[j].channel == o.channel {
      assert Find(after, o.channel) == j;
    }
  }

  lemma LoadOneKeepsAbsorbed(es: Table, o: Offence, size: nat, other: Offence)
    requires LoadOne(es, other, size) == es && Sound(es, size)
    ensures LoadOne(LoadOne(es, o, size), other, size) == LoadOne(es, o, size)
  {
    var after := LoadOne(es, o, size);
    if o.channel < CHANNELS && Find(es, o.channel) == |es| < size {
      assert after[..|es|] == es;
    }
    if Find(es, other.channel) < |es| {
      assert after[Find(es, other.channel)].channel == other.channel;
    }
  }

  lemma {:induction false} LoadListAbsorbs(es: Table, off: seq<nat>, stored: nat, size: nat)
    requires Sound(es, size) && Bytes(off) && 1 + 3 * stored <= |off|
    ensures forall i: nat :: i < stored ==> Absorbed(LoadList(es, off, stored, size), off, i, size)
  {
    hide LoadOne, Sound, TripleOf, Bytes;
    if stored > 0 {
      var before := LoadList(es, off, stored - 1, size);
      LoadListAbsorbs(es, off, stored - 1, size);
      LoadListKeepsSound(es, off, stored - 1, size);
      LoadOneAbsorbs(before, TripleOf(off, stored - 1), size);
      forall i: nat | i < stored ensures Absorbed(LoadList(es, off, stored, size), off, i, size) {
        if i < stored - 1 {
          assert Absorbed(before, off, i, size);
          LoadOneKeepsAbsorbed(before, TripleOf(off, stored - 1), size, TripleOf(off, i));
        }
      }
    }
  }

  lemma {:induction false} AbsorbedListIsIdle(es: Table, off: seq<nat>, stored: nat, size: nat)
    requires 1 + 3 * stored <= |off| && forall i: nat :: i < stored ==> Absorbed(es, off, i, size)
    ensures LoadList(es, off, stored, size) == es
  {
    if stored > 0 {
      AbsorbedListIsIdle(es, off, stored - 1, size);
      assert Absorbed(es, off, stored - 1, size);
    }
  }

  /** Replaying a record changes nothing. */
  lemma ReplayIsIdle(es: Table, record: seq<nat>, size: nat, maxLength: nat)
    requires Sound(es, size) && Bytes(record)
    ensures Load(Load(es, record, size, maxLength), record, size, maxLength) == Load(es, record, size, maxLength)
  {
    if AcceptedLength(record, maxLength) {
      LoadListAbsorbs(es, record[2..], Stored(record[2..]), size);
      AbsorbedListIsIdle(Load(es, record, size, maxLength), record[2..], Stored(record[2..]), size);
    }
  }

  // ---- The round trip ----

  ghost predicate Storable(list: seq<Offence>) {
    && (forall i :: 0 <= i < |list| ==> list[i].channel < CHANNELS && 1 <= list[i].hits <= HITS_MAX)
    && forall i, j :: 0 <= i < j < |list| ==> list[i].channel != list[j].channel
  }

  function Restored(list: seq<Offence>): (es: Table)
    ensures |es| == |list|
  {
    seq(|list|, i requires 0 <= i < |list| => Entry(list[i].channel, list[i].hits, 0))
  }

  lemma SerializedTriple(list: seq<Offence>, i: nat)
    requires i < |list|
    ensures TripleOf(Serialized(list), i) == list[i]
  {
    TripleAt(list, i);
    DivModDecompose(list[i].hits, 256);
  }

  lemma LoadOneAppends(list: seq<Offence>, k: nat, size: nat)
    requires Storable(list) && k < |list| <= size
    ensures LoadOne(Restored(list[..k]), list[k], size) == Restored(list[..k + 1])
  {
  }

  lemma {:induction false} LoadListRestores(list: seq<Offence>, k: nat, size: nat)
    requires Storable(list) && k <= |list| <= size
    ensures LoadList([], Serialized(list), k, size) == Restored(list[..k])
  {
    hide LoadOne, Restored, Serialized, TripleOf, Storable;
    if k > 0 {
      LoadListRestores(list, k - 1, size);
      SerializedTriple(list, k - 1);
      LoadOneAppends(list, k - 1, size);
    } else {
      assert Restored(list[..0]) == [];
    }
  }

  /** What was written comes back: the offenders in order with their counts, and the
    * minutes, saturated at 16 bits. */
  lemma WriteThenLoad(minutes: nat, list: seq<Offence>, size: nat, maxLength: nat)
    requires Storable(list) && |list| <= size && 3 + 3 * |list| <= maxLength
    ensures Load([], Encoded(minutes, Serialized(list)), size, maxLength) == Restored(list)
    ensures Minutes(0, Encoded(minutes, Serialized(list)), maxLength) == Saturated(minutes)
  {
    var record := Encoded(minutes, Serialized(list));
    assert record[2..] == Serialized(list);
    LoadListRestores(list, |list|, size);
    assert list[..|list|] == list;
    DivModDecompose(Saturated(minutes), 256);
  }

  lemma TopIsStorable(es: Table, size: nat, threshold: nat, rendezvous: nat, n: nat, picks: seq<nat>)
    requires Sound(es, size) && IsTop(es, threshold, rendezvous, n, picks)
    ensures Storable(Listed(es, picks))
  {
    var list := Listed(es, picks);
    forall i, j | 0 <= i < j < |list| ensures list[i].channel != list[j].channel {
      assert Before(es, picks[i], picks[j]);
    }
    forall i | 0 <= i < |list| ensures list[i].channel < CHANNELS && 1 <= list[i].hits <= HITS_MAX {
      assert SoundEntry(es[picks[i]]);
    }
  }

  /** After a write and a reload into an empty table, rebuilding with the same N and
    * rendezvous channel gives the same bytes. */
  lemma RebuildReproduces(es: Table, size: nat, threshold: nat, rendezvous: nat, n: nat, maxLength: nat,
                          minutes: nat, picks: seq<nat>, again: seq<nat>)
    requires Sound(es, size) && n <= size && 3 + 3 * n <= maxLength
    requires IsTop(es, threshold, rendezvous, n, picks)
    requires IsTop(Load([], Encoded(minutes, Serialized(Listed(es, picks))), size, maxLength), threshold, rendezvous, n, again)
    ensures var reloaded := Load([], Encoded(minutes, Serialized(Listed(es, picks))), size, maxLength);
      Serialized(Listed(reloaded, again)) == Serialized(Listed(es, picks))
  {
    var list := Listed(es, picks);
    TopIsStorable(es, size, threshold, rendezvous, n, picks);
    WriteThenLoad(minutes, list, size, maxLength);
    var all := seq(|list|, i => i);
    RestoredIsTop(es, threshold, rendezvous, n, picks, all);
    TopUnique(Restored(list), threshold, rendezvous, n, again, all);
    assert Listed(Restored(list), again) == list;
  }

  lemma RestoredIsTop(es: Table, threshold: nat, rendezvous: nat, n: nat, picks: seq<nat>, all: seq<nat>)
    requires IsTop(es, threshold, rendezvous, n, picks)
    requires |all| == |picks| && forall i :: 0 <= i < |all| ==> all[i] == i
    ensures IsTop(Restored(Listed(es, picks)), threshold, rendezvous, n, all)
  {
    var after := Restored(Listed(es, picks));
    forall i, j | 0 <= i < j < |all| ensures Before(after, all[i], all[j]) {
      assert Before(es, picks[i], picks[j]);
    }
    forall k: nat | k < |after| ensures k in all {
      assert all[k] == k;
    }
  }
}
