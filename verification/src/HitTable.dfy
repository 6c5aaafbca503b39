/** Evidence against channels (src/esb/channel_hop_ep.c): a bounded frequency table in
  * the Space-Saving style, its aging and its removals. */
module HitTable {
  import opened Modulo
  import opened Quarantine

  const HITS_MAX: nat := 0xFFFF

  datatype Entry = Entry(channel: nat, hits: nat, session: nat)

  type Table = seq<Entry>

  function Bump(n: nat): (r: nat)
    ensures n <= HITS_MAX ==> r <= HITS_MAX
  {
    if n < HITS_MAX then n + 1 else n
  }

  /** Index of a channel's entry, or the table's length. */
  function Find(es: Table, ch: nat): (i: nat)
    ensures i <= |es|
    ensures i < |es| ==> es[i].channel == ch
    ensures forall k :: 0 <= k < i ==> es[k].channel != ch
  {
    if es == [] then 0
    else if Find(es[..|es| - 1], ch) < |es| - 1 then Find(es[..|es| - 1], ch)
    else if es[|es| - 1].channel == ch then |es| - 1
    else |es|
  }

  predicate Tracked(es: Table, ch: nat) {
    exists i :: 0 <= i < |es| && es[i].channel == ch
  }

  /** The first of the least-hit entries. */
  function Least(es: Table): (m: nat)
    requires es != []
    ensures m < |es|
    ensures forall k :: 0 <= k < |es| ==> es[m].hits <= es[k].hits
    ensures forall k :: 0 <= k < m ==> es[m].hits < es[k].hits
  {
    if |es| == 1 then 0 else
      var m := Least(es[..|es| - 1]);
      if es[|es| - 1].hits < es[m].hits then |es| - 1 else m
  }

  /** One accepted condemnation: count it, append it, or take over the least entry. */
  function Record(es: Table, ch: nat, size: nat): Table
    requires 0 < size
  {
    var i := Find(es, ch);
    if i < |es| then es[i := Entry(ch, Bump(es[i].hits), Bump(es[i].session))]
    else if |es| < size then es + [Entry(ch, 1, 1)]
    else es[Least(es) := Entry(ch, Bump(es[Least(es)].hits), 1)]
  }

  predicate Accepted(ch: nat, rendezvous: nat) {
    ch < CHANNELS && ch != rendezvous
  }

  /** `persist_record_hit` */
  function Condemn(es: Table, ch: nat, size: nat, rendezvous: nat): Table
    requires 0 < size
  {
    if Accepted(ch, rendezvous) then Record(es, ch, size) else es
  }

  function Removed(es: Table, i: nat): Table
    requires i < |es|
  {
    es[i := es[|es| - 1]][..|es| - 1]
  }

  /** The table part of `persist_reclaim`. */
  function Reclaim(es: Table, ch: nat): Table {
    if Find(es, ch) < |es| then Removed(es, Find(es, ch)) else es
  }

  function Aged(e: Entry, periods: nat): Entry
    requires e.hits > periods
  {
    e.(hits := e.hits - periods, session := if e.session > periods then e.session - periods else 0)
  }

  /** `persist_decay_apply` */
  function Decay(es: Table, periods: nat): Table {
    if es == [] then [] else
      var rest, e := Decay(es[..|es| - 1], periods), es[|es| - 1];
      if e.hits > periods then rest + [Aged(e, periods)] else rest
  }

  // ---- What every operation keeps ----

  ghost predicate SoundEntry(e: Entry) {
    e.channel < CHANNELS && 1 <= e.hits <= HITS_MAX && e.session <= e.hits
  }

  ghost predicate Distinct(es: Table) {
    forall i, j :: 0 <= i < j < |es| ==> es[i].channel != es[j].channel
  }

  ghost predicate Sound(es: Table, size: nat) {
    |es| <= size && Distinct(es) && forall i :: 0 <= i < |es| ==> SoundEntry(es[i])
  }

  lemma CondemnKeepsSound(es: Table, ch: nat, size: nat, rendezvous: nat)
    requires Sound(es, size) && 0 < size
    ensures Sound(Condemn(es, ch, size, rendezvous), size)
    ensures Tracked(Condemn(es, ch, size, rendezvous), ch) <==> Accepted(ch, rendezvous) || Tracked(es, ch)
  {
    if Accepted(ch, rendezvous) {
      var after := Record(es, ch, size);
      var i := if Find(es, ch) < |es| then Find(es, ch) else if |es| < size then |es| else Least(es);
      assert after[i].channel == ch;
    }
  }

  /** Reclaiming drops one channel's entry and no other. */
  lemma ReclaimRemoves(es: Table, ch: nat, size: nat)
    requires Sound(es, size)
    ensures Sound(Reclaim(es, ch), size) && !Tracked(Reclaim(es, ch), ch)
    ensures forall e: Entry :: e in Reclaim(es, ch) <==> e in es && e.channel != ch
  {
    var after, i := Reclaim(es, ch), Find(es, ch);
    if i < |es| {
      forall e: Entry | e in es && e.channel != ch ensures e in after {
        var k :| 0 <= k < |es| && es[k] == e;
        assert after[if k == |es| - 1 then i else k] == e;
      }
    }
  }

  lemma {:induction false} DecayMembers(es: Table, periods: nat)
    ensures |Decay(es, periods)| <= |es|
    ensures forall e: Entry :: e in Decay(es, periods) <==> exists i :: 0 <= i < |es| && es[i].hits > periods && e == Aged(es[i], periods)
  {
    if es != [] {
      var rest := es[..|es| - 1];
      DecayMembers(rest, periods);
      forall e: Entry
        ensures e in Decay(es, periods) <==> exists i :: 0 <= i < |es| && es[i].hits > periods && e == Aged(es[i], periods)
      {
        if e in Decay(rest, periods) {
          var i :| 0 <= i < |rest| && rest[i].hits > periods && e == Aged(rest[i], periods);
          assert es[i] == rest[i];
        }
      }
    }
  }

  lemma {:induction false} DecayKeepsSound(es: Table, periods: nat, size: nat)
    requires Sound(es, size)
    ensures Sound(Decay(es, periods), size)
  {
    if es != [] {
      var rest := es[..|es| - 1];
      DecayKeepsSound(rest, periods, size);
      DecayMembers(rest, periods);
      var after := Decay(rest, periods);
      forall k | 0 <= k < |after| ensures after[k].channel != es[|es| - 1].channel {
        assert after[k] in after;
      }
    }
  }

  /** Aging by a and then by b periods is aging by a + b: a check may be split or
    * merged without changing what is remembered. */
  lemma {:induction false} DecayAdds(es: Table, a: nat, b: nat)
    ensures Decay(Decay(es, a), b) == Decay(es, a + b)
  {
    if es != [] {
      var rest, e := es[..|es| - 1], es[|es| - 1];
      DecayAdds(rest, a, b);
      if e.hits > a {
        var once := Decay(rest, a) + [Aged(e, a)];
        assert once[..|once| - 1] == Decay(rest, a);
      }
    }
  }

  lemma {:induction false} DecayByZero(es: Table)
    requires forall i :: 0 <= i < |es| ==> es[i].hits > 0
    ensures Decay(es, 0) == es
  {
    if es != [] {
      DecayByZero(es[..|es| - 1]);
      assert Aged(es[|es| - 1], 0) == es[|es| - 1];
    }
  }

  // ---- The Space-Saving guarantee ----

  function Count(chs: seq<nat>, ch: nat): (n: nat)
    ensures n <= |chs|
  {
    if chs == [] then 0 else Count(chs[..|chs| - 1], ch) + if chs[|chs| - 1] == ch then 1 else 0
  }

  lemma CountPush(chs: seq<nat>, c: nat, ch: nat)
    ensures Count(chs + [c], ch) == Count(chs, ch) + if c == ch then 1 else 0
  {
  }

  function TotalHits(es: Table): nat {
    if es == [] then 0 else TotalHits(es[..|es| - 1]) + es[|es| - 1].hits
  }

  lemma {:induction false} TotalUpdate(es: Table, i: nat, e: Entry)
    requires i < |es|
    ensures TotalHits(es[i := e]) == TotalHits(es) - es[i].hits + e.hits
  {
    if i < |es| - 1 {
      TotalUpdate(es[..|es| - 1], i, e);
      assert es[i := e][..|es| - 1] == es[..|es| - 1][i := e];
    } else {
      assert es[i := e][..i] == es[..i];
    }
  }

  lemma {:induction false} TotalAtLeast(es: Table, low: nat)
    requires forall k :: 0 <= k < |es| ==> es[k].hits >= low
    ensures TotalHits(es) >= |es| * low
  {
    if es != [] {
      var rest := es[..|es| - 1];
      TotalAtLeast(rest, low);
      assert |es| * low == |rest| * low + low;
    }
  }

  lemma {:induction false} EntryAtMostTotal(es: Table, i: nat)
    requires i < |es|
    ensures es[i].hits <= TotalHits(es)
  {
    if i < |es| - 1 {
      EntryAtMostTotal(es[..|es| - 1], i);
    }
  }

  /** Most a channel's count can be off by: nothing until the table is full. */
  function Slack(es: Table, size: nat): nat {
    if |es| < size || es == [] then 0 else es[Least(es)].hits
  }

  /** The true count of a tracked channel lies between its session count and its hit
    * count, and the hit count is at most `Slack` too high. */
  ghost predicate EntryExact(e: Entry, chs: seq<nat>, slack: nat) {
    e.session <= Count(chs, e.channel) <= e.hits <= Count(chs, e.channel) + slack
  }

  ghost predicate Untracked(es: Table, chs: seq<nat>, slack: nat) {
    forall ch: nat :: !Tracked(es, ch) ==> Count(chs, ch) <= slack
  }

  ghost predicate Guarantee(es: Table, chs: seq<nat>, size: nat) {
    && |es| <= size && Distinct(es)
    && TotalHits(es) == |chs|
    && (forall i :: 0 <= i < |es| ==> EntryExact(es[i], chs, Slack(es, size)))
    && Untracked(es, chs, Slack(es, size))
  }

  function RecordAll(chs: seq<nat>, size: nat): Table
    requires 0 < size
  {
    if chs == [] then [] else Record(RecordAll(chs[..|chs| - 1], size), chs[|chs| - 1], size)
  }

  lemma SlackGrows(es: Table, i: nat, e: Entry, size: nat)
    requires i < |es| && e.hits >= es[i].hits
    ensures Slack(es[i := e], size) >= Slack(es, size)
  {
  }

  lemma CountedKeeps(es: Table, chs: seq<nat>, ch: nat, size: nat)
    requires Guarantee(es, chs, size) && |chs| < HITS_MAX && 0 < size && Find(es, ch) < |es|
    ensures Guarantee(Record(es, ch, size), chs + [ch], size)
  {
    var i, after := Find(es, ch), Record(es, ch, size);
    EntryAtMostTotal(es, i);
    TotalUpdate(es, i, after[i]);
    SlackGrows(es, i, after[i], size);
    forall k | 0 <= k < |after| ensures EntryExact(after[k], chs + [ch], Slack(after, size)) {
      CountPush(chs, ch, after[k].channel);
      assert EntryExact(es[k], chs, Slack(es, size));
    }
    forall c: nat | !Tracked(after, c) ensures Count(chs + [ch], c) <= Slack(after, size) {
      CountPush(chs, ch, c);
      assert after[i].channel == ch;
      assert !Tracked(es, c) by { assert forall k :: 0 <= k < |es| ==> es[k].channel == after[k].channel; }
    }
  }

  lemma AppendedKeeps(es: Table, chs: seq<nat>, ch: nat, size: nat)
    requires Guarantee(es, chs, size) && Find(es, ch) == |es| < size
    ensures Guarantee(Record(es, ch, size), chs + [ch], size)
  {
    var after := Record(es, ch, size);
    assert after[..|es|] == es;
    assert !Tracked(es, ch);
    forall k | 0 <= k < |after| ensures EntryExact(after[k], chs + [ch], Slack(after, size)) {
      CountPush(chs, ch, after[k].channel);
      if k < |es| {
        assert EntryExact(es[k], chs, Slack(es, size));
      }
    }
    forall c: nat | !Tracked(after, c) ensures Count(chs + [ch], c) <= Slack(after, size) {
      CountPush(chs, ch, c);
      assert after[|es|].channel == ch;
      assert !Tracked(es, c) by { assert forall k :: 0 <= k < |es| ==> es[k] == after[k]; }
    }
  }

  lemma ReplacedKeeps(es: Table, chs: seq<nat>, ch: nat, size: nat)
    requires Guarantee(es, chs, size) && |chs| < HITS_MAX && Find(es, ch) == |es| == size > 0
    ensures Guarantee(Record(es, ch, size), chs + [ch], size)
  {
    var m, after := Least(es), Record(es, ch, size);
    EntryAtMostTotal(es, m);
    TotalUpdate(es, m, after[m]);
    ReplacedExact(es, chs, ch, size);
    ReplacedUntracked(es, chs, ch, size);
  }

  /** Every count is still within the new minimum of the true one. */
  lemma ReplacedExact(es: Table, chs: seq<nat>, ch: nat, size: nat)
    requires Guarantee(es, chs, size) && |chs| < HITS_MAX && Find(es, ch) == |es| == size > 0
    ensures var after := Record(es, ch, size);
      |after| == |es| && forall k :: 0 <= k < |after| ==> EntryExact(after[k], chs + [ch], Slack(after, size))
  {
    var m, after := Least(es), Record(es, ch, size);
    EntryAtMostTotal(es, m);
    SlackGrows(es, m, after[m], size);
    assert !Tracked(es, ch);
    forall k | 0 <= k < |after| ensures EntryExact(after[k], chs + [ch], Slack(after, size)) {
      CountPush(chs, ch, after[k].channel);
      assert EntryExact(es[k], chs, Slack(es, size));
    }
  }

  /** The channel whose entry was taken over is covered by the new minimum. */
  lemma ReplacedUntracked(es: Table, chs: seq<nat>, ch: nat, size: nat)
    requires Guarantee(es, chs, size) && Find(es, ch) == |es| == size > 0
    ensures Untracked(Record(es, ch, size), chs + [ch], Slack(Record(es, ch, size), size))
  {
    var m, after := Least(es), Record(es, ch, size);
    SlackGrows(es, m, after[m], size);
    forall c: nat | !Tracked(after, c) ensures Count(chs + [ch], c) <= Slack(after, size) {
      CountPush(chs, ch, c);
      assert after[m].channel == ch;
      if Tracked(es, c) {
        var k :| 0 <= k < |es| && es[k].channel == c;
        assert after[if k == m then m else k].channel == if k == m then ch else c;
        assert EntryExact(es[m], chs, Slack(es, size));
      }
    }
  }

  /** The guarantee, over every history of accepted condemnations. */
  lemma {:induction false} SpaceSaving(chs: seq<nat>, size: nat)
    requires 0 < size && |chs| <= HITS_MAX
    ensures Guarantee(RecordAll(chs, size), chs, size)
  {
    if chs != [] {
      var before, ch := chs[..|chs| - 1], chs[|chs| - 1];
      SpaceSaving(before, size);
      var es := RecordAll(before, size);
      assert before + [ch] == chs;
      if Find(es, ch) < |es| {
        CountedKeeps(es, before, ch, size);
      } else if |es| < size {
        AppendedKeeps(es, before, ch, size);
      } else {
        ReplacedKeeps(es, before, ch, size);
      }
    }
  }

  /** No heavy offender is missed: a channel with more than 1/size of all condemnations
    * is in the table. */
  lemma HeavyIsTracked(chs: seq<nat>, size: nat, ch: nat)
    requires 0 < size && |chs| <= HITS_MAX && Count(chs, ch) * size > |chs|
    ensures Tracked(RecordAll(chs, size), ch)
  {
    SpaceSaving(chs, size);
    var es := RecordAll(chs, size);
    if !Tracked(es, ch) {
      UntrackedIsLight(es, chs, size, ch);
    }
  }

  lemma UntrackedIsLight(es: Table, chs: seq<nat>, size: nat, ch: nat)
    requires 0 < size && Guarantee(es, chs, size) && !Tracked(es, ch)
    ensures Count(chs, ch) * size <= |chs|
  {
    var slack, n := Slack(es, size), Count(chs, ch);
    assert n <= slack;
    if es != [] && |es| == size {
      TotalAtLeast(es, slack);
      MulNonNegative(slack - n, size);
      MulDistributes(slack, n, size);
      assert size * slack == slack * size;
    } else {
      assert n == 0;
    }
  }
}
