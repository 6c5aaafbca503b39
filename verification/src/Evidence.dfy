/** The offender store of the endpoint: evidence table, avoided set, decay clock and flash
  * record, updated in place (src/esb/channel_hop_ep.c). */
module Evidence {
  import opened Clock32
  import opened HitTable
  import opened Offenders
  import opened DecayClock
  import Quarantine

  class OffenderStore {
    // PERSIST_N_MAX and the promotion threshold
    const nMax: nat
    const threshold: nat

    const hits: array<Entry>
    var count: nat
    const quarantine: Quarantine.Store

    // m_off_buf and m_saved_off
    const off: array<nat>
    var offLen: nat
    var savedOff: seq<nat>

    // decay clock and the record in flash
    var minutes: nat
    var fracMs: nat
    var lastUptime: nat
    var savedMinutes: nat
    var flash: seq<nat>

    ghost predicate Valid()
      reads this, hits, quarantine, quarantine.expires, quarantine.channels
    {
      && nMax > 0 && threshold > 0
      && hits.Length == 3 * nMax && count <= hits.Length
      && off.Length == 1 + 3 * nMax && offLen <= off.Length
      && quarantine.Valid() && quarantine.channels.Length == nMax
      && off != quarantine.channels && off != quarantine.expires
      && Sound(View(), hits.Length)
    }

    ghost function View(): Table
      reads this, hits
      requires count <= hits.Length
    {
      hits[..count]
    }

    ghost function Timer(): Clock
      reads this
    {
      Clock(minutes, fracMs, lastUptime, savedMinutes)
    }

    ghost function Avoided(): seq<nat>
      reads quarantine, quarantine.expires, quarantine.channels
      requires quarantine.Valid()
    {
      quarantine.View().persistent
    }

    ghost function OffBytes(): seq<nat>
      reads this, off
      requires offLen <= off.Length
    {
      off[..offLen]
    }

    method IndexOf(ch: nat) returns (i: nat)
      requires Valid()
      ensures i == Find(View(), ch)
    {
      i := 0;
      while i < count
        invariant i <= count && forall k :: 0 <= k < i ==> hits[k].channel != ch
      {
        if hits[i].channel == ch {
          FindAt(View(), ch, i);
          return;
        }
        i := i + 1;
      }
      FindAt(View(), ch, i);
    }

    method LeastIndex() returns (min: nat)
      requires Valid() && count > 0
      ensures min == Least(View())
    {
      min := 0;
      for k := 1 to count
        invariant min == Least(View()[..k])
      {
        assert View()[..k + 1][..k] == View()[..k];
        if hits[k].hits < hits[min].hits {
          min := k;
        }
      }
      assert View()[..count] == View();
    }

    /** `persist_record_hit` */
    method RecordHit(ch: nat, rendezvous: nat)
      requires Valid()
      modifies this`count, hits
      ensures Valid() && View() == Condemn(old(View()), ch, hits.Length, rendezvous)
    {
      hide Sound, Find, Least, Quarantine.Sized;
      CondemnKeepsSound(View(), ch, hits.Length, rendezvous);
      if ch >= Quarantine.CHANNELS || ch == rendezvous {
        return;
      }
      var i := IndexOf(ch);
      if i < count {
        hits[i] := Entry(ch, Bump(hits[i].hits), Bump(hits[i].session));
        return;
      }
      if count < hits.Length {
        hits[count] := Entry(ch, 1, 1);
        count := count + 1;
        assert View() == old(View()) + [Entry(ch, 1, 1)];
        return;
      }
      var min := LeastIndex();
      hits[min] := Entry(ch, Bump(hits[min].hits), 1);
    }

    /** `persist_reclaim` */
    method Reclaimed(ch: nat)
      requires Valid()
      modifies this`count, hits, quarantine`count, quarantine.channels
      ensures Valid() && View() == Reclaim(old(View()), ch)
      ensures quarantine.View().expires == old(quarantine.View().expires)
      ensures Avoided() == Dropped(old(Avoided()), ch)
    {
      ReclaimRemoves(View(), ch, hits.Length);
      var i := IndexOf(ch);
      if i < count {
        count := count - 1;
        hits[i] := hits[count];
      }
      assert View() == Reclaim(old(View()), ch);
      Unavoid(ch);
    }

    method Unavoid(ch: nat)
      requires quarantine.Valid() && quarantine.channels != quarantine.expires
      modifies quarantine`count, quarantine.channels
      ensures quarantine.Valid() && quarantine.View().expires == old(quarantine.View().expires)
      ensures Avoided() == Dropped(old(Avoided()), ch)
    {
      ghost var was := Avoided();
      var i := 0;
      while i < quarantine.count
        invariant i <= quarantine.count && quarantine.Valid() && Avoided() == was
        invariant quarantine.count == old(quarantine.count) && quarantine.View() == old(quarantine.View())
        invariant forall k :: 0 <= k < i ==> was[k] != ch
      {
        if quarantine.channels[i] == ch {
          PlaceAt(was, ch, i);
          quarantine.count := quarantine.count - 1;
          quarantine.channels[i] := quarantine.channels[quarantine.count];
          return;
        }
        i := i + 1;
      }
      PlaceAt(was, ch, i);
    }

    /** The inner loop of `persist_rebuild_avoided`: the worst eligible entry not used. */
    method NextWorst(used: array<bool>, rendezvous: nat) returns (found: bool, best: nat)
      requires Valid() && used.Length == hits.Length
      ensures found ==> best < count && !used[best] && Eligible(hits[best], threshold, rendezvous)
      ensures found ==> forall k: nat :: k < count && !used[k] && k != best && Eligible(View()[k], threshold, rendezvous)
                                    ==> Before(View(), best, k)
      ensures !found ==> forall k: nat :: k < count && !used[k] ==> !Eligible(View()[k], threshold, rendezvous)
    {
      found, best := false, 0;
      for i := 0 to count
        invariant found ==> best < i && !used[best] && Eligible(hits[best], threshold, rendezvous)
        invariant found ==> forall k: nat :: k < i && !used[k] && k != best && Eligible(hits[k], threshold, rendezvous)
                                        ==> Before(View(), best, k)
        invariant !found ==> forall k: nat :: k < i && !used[k] ==> !Eligible(hits[k], threshold, rendezvous)
      {
        if !used[i] && Eligible(hits[i], threshold, rendezvous) && (!found || hits[i].hits > hits[best].hits) {
          found, best := true, i;
        }
      }
    }

    constructor (nMax: nat, threshold: nat, quarantine: Quarantine.Store)
      requires nMax > 0 && threshold > 0 && quarantine.Valid() && quarantine.channels.Length == nMax
      ensures Valid() && this.nMax == nMax && this.threshold == threshold && this.quarantine == quarantine
      ensures fresh(hits) && fresh(off) && View() == [] && flash == [] && Timer() == Clock(0, 0, 0, 0)
    {
      this.nMax, this.threshold, this.quarantine := nMax, threshold, quarantine;
      hits := new Entry[3 * nMax](_ => Entry(0, 0, 0));
      off := new nat[1 + 3 * nMax](_ => 0);
      count, offLen, savedOff, flash := 0, 0, [], [];
      minutes, fracMs, lastUptime, savedMinutes := 0, 0, 0, 0;
    }

    /** The first `out` channels and triples of the output are those of the list. */
    ghost predicate Written(out: nat, list: seq<Offence>)
      requires off.Length == 1 + 3 * nMax && quarantine.channels.Length == nMax
      reads this, off, quarantine, quarantine.channels
    {
      && out == |list| <= nMax
      && quarantine.channels[..out] == Channels(list)
      && off[1..1 + 3 * out] == Triples(list)
    }

    method WriteOut(o: Offence, out: nat, ghost list: seq<Offence>)
      requires Valid() && out < nMax && Written(out, list)
      modifies off, quarantine.channels
      ensures Valid() && View() == old(View()) && quarantine.View().expires == old(quarantine.View().expires)
      ensures Written(out + 1, list + [o])
    {
      hide Triples;
      var p := 1 + 3 * out;
      quarantine.channels[out] := o.channel;
      off[p], off[p + 1], off[p + 2] := o.channel, o.hits % 256, o.hits / 256;
      TriplesPush(list, o);
      assert off[1..p + 3] == off[1..p] + [off[p], off[p + 1], off[p + 2]];
    }

    /** `persist_rebuild_avoided`: the avoided set and its bytes are the top n. */
    method Rebuild(n: nat, rendezvous: nat) returns (ghost picks: seq<nat>)
      requires Valid() && n <= nMax
      modifies this`offLen, off, quarantine`count, quarantine.channels
      ensures Valid() && View() == old(View())
      ensures quarantine.View().expires == old(quarantine.View().expires)
      ensures IsTop(View(), threshold, rendezvous, n, picks)
      ensures Avoided() == Channels(Listed(View(), picks)) && OffBytes() == Serialized(Listed(View(), picks))
    {
      hide Sound, Dominated, Exhausted, Eligible, Before, Triples, Serialized, Channels, Quarantine.Sized;
      StartRanked(View(), threshold, rendezvous);
      var used := new bool[hits.Length](_ => false);
      var out := 0;
      picks := [];
      ghost var list: seq<Offence> := [];
      while out < n
        invariant out == |picks| <= n && Valid() && View() == old(View())
        invariant quarantine.View().expires == old(quarantine.View().expires)
        invariant forall k: nat :: k < used.Length ==> (used[k] <==> k in picks)
        invariant Ranked(View(), threshold, rendezvous, picks) && Dominated(View(), threshold, rendezvous, picks)
        invariant list == Listed(View(), picks) && Written(out, list)
      {
        var found, best := NextWorst(used, rendezvous);
        if !found {
          NoneLeft(View(), threshold, rendezvous, picks);
          break;
        }
        PickExtends(View(), threshold, rendezvous, picks, best);
        used[best] := true;
        var o := Offence(hits[best].channel, hits[best].hits);
        WriteOut(o, out, list);
        picks, list, out := picks + [best], list + [o], out + 1;
      }
      Finish(out, list);
    }

    method Finish(out: nat, ghost list: seq<Offence>)
      requires Valid() && Written(out, list)
      modifies this`offLen, off, quarantine`count
      ensures Valid() && View() == old(View()) && quarantine.View().expires == old(quarantine.View().expires)
      ensures Avoided() == Channels(list) && OffBytes() == Serialized(list)
    {
      quarantine.count := out;
      off[0] := out;
      offLen := 1 + 3 * out;
      assert off[..offLen] == [out] + off[1..1 + 3 * out];
    }

    /** `persist_write` */
    method Write()
      requires Valid()
      modifies this`flash, this`savedOff, this`savedMinutes
      ensures Valid() && flash == Encoded(minutes, OffBytes())
      ensures savedOff == OffBytes() && savedMinutes == Saturated(minutes)
    {
      var acc := if minutes > 0xFFFF then 0xFFFF else minutes;
      flash := [acc % 256, acc / 256] + off[..offLen];
      savedOff := off[..offLen];
      savedMinutes := acc;
    }

    /** `persist_work_fn` */
    method Distill(n: nat, rendezvous: nat) returns (ghost picks: seq<nat>)
      requires Valid() && n <= nMax
      modifies this`offLen, off, quarantine`count, quarantine.channels
      modifies this`flash, this`savedOff, this`savedMinutes
      ensures Valid() && View() == old(View()) && IsTop(View(), threshold, rendezvous, n, picks)
      ensures Avoided() == Channels(Listed(View(), picks))
      ensures OffBytes() == savedOff == Serialized(Listed(View(), picks))
      ensures if savedOff == old(savedOff) then flash == old(flash) else flash == Encoded(minutes, savedOff)
    {
      picks := Rebuild(n, rendezvous);
      if off[..offLen] != savedOff {
        Write();
      }
    }

    /** `persist_decay_apply`, compacting in place. */
    method AgeBy(periods: nat)
      requires Valid()
      modifies this`count, hits
      ensures Valid() && View() == Decay(old(View()), periods)
    {
      ghost var was := View();
      DecayKeepsSound(was, periods, hits.Length);
      hide Sound, Quarantine.Sized, Decay;
      var w := 0;
      for i := 0 to count
        invariant count == |was| && w <= i && hits[..w] == Decay(was[..i], periods)
        invariant hits[i..count] == was[i..]
      {
        DecayTakes(was, i, periods);
        assert hits[i] == hits[i..count][0] == was[i];
        assert hits[i + 1..count] == hits[i..count][1..];
        if hits[i].hits > periods {
          hits[w] := Aged(hits[i], periods);
          w := w + 1;
        }
      }
      assert was[..count] == was;
      count := w;
    }

    method Advance(now: nat)
      requires fracMs < MINUTE && minutes <= 0xFFFF
      modifies this`fracMs, this`lastUptime, this`minutes
      ensures Timer() == Advanced(old(Timer()), now)
    {
      if now >= lastUptime {
        fracMs := (fracMs + (now - lastUptime)) % WORD;
      }
      lastUptime := now;
      if fracMs >= MINUTE {
        minutes := (minutes + fracMs / MINUTE) % WORD;
        fracMs := fracMs % MINUTE;
      }
    }

    /** The due periods taken off the clock and out of the table. */
    method Fire(period: nat, n: nat, rendezvous: nat) returns (ghost picks: seq<nat>)
      requires Valid() && n <= nMax && period > 0
      modifies this`minutes, this`count, hits, this`offLen, off, quarantine`count, quarantine.channels
      ensures Valid() && quarantine.View().expires == old(quarantine.View().expires)
      ensures minutes == Rest(old(minutes), period)
      ensures View() == Decay(old(View()), Whole(old(minutes), period))
      ensures IsTop(View(), threshold, rendezvous, n, picks) && Avoided() == Channels(Listed(View(), picks))
      ensures OffBytes() == Serialized(Listed(View(), picks))
    {
      hide Sound, IsTop, Whole, Rest, Serialized, Channels, Decay, Quarantine.Sized;
      WholeAndRest(minutes, period);
      var periods := Whole(minutes, period);
      minutes := minutes - periods * period;
      AgeBy(periods);
      picks := Rebuild(n, rendezvous);
    }

    /** `persist_decay_check` once decay is known to be on. */
    method CheckDue(period: nat, now: nat, n: nat, rendezvous: nat) returns (fired: bool, ghost picks: seq<nat>)
      requires Valid() && n <= nMax && fracMs < MINUTE && minutes <= 0xFFFF && period > 0
      modifies this`minutes, this`fracMs, this`lastUptime, this`savedMinutes, this`flash, this`savedOff
      modifies this`count, hits, this`offLen, off, quarantine`count, quarantine.channels
      ensures Valid() && quarantine.View().expires == old(quarantine.View().expires)
      ensures var r := Check(old(Timer()), period, now);
        && Timer() == r.clock && fired == (r.periods > 0) && View() == Decay(old(View()), r.periods)
        && flash == (if r.wrote then Encoded(minutes, OffBytes()) else old(flash))
        && savedOff == (if r.wrote then OffBytes() else old(savedOff))
      ensures if fired then IsTop(View(), threshold, rendezvous, n, picks) && Avoided() == Channels(Listed(View(), picks))
                            && OffBytes() == Serialized(Listed(View(), picks))
              else Avoided() == old(Avoided()) && OffBytes() == old(OffBytes())
    {
      hide Sound, IsTop, Advanced, Check, FlushStep, Whole, Rest, Encoded, Channels, Decay, Serialized, Saturated, Quarantine.Sized;
      CheckParts(Timer(), period, now);
      fired, picks := false, [];
      Advance(now);
      WholeAndRest(minutes, period);
      if minutes >= period {
        picks := Fire(period, n, rendezvous);
        fired := true;
      } else {
        StillPositive(View(), hits.Length);
        DecayByZero(View());
      }
      if fired || minutes >= savedMinutes + FlushStep(period) {
        Write();
      }
    }

    /** `persist_decay_check`; `fired` says whether a whole period was due. */
    method CheckDecay(period: nat, now: nat, n: nat, rendezvous: nat) returns (fired: bool, ghost picks: seq<nat>)
      requires Valid() && n <= nMax && fracMs < MINUTE && minutes <= 0xFFFF
      modifies this`minutes, this`fracMs, this`lastUptime, this`savedMinutes, this`flash, this`savedOff
      modifies this`count, hits, this`offLen, off, quarantine`count, quarantine.channels
      ensures Valid() && quarantine.View().expires == old(quarantine.View().expires)
      ensures period == 0 ==> !fired && Timer() == old(Timer()) && View() == old(View()) && flash == old(flash) && savedOff == old(savedOff)
      ensures period > 0 ==> var r := Check(old(Timer()), period, now);
        && Timer() == r.clock && fired == (r.periods > 0) && View() == Decay(old(View()), r.periods)
        && flash == (if r.wrote then Encoded(minutes, OffBytes()) else old(flash))
        && savedOff == (if r.wrote then OffBytes() else old(savedOff))
      ensures if fired then IsTop(View(), threshold, rendezvous, n, picks) && Avoided() == Channels(Listed(View(), picks))
                            && OffBytes() == Serialized(Listed(View(), picks))
              else Avoided() == old(Avoided()) && OffBytes() == old(OffBytes())
    {
      hide *;
      if period == 0 {
        return false, [];
      }
      fired, picks := CheckDue(period, now, n, rendezvous);
    }

    /** The body of the loop in `persist_settings_load_cb`. */
    method Merge(o: Offence)
      requires Valid() && o.hits <= HITS_MAX
      modifies this`count, hits
      ensures Valid() && View() == LoadOne(old(View()), o, hits.Length)
    {
      hide Quarantine.Sized;
      if o.channel >= Quarantine.CHANNELS {
        return;
      }
      var j := IndexOf(o.channel);
      if j < count {
        if o.hits > hits[j].hits {
          hits[j] := hits[j].(hits := o.hits);
        }
      } else if count < hits.Length {
        hits[count] := Entry(o.channel, if o.hits > 0 then o.hits else 1, 0);
        count := count + 1;
      }
    }

    /** `persist_settings_load_cb` for one copy of the record. */
    method LoadRecord(record: seq<nat>)
      requires Valid() && Bytes(record)
      modifies this`count, this`minutes, hits
      ensures Valid() && View() == Load(old(View()), record, hits.Length, 3 + 3 * nMax)
      ensures minutes == Minutes(old(minutes), record, 3 + 3 * nMax)
    {
      if |record| < 3 || |record| > 3 + 3 * nMax {
        return;
      }
      minutes := record[0] + 256 * record[1];
      var off := record[2..];
      var stored := off[0];
      if 1 + stored * 3 > |off| {
        stored := (|off| - 1) / 3;
      }
      LoadTriples(off, stored);
    }

    method LoadTriples(off: seq<nat>, stored: nat)
      requires Valid() && Bytes(off) && 1 + 3 * stored <= |off|
      modifies this`count, hits
      ensures Valid() && View() == LoadList(old(View()), off, stored, hits.Length)
    {
      hide Sound, LoadOne, Quarantine.Sized;
      for i := 0 to stored
        invariant Valid() && View() == LoadList(old(View()), off, i, hits.Length)
      {
        Merge(TripleOf(off, i));
      }
    }

    method Reset(now: nat)
      requires Valid()
      modifies this`minutes, this`fracMs, this`lastUptime, this`savedMinutes, this`savedOff, this`count, this`offLen
      ensures Valid() && View() == [] && minutes == fracMs == savedMinutes == 0 && lastUptime == now
    {
      count, offLen, savedOff := 0, 0, [];
      minutes, fracMs, lastUptime, savedMinutes := 0, 0, now, 0;
    }

    /** `persist_load` up to its boot check: everything is rebuilt from the record in
      * flash and nothing is written. */
    method Boot(n: nat, rendezvous: nat, now: nat) returns (ghost picks: seq<nat>)
      requires Valid() && n <= nMax && Bytes(flash)
      modifies this`minutes, this`fracMs, this`lastUptime, this`savedMinutes, this`savedOff
      modifies this`count, hits, this`offLen, off, quarantine`count, quarantine.channels
      ensures Valid() && quarantine.View().expires == old(quarantine.View().expires)
      ensures View() == Load([], flash, hits.Length, 3 + 3 * nMax)
      ensures Timer() == Clock(Minutes(0, flash, 3 + 3 * nMax), 0, now, Saturated(minutes))
      ensures IsTop(View(), threshold, rendezvous, n, picks) && Avoided() == Channels(Listed(View(), picks))
      ensures savedOff == OffBytes() == Serialized(Listed(View(), picks))
    {
      Reset(now);
      hide Sound, IsTop, Load, Minutes, Serialized, Channels, Quarantine.Sized;
      LoadRecord(flash);
      picks := Rebuild(n, rendezvous);
      savedOff := off[..offLen];
      savedMinutes := Saturated(minutes);
    }
  }

  function Channels(list: seq<Offence>): (chs: seq<nat>)
    ensures |chs| == |list|
  {
    seq(|list|, i requires 0 <= i < |list| => list[i].channel)
  }

  lemma DecayTakes(es: Table, i: nat, periods: nat)
    requires i < |es|
    ensures Decay(es[..i + 1], periods) ==
      Decay(es[..i], periods) + if es[i].hits > periods then [Aged(es[i], periods)] else []
  {
    assert es[..i + 1][..i] == es[..i];
  }

  lemma StillPositive(es: Table, size: nat)
    requires Sound(es, size)
    ensures forall i :: 0 <= i < |es| ==> es[i].hits > 0
  {
  }

  lemma StartRanked(es: Table, threshold: nat, rendezvous: nat)
    ensures Ranked(es, threshold, rendezvous, []) && Dominated(es, threshold, rendezvous, [])
  {
  }

  lemma NoneLeft(es: Table, threshold: nat, rendezvous: nat, picks: seq<nat>)
    requires forall k: nat :: k < |es| && k !in picks ==> !Eligible(es[k], threshold, rendezvous)
    ensures Exhausted(es, threshold, rendezvous, picks)
  {
  }

  /** Taking the worst entry left keeps the list ranked and dominating. */
  lemma PickExtends(es: Table, threshold: nat, rendezvous: nat, picks: seq<nat>, best: nat)
    requires Ranked(es, threshold, rendezvous, picks) && Dominated(es, threshold, rendezvous, picks)
    requires best < |es| && best !in picks && Eligible(es[best], threshold, rendezvous)
    requires forall k: nat :: k < |es| && k !in picks && k != best && Eligible(es[k], threshold, rendezvous) ==> Before(es, best, k)
    ensures Ranked(es, threshold, rendezvous, picks + [best]) && Dominated(es, threshold, rendezvous, picks + [best])
    ensures Listed(es, picks + [best]) == Listed(es, picks) + [Offence(es[best].channel, es[best].hits)]
  {
  }

  lemma TriplesPush(list: seq<Offence>, o: Offence)
    ensures Triples(list + [o]) == Triples(list) + [o.channel, o.hits % 256, o.hits / 256]
  {
  }

  lemma {:induction false} FindAt(es: Table, ch: nat, i: nat)
    requires i <= |es| && (i < |es| ==> es[i].channel == ch)
    requires forall k :: 0 <= k < i ==> es[k].channel != ch
    ensures Find(es, ch) == i
  {
  }

  /** A reboot right after a write restores the avoided set it was written with, whatever
    * record length the loader accepts, if the record written fits it. */
  lemma RebootKeepsAvoided(es: Table, size: nat, threshold: nat, rendezvous: nat, n: nat, maxLength: nat,
                           minutes: nat, picks: seq<nat>, again: seq<nat>)
    requires Sound(es, size) && n <= size && 3 + 3 * n <= maxLength && IsTop(es, threshold, rendezvous, n, picks)
    requires IsTop(Load([], Encoded(minutes, Serialized(Listed(es, picks))), size, maxLength), threshold, rendezvous, n, again)
    ensures var reloaded := Load([], Encoded(minutes, Serialized(Listed(es, picks))), size, maxLength);
      Channels(Listed(reloaded, again)) == Channels(Listed(es, picks))
  {
    var reloaded := Load([], Encoded(minutes, Serialized(Listed(es, picks))), size, maxLength);
    RebuildReproduces(es, size, threshold, rendezvous, n, maxLength, minutes, picks, again);
    var a, b := Listed(reloaded, again), Listed(es, picks);
    assert |a| == |b| by { assert Serialized(a)[0] == Serialized(b)[0]; }
    assert Triples(a) == Serialized(a)[1..] == Serialized(b)[1..] == Triples(b);
    forall i | 0 <= i < |a| ensures a[i].channel == b[i].channel {
      TripleAt(a, i);
      TripleAt(b, i);
    }
  }

  /** Index of a channel in the avoided list, or its length. */
  function Place(chs: seq<nat>, ch: nat): (i: nat)
    ensures i <= |chs| && (i < |chs| ==> chs[i] == ch)
    ensures forall k :: 0 <= k < i ==> chs[k] != ch
  {
    if chs == [] then 0
    else if chs[0] == ch then 0
    else 1 + Place(chs[1..], ch)
  }

  lemma PlaceAt(chs: seq<nat>, ch: nat, i: nat)
    requires i <= |chs| && (i < |chs| ==> chs[i] == ch)
    requires forall k :: 0 <= k < i ==> chs[k] != ch
    ensures Place(chs, ch) == i
  {
  }

  /** The avoided list without its first occurrence of a channel, closed by its last. */
  function Dropped(chs: seq<nat>, ch: nat): seq<nat> {
    var i := Place(chs, ch);
    if i < |chs| then chs[i := chs[|chs| - 1]][..|chs| - 1] else chs
  }

  /** Nothing is avoided twice, so one removal is enough. */
  lemma DroppedIsGone(chs: seq<nat>, ch: nat)
    requires forall i, j :: 0 <= i < j < |chs| ==> chs[i] != chs[j]
    ensures ch !in Dropped(chs, ch)
    ensures forall c: nat :: c in Dropped(chs, ch) <==> c in chs && c != ch
    ensures var after := Dropped(chs, ch); forall i, j :: 0 <= i < j < |after| ==> after[i] != after[j]
  {
    hide Place;
    var after, i := Dropped(chs, ch), Place(chs, ch);
    if i < |chs| {
      var last := |chs| - 1;
      assert |after| == last;
      assert forall k :: 0 <= k < last ==> after[k] == chs[if k == i then last else k];
      forall c: nat ensures c in after <==> c in chs && c != ch {
        if c in after {
          var k :| 0 <= k < last && after[k] == c;
          assert chs[if k == i then last else k] == c;
        }
        if c in chs && c != ch {
          var k :| 0 <= k < |chs| && chs[k] == c;
          assert after[if k == last then i else k] == c;
        }
      }
    }
  }
}
