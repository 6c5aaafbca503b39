/** Choice of a channel to hop to (src/esb/channel_hop.c): distance relaxation around
  * quarantined channels, then a uniform or RSSI-weighted draw. */
module Picker {
  import opened Draw
  import opened Quarantine

  // ---- What the picker is for ----

  function Distance(a: nat, b: nat): nat {
    if a < b then b - a else a - b
  }

  /** A channel keeps its distance when every timed-quarantined channel and the channel
    * to avoid are more than d away, and every persistent offender more than d/2. At
    * d = 0 this only says that the channel is none of these itself. */
  ghost predicate Allowed(q: State, d: nat, avoid: nat, ch: nat, now: nat)
    requires |q.expires| == CHANNELS
  {
    && ch < CHANNELS
    && (forall i: nat :: i < CHANNELS && Timed(q, i, now) ==> Distance(i, ch) > d)
    && (forall i: nat :: i < CHANNELS && i in q.persistent ==> Distance(i, ch) > d / 2)
    && (avoid < CHANNELS ==> Distance(avoid, ch) > d)
  }

  /** With no distance to keep, a channel is allowed exactly when it is neither
    * quarantined nor the channel to avoid. */
  lemma AllowedAtZero(q: State, avoid: nat, ch: nat, now: nat)
    requires |q.expires| == CHANNELS && ch < CHANNELS
    ensures Allowed(q, 0, avoid, ch, now) <==> !Quarantined(q, ch, now) && ch != avoid
  {
    if !Quarantined(q, ch, now) && ch != avoid {
      forall i: nat | i < CHANNELS && Timed(q, i, now) ensures Distance(i, ch) > 0 {
      }
      forall i: nat | i < CHANNELS && i in q.persistent ensures Distance(i, ch) > 0 {
      }
    } else {
      assert Distance(ch, ch) == 0;
    }
  }

  /** In channel numbers: a channel in band is allowed if and only if no timed-quarantined channel
    * and not the one to avoid is within d of it, and twice the way to every offender is more
    * than d. */
  lemma AllowedExactly(q: State, d: nat, avoid: nat, ch: nat, now: nat)
    requires |q.expires| == CHANNELS
    ensures Allowed(q, d, avoid, ch, now) <==>
      && ch < CHANNELS && !(avoid < CHANNELS && avoid <= ch + d && ch <= avoid + d)
      && (forall i: nat :: i < CHANNELS && Timed(q, i, now) ==> !(i <= ch + d && ch <= i + d))
      && (forall i: nat :: i in q.persistent && i < CHANNELS ==> 2 * (i - ch) > d || 2 * (ch - i) > d)
  {
    forall i: nat
      ensures Distance(i, ch) > d <==> !(i <= ch + d && ch <= i + d)
      ensures Distance(i, ch) > d / 2 <==> 2 * (i - ch) > d || 2 * (ch - i) > d
    {
    }
  }

  /** Keeping a larger distance keeps every smaller one. */
  lemma AllowedShrinks(q: State, d: nat, smaller: nat, avoid: nat, ch: nat, now: nat)
    requires |q.expires| == CHANNELS && smaller <= d && Allowed(q, d, avoid, ch, now)
    ensures Allowed(q, smaller, avoid, ch, now)
  {
  }

  /** The best possible pick: one that keeps every distance up to the one asked for that
    * any channel keeps. */
  ghost predicate Best(q: State, minDistance: nat, avoid: nat, pick: nat, now: nat)
    requires |q.expires| == CHANNELS
  {
    && Allowed(q, 0, avoid, pick, now)
    && forall d: nat, ch: nat :: d <= minDistance && Allowed(q, d, avoid, ch, now)
         ==> Allowed(q, d, avoid, pick, now)
  }

  // ---- The filter loops ----

  /** `within_distance_of_quarantine` */
  method WithinTimed(q: Store, ch: nat, d: nat, now: nat) returns (near: bool)
    requires q.Valid() && ch < CHANNELS
    ensures near <==> exists i: nat :: i < CHANNELS && i != ch && Timed(q.View(), i, now) && Distance(i, ch) <= d
  {
    var i: int := ch - d;
    while i <= ch + d
      invariant ch - d <= i <= ch + d + 1
      invariant forall k: nat :: k < i && k < CHANNELS && k != ch && Timed(q.View(), k, now) ==> Distance(k, ch) > d
    {
      if 0 <= i < CHANNELS && i != ch {
        var timed := q.IsTimed(i, now);
        if timed {
          assert Distance(i, ch) <= d;
          return true;
        }
      }
      i := i + 1;
    }
    return false;
  }

  /** `within_distance_of_persistent` */
  method WithinPersistent(q: Store, ch: nat, d: nat) returns (near: bool)
    requires q.Valid() && ch < CHANNELS
    ensures near <==> exists i: nat :: i < CHANNELS && i != ch && i in q.View().persistent && Distance(i, ch) <= d
  {
    var i: int := ch - d;
    while i <= ch + d
      invariant ch - d <= i <= ch + d + 1
      invariant forall k: nat :: k < i && k < CHANNELS && k != ch && k in q.View().persistent ==> Distance(k, ch) > d
    {
      if 0 <= i < CHANNELS && i != ch {
        var avoided := q.Avoids(i);
        if avoided {
          assert Distance(i, ch) <= d;
          return true;
        }
      }
      i := i + 1;
    }
    return false;
  }

  /** The tests of one round of `channel_hop_pick_weighted` on one channel. */
  method Passes(q: Store, d: nat, avoid: nat, ch: nat, now: nat) returns (pass: bool)
    requires q.Valid() && ch < CHANNELS
    ensures pass <==> Allowed(q.View(), d, avoid, ch, now)
  {
    AllowedAtZero(q.View(), avoid, ch, now);
    if Allowed(q.View(), d, avoid, ch, now) {
      AllowedShrinks(q.View(), d, 0, avoid, ch, now);
    }
    var quarantined := q.Is(ch, now);
    if quarantined || ch == avoid {
      return false;
    }
    if d > 0 {
      var near := WithinTimed(q, ch, d, now);
      if near {
        return false;
      }
    }
    if d > 1 {
      var near := WithinPersistent(q, ch, d / 2);
      if near {
        return false;
      }
    }
    if d > 0 && avoid < CHANNELS {
      var delta: int := ch - avoid;
      if (if delta < 0 then -delta else delta) <= d {
        return false;
      }
    }
    return true;
  }

  /** The channels that pass at distance d, in ascending order. */
  ghost predicate IsRound(q: State, d: nat, avoid: nat, now: nat, upTo: nat, candidates: seq<nat>)
    requires |q.expires| == CHANNELS
  {
    && (forall ch: nat :: ch in candidates <==> ch < upTo && Allowed(q, d, avoid, ch, now))
    && (forall i, j :: 0 <= i < j < |candidates| ==> candidates[i] < candidates[j])
  }

  method Round(q: Store, d: nat, avoid: nat, now: nat, candidates: array<nat>) returns (count: nat)
    requires q.Valid() && candidates.Length == CHANNELS
    requires candidates != q.expires && candidates != q.channels
    modifies candidates
    ensures count <= CHANNELS && q.Valid() && q.View() == old(q.View())
    ensures IsRound(q.View(), d, avoid, now, CHANNELS, candidates[..count])
  {
    count := 0;
    for ch := 0 to CHANNELS
      invariant count <= ch && q.Valid() && q.View() == old(q.View())
      invariant IsRound(q.View(), d, avoid, now, ch, candidates[..count])
    {
      var pass := Passes(q, d, avoid, ch, now);
      ghost var before := candidates[..count];
      assert forall i :: 0 <= i < count ==> before[i] in before;
      if pass {
        candidates[count] := ch;
        count := count + 1;
        assert candidates[..count] == before + [ch];
      }
    }
  }

  // ---- The pick ----

  /** How one round's candidates are drawn from: uniformly without a tracker. */
  ghost predicate DrawnFrom(candidates: seq<nat>, rssi: Tracker?, cfg: Config, draw: nat, pick: nat)
    requires rssi != null ==> rssi.Valid() && Sane(cfg) && InBand(candidates) && |candidates| <= CHANNELS
    reads rssi, if rssi != null then {rssi.ewma} else {}
  {
    candidates != [] &&
    if rssi == null || Lowest(Samples(rssi.ewma[..], candidates)) == NONE then
      pick == candidates[draw % |candidates|]
    else
      exists i: nat :: i < |candidates| && pick == candidates[i] &&
        var samples := Samples(rssi.ewma[..], candidates);
        Owns(Weights(cfg, samples), i, Residue(cfg, samples, draw))
  }

  lemma RoundInBand(q: State, d: nat, avoid: nat, now: nat, candidates: seq<nat>)
    requires |q.expires| == CHANNELS && IsRound(q, d, avoid, now, CHANNELS, candidates)
    ensures InBand(candidates)
  {
    assert forall i :: 0 <= i < |candidates| ==> candidates[i] in candidates;
  }

  /** A candidate of the first round that has any is the best possible pick. */
  lemma FirstRoundIsBest(q: State, minDistance: nat, d: nat, avoid: nat, now: nat, candidates: seq<nat>, pick: nat)
    requires |q.expires| == CHANNELS && d <= minDistance
    requires IsRound(q, d, avoid, now, CHANNELS, candidates) && pick in candidates
    requires forall e: nat, ch: nat :: d < e <= minDistance ==> !Allowed(q, e, avoid, ch, now)
    ensures Best(q, minDistance, avoid, pick, now)
  {
    AllowedShrinks(q, d, 0, avoid, pick, now);
    forall e: nat, ch: nat | e <= minDistance && Allowed(q, e, avoid, ch, now)
      ensures Allowed(q, e, avoid, pick, now)
    {
      AllowedShrinks(q, d, e, avoid, pick, now);
    }
  }

  /** `channel_hop_pick_weighted`, with one PRNG word as `draw`. `d` is the distance the
    * pick was made at and `candidates` what it was drawn from. */
  method Pick(q: Store, minDistance: nat, avoid: nat, rssi: Tracker?, cfg: Config, draw: nat, now: nat)
    returns (pick: nat, ghost d: nat, ghost candidates: seq<nat>)
    requires q.Valid() && (rssi != null ==> rssi.Valid() && Sane(cfg))
    ensures pick == INVALID <==> forall ch: nat :: ch < CHANNELS ==> Quarantined(q.View(), ch, now) || ch == avoid
    ensures pick != INVALID ==> Best(q.View(), minDistance, avoid, pick, now)
    ensures pick != INVALID ==> d <= minDistance && IsRound(q.View(), d, avoid, now, CHANNELS, candidates)
    ensures pick != INVALID ==> |candidates| <= CHANNELS && InBand(candidates)
    ensures pick != INVALID ==> DrawnFrom(candidates, rssi, cfg, draw, pick)
  {
    var found := new nat[CHANNELS];
    var e: int := minDistance;
    while e >= 0
      invariant -1 <= e <= minDistance
      invariant forall k: nat, ch: nat :: e < k <= minDistance ==> !Allowed(q.View(), k, avoid, ch, now)
    {
      var count := Round(q, e, avoid, now, found);
      if count > 0 {
        d, candidates := e, found[..count];
        RoundInBand(q.View(), d, avoid, now, candidates);
        var index := draw % count;
        if rssi != null {
          index := rssi.WeightedIndex(cfg, found[..count], draw);
        }
        pick := found[index];
        assert candidates[index] in candidates;
        FirstRoundIsBest(q.View(), minDistance, d, avoid, now, candidates, pick);
        AllowedAtZero(q.View(), avoid, pick, now);
        return;
      }
      ghost var none := found[..count];
      assert forall ch: nat :: ch !in none ==> !Allowed(q.View(), e, avoid, ch, now);
      e := e - 1;
    }
    pick, d, candidates := INVALID, 0, [];
    forall ch: nat | ch < CHANNELS ensures Quarantined(q.View(), ch, now) || ch == avoid {
      AllowedAtZero(q.View(), avoid, ch, now);
    }
  }
}
