/** Timed and persistent channel quarantine (src/esb/channel_hop.c). */
module Quarantine {
  import opened Clock32
  import opened Modulo

  const CHANNELS: nat := 101
  const INVALID: nat := 0xFF

  /** `expires[ch]` is the uptime at which the timed quarantine of ch ends, zero if
    * never set; `persistent` are the channels avoided for their record. */
  datatype State = State(expires: seq<nat>, persistent: seq<nat>)

  ghost predicate Sized(q: State) {
    |q.expires| == CHANNELS && forall ch :: 0 <= ch < CHANNELS ==> q.expires[ch] < WORD
  }

  function NoTimers(): (expires: seq<nat>)
    ensures |expires| == CHANNELS && forall ch :: 0 <= ch < CHANNELS ==> expires[ch] == 0
  {
    seq(CHANNELS, _ => 0)
  }

  const EMPTY := State(NoTimers(), [])

  predicate Timed(q: State, ch: nat, now: nat)
    requires |q.expires| == CHANNELS && ch < CHANNELS
  {
    q.expires[ch] != 0 && Ahead(q.expires[ch], now)
  }

  /** `quarantine_is`; channels out of range are rejected too. */
  predicate Quarantined(q: State, ch: nat, now: nat)
    requires |q.expires| == CHANNELS
  {
    ch >= CHANNELS || ch in q.persistent || Timed(q, ch, now)
  }

  /** `quarantine_add`: the later expiry wins, compared as unsigned words. */
  function Held(q: State, ch: nat, holdMs: nat, now: nat): (after: State)
    requires |q.expires| == CHANNELS
    ensures |after.expires| == CHANNELS
  {
    var expiry := (now + holdMs) % WORD;
    if ch < CHANNELS && expiry > q.expires[ch] then q.(expires := q.expires[ch := expiry]) else q
  }

  function Lifted(q: State, ch: nat): (after: State)
    requires |q.expires| == CHANNELS && ch < CHANNELS
    ensures |after.expires| == CHANNELS
  {
    q.(expires := q.expires[ch := 0])
  }

  // ---- The 32-bit clock against true time ----

  /** The signed test on wrapped readings agrees with true time as long as the two
    * times are within 2^31 ms of each other. */
  lemma AheadIsTrueTime(deadline: nat, now: nat)
    requires -(HALF as int) <= deadline - now < HALF
    ensures Ahead(deadline % WORD, now % WORD) <==> deadline > now
  {
    WrappedDifference(deadline, now);
    var d := deadline - now;
    if d < 0 {
      DivModUnique(d, -1, d + WORD, WORD);
    } else {
      ModSmall(d, WORD);
    }
  }

  /** Subtracting wrapped readings is subtracting true times, modulo the word. */
  lemma WrappedDifference(a: nat, b: nat)
    ensures Elapsed(a % WORD, b % WORD) == (a - b) % WORD
  {
    DivModDecompose(a, WORD);
    DivModDecompose(b, WORD);
    var x := a % WORD - b % WORD;
    DivModDecompose(x, WORD);
    DivModUnique(a - b, x / WORD + a / WORD - b / WORD, x % WORD, WORD);
  }

  /** What was asked of one channel, in order. */
  datatype Request = Hold(at: nat, ms: nat) | Lift

  function Asked(q: State, ch: nat, requests: seq<Request>): (after: State)
    requires |q.expires| == CHANNELS && ch < CHANNELS
    ensures |after.expires| == CHANNELS
    decreases |requests|
  {
    if requests == [] then q else
      var q1 := match requests[0]
        case Hold(at, ms) => Held(q, ch, ms, at % WORD)
        case Lift => Lifted(q, ch);
      Asked(q1, ch, requests[1..])
  }

  /** Latest end of a hold asked for since the last lift, on an unbounded clock. */
  function Until(since: nat, requests: seq<Request>): nat
    decreases |requests|
  {
    if requests == [] then since else
      var since1 := match requests[0]
        case Hold(at, ms) => if at + ms > since then at + ms else since
        case Lift => 0;
      Until(since1, requests[1..])
  }

  /** While uptime and holds end before 2^31 ms, a channel is quarantined exactly
    * until the latest hold asked for since it was last lifted. */
  lemma {:induction false} TimedIsTrueTime(q: State, ch: nat, requests: seq<Request>, now: nat)
    requires |q.expires| == CHANNELS && ch < CHANNELS && q.expires[ch] < HALF && now < HALF
    requires forall r :: r in requests && r.Hold? ==> r.at + r.ms < HALF
    ensures Timed(Asked(q, ch, requests), ch, now) <==> now < Until(q.expires[ch], requests)
    decreases |requests|
  {
    if requests == [] {
      AheadIsTrueTime(q.expires[ch], now);
      ModSmall(q.expires[ch], WORD);
      ModSmall(now, WORD);
    } else {
      assert requests[0] in requests;
      match requests[0]
      case Hold(at, ms) =>
        ModSmall(at, WORD);
        ModSmall(at + ms, WORD);
        TimedIsTrueTime(Held(q, ch, ms, at % WORD), ch, requests[1..], now);
      case Lift =>
        TimedIsTrueTime(Lifted(q, ch), ch, requests[1..], now);
    }
  }

  /** In quarantine for `ms` milliseconds from the true time `at`. */
  ghost predicate HeldFor(q: State, ch: nat, at: nat, ms: nat)
    requires |q.expires| == CHANNELS && ch < CHANNELS
  {
    forall t: nat :: at <= t < at + ms ==> Timed(q, ch, t % WORD)
  }

  /** `quarantine_add` promises a hold of at least `ms` from now. It keeps that promise
    * if and only if the new expiry is the larger word, or the old one still covers
    * the hold. It fails when the clock has wrapped past an old, larger expiry. */
  lemma AddHoldsExactly(q: State, ch: nat, at: nat, ms: nat)
    requires Sized(q) && ch < CHANNELS && 0 < ms < HALF
    ensures HeldFor(Held(q, ch, ms, at % WORD), ch, at, ms)
       <==> (at + ms) % WORD > q.expires[ch]
            || (q.expires[ch] != 0 && ms <= Elapsed(q.expires[ch], at % WORD) < HALF)
  {
    var e := Held(q, ch, ms, at % WORD).expires[ch];
    WrappedSum(at, ms);
    if (at + ms) % WORD > q.expires[ch] {
      forall t: nat | at <= t < at + ms
        ensures Timed(Held(q, ch, ms, at % WORD), ch, t % WORD)
      {
        AheadIsTrueTime(at + ms, t);
      }
    } else {
      var left := Elapsed(e, at % WORD);
      if e != 0 && ms <= left < HALF {
        forall t: nat | at <= t < at + ms
          ensures Timed(q, ch, t % WORD)
        {
          RemainingAt(e, at, t - at);
        }
      } else {
        RemainingAt(e, at, 0);
        if e != 0 && 0 < left < ms {
          RemainingAt(e, at, left);
          assert !Timed(q, ch, (at + left) % WORD);
        } else {
          assert !Timed(q, ch, at % WORD);
        }
      }
    }
  }

  lemma WrappedSum(at: nat, ms: nat)
    ensures (at % WORD + ms) % WORD == (at + ms) % WORD
  {
    DivModDecompose(at, WORD);
    var x := at % WORD + ms;
    DivModDecompose(x, WORD);
    DivModUnique(at + ms, at / WORD + x / WORD, x % WORD, WORD);
  }

  /** After `d` ms the remaining time of an expiry has shrunk by d. */
  lemma RemainingAt(e: nat, at: nat, d: nat)
    requires e < WORD && d <= Elapsed(e, at % WORD)
    ensures Elapsed(e, (at + d) % WORD) == Elapsed(e, at % WORD) - d
  {
    ModSmall(e, WORD);
    WrappedDifference(e, at);
    WrappedDifference(e, at + d);
    var left := Elapsed(e, at % WORD);
    DivModDecompose(e - at, WORD);
    DivModUnique(e - (at + d), (e - at) / WORD, left - d, WORD);
  }

  /** The wrap in numbers: an expiry 10 ms before the wrap swallows a five-minute hold
    * asked for 20 ms later. */
  lemma HoldLostAtWrap(q: State)
    requires Sized(q) && q.expires[7] == WORD - 10
    ensures !HeldFor(Held(q, 7, 300000, (WORD + 10) % WORD), 7, WORD + 10, 300000)
  {
    AddHoldsExactly(q, 7, WORD + 10, 300000);
  }

  // ---- The store the picker and the hop manager share ----

  /** `struct quarantine_state`. */
  class Store {
    const expires: array<nat>
    const channels: array<nat>
    var count: nat

    ghost predicate Valid()
      reads this, expires, channels
    {
      expires != channels && expires.Length == CHANNELS && count <= channels.Length && Sized(View())
    }

    ghost function View(): State
      reads this, expires, channels
      requires count <= channels.Length
    {
      State(expires[..], channels[..count])
    }

    constructor (persistSize: nat)
      ensures Valid() && View() == EMPTY && channels.Length == persistSize
      ensures fresh(expires) && fresh(channels)
    {
      expires := new nat[CHANNELS](_ => 0);
      channels := new nat[persistSize](_ => 0);
      count := 0;
    }

    /** `quarantine_reset` */
    method Reset()
      requires Valid()
      modifies this, expires
      ensures Valid() && View() == EMPTY
    {
      for i := 0 to CHANNELS
        invariant expires.Length == CHANNELS && forall k :: 0 <= k < i ==> expires[k] == 0
      {
        expires[i] := 0;
      }
      count := 0;
    }

    /** `quarantine_add`, at uptime `now`. */
    method Add(ch: nat, holdMs: nat, now: nat)
      requires Valid()
      modifies expires
      ensures Valid() && View() == Held(old(View()), ch, holdMs, now)
    {
      if ch >= CHANNELS {
        return;
      }
      var expiry := (now + holdMs) % WORD;
      if expiry > expires[ch] {
        expires[ch] := expiry;
      }
    }

    /** `expires_at[ch] = 0` */
    method Clear(ch: nat)
      requires Valid() && ch < CHANNELS
      modifies expires
      ensures Valid() && View() == Lifted(old(View()), ch)
    {
      expires[ch] := 0;
    }

    /** `persistent_quarantine_contains` */
    method Avoids(ch: nat) returns (found: bool)
      requires Valid()
      ensures found == (ch in View().persistent)
    {
      for i := 0 to count
        invariant ch !in channels[..i]
      {
        if channels[i] == ch {
          return true;
        }
      }
      return false;
    }

    /** `timed_quarantine_is` */
    method IsTimed(ch: nat, now: nat) returns (yes: bool)
      requires Valid() && ch < CHANNELS
      ensures yes == Timed(View(), ch, now)
    {
      yes := expires[ch] != 0 && 0 < (expires[ch] - now) % WORD < HALF;
    }

    /** `quarantine_is` */
    method Is(ch: nat, now: nat) returns (yes: bool)
      requires Valid()
      ensures yes == Quarantined(View(), ch, now)
    {
      if ch >= CHANNELS {
        return true;
      }
      var avoided := Avoids(ch);
      if avoided {
        return true;
      }
      yes := IsTimed(ch, now);
    }

    /** `quarantine_count` */
    method Count(now: nat) returns (n: nat)
      requires Valid()
      ensures n == |set ch: nat | ch < CHANNELS && Quarantined(View(), ch, now)|
    {
      hide Quarantined, Sized;
      n := 0;
      ghost var seen: set<nat> := {};
      for ch := 0 to CHANNELS
        invariant seen == set c: nat | c < ch && Quarantined(View(), c, now)
        invariant n == |seen|
      {
        var yes := Is(ch, now);
        if yes {
          n := n + 1;
          seen := seen + {ch};
        }
      }
    }
  }
}
