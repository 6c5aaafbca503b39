/** What the hop manager remembers of channels: over every run, the timed quarantine, the
  * evidence and the avoided set are what its hops, connections and rebuilds asked for. */
module HopStoresHistory {
  import opened Clock32
  import opened HopManager
  import opened HopRuns
  import opened HopHistory
  import opened HitTable
  import opened Quarantine
  import Evidence
  import S = SessionHits

  // ---- Evidence ----

  /** What one event says about channels. An ordinary hop and a revert condemn the channel they
    * leave, a revert and a fallback redeem the one they go to, a cooperative hop does neither;
    * a connection redeems the rendezvous channel. */
  ghost function Verdicts(cfg: Config, s: Hopper, e: Event): seq<S.Change>
    requires Possible(cfg, s, e)
  {
    var plan := PlanOf(cfg, s, e);
    if plan.Hop? then
      (if plan.kind == Revert || plan.kind == Fallback then [S.Reclaimed(plan.target)] else [])
      + (if (plan.kind == Normal || plan.kind == Revert) && Accepted(s.radio.channel, cfg.rendezvous)
         then [S.Condemned(s.radio.channel)] else [])
    else if e.Connected? then [S.Reclaimed(cfg.rendezvous)]
    else if e.Rebuild? then [S.AgedBy(e.periods)]
    else []
  }

  ghost function AllVerdicts(cfg: Config, s: Hopper, es: seq<Event>): seq<S.Change>
    requires Running(cfg, s, es)
    decreases |es|
  {
    if es == [] then [] else Verdicts(cfg, s, es[0]) + AllVerdicts(cfg, Apply(cfg, s, es[0]), es[1..])
  }

  lemma {:induction false} PlaySplit(es: Table, a: seq<S.Change>, b: seq<S.Change>, size: nat)
    requires 0 < size
    ensures S.Play(es, a + b, size) == S.Play(S.Play(es, a, size), b, size)
  {
    if b == [] {
      assert a + b == a;
    } else {
      assert (a + b)[..|a + b| - 1] == a + b[..|b| - 1];
      PlaySplit(es, a, b[..|b| - 1], size);
    }
  }

  lemma StepEvidence(cfg: Config, s: Hopper, e: Event)
    requires Possible(cfg, s, e)
    ensures Apply(cfg, s, e).hits == S.Play(s.hits, Verdicts(cfg, s, e), cfg.tableSize)
  {
    hide Reclaim, Record, Decay, Decide, Legal;
    hide LandedRadio, LandedTimers, LandedQ, QuietRadio, QuietTimers, QuietCoop, QuietQ;
    PlayTwo(s.hits, S.AgedBy(0), S.AgedBy(0), cfg.tableSize);
    var plan := PlanOf(cfg, s, e);
    if plan.Hop? {
      PlayTwo(s.hits, S.Reclaimed(plan.target), S.Condemned(s.radio.channel), cfg.tableSize);
      assert [S.Reclaimed(plan.target)] + [S.Condemned(s.radio.channel)] == [S.Reclaimed(plan.target), S.Condemned(s.radio.channel)];
      assert [] + [S.Condemned(s.radio.channel)] == [S.Condemned(s.radio.channel)];
      PlayTwo(s.hits, S.Condemned(s.radio.channel), S.AgedBy(0), cfg.tableSize);
    } else if e.Connected? {
      PlayTwo(s.hits, S.Reclaimed(cfg.rendezvous), S.AgedBy(0), cfg.tableSize);
    } else if e.Rebuild? {
      PlayTwo(s.hits, S.AgedBy(e.periods), S.AgedBy(0), cfg.tableSize);
    }
  }

  lemma PlayTwo(es: Table, a: S.Change, b: S.Change, size: nat)
    requires 0 < size
    ensures S.Play(es, [], size) == es && S.Play(es, [a], size) == S.After(es, a, size)
    ensures S.Play(es, [a, b], size) == S.After(S.After(es, a, size), b, size)
  {
    assert [a][..0] == [] && [a, b][..1] == [a];
  }

  /** Over every run the evidence is the history of those verdicts, and of nothing else. */
  lemma {:induction false} EvidenceIsHistory(cfg: Config, s: Hopper, es: seq<Event>)
    requires Running(cfg, s, es) && 0 < cfg.tableSize
    ensures After(cfg, s, es).hits == S.Play(s.hits, AllVerdicts(cfg, s, es), cfg.tableSize)
    decreases |es|
  {
    if es != [] {
      var next := Apply(cfg, s, es[0]);
      StepEvidence(cfg, s, es[0]);
      EvidenceIsHistory(cfg, next, es[1..]);
      PlaySplit(s.hits, Verdicts(cfg, s, es[0]), AllVerdicts(cfg, next, es[1..]), cfg.tableSize);
    }
  }

  // ---- Timed quarantine ----

  /** What one event asks for one channel: the channel left is held, for longer after a failure
    * than after a cooperative hop, unless it is the rendezvous channel or the hop a fallback;
    * a channel gone back to is lifted. */
  ghost function Asks(cfg: Config, s: Hopper, e: Event, ch: nat): seq<Request>
    requires Possible(cfg, s, e)
  {
    var plan := PlanOf(cfg, s, e);
    if !plan.Hop? then [] else
      (if ch == plan.target && (plan.kind == Revert || plan.kind == Fallback) then [Lift] else [])
      + if ch != s.radio.channel || ch == cfg.rendezvous || plan.kind == Fallback then []
        else [Hold(plan.at, if plan.kind == Cooperative then cfg.coopQuarantineMs else cfg.quarantineMs)]
  }

  ghost function AllAsks(cfg: Config, s: Hopper, es: seq<Event>, ch: nat): seq<Request>
    requires Running(cfg, s, es)
    decreases |es|
  {
    if es == [] then [] else Asks(cfg, s, es[0], ch) + AllAsks(cfg, Apply(cfg, s, es[0]), es[1..], ch)
  }

  lemma {:induction false} AskedSplit(q: Quarantine.State, ch: nat, a: seq<Request>, b: seq<Request>)
    requires |q.expires| == CHANNELS && ch < CHANNELS
    ensures Asked(q, ch, a + b) == Asked(Asked(q, ch, a), ch, b)
    decreases |a|
  {
    if a == [] {
      assert a + b == b;
    } else {
      assert (a + b)[1..] == a[1..] + b;
      var q1 := match a[0] case Hold(at, ms) => Held(q, ch, ms, at % WORD) case Lift => Lifted(q, ch);
      AskedSplit(q1, ch, a[1..], b);
    }
  }

  /** Requests about one channel depend on that channel's expiry only. */
  lemma {:induction false} AskedSame(q: Quarantine.State, r: Quarantine.State, ch: nat, requests: seq<Request>)
    requires |q.expires| == |r.expires| == CHANNELS && ch < CHANNELS && q.expires[ch] == r.expires[ch]
    ensures Asked(q, ch, requests).expires[ch] == Asked(r, ch, requests).expires[ch]
    decreases |requests|
  {
    if requests != [] {
      var q1 := match requests[0] case Hold(at, ms) => Held(q, ch, ms, at % WORD) case Lift => Lifted(q, ch);
      var r1 := match requests[0] case Hold(at, ms) => Held(r, ch, ms, at % WORD) case Lift => Lifted(r, ch);
      AskedSame(q1, r1, ch, requests[1..]);
    }
  }

  lemma HeldByReading(q: Quarantine.State, left: nat, ms: nat, at: nat)
    requires |q.expires| == CHANNELS
    ensures Held(q, left, ms, at % WORD) == Held(q, left, ms, at)
  {
    WrappedSum(at, ms);
  }

  lemma StepQuarantine(cfg: Config, s: Hopper, e: Event, ch: nat)
    requires Possible(cfg, s, e) && ch < CHANNELS && s.radio.channel < CHANNELS
    ensures |Apply(cfg, s, e).q.expires| == CHANNELS
    ensures Apply(cfg, s, e).q.expires[ch] == Asked(s.q, ch, Asks(cfg, s, e, ch)).expires[ch]
  {
    hide LandedRadio, LandedTimers, LandedHits, QuietRadio, QuietTimers, QuietCoop, QuietHits, Decide, Legal;
    var plan := PlanOf(cfg, s, e);
    if plan.Hop? {
      var ms := if plan.kind == Cooperative then cfg.coopQuarantineMs else cfg.quarantineMs;
      HeldByReading(s.q, s.radio.channel, ms, plan.at);
      HeldByReading(Lifted(s.q, plan.target), s.radio.channel, ms, plan.at);
      PlanIsMove(cfg, s, e);
      AskedOne(s.q, ch, plan.at, ms);
      assert [Lift] + [] == [Lift] && [] + [Hold(plan.at, ms)] == [Hold(plan.at, ms)];
    }
  }

  lemma AskedOne(q: Quarantine.State, ch: nat, at: nat, ms: nat)
    requires |q.expires| == CHANNELS && ch < CHANNELS
    ensures Asked(q, ch, []) == q && Asked(q, ch, [Lift]) == Lifted(q, ch)
    ensures Asked(q, ch, [Hold(at, ms)]) == Held(q, ch, ms, at % WORD)
  {
  }

  /** Over every run a channel's timed quarantine is what the hops asked for it; by
    * `Quarantine.TimedIsTrueTime` it then lasts exactly until the latest hold since the last
    * lift. */
  lemma {:induction false} QuarantineIsHistory(cfg: Config, s: Hopper, es: seq<Event>, ch: nat)
    requires Sane(cfg) && Inv(cfg, s) && Running(cfg, s, es) && ch < CHANNELS
    ensures |After(cfg, s, es).q.expires| == CHANNELS
    ensures After(cfg, s, es).q.expires[ch] == Asked(s.q, ch, AllAsks(cfg, s, es, ch)).expires[ch]
    decreases |es|
  {
    if es != [] {
      var next, asks := Apply(cfg, s, es[0]), Asks(cfg, s, es[0], ch);
      assert s.radio.channel < CHANNELS;
      ApplyKeepsInv(cfg, s, es[0]);
      hide Inv, Apply, Asked, Legal;
      StepQuarantine(cfg, s, es[0], ch);
      QuarantineIsHistory(cfg, next, es[1..], ch);
      AskedSame(next.q, Asked(s.q, ch, asks), ch, AllAsks(cfg, next, es[1..], ch));
      AskedSplit(s.q, ch, asks, AllAsks(cfg, next, es[1..], ch));
    }
  }

  // ---- The avoided set ----

  /** The channel an event takes out of the avoided set. */
  ghost predicate TakesOut(cfg: Config, s: Hopper, e: Event, ch: nat)
    requires Possible(cfg, s, e)
  {
    var plan := PlanOf(cfg, s, e);
    if plan.Hop? then (plan.kind == Revert || plan.kind == Fallback) && ch == plan.target
    else e.Connected? && ch == cfg.rendezvous
  }

  /** Picked by the latest rebuild, and not gone back to since. */
  ghost predicate StillAvoided(cfg: Config, s: Hopper, es: seq<Event>, ch: nat)
    requires Running(cfg, s, es)
  {
    if es == [] then ch in s.q.persistent
    else if Latest(es).Rebuild? then
      ch in Evidence.Channels(Offenders.Listed(Decay(Before(cfg, s, es).hits, Latest(es).periods), Latest(es).picks))
    else
      LastStep(cfg, s, es);
      !TakesOut(cfg, Before(cfg, s, es), Latest(es), ch) && StillAvoided(cfg, s, Front(es), ch)
  }

  lemma StepAvoided(cfg: Config, s: Hopper, e: Event, ch: nat)
    requires Possible(cfg, s, e) && DistinctChannels(s.q.persistent)
    ensures ch in Apply(cfg, s, e).q.persistent <==>
      if e.Rebuild? then ch in Evidence.Channels(Offenders.Listed(Decay(s.hits, e.periods), e.picks))
      else ch in s.q.persistent && !TakesOut(cfg, s, e, ch)
  {
    hide LandedRadio, LandedTimers, LandedHits, QuietRadio, QuietTimers, QuietCoop, QuietHits, Decide, Legal, DistinctChannels;
    hide Evidence.Dropped;
    var plan := PlanOf(cfg, s, e);
    if plan.Hop? { DroppedKeeps(s.q, plan.target); }
    if e.Connected? { DroppedKeeps(s.q, cfg.rendezvous); }
  }

  /** Over every run the avoided channels are those the latest rebuild picked and no revert,
    * fallback or connection took up again. */
  lemma {:induction false} AvoidedIsHistory(cfg: Config, s: Hopper, es: seq<Event>, ch: nat)
    requires Sane(cfg) && Inv(cfg, s) && Running(cfg, s, es)
    ensures ch in After(cfg, s, es).q.persistent <==> StillAvoided(cfg, s, es, ch)
  {
    if es != [] {
      LastStep(cfg, s, es);
      AvoidedIsHistory(cfg, s, Front(es), ch);
      RunKeepsInv(cfg, s, Front(es));
      StepAvoided(cfg, Before(cfg, s, es), Latest(es), ch);
      hide Running, After, Apply, PlanOf, Inv, Legal;
    }
  }
}
