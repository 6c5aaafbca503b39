/** What every run of the channel-hop manager keeps (src/esb/channel_hop_ep.c). */
module HopRuns {
  import opened HopManager
  import opened HitTable
  import opened Offenders
  import opened Quarantine
  import Evidence
  import Picker

  // ---- The invariant ----

  ghost predicate MaybeChannel(ch: nat) {
    ch == INVALID || ch < CHANNELS
  }

  ghost predicate RadioOk(r: Radio) {
    r.channel < CHANNELS && MaybeChannel(r.committed) && (r.synced ==> r.committed != INVALID)
  }

  /** The revert target is the channel just left: never the current one, and the last
    * known one unless that is the rendezvous channel. */
  ghost predicate RevertOk(cfg: Config, r: Radio) {
    && MaybeChannel(r.prev) && r.prev != r.channel
    && MaybeChannel(r.prevKnown) && r.prevKnown != cfg.rendezvous
    && (r.prev == INVALID || r.prev == cfg.rendezvous || r.prev == r.prevKnown)
  }

  ghost predicate CoopOk(c: Coop) {
    MaybeChannel(c.target) && c.seq_ < 256
  }

  ghost predicate DistinctChannels(chs: seq<nat>) {
    && (forall i :: 0 <= i < |chs| ==> chs[i] < CHANNELS)
    && (forall i, j :: 0 <= i < j < |chs| ==> chs[i] != chs[j])
  }

  /** The rendezvous channel is never timed out, and the avoided set is well formed. */
  ghost predicate QuarantineOk(cfg: Config, q: Quarantine.State) {
    cfg.rendezvous < CHANNELS && Sized(q) && q.expires[cfg.rendezvous] == 0 && DistinctChannels(q.persistent)
  }

  ghost predicate Inv(cfg: Config, s: Hopper) {
    && RadioOk(s.radio) && RevertOk(cfg, s.radio) && CoopOk(s.coop)
    && QuarantineOk(cfg, s.q) && HitTable.Sound(s.hits, cfg.tableSize)
  }

  /** The state `channel_hop_ep_init` leaves, with whatever flash held; the radio boots on
    * the rendezvous channel. */
  function Initial(cfg: Config, avoided: seq<nat>, hits: Table): Hopper {
    Hopper(Radio(cfg.rendezvous, INVALID, false, INVALID, INVALID, false, false, false),
           Timers(0, 0, 0, 0), Coop(CoopIdle, INVALID, 0, false), Quarantine.State(NoTimers(), avoided), hits)
  }

  lemma InitialInv(cfg: Config, avoided: seq<nat>, hits: Table)
    requires Sane(cfg) && DistinctChannels(avoided) && HitTable.Sound(hits, cfg.tableSize)
    ensures Inv(cfg, Initial(cfg, avoided, hits))
  {
  }

  // ---- One step ----

  lemma PickIsChannel(cfg: Config, s: Hopper, pick: nat, now: nat)
    requires |s.q.expires| == CHANNELS && PickOk(cfg, s, pick, now)
    ensures MaybeChannel(pick)
  {
    if pick != INVALID {
      assert Picker.Allowed(s.q, 0, s.radio.channel, pick, now);
    }
  }

  /** No legal event is stuck: whatever it does, the radio is asked for a real channel. */
  lemma LegalIsPossible(cfg: Config, s: Hopper, e: Event)
    requires Sane(cfg) && Inv(cfg, s) && Legal(cfg, s, e)
    ensures Possible(cfg, s, e)
  {
    if e.HopWork? {
      PickIsChannel(cfg, s, e.pick, e.now);
    }
  }

  lemma BanishedKeeps(cfg: Config, q: Quarantine.State, left: nat, holdMs: nat, now: nat)
    requires QuarantineOk(cfg, q)
    ensures QuarantineOk(cfg, Banished(cfg, q, left, holdMs, now))
    ensures Banished(cfg, q, left, holdMs, now).persistent == q.persistent
  {
  }

  lemma DroppedKeeps(q: Quarantine.State, ch: nat)
    requires DistinctChannels(q.persistent)
    ensures DistinctChannels(Evidence.Dropped(q.persistent, ch))
    ensures forall c: nat :: c in Evidence.Dropped(q.persistent, ch) <==> c in q.persistent && c != ch
  {
    Evidence.DroppedIsGone(q.persistent, ch);
    var after := Evidence.Dropped(q.persistent, ch);
    forall i | 0 <= i < |after| ensures after[i] < CHANNELS {
      assert after[i] in after && after[i] in q.persistent;
    }
  }

  lemma RedeemedKeeps(cfg: Config, q: Quarantine.State, ch: nat)
    requires QuarantineOk(cfg, q) && ch < CHANNELS
    ensures QuarantineOk(cfg, Redeemed(q, ch)) && Redeemed(q, ch).expires[ch] == 0
    ensures forall c: nat :: c in Redeemed(q, ch).persistent <==> c in q.persistent && c != ch
  {
    hide Evidence.Dropped, DistinctChannels;
    DroppedKeeps(q, ch);
  }

  lemma LandedQuarantine(cfg: Config, q: Quarantine.State, left: nat, plan: Plan)
    requires QuarantineOk(cfg, q) && plan.Hop? && plan.target < CHANNELS
    ensures QuarantineOk(cfg, LandedQ(cfg, q, left, plan))
    ensures forall c: nat :: c in LandedQ(cfg, q, left, plan).persistent ==> c in q.persistent
  {
    hide DistinctChannels, Redeemed, Banished;
    match plan.kind
    case Fallback => RedeemedKeeps(cfg, q, plan.target);
    case Revert =>
      RedeemedKeeps(cfg, q, plan.target);
      BanishedKeeps(cfg, Redeemed(q, plan.target), left, cfg.quarantineMs, plan.at);
    case Normal => BanishedKeeps(cfg, q, left, cfg.quarantineMs, plan.at);
    case Cooperative => BanishedKeeps(cfg, q, left, cfg.coopQuarantineMs, plan.at);
  }

  lemma LandedEvidence(cfg: Config, hits: Table, left: nat, plan: Plan)
    requires Sane(cfg) && HitTable.Sound(hits, cfg.tableSize) && plan.Hop?
    ensures HitTable.Sound(LandedHits(cfg, hits, left, plan), cfg.tableSize)
  {
    hide HitTable.Sound, Condemn, Reclaim;
    ReclaimRemoves(hits, plan.target, cfg.tableSize);
    CondemnKeepsSound(hits, left, cfg.tableSize, cfg.rendezvous);
    CondemnKeepsSound(Reclaim(hits, plan.target), left, cfg.tableSize, cfg.rendezvous);
  }

  lemma PlanIsMove(cfg: Config, s: Hopper, e: Event)
    requires Possible(cfg, s, e) && PlanOf(cfg, s, e).Hop?
    ensures var p := PlanOf(cfg, s, e); p.target < CHANNELS && p.target != s.radio.channel
  {
  }

  lemma LandedRadioOk(cfg: Config, r: Radio, plan: Plan)
    requires Sane(cfg) && RadioOk(r) && RevertOk(cfg, r)
    requires plan.Hop? && plan.target < CHANNELS && plan.target != r.channel
    ensures RadioOk(LandedRadio(cfg, r, plan)) && RevertOk(cfg, LandedRadio(cfg, r, plan))
  {
  }

  lemma LandedInv(cfg: Config, s: Hopper, e: Event)
    requires Sane(cfg) && Inv(cfg, s) && Possible(cfg, s, e) && PlanOf(cfg, s, e).Hop?
    ensures Inv(cfg, Apply(cfg, s, e))
    ensures forall c: nat :: c in Apply(cfg, s, e).q.persistent ==> c in s.q.persistent
  {
    hide QuarantineOk, HitTable.Sound, RadioOk, RevertOk, LandedRadio, LandedQ, LandedHits, LandedTimers, Decide, Legal;
    var plan := PlanOf(cfg, s, e);
    PlanIsMove(cfg, s, e);
    LandedRadioOk(cfg, s.radio, plan);
    LandedQuarantine(cfg, s.q, s.radio.channel, plan);
    LandedEvidence(cfg, s.hits, s.radio.channel, plan);
  }

  lemma QuietRadioOk(cfg: Config, s: Hopper, e: Event)
    requires |s.q.expires| == CHANNELS && RadioOk(s.radio) && RevertOk(cfg, s.radio) && Sane(cfg)
    ensures RadioOk(QuietRadio(cfg, s, e)) && RevertOk(cfg, QuietRadio(cfg, s, e))
    ensures QuietRadio(cfg, s, e).channel == s.radio.channel
  {
  }

  lemma QuietCoopOk(cfg: Config, s: Hopper, e: Event)
    requires |s.q.expires| == CHANNELS && CoopOk(s.coop) && RadioOk(s.radio) && Legal(cfg, s, e)
    ensures CoopOk(QuietCoop(cfg, s, e))
  {
    hide Quarantined, CooldownActive;
    if e.OfferWork? {
      PickIsChannel(cfg, s, e.pick, e.now);
    }
  }

  lemma RebuiltStores(cfg: Config, s: Hopper, e: Event)
    requires Sane(cfg) && QuarantineOk(cfg, s.q) && HitTable.Sound(s.hits, cfg.tableSize)
    requires e.Rebuild? && TopOfTable(cfg, Decay(s.hits, e.periods), e.picks) && InTable(s.hits, e.periods, e.picks)
    ensures QuarantineOk(cfg, QuietQ(cfg, s, e)) && HitTable.Sound(QuietHits(cfg, s, e), cfg.tableSize)
    ensures cfg.rendezvous !in QuietQ(cfg, s, e).persistent
  {
    var aged, n := Decay(s.hits, e.periods),
                   var n: nat :| IsTop(Decay(s.hits, e.periods), cfg.threshold, cfg.rendezvous, n, e.picks); n;
    DecayKeepsSound(s.hits, e.periods, cfg.tableSize);
    TopIsStorable(aged, cfg.tableSize, cfg.threshold, cfg.rendezvous, n, e.picks);
    var list := Listed(aged, e.picks);
    var chs := Evidence.Channels(list);
    forall i | 0 <= i < |chs| ensures chs[i] < CHANNELS && chs[i] != cfg.rendezvous {
      assert Eligible(aged[e.picks[i]], cfg.threshold, cfg.rendezvous);
      assert chs[i] == list[i].channel;
    }
    assert forall i, j :: 0 <= i < j < |chs| ==> list[i].channel != list[j].channel;
  }

  lemma QuietStores(cfg: Config, s: Hopper, e: Event)
    requires Sane(cfg) && Inv(cfg, s) && Possible(cfg, s, e)
    ensures QuarantineOk(cfg, QuietQ(cfg, s, e)) && HitTable.Sound(QuietHits(cfg, s, e), cfg.tableSize)
    ensures e.Connected? || cfg.rendezvous !in s.q.persistent ==> cfg.rendezvous !in QuietQ(cfg, s, e).persistent
  {
    hide Evidence.Dropped, DistinctChannels, HitTable.Sound, Decay, Reclaim, RadioOk, RevertOk, CoopOk, PlanOf;
    if e.Rebuild? {
      RebuiltStores(cfg, s, e);
    } else if e.Connected? {
      DroppedKeeps(s.q, cfg.rendezvous);
      ReclaimRemoves(s.hits, cfg.rendezvous, cfg.tableSize);
    }
  }

  lemma ApplyKeepsInv(cfg: Config, s: Hopper, e: Event)
    requires Sane(cfg) && Inv(cfg, s) && Possible(cfg, s, e)
    ensures Inv(cfg, Apply(cfg, s, e))
    ensures e.Connected? || cfg.rendezvous !in s.q.persistent ==> cfg.rendezvous !in Apply(cfg, s, e).q.persistent
  {
    if PlanOf(cfg, s, e).Hop? {
      LandedInv(cfg, s, e);
    } else {
      hide QuarantineOk, HitTable.Sound, RadioOk, RevertOk, CoopOk, PlanOf, Legal;
      hide QuietRadio, QuietCoop, QuietQ, QuietHits, QuietTimers;
      QuietRadioOk(cfg, s, e);
      QuietCoopOk(cfg, s, e);
      QuietStores(cfg, s, e);
    }
  }

  // ---- Runs ----

  ghost predicate Running(cfg: Config, s: Hopper, es: seq<Event>)
    decreases |es|
  {
    es != [] ==> Possible(cfg, s, es[0]) && Running(cfg, Apply(cfg, s, es[0]), es[1..])
  }

  ghost function After(cfg: Config, s: Hopper, es: seq<Event>): Hopper
    requires Running(cfg, s, es)
    decreases |es|
  {
    if es == [] then s else After(cfg, Apply(cfg, s, es[0]), es[1..])
  }

  /** The hops of a run, in order. */
  ghost function Log(cfg: Config, s: Hopper, es: seq<Event>): (log: seq<Plan>)
    requires Running(cfg, s, es)
    ensures forall i :: 0 <= i < |log| ==> log[i].Hop?
    decreases |es|
  {
    if es == [] then [] else
      (if PlanOf(cfg, s, es[0]).Hop? then [PlanOf(cfg, s, es[0])] else []) + Log(cfg, Apply(cfg, s, es[0]), es[1..])
  }

  lemma {:induction false} RunKeepsInv(cfg: Config, s: Hopper, es: seq<Event>)
    requires Sane(cfg) && Inv(cfg, s) && Running(cfg, s, es)
    ensures Inv(cfg, After(cfg, s, es))
    decreases |es|
  {
    hide Inv, Legal, Apply;
    if es != [] {
      ApplyKeepsInv(cfg, s, es[0]);
      RunKeepsInv(cfg, Apply(cfg, s, es[0]), es[1..]);
    }
  }

  ghost predicate RendezvousFree(cfg: Config, s: Hopper, now: nat)
    requires |s.q.expires| == CHANNELS
  {
    !Quarantined(s.q, cfg.rendezvous, now)
  }

  /** Once connected, and for ever after, the rendezvous channel is not quarantined. */
  lemma {:induction false} RendezvousStaysFree(cfg: Config, s: Hopper, es: seq<Event>, now: nat)
    requires Sane(cfg) && Inv(cfg, s) && Running(cfg, s, es)
    requires Connected in es || cfg.rendezvous !in s.q.persistent
    ensures Inv(cfg, After(cfg, s, es)) && RendezvousFree(cfg, After(cfg, s, es), now)
    decreases |es|
  {
    hide Legal, Apply, RadioOk, RevertOk, CoopOk, HitTable.Sound;
    if es != [] {
      ApplyKeepsInv(cfg, s, es[0]);
      assert Connected in es ==> es[0] == Connected || Connected in es[1..];
      RendezvousStaysFree(cfg, Apply(cfg, s, es[0]), es[1..], now);
    }
  }

  // ---- Every hop moves, and reverts do not follow each other ----

  /** Where the radio was before hop i. */
  function Origin(from: nat, log: seq<Plan>, i: nat): nat
    requires i < |log| && forall k :: 0 <= k < |log| ==> log[k].Hop?
  {
    if i == 0 then from else log[i - 1].target
  }

  /** Consecutive hops: the second leaves the channel the first reached, and at most one
    * of them is a revert. */
  ghost predicate WellChained(from: nat, log: seq<Plan>) {
    && (forall i :: 0 <= i < |log| ==> log[i].Hop? && log[i].target < CHANNELS)
    && (forall i: nat :: i < |log| ==> log[i].target != Origin(from, log, i))
    && (forall i :: 0 < i < |log| ==> !(log[i - 1].kind == Revert && log[i].kind == Revert))
  }

  lemma ChainPush(from: nat, plan: Plan, rest: seq<Plan>)
    requires plan.Hop? && plan.target < CHANNELS && plan.target != from && WellChained(plan.target, rest)
    requires plan.kind == Revert && rest != [] ==> rest[0].kind != Revert
    ensures WellChained(from, [plan] + rest)
  {
    var log := [plan] + rest;
    assert forall k :: 0 < k < |log| ==> log[k] == rest[k - 1];
    forall i: nat | i < |log| ensures log[i].target != Origin(from, log, i) {
      if i > 0 {
        assert rest[i - 1].target != Origin(plan.target, rest, i - 1);
      }
    }
    forall i | 0 < i < |log| ensures !(log[i - 1].kind == Revert && log[i].kind == Revert) {
      if i > 1 {
        assert log[i - 1] == rest[i - 2];
      }
    }
  }

  ghost predicate NoRevertNext(r: Radio) {
    r.prev == INVALID
  }

  lemma StepRevert(cfg: Config, s: Hopper, e: Event)
    requires Possible(cfg, s, e)
    ensures PlanOf(cfg, s, e).Hop? && PlanOf(cfg, s, e).kind == Revert ==> NoRevertNext(Apply(cfg, s, e).radio) && !NoRevertNext(s.radio)
    ensures !PlanOf(cfg, s, e).Hop? && NoRevertNext(s.radio) ==> NoRevertNext(Apply(cfg, s, e).radio)
    ensures !PlanOf(cfg, s, e).Hop? ==> Apply(cfg, s, e).radio.channel == s.radio.channel
    ensures PlanOf(cfg, s, e).Hop? ==> Apply(cfg, s, e).radio.channel == PlanOf(cfg, s, e).target
  {
  }

  lemma {:induction false} HopsAreChained(cfg: Config, s: Hopper, es: seq<Event>)
    requires Running(cfg, s, es)
    ensures WellChained(s.radio.channel, Log(cfg, s, es))
    ensures NoRevertNext(s.radio) && Log(cfg, s, es) != [] ==> Log(cfg, s, es)[0].kind != Revert
    decreases |es|
  {
    hide Legal, Apply, PlanOf;
    if es != [] {
      var next, plan := Apply(cfg, s, es[0]), PlanOf(cfg, s, es[0]);
      StepRevert(cfg, s, es[0]);
      HopsAreChained(cfg, next, es[1..]);
      if plan.Hop? {
        PlanIsMove(cfg, s, es[0]);
        ChainPush(s.radio.channel, plan, Log(cfg, next, es[1..]));
      } else {
        assert Log(cfg, s, es) == Log(cfg, next, es[1..]);
      }
    }
  }

  // ---- Bounded return to the rendezvous channel ----

  /** Neither an accepted CONFIRM nor a cooperative commit: nothing the peer asked for
    * steers the radio. */
  ghost predicate Unsteered(cfg: Config, s: Hopper, e: Event)
    requires |s.q.expires| == CHANNELS
  {
    && !(e.Confirm? && e.agreed < CHANNELS && !Quarantined(s.q, e.agreed, e.now))
    && !(e.CommitWork? && PlanOf(cfg, s, e).Hop?)
  }

  ghost predicate RunUnsteered(cfg: Config, s: Hopper, es: seq<Event>)
    requires Running(cfg, s, es)
    decreases |es|
  {
    es != [] ==> Unsteered(cfg, s, es[0]) && RunUnsteered(cfg, Apply(cfg, s, es[0]), es[1..])
  }

  /** Most hops that can pass before the rendezvous channel is reached. */
  function HopsHome(cfg: Config, r: Radio): nat {
    if r.channel == cfg.rendezvous then 0
    else if r.committed != INVALID then 3
    else if r.prev != INVALID && r.prev != cfg.rendezvous then 2
    else 1
  }

  lemma HomeDraws(cfg: Config, s: Hopper, e: Event)
    requires Sane(cfg) && Possible(cfg, s, e) && Unsteered(cfg, s, e)
    ensures var before, after := HopsHome(cfg, s.radio), HopsHome(cfg, Apply(cfg, s, e).radio);
      if PlanOf(cfg, s, e).Hop? then (if before > 0 then after < before else after <= 1) else after <= before
  {
  }

  ghost predicate Visits(log: seq<Plan>, ch: nat, from: nat, to: nat) {
    exists i :: from <= i < to && i < |log| && log[i].Hop? && log[i].target == ch
  }

  /** The rendezvous channel is reached within `HopsHome` hops. */
  lemma {:induction false} ReturnsHome(cfg: Config, s: Hopper, es: seq<Event>)
    requires Sane(cfg) && Running(cfg, s, es) && RunUnsteered(cfg, s, es)
    requires 0 < HopsHome(cfg, s.radio) <= |Log(cfg, s, es)|
    ensures Visits(Log(cfg, s, es), cfg.rendezvous, 0, HopsHome(cfg, s.radio))
    decreases |es|
  {
    hide Legal, Apply, PlanOf, Unsteered;
    if es != [] {
      var next := Apply(cfg, s, es[0]);
      HomeDraws(cfg, s, es[0]);
      StepRevert(cfg, s, es[0]);
      var log, rest := Log(cfg, s, es), Log(cfg, next, es[1..]);
      if HopsHome(cfg, next.radio) > 0 {
        ReturnsHome(cfg, next, es[1..]);
        var shift := |log| - |rest|;
        var i :| 0 <= i < HopsHome(cfg, next.radio) && i < |rest| && rest[i].Hop? && rest[i].target == cfg.rendezvous;
        assert log[i + shift] == rest[i];
      } else {
        assert log[0].target == cfg.rendezvous;
      }
    }
  }

  ghost predicate EverySecond(log: seq<Plan>, ch: nat) {
    && (forall i :: 0 <= i < |log| ==> log[i].Hop?)
    && (forall i :: 0 < i < |log| ==> log[i - 1].target == ch || log[i].target == ch)
  }

  lemma EverySecondPush(plan: Plan, rest: seq<Plan>, ch: nat)
    requires plan.Hop? && EverySecond(rest, ch)
    requires plan.target == ch || rest == [] || rest[0].target == ch
    ensures EverySecond([plan] + rest, ch)
  {
    var log := [plan] + rest;
    forall i | 0 < i < |log| ensures log[i - 1].target == ch || log[i].target == ch {
      assert log[i] == rest[i - 1];
      if i > 1 {
        assert log[i - 1] == rest[i - 2];
      }
    }
  }

  /** From then on at least every second hop goes there. */
  lemma {:induction false} EverySecondHopIsHome(cfg: Config, s: Hopper, es: seq<Event>)
    requires Sane(cfg) && Running(cfg, s, es) && RunUnsteered(cfg, s, es) && HopsHome(cfg, s.radio) <= 1
    ensures EverySecond(Log(cfg, s, es), cfg.rendezvous)
    ensures HopsHome(cfg, s.radio) == 1 && Log(cfg, s, es) != [] ==> Log(cfg, s, es)[0].target == cfg.rendezvous
    decreases |es|
  {
    hide Legal, Apply, PlanOf, Unsteered;
    if es != [] {
      var next, plan := Apply(cfg, s, es[0]), PlanOf(cfg, s, es[0]);
      HomeDraws(cfg, s, es[0]);
      StepRevert(cfg, s, es[0]);
      EverySecondHopIsHome(cfg, next, es[1..]);
      if plan.Hop? {
        EverySecondPush(plan, Log(cfg, next, es[1..]), cfg.rendezvous);
      } else {
        assert Log(cfg, s, es) == Log(cfg, next, es[1..]);
      }
    }
  }

  // ---- Two fixed points ----

  /** The pair the endpoint has settled on: the rendezvous channel and p. */
  ghost predicate Settled(cfg: Config, r: Radio, p: nat) {
    && p != cfg.rendezvous && p != INVALID && r.prevKnown == p && r.committed == INVALID
    && (r.channel == cfg.rendezvous || r.channel == p)
    && (r.prev == INVALID || r.prev == cfg.rendezvous || r.prev == p)
  }

  /** Back on the rendezvous channel with a last known channel, the pair is settled. */
  lemma SettlesOnArrival(cfg: Config, r: Radio)
    requires RevertOk(cfg, r) && r.channel == cfg.rendezvous && r.committed == INVALID && r.prevKnown != INVALID
    ensures Settled(cfg, r, r.prevKnown)
  {
  }

  /** A hop home that is not a fallback settles on the channel it left. */
  lemma HopHomeSettles(cfg: Config, s: Hopper, e: Event)
    requires Sane(cfg) && Inv(cfg, s) && Possible(cfg, s, e)
    requires PlanOf(cfg, s, e).Hop? && PlanOf(cfg, s, e).kind != Fallback && PlanOf(cfg, s, e).target == cfg.rendezvous
    ensures Settled(cfg, Apply(cfg, s, e).radio, s.radio.channel)
  {
  }

  lemma SettledStays(cfg: Config, s: Hopper, e: Event, p: nat)
    requires Sane(cfg) && Possible(cfg, s, e) && Unsteered(cfg, s, e) && !e.Disconnected?
    requires Settled(cfg, s.radio, p)
    ensures Settled(cfg, Apply(cfg, s, e).radio, p)
  {
  }

  ghost predicate Alternating(log: seq<Plan>, first: nat, second: nat) {
    forall i :: 0 <= i < |log| ==> log[i].Hop? && log[i].target == if i % 2 == 0 then first else second
  }

  lemma AlternatingPush(plan: Plan, rest: seq<Plan>, first: nat, second: nat)
    requires plan.Hop? && plan.target == first && Alternating(rest, second, first)
    ensures Alternating([plan] + rest, first, second)
  {
    var log := [plan] + rest;
    forall i | 0 <= i < |log| ensures log[i].Hop? && log[i].target == if i % 2 == 0 then first else second {
      if i > 0 {
        assert log[i] == rest[i - 1];
      }
    }
  }

  /** The other channel of the pair. */
  function Other(cfg: Config, p: nat, ch: nat): nat {
    if ch == cfg.rendezvous then p else cfg.rendezvous
  }

  /** From there every hop goes to the other of the two, fallbacks included. */
  lemma {:induction false} Alternates(cfg: Config, s: Hopper, es: seq<Event>, p: nat)
    requires Sane(cfg) && Running(cfg, s, es) && RunUnsteered(cfg, s, es) && Disconnected !in es
    requires Settled(cfg, s.radio, p)
    ensures Alternating(Log(cfg, s, es), Other(cfg, p, s.radio.channel), s.radio.channel)
    decreases |es|
  {
    hide Legal, Apply, PlanOf, Unsteered;
    if es != [] {
      var next, plan := Apply(cfg, s, es[0]), PlanOf(cfg, s, es[0]);
      SettledStays(cfg, s, es[0], p);
      StepRevert(cfg, s, es[0]);
      Alternates(cfg, next, es[1..], p);
      if plan.Hop? {
        PlanIsMove(cfg, s, es[0]);
        AlternatingPush(plan, Log(cfg, next, es[1..]), Other(cfg, p, s.radio.channel), s.radio.channel);
      } else {
        assert Log(cfg, s, es) == Log(cfg, next, es[1..]);
      }
    }
  }
}
