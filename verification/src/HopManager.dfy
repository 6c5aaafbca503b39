/** The endpoint's channel-hop manager as a state machine (src/esb/channel_hop_ep.c): which
  * channel the next hop goes to, and what every event does to each part of the state.
  * Packets and radio results are events; a picker's choice is carried by the event that
  * asks for one. */
module HopManager {
  import opened Clock32
  import opened HitTable
  import opened Offenders
  import opened Quarantine
  import Evidence
  import Picker

  datatype Config = Config(rendezvous: nat, minDistance: nat, quarantineMs: nat, coopQuarantineMs: nat,
                           cooldownMs: nat, coopCooldownMs: nat, fallbackMs: nat, holdMs: nat,
                           tableSize: nat, threshold: nat, avoidMax: nat)

  ghost predicate Sane(cfg: Config) {
    cfg.rendezvous < CHANNELS && cfg.tableSize > 0 && cfg.threshold > 0
  }

  /** The channels in play; INVALID stands for none. `prev` is where a revert goes,
    * `prevKnown` the last channel held other than the rendezvous one. */
  datatype Radio = Radio(channel: nat, committed: nat, synced: bool, prev: nat, prevKnown: nat,
                         fallbackPending: bool, linkUp: bool, active: bool)

  datatype Timers = Timers(cooldownUntil: nat, linkEventAt: nat, holdUntil: nat, coopCooldownUntil: nat)

  datatype Phase = CoopIdle | Offered | Armed

  /** The cooperative-hop handshake. */
  datatype Coop = Coop(phase: Phase, target: nat, seq_: nat, offerInFlight: bool)

  datatype Hopper = Hopper(radio: Radio, timers: Timers, coop: Coop, q: Quarantine.State, hits: Table)

  datatype Event =
    | HopWork(pick: nat, ok: bool, now: nat)
    | TxSuccess(now: nat)
    | TxFailed(now: nat)
    | Confirm(agreed: nat, now: nat)
    | Request
    | Accept(agreed: nat, seq_: nat)
    | Degraded(now: nat)
    | OfferWork(pick: nat, sent: bool, now: nat)
    | CommitWork(ok: bool, now: nat)
    | Negotiate(now: nat)
    | UserTx
    | GoIdle
    | Connected
    | Disconnected
    | Rebuild(periods: nat, picks: seq<nat>)

  // ---- Where the next hop goes ----

  datatype Kind = Normal | Revert | Fallback | Cooperative

  datatype Plan = Stay | Hop(kind: Kind, target: nat, at: nat)

  /** A pre-agreed channel worth going to. */
  predicate Useful(s: Hopper, ch: nat, now: nat)
    requires |s.q.expires| == CHANNELS
  {
    ch != INVALID && ch != s.radio.channel && !Quarantined(s.q, ch, now)
  }

  function Towards(r: Radio, kind: Kind, target: nat, now: nat): Plan {
    if target == INVALID || target == r.channel then Stay else Hop(kind, target, now)
  }

  /** The decision of `hop_work_fn`. */
  function Decide(cfg: Config, s: Hopper, pick: nat, now: nat): Plan
    requires |s.q.expires| == CHANNELS
  {
    var r := s.radio;
    if r.fallbackPending then Towards(r, Fallback, cfg.rendezvous, now)
    else if r.prev != INVALID && r.prev != r.channel then Hop(Revert, r.prev, now)
    else if Useful(s, r.committed, now) then Hop(Normal, r.committed, now)
    else if r.channel != cfg.rendezvous then Towards(r, Normal, cfg.rendezvous, now)
    else if r.prevKnown != INVALID && r.prevKnown != r.channel then Hop(Normal, r.prevKnown, now)
    else Towards(r, Normal, pick, now)
  }

  /** The hop an event makes, if it makes one. */
  function PlanOf(cfg: Config, s: Hopper, e: Event): Plan
    requires |s.q.expires| == CHANNELS
  {
    match e
    case HopWork(pick, ok, now) => if ok then Decide(cfg, s, pick, now) else Stay
    case CommitWork(ok, now) =>
      if ok && s.coop.phase == Armed then Towards(s.radio, Cooperative, s.coop.target, now) else Stay
    case _ => Stay
  }

  // ---- What a successful hop does to each part ----

  function LandedRadio(cfg: Config, r: Radio, plan: Plan): Radio
    requires plan.Hop?
  {
    Radio(plan.target, INVALID, false,
          if plan.kind == Normal then r.channel else INVALID,
          if plan.kind == Fallback || r.channel == cfg.rendezvous then r.prevKnown else r.channel,
          r.fallbackPending && plan.kind == Cooperative, r.linkUp, r.active)
  }

  function LandedTimers(cfg: Config, t: Timers, plan: Plan): Timers
    requires plan.Hop?
  {
    Timers(Later(plan.at, cfg.cooldownMs), Stamp(plan.at),
           if plan.kind == Fallback && cfg.holdMs > 0 then Stamp(Later(plan.at, cfg.holdMs)) else t.holdUntil,
           if plan.kind == Cooperative then Later(plan.at, cfg.coopCooldownMs) else t.coopCooldownUntil)
  }

  /** A channel deliberately taken up again loses its quarantine. */
  function Redeemed(q: Quarantine.State, ch: nat): (after: Quarantine.State)
    requires |q.expires| == CHANNELS && ch < CHANNELS
    ensures |after.expires| == CHANNELS
  {
    Lifted(q, ch).(persistent := Evidence.Dropped(q.persistent, ch))
  }

  /** The channel left is quarantined, but never the rendezvous channel. */
  function Banished(cfg: Config, q: Quarantine.State, left: nat, holdMs: nat, now: nat): (after: Quarantine.State)
    requires |q.expires| == CHANNELS
    ensures |after.expires| == CHANNELS
  {
    if left == cfg.rendezvous then q else Held(q, left, holdMs, now)
  }

  function LandedQ(cfg: Config, q: Quarantine.State, left: nat, plan: Plan): Quarantine.State
    requires |q.expires| == CHANNELS && plan.Hop? && plan.target < CHANNELS
  {
    match plan.kind
    case Fallback => Redeemed(q, plan.target)
    case Revert => Banished(cfg, Redeemed(q, plan.target), left, cfg.quarantineMs, plan.at)
    case Normal => Banished(cfg, q, left, cfg.quarantineMs, plan.at)
    case Cooperative => Banished(cfg, q, left, cfg.coopQuarantineMs, plan.at)
  }

  /** Only hops driven by failures count against the channel left. */
  function LandedHits(cfg: Config, hits: Table, left: nat, plan: Plan): Table
    requires plan.Hop? && cfg.tableSize > 0
  {
    match plan.kind
    case Fallback => Reclaim(hits, plan.target)
    case Revert => Condemn(Reclaim(hits, plan.target), left, cfg.tableSize, cfg.rendezvous)
    case Normal => Condemn(hits, left, cfg.tableSize, cfg.rendezvous)
    case Cooperative => hits
  }

  function Landed(cfg: Config, s: Hopper, plan: Plan): Hopper
    requires |s.q.expires| == CHANNELS && plan.Hop? && plan.target < CHANNELS && cfg.tableSize > 0
  {
    Hopper(LandedRadio(cfg, s.radio, plan), LandedTimers(cfg, s.timers, plan),
           if plan.kind == Cooperative then s.coop.(phase := CoopIdle) else s.coop,
           LandedQ(cfg, s.q, s.radio.channel, plan), LandedHits(cfg, s.hits, s.radio.channel, plan))
  }

  // ---- What every other event does to each part ----

  predicate CooldownActive(until: nat, now: nat) {
    until != 0 && Ahead(until, now)
  }

  predicate OfferLost(s: Hopper) {
    s.coop.offerInFlight && s.coop.phase == Offered
  }

  predicate Holding(t: Timers, now: nat) {
    t.holdUntil != 0 && Ahead(t.holdUntil, now)
  }

  /** A failed transmission that gets as far as the cooldown gate. */
  predicate Counts(s: Hopper, now: nat) {
    !OfferLost(s) && s.radio.active && !Holding(s.timers, now)
  }

  /** Silence inside the cooldown long enough to force the rendezvous channel. */
  predicate Silent(cfg: Config, t: Timers, now: nat) {
    && CooldownActive(t.cooldownUntil, now) && cfg.fallbackMs > 0
    && t.linkEventAt != 0 && Elapsed(now, t.linkEventAt) >= cfg.fallbackMs
  }

  /** The failure asks for a run of the hop work: past the cooldown, or to force the
    * rendezvous channel for the first time. */
  predicate Submits(cfg: Config, s: Hopper, now: nat) {
    && Counts(s, now)
    && (!CooldownActive(s.timers.cooldownUntil, now) || (Silent(cfg, s.timers, now) && !s.radio.fallbackPending))
  }

  function QuietRadio(cfg: Config, s: Hopper, e: Event): Radio
    requires |s.q.expires| == CHANNELS
  {
    var r := s.radio;
    match e
    case HopWork(_, _, _) => r.(fallbackPending := false)
    case TxSuccess(_) => r.(prev := INVALID)
    case TxFailed(now) => if Counts(s, now) && Silent(cfg, s.timers, now) then r.(fallbackPending := true) else r
    case Confirm(agreed, now) =>
      if agreed >= CHANNELS then r
      else if Quarantined(s.q, agreed, now) then r.(synced := false)
      else r.(committed := agreed, synced := true)
    case Request => if r.linkUp then r.(synced := false) else r
    case Negotiate(now) => if r.linkUp && r.active && !Useful(s, r.committed, now) then r.(synced := false) else r
    case UserTx => if r.linkUp then r.(active := true) else r
    case GoIdle => r.(active := false)
    case Connected => r.(linkUp := true, active := true)
    case Disconnected => Radio(r.channel, INVALID, false, INVALID, INVALID, false, false, false)
    case _ => r
  }

  function QuietTimers(cfg: Config, s: Hopper, e: Event): Timers {
    match e
    case TxSuccess(now) => s.timers.(holdUntil := 0, linkEventAt := Stamp(now))
    case TxFailed(now) => if Counts(s, now) then s.timers.(holdUntil := 0) else s.timers
    case Disconnected => Timers(0, 0, 0, 0)
    case _ => s.timers
  }

  /** `coop_hop_pick_target` */
  function CoopTarget(s: Hopper, pick: nat, now: nat): nat
    requires |s.q.expires| == CHANNELS
  {
    if Useful(s, s.radio.committed, now) then s.radio.committed else pick
  }

  /** An OFFER goes out, or at least uses up a sequence number. */
  predicate Offers(s: Hopper, pick: nat, now: nat)
    requires |s.q.expires| == CHANNELS
  {
    && s.radio.linkUp && s.radio.active && s.coop.phase == Offered
    && CoopTarget(s, pick, now) != INVALID && CoopTarget(s, pick, now) != s.radio.channel
  }

  function OfferedCoop(s: Hopper, pick: nat, sent: bool, now: nat): Coop
    requires |s.q.expires| == CHANNELS
  {
    if Offers(s, pick, now) then
      Coop(if sent then Offered else CoopIdle, CoopTarget(s, pick, now), (s.coop.seq_ + 1) % 256, sent)
    else if s.coop.phase != Offered && s.radio.linkUp && s.radio.active then s.coop
    else s.coop.(phase := CoopIdle)
  }

  function QuietCoop(cfg: Config, s: Hopper, e: Event): Coop
    requires |s.q.expires| == CHANNELS
  {
    var c, t := s.coop, s.timers;
    match e
    case TxSuccess(_) => c.(phase := if OfferLost(s) then Armed else c.phase, offerInFlight := false)
    case TxFailed(_) => c.(phase := if OfferLost(s) then CoopIdle else c.phase, offerInFlight := false)
    case Accept(agreed, seq_) =>
      if seq_ == c.seq_ && c.phase != CoopIdle && agreed < CHANNELS then c.(target := agreed) else c
    case Degraded(now) =>
      if s.radio.linkUp && s.radio.active && c.phase == CoopIdle
         && !CooldownActive(t.cooldownUntil, now) && !CooldownActive(t.coopCooldownUntil, now)
      then c.(phase := Offered) else c
    case OfferWork(pick, sent, now) => OfferedCoop(s, pick, sent, now)
    case CommitWork(_, _) => if c.phase == Armed then c.(phase := CoopIdle) else c
    case GoIdle => if s.radio.active then c.(phase := CoopIdle, offerInFlight := false) else c
    case Disconnected => c.(phase := CoopIdle, offerInFlight := false)
    case _ => c
  }

  /** The entries a rebuild picks exist. */
  predicate InTable(hits: Table, periods: nat, picks: seq<nat>) {
    forall i :: 0 <= i < |picks| ==> picks[i] < |Decay(hits, periods)|
  }

  function QuietQ(cfg: Config, s: Hopper, e: Event): Quarantine.State
    requires e.Rebuild? ==> InTable(s.hits, e.periods, e.picks)
  {
    match e
    case Connected => s.q.(persistent := Evidence.Dropped(s.q.persistent, cfg.rendezvous))
    case Rebuild(periods, picks) => s.q.(persistent := Evidence.Channels(Listed(Decay(s.hits, periods), picks)))
    case _ => s.q
  }

  function QuietHits(cfg: Config, s: Hopper, e: Event): Table {
    match e
    case Connected => Reclaim(s.hits, cfg.rendezvous)
    case Rebuild(periods, picks) => Decay(s.hits, periods)
    case _ => s.hits
  }

  function Quiet(cfg: Config, s: Hopper, e: Event): Hopper
    requires |s.q.expires| == CHANNELS
    requires e.Rebuild? ==> InTable(s.hits, e.periods, e.picks)
  {
    Hopper(QuietRadio(cfg, s, e), QuietTimers(cfg, s, e), QuietCoop(cfg, s, e), QuietQ(cfg, s, e), QuietHits(cfg, s, e))
  }

  // ---- Steps ----

  /** What the environment may do: the picker keeps its contract, a rebuild takes the top. */
  ghost predicate Legal(cfg: Config, s: Hopper, e: Event)
    requires |s.q.expires| == CHANNELS
  {
    match e
    case HopWork(pick, _, now) => PickOk(cfg, s, pick, now)
    case OfferWork(pick, _, now) => PickOk(cfg, s, pick, now)
    case Rebuild(periods, picks) => TopOfTable(cfg, Decay(s.hits, periods), picks)
    case _ => true
  }

  ghost predicate PickOk(cfg: Config, s: Hopper, pick: nat, now: nat)
    requires |s.q.expires| == CHANNELS
  {
    pick == INVALID || Picker.Best(s.q, cfg.minDistance, s.radio.channel, pick, now)
  }

  ghost predicate TopOfTable(cfg: Config, es: Table, picks: seq<nat>) {
    exists n: nat :: n <= cfg.avoidMax && IsTop(es, cfg.threshold, cfg.rendezvous, n, picks)
  }

  ghost predicate Possible(cfg: Config, s: Hopper, e: Event) {
    && |s.q.expires| == CHANNELS && Legal(cfg, s, e) && cfg.tableSize > 0
    && (PlanOf(cfg, s, e).Hop? ==> PlanOf(cfg, s, e).target < CHANNELS)
    && (e.Rebuild? ==> InTable(s.hits, e.periods, e.picks))
  }

  ghost function Apply(cfg: Config, s: Hopper, e: Event): Hopper
    requires Possible(cfg, s, e)
  {
    var plan := PlanOf(cfg, s, e);
    if plan.Hop? then Landed(cfg, s, plan) else Quiet(cfg, s, e)
  }
}
