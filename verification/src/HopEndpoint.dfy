/** The hop manager's variables and work functions, updated in place
  * (src/esb/channel_hop_ep.c). */
module HopEndpoint {
  import opened Clock32
  import opened HopManager
  import opened HopRuns
  import opened Quarantine
  import DecayClock
  import Draw
  import Evidence
  import HitTable
  import Offenders
  import Picker

  class HopEndpoint {
    const cfg: Config
    const draws: Draw.Config
    const evidence: Evidence.OffenderStore
    const rssi: Draw.Tracker

    // the transport's channel
    var channel: nat

    var committed: nat
    var synced: bool
    var prev: nat
    var prevKnown: nat
    var fallbackPending: bool
    var linkUp: bool
    var active: bool
    var cooldownUntil: nat
    var linkEventAt: nat
    var holdUntil: nat
    var phase: Phase
    var coopTarget: nat
    var coopSeq: nat
    var offerInFlight: bool
    var coopCooldownUntil: nat

    ghost function Repr(): set<object>
      reads this, evidence
    {
      {this, evidence, evidence.hits, evidence.off, evidence.quarantine,
       evidence.quarantine.expires, evidence.quarantine.channels}
    }

    ghost predicate Valid()
      reads Repr(), rssi, rssi.ewma
    {
      && Sane(cfg) && Draw.Sane(draws)
      && evidence.Valid() && evidence.hits.Length == cfg.tableSize
      && evidence.threshold == cfg.threshold && evidence.nMax == cfg.avoidMax
      && rssi.Valid() && rssi.ewma as object !in Repr()
      && Inv(cfg, View())
    }

    ghost function View(): Hopper
      reads this, evidence, evidence.hits
      reads evidence.quarantine, evidence.quarantine.expires, evidence.quarantine.channels
      requires evidence.Valid()
    {
      Hopper(RadioView(), TimersView(), CoopView(), evidence.quarantine.View(), evidence.View())
    }

    ghost function RadioView(): Radio
      reads this
    {
      Radio(channel, committed, synced, prev, prevKnown, fallbackPending, linkUp, active)
    }

    ghost function TimersView(): Timers
      reads this
    {
      Timers(cooldownUntil, linkEventAt, holdUntil, coopCooldownUntil)
    }

    ghost function CoopView(): Coop
      reads this
    {
      Coop(phase, coopTarget, coopSeq, offerInFlight)
    }

    /** `channel_hop_ep_init`, with the store already loaded from flash. */
    constructor (cfg: Config, draws: Draw.Config, evidence: Evidence.OffenderStore, rssi: Draw.Tracker)
      requires Sane(cfg) && Draw.Sane(draws) && rssi.Valid()
      requires evidence.Valid() && evidence.hits.Length == cfg.tableSize
      requires evidence.threshold == cfg.threshold && evidence.nMax == cfg.avoidMax
      requires evidence.quarantine.View().expires == NoTimers() && DistinctChannels(evidence.Avoided())
      requires rssi.ewma as object !in {evidence, evidence.hits, evidence.off, evidence.quarantine,
                                        evidence.quarantine.expires, evidence.quarantine.channels}
      ensures Valid() && this.cfg == cfg && this.evidence == evidence
      ensures View() == Initial(cfg, evidence.Avoided(), evidence.View())
    {
      this.cfg, this.draws, this.evidence, this.rssi := cfg, draws, evidence, rssi;
      channel, committed, synced, prev, prevKnown := cfg.rendezvous, INVALID, false, INVALID, INVALID;
      fallbackPending, linkUp, active := false, false, false;
      cooldownUntil, linkEventAt, holdUntil, coopCooldownUntil := 0, 0, 0, 0;
      phase, coopTarget, coopSeq, offerInFlight := CoopIdle, INVALID, 0, false;
      new;
      InitialInv(cfg, evidence.Avoided(), evidence.View());
      assert View().q == Quarantine.State(NoTimers(), evidence.Avoided());
    }

    /** Whether a pre-agreed channel is worth going to. */
    method IsUseful(ch: nat, now: nat) returns (yes: bool)
      requires Valid()
      ensures yes == Useful(View(), ch, now)
    {
      if ch == INVALID || ch == channel {
        return false;
      }
      var bad := evidence.quarantine.Is(ch, now);
      yes := !bad;
    }

    /** `pick_candidate` */
    method PickCandidate(draw: nat, now: nat) returns (pick: nat)
      requires Valid()
      ensures PickOk(cfg, View(), pick, now)
    {
      ghost var d, candidates;
      pick, d, candidates := Picker.Pick(evidence.quarantine, cfg.minDistance, channel, rssi, draws, draw, now);
    }

    /** The first half of `hop_work_fn`: choose a target without changing anything but
      * the pending flag. */
    method ChooseTarget(draw: nat, now: nat) returns (kind: Kind, target: nat, ghost pick: nat)
      requires Valid()
      modifies this`fallbackPending
      ensures Valid() && !fallbackPending
      ensures View() == old(View()).(radio := old(View()).radio.(fallbackPending := false))
      ensures PickOk(cfg, old(View()), pick, now)
      ensures kind != Cooperative
      ensures Decide(cfg, old(View()), pick, now) == Towards(old(View()).radio, kind, target, now)
    {
      hide Quarantined, Picker.Best, Sized, HitTable.Sound;
      pick := INVALID;
      if fallbackPending {
        fallbackPending := false;
        return Fallback, cfg.rendezvous, INVALID;
      }
      if prev != INVALID && prev != channel {
        return Revert, prev, INVALID;
      }
      kind, target := Normal, committed;
      var useful := IsUseful(committed, now);
      if !useful {
        if channel != cfg.rendezvous {
          target := cfg.rendezvous;
        } else if prevKnown != INVALID && prevKnown != channel {
          target := prevKnown;
        } else {
          target := PickCandidate(draw, now);
          pick := target;
        }
      }
    }

    /** `commit_hop_bookkeeping` */
    method CommitBookkeeping(left: nat, holdMs: nat, now: nat)
      requires evidence.Valid() && Sane(cfg)
      modifies this`prevKnown, this`committed, this`synced, this`cooldownUntil, this`linkEventAt, evidence.quarantine.expires
      ensures evidence.Valid() && evidence.View() == old(evidence.View())
      ensures evidence.quarantine.View() == Banished(cfg, old(evidence.quarantine.View()), left, holdMs, now)
      ensures prevKnown == if left == cfg.rendezvous then old(prevKnown) else left
      ensures committed == INVALID && !synced
      ensures cooldownUntil == Later(now, cfg.cooldownMs) && linkEventAt == Stamp(now)
    {
      hide HitTable.Sound;
      if left != cfg.rendezvous {
        evidence.quarantine.Add(left, holdMs, now);
        prevKnown := left;
      }
      committed, synced := INVALID, false;
      cooldownUntil := Later(now, cfg.cooldownMs);
      linkEventAt := if now == 0 then 1 else now;
    }

    /** A channel taken up again: `expires_at[ch] = 0` and `persist_reclaim`. */
    method Redeem(ch: nat)
      requires evidence.Valid() && ch < CHANNELS
      modifies evidence`count, evidence.hits, evidence.quarantine`count, evidence.quarantine.expires, evidence.quarantine.channels
      ensures evidence.Valid() && evidence.View() == HitTable.Reclaim(old(evidence.View()), ch)
      ensures evidence.quarantine.View() == Redeemed(old(evidence.quarantine.View()), ch)
    {
      hide HitTable.Sound, HitTable.Reclaim, Evidence.Dropped;
      evidence.quarantine.Clear(ch);
      evidence.Reclaimed(ch);
    }

    /** Every part of the state is what a successful hop makes of the part before. */
    ghost predicate LandedFrom(before: Hopper, plan: Plan)
      requires evidence.Valid() && |before.q.expires| == CHANNELS
      requires plan.Hop? && plan.target < CHANNELS && cfg.tableSize > 0
      reads this, evidence, evidence.hits
      reads evidence.quarantine, evidence.quarantine.expires, evidence.quarantine.channels
    {
      && RadioView() == LandedRadio(cfg, before.radio, plan) && TimersView() == LandedTimers(cfg, before.timers, plan)
      && CoopView() == (if plan.kind == Cooperative then before.coop.(phase := CoopIdle) else before.coop)
      && evidence.quarantine.View() == LandedQ(cfg, before.q, before.radio.channel, plan)
      && evidence.View() == LandedHits(cfg, before.hits, before.radio.channel, plan)
    }

    lemma LandedView(before: Hopper, plan: Plan)
      requires evidence.Valid() && |before.q.expires| == CHANNELS
      requires plan.Hop? && plan.target < CHANNELS && cfg.tableSize > 0 && LandedFrom(before, plan)
      ensures View() == Landed(cfg, before, plan)
    {
    }

    /** The variables after a fallback: no revert, and a hold on the rendezvous channel. */
    method ParkHere(target: nat, now: nat)
      modifies this`channel, this`prev, this`committed, this`synced, this`cooldownUntil, this`linkEventAt, this`holdUntil
      ensures channel == target && prev == INVALID && committed == INVALID && !synced
      ensures cooldownUntil == Later(now, cfg.cooldownMs) && linkEventAt == Stamp(now)
      ensures holdUntil == if cfg.holdMs > 0 then Stamp(Later(now, cfg.holdMs)) else old(holdUntil)
    {
      hide Later;
      channel, prev, committed, synced := target, INVALID, INVALID, false;
      cooldownUntil := Later(now, cfg.cooldownMs);
      linkEventAt := if now == 0 then 1 else now;
      if cfg.holdMs > 0 {
        holdUntil := Stamp(Later(now, cfg.holdMs));
      }
    }

    /** The fallback half of `hop_work_fn`, once the radio has moved: the channel left is
      * not quarantined. */
    method LandOnRendezvous(target: nat, now: nat)
      requires evidence.Valid() && Sane(cfg) && target < CHANNELS && !fallbackPending
      modifies this`channel, this`prev, this`committed, this`synced, this`cooldownUntil, this`linkEventAt, this`holdUntil
      modifies evidence`count, evidence.hits
      modifies evidence.quarantine`count, evidence.quarantine.expires, evidence.quarantine.channels
      ensures evidence.Valid() && LandedFrom(old(View()), Hop(Fallback, target, now))
    {
      hide Later, HitTable.Sound, HitTable.Reclaim, Evidence.Dropped, Redeemed, Sized;
      ParkHere(target, now);
      Redeem(target);
    }

    /** The other half of `hop_work_fn`, once the radio has moved. */
    method Land(revert: bool, target: nat, now: nat)
      requires evidence.Valid() && evidence.hits.Length == cfg.tableSize && Sane(cfg)
      requires target < CHANNELS && !fallbackPending
      modifies this`channel, this`prev, this`prevKnown, this`committed, this`synced, this`cooldownUntil, this`linkEventAt
      modifies evidence`count, evidence.hits
      modifies evidence.quarantine`count, evidence.quarantine.expires, evidence.quarantine.channels
      ensures evidence.Valid() && LandedFrom(old(View()), Hop(if revert then Revert else Normal, target, now))
    {
      hide Later, HitTable.Sound, HitTable.Reclaim, HitTable.Condemn, Evidence.Dropped, Redeemed, Banished, Inv;
      var current := channel;
      if revert {
        Redeem(target);
      }
      MoveAndBook(target, if revert then INVALID else current, cfg.quarantineMs, now);
      evidence.RecordHit(current, cfg.rendezvous);
    }

    /** The tail every hop but a fallback shares. */
    method MoveAndBook(target: nat, revertTo: nat, holdMs: nat, now: nat)
      requires evidence.Valid() && Sane(cfg)
      modifies this`channel, this`prev, this`prevKnown, this`committed, this`synced, this`cooldownUntil, this`linkEventAt
      modifies evidence.quarantine.expires
      ensures evidence.Valid() && evidence.View() == old(evidence.View())
      ensures evidence.quarantine.View() == Banished(cfg, old(evidence.quarantine.View()), old(channel), holdMs, now)
      ensures channel == target && prev == revertTo && committed == INVALID && !synced
      ensures prevKnown == if old(channel) == cfg.rendezvous then old(prevKnown) else old(channel)
      ensures cooldownUntil == Later(now, cfg.cooldownMs) && linkEventAt == Stamp(now)
    {
      hide Later, Banished, HitTable.Sound;
      var left := channel;
      channel, prev := target, revertTo;
      CommitBookkeeping(left, holdMs, now);
    }

    /** `hop_work_fn` after its decay check. `ok` is what the radio answers, `draw` a word
      * of the pseudo-random generator. A refused retune is tried again later. */
    method HopWork(ok: bool, draw: nat, now: nat) returns (retry: bool, ghost pick: nat)
      requires Valid()
      modifies this, evidence`count, evidence.hits
      modifies evidence.quarantine`count, evidence.quarantine.expires, evidence.quarantine.channels
      ensures Valid() && Possible(cfg, old(View()), Event.HopWork(pick, ok, now))
      ensures View() == Apply(cfg, old(View()), Event.HopWork(pick, ok, now))
      ensures retry == (!ok && Decide(cfg, old(View()), pick, now).Hop?)
    {
      hide Inv, Landed, LandedFrom, Decide, PickOk, Quiet, HitTable.Sound;
      var kind, target;
      ghost var before := View();
      kind, target, pick := ChooseTarget(draw, now);
      ghost var e := Event.HopWork(pick, ok, now);
      HopWorkParts(cfg, before, pick, ok, now);
      LegalIsPossible(cfg, before, e);
      ApplyKeepsInv(cfg, before, e);
      retry := false;
      if target == INVALID || target == channel {
        return;
      }
      if !ok {
        retry := true;
        return;
      }
      PlanIsMove(cfg, before, e);
      ghost var cleared := View();
      if kind == Fallback {
        LandOnRendezvous(target, now);
      } else {
        Land(kind == Revert, target, now);
      }
      LandedView(cleared, Hop(kind, target, now));
      LandedIgnoresPending(cfg, before, Hop(kind, target, now));
    }

    // ---- Everything else only changes variables ----

    /** `channel_hop_ep_on_tx_success_isr`; `arm` starts the commit timer. */
    method TxSuccess(now: nat) returns (arm: bool)
      requires Valid()
      modifies this`offerInFlight, this`phase, this`prev, this`holdUntil, this`linkEventAt
      ensures Valid() && View() == Apply(cfg, old(View()), Event.TxSuccess(now))
      ensures arm == OfferLost(old(View()))
    {
      hide Inv;
      QuietStep(cfg, View(), Event.TxSuccess(now));
      arm := OfferResult(Armed);
      Reacquired(now);
    }

    /** The offer tag is consumed by the next event; an offer still open moves on. */
    method OfferResult(next: Phase) returns (open: bool)
      modifies this`offerInFlight, this`phase
      ensures open == (old(offerInFlight) && old(phase) == Offered) && !offerInFlight
      ensures phase == if open then next else old(phase)
    {
      open := false;
      if offerInFlight {
        offerInFlight := false;
        if phase == Offered {
          phase, open := next, true;
        }
      }
    }

    method Reacquired(now: nat)
      modifies this`prev, this`holdUntil, this`linkEventAt
      ensures prev == INVALID && holdUntil == 0 && linkEventAt == Stamp(now)
    {
      prev, holdUntil := INVALID, 0;
      linkEventAt := if now == 0 then 1 else now;
    }

    /** `channel_hop_ep_on_tx_fail_isr`; `submit` asks for a run of the hop work. */
    method TxFailed(now: nat) returns (submit: bool)
      requires Valid()
      modifies this`offerInFlight, this`phase, this`holdUntil, this`fallbackPending
      ensures Valid() && View() == Apply(cfg, old(View()), Event.TxFailed(now))
      ensures submit <==> Submits(cfg, old(View()), now)
    {
      hide Inv, CooldownActive, Silent, Holding, Quiet, Apply, Possible, HitTable.Sound;
      TxFailedParts(cfg, View(), now);
      submit := FailureCounted(now);
    }

    method FailureCounted(now: nat) returns (submit: bool)
      modifies this`offerInFlight, this`phase, this`holdUntil, this`fallbackPending
      ensures var lost := old(offerInFlight) && old(phase) == Offered;
        var counts, silent := !lost && active && !Holding(old(TimersView()), now), Silent(cfg, old(TimersView()), now);
        && !offerInFlight && phase == (if lost then CoopIdle else old(phase))
        && holdUntil == (if counts then 0 else old(holdUntil))
        && fallbackPending == (old(fallbackPending) || (counts && silent))
        && submit == (counts && (!CooldownActive(cooldownUntil, now) || (silent && !old(fallbackPending))))
    {
      hide CooldownActive, Holding;
      submit := false;
      var lost := OfferResult(CoopIdle);
      if !lost {
        var counts := PastHold(now);
        if counts {
          submit := PastGate(now);
        }
      }
    }

    /** Only an active endpoint counts a failure, and none while it holds on the rendezvous
      * channel. */
    method PastHold(now: nat) returns (counts: bool)
      modifies this`holdUntil
      ensures counts == (active && !Holding(old(TimersView()), now))
      ensures holdUntil == if counts then 0 else old(holdUntil)
    {
      if !active {
        return false;
      }
      if holdUntil != 0 {
        if Ahead(holdUntil, now) {
          return false;
        }
        holdUntil := 0;
      }
      return true;
    }

    /** The cooldown gate of the trigger, with its way out to the rendezvous channel. */
    method PastGate(now: nat) returns (submit: bool)
      modifies this`fallbackPending
      ensures fallbackPending == (old(fallbackPending) || Silent(cfg, TimersView(), now))
      ensures submit == (!CooldownActive(cooldownUntil, now) || fallbackPending != old(fallbackPending))
    {
      submit := true;
      if CooldownActive(cooldownUntil, now) {
        submit := false;
        if cfg.fallbackMs > 0 && linkEventAt != 0 && !fallbackPending {
          if Elapsed(now, linkEventAt) >= cfg.fallbackMs {
            fallbackPending, submit := true, true;
          }
        }
      }
    }

    /** The CONFIRM branch of `channel_hop_ep_on_rx`. */
    method OnConfirm(agreed: nat, now: nat)
      requires Valid()
      modifies this`committed, this`synced
      ensures Valid() && View() == Apply(cfg, old(View()), Confirm(agreed, now))
    {
      hide Inv, Quarantined;
      QuietStep(cfg, View(), Confirm(agreed, now));
      if agreed >= CHANNELS {
        return;
      }
      var bad := evidence.quarantine.Is(agreed, now);
      if bad {
        synced := false;
        return;
      }
      committed, synced := agreed, true;
    }

    /** `channel_hop_ep_on_request` */
    method OnRequest()
      requires Valid()
      modifies this`synced
      ensures Valid() && View() == Apply(cfg, old(View()), Request)
    {
      hide Inv;
      QuietStep(cfg, View(), Request);
      if linkUp {
        synced := false;
      }
    }

    /** The ACCEPT branch of `channel_hop_ep_on_rx`. */
    method OnAccept(agreed: nat, seq_: nat)
      requires Valid()
      modifies this`coopTarget
      ensures Valid() && View() == Apply(cfg, old(View()), Accept(agreed, seq_))
    {
      hide Inv;
      QuietStep(cfg, View(), Accept(agreed, seq_));
      if seq_ != coopSeq {
        return;
      }
      if phase != Offered && phase != Armed {
        return;
      }
      if agreed >= CHANNELS {
        return;
      }
      if agreed != coopTarget {
        coopTarget := agreed;
      }
    }

    /** `channel_hop_ep_on_link_degraded_isr` */
    method LinkDegraded(now: nat) returns (submit: bool)
      requires Valid()
      modifies this`phase
      ensures Valid() && View() == Apply(cfg, old(View()), Degraded(now))
      ensures submit <==> phase != old(phase)
    {
      hide Inv;
      QuietStep(cfg, View(), Degraded(now));
      submit := false;
      if !linkUp || !active || phase != CoopIdle {
        return;
      }
      if CooldownActive(cooldownUntil, now) || CooldownActive(coopCooldownUntil, now) {
        return;
      }
      phase, submit := Offered, true;
    }

    /** `coop_hop_offer_work_fn`; `sent` is what the transport answers. */
    method OfferWork(sent: bool, draw: nat, now: nat) returns (ghost pick: nat)
      requires Valid()
      modifies this`phase, this`coopTarget, this`coopSeq, this`offerInFlight
      ensures Valid() && Possible(cfg, old(View()), Event.OfferWork(pick, sent, now))
      ensures View() == Apply(cfg, old(View()), Event.OfferWork(pick, sent, now))
    {
      hide Inv, PickOk, Quarantined, CoopTarget, Quiet, Apply, Possible, HitTable.Sound;
      pick := INVALID;
      NoPickIsOk(cfg, View(), now);
      var target := INVALID;
      if linkUp && active && phase == Offered {
        target, pick := CoopPickTarget(draw, now);
      }
      OfferWorkParts(cfg, View(), pick, sent, now);
      OfferTo(target, sent);
    }

    /** No link, no user traffic or nowhere to go ends the handshake; a handshake that is not
      * open any more is left alone. */
    method OfferTo(target: nat, sent: bool)
      modifies this`phase, this`coopTarget, this`coopSeq, this`offerInFlight
      ensures var go := linkUp && active && old(phase) == Offered && target != INVALID && target != channel;
        && coopTarget == (if go then target else old(coopTarget))
        && coopSeq == (if go then (old(coopSeq) + 1) % 256 else old(coopSeq))
        && offerInFlight == (if go then sent else old(offerInFlight))
        && phase == if go then (if sent then Offered else CoopIdle)
                    else if linkUp && active && old(phase) != Offered then old(phase) else CoopIdle
    {
      if !linkUp || !active {
        phase := CoopIdle;
        return;
      }
      if phase != Offered {
        return;
      }
      if target == INVALID || target == channel {
        phase := CoopIdle;
        return;
      }
      SendOffer(target, sent);
    }

    /** `coop_hop_pick_target` */
    method CoopPickTarget(draw: nat, now: nat) returns (target: nat, ghost pick: nat)
      requires Valid()
      ensures PickOk(cfg, View(), pick, now) && target == CoopTarget(View(), pick, now)
    {
      target, pick := committed, INVALID;
      var useful := IsUseful(committed, now);
      if !useful {
        target := PickCandidate(draw, now);
        pick := target;
      }
    }

    method SendOffer(target: nat, sent: bool)
      requires phase == Offered
      modifies this`phase, this`coopTarget, this`coopSeq, this`offerInFlight
      ensures coopTarget == target && coopSeq == (old(coopSeq) + 1) % 256
      ensures offerInFlight == sent && phase == if sent then Offered else CoopIdle
    {
      coopTarget, coopSeq := target, (coopSeq + 1) % 256;
      offerInFlight := true;
      if !sent {
        offerInFlight, phase := false, CoopIdle;
      }
    }

    /** `coop_hop_abort` */
    method CoopAbort()
      modifies this`phase, this`offerInFlight
      ensures phase == CoopIdle && !offerInFlight
    {
      phase, offerInFlight := CoopIdle, false;
    }

    /** The synced flag's part of `negotiate_work_fn`. */
    method Negotiate(now: nat)
      requires Valid()
      modifies this`synced
      ensures Valid() && View() == Apply(cfg, old(View()), Event.Negotiate(now))
    {
      hide Inv;
      QuietStep(cfg, View(), Event.Negotiate(now));
      if !linkUp || !active {
        return;
      }
      var useful := IsUseful(committed, now);
      if !useful {
        synced := false;
      }
    }

    /** `channel_hop_ep_note_user_tx` */
    method NoteUserTx()
      requires Valid()
      modifies this`active
      ensures Valid() && View() == Apply(cfg, old(View()), UserTx)
    {
      hide Inv;
      QuietStep(cfg, View(), UserTx);
      if linkUp {
        active := true;
      }
    }

    /** `enter_idle_state` */
    method EnterIdle()
      requires Valid()
      modifies this`active, this`phase, this`offerInFlight
      ensures Valid() && View() == Apply(cfg, old(View()), GoIdle)
    {
      hide Inv;
      QuietStep(cfg, View(), GoIdle);
      if active {
        active := false;
        CoopAbort();
      }
    }

    /** `channel_hop_ep_on_connected` */
    method OnConnected()
      requires Valid()
      modifies this`linkUp, this`active, evidence`count, evidence.hits, evidence.quarantine`count, evidence.quarantine.channels
      ensures Valid() && View() == Apply(cfg, old(View()), Connected)
    {
      hide Inv, HitTable.Sound, HitTable.Reclaim, Evidence.Dropped, Sized;
      QuietStep(cfg, View(), Connected);
      evidence.Reclaimed(cfg.rendezvous);
      linkUp, active := true, true;
    }

    /** `channel_hop_ep_on_disconnected` */
    method OnDisconnected()
      requires Valid()
      modifies this`linkUp, this`active, this`committed, this`synced, this`prev, this`prevKnown, this`fallbackPending
      modifies this`cooldownUntil, this`linkEventAt, this`holdUntil, this`coopCooldownUntil, this`phase, this`offerInFlight
      ensures Valid() && View() == Apply(cfg, old(View()), Disconnected)
    {
      hide Inv;
      QuietStep(cfg, View(), Disconnected);
      LinkDown();
      CoopAbort();
    }

    method LinkDown()
      modifies this`linkUp, this`active, this`committed, this`synced, this`prev, this`prevKnown, this`fallbackPending
      modifies this`cooldownUntil, this`linkEventAt, this`holdUntil, this`coopCooldownUntil
      ensures !linkUp && !active && !synced && !fallbackPending
      ensures committed == prev == prevKnown == INVALID
      ensures cooldownUntil == linkEventAt == holdUntil == coopCooldownUntil == 0
    {
      linkUp, active, committed, synced, prev, prevKnown := false, false, INVALID, false, INVALID, INVALID;
      fallbackPending, cooldownUntil, linkEventAt, holdUntil, coopCooldownUntil := false, 0, 0, 0, 0;
    }

    /** `coop_hop_commit_work_fn` */
    method CommitWork(ok: bool, now: nat) returns (retry: bool)
      requires Valid()
      modifies this`channel, this`prev, this`prevKnown, this`committed, this`synced, this`cooldownUntil, this`linkEventAt
      modifies this`coopCooldownUntil, this`phase, evidence.quarantine.expires
      ensures Valid() && Possible(cfg, old(View()), Event.CommitWork(ok, now))
      ensures View() == Apply(cfg, old(View()), Event.CommitWork(ok, now))
      ensures retry <==> !ok && old(phase) == Armed && Towards(old(RadioView()), Cooperative, old(coopTarget), now).Hop?
    {
      hide Inv, HitTable.Sound, LandedFrom, Landed, Legal;
      ghost var before, e := View(), Event.CommitWork(ok, now);
      CommitParts(cfg, before, ok, now);
      LegalIsPossible(cfg, before, e);
      ApplyKeepsInv(cfg, before, e);
      retry := false;
      if phase != Armed {
        return;
      }
      if coopTarget == INVALID || coopTarget == channel {
        phase := CoopIdle;
        return;
      }
      if !ok {
        phase, retry := CoopIdle, true;
        return;
      }
      Agreed(now);
      LandedView(before, Hop(Cooperative, before.coop.target, now));
    }

    /** The radio has moved to the agreed channel. */
    method Agreed(now: nat)
      requires evidence.Valid() && Sane(cfg) && coopTarget < CHANNELS
      modifies this`channel, this`prev, this`prevKnown, this`committed, this`synced, this`cooldownUntil, this`linkEventAt
      modifies this`coopCooldownUntil, this`phase, evidence.quarantine.expires
      ensures evidence.Valid() && LandedFrom(old(View()), Hop(Cooperative, old(coopTarget), now))
    {
      hide Later, HitTable.Sound, Banished, Sized;
      MoveAndBook(coopTarget, INVALID, cfg.coopQuarantineMs, now);
      CoopDone(now);
    }

    method CoopDone(now: nat)
      modifies this`coopCooldownUntil, this`phase
      ensures coopCooldownUntil == Later(now, cfg.coopCooldownMs) && phase == CoopIdle
    {
      coopCooldownUntil, phase := Later(now, cfg.coopCooldownMs), CoopIdle;
    }

    /** The decay check and the periodic distillation, which may rebuild the avoided set. */
    method Distil(n: nat)
      requires Valid() && n <= cfg.avoidMax
      modifies evidence`offLen, evidence.off, evidence`flash, evidence`savedOff, evidence`savedMinutes
      modifies evidence.quarantine`count, evidence.quarantine.channels
      ensures Valid()
      ensures exists picks :: Possible(cfg, old(View()), Rebuild(0, picks)) && View() == Apply(cfg, old(View()), Rebuild(0, picks))
    {
      hide Inv, HitTable.Sound, Offenders.IsTop, HitTable.Decay, Sized;
      ghost var before := View();
      AgedByNothing(cfg, before);
      ghost var picks := evidence.Distill(n, cfg.rendezvous);
      QuietStep(cfg, before, Rebuild(0, picks));
    }

    /** `persist_decay_check` */
    method CheckDecay(period: nat, now: nat, n: nat) returns (fired: bool, ghost periods: nat, ghost picks: seq<nat>)
      requires Valid() && n <= cfg.avoidMax && evidence.fracMs < DecayClock.MINUTE && evidence.minutes <= 0xFFFF
      modifies evidence`minutes, evidence`fracMs, evidence`lastUptime, evidence`savedMinutes, evidence`flash, evidence`savedOff
      modifies evidence`count, evidence.hits, evidence`offLen, evidence.off
      modifies evidence.quarantine`count, evidence.quarantine.channels
      ensures Valid()
      ensures !fired ==> View() == old(View())
      ensures fired ==> Possible(cfg, old(View()), Rebuild(periods, picks))
      ensures fired ==> View() == Apply(cfg, old(View()), Rebuild(periods, picks))
    {
      hide Inv, HitTable.Sound, Offenders.IsTop, HitTable.Decay, Sized, DecayClock.Check;
      ghost var before := View();
      AgedByNothing(cfg, before);
      periods := if period > 0 then DecayClock.Check(evidence.Timer(), period, now).periods else 0;
      fired, picks := evidence.CheckDecay(period, now, n, cfg.rendezvous);
      if fired {
        QuietStep(cfg, before, Rebuild(periods, picks));
      }
    }
  }

  /** An event that makes no hop is possible as soon as it is legal. */
  lemma QuietStep(cfg: Config, s: Hopper, e: Event)
    requires Sane(cfg) && Inv(cfg, s) && Legal(cfg, s, e) && !e.HopWork? && !e.CommitWork?
    ensures Possible(cfg, s, e) && Apply(cfg, s, e) == Quiet(cfg, s, e) && Inv(cfg, Quiet(cfg, s, e))
  {
    hide Legal, Quiet, Inv;
    LegalIsPossible(cfg, s, e);
    ApplyKeepsInv(cfg, s, e);
  }

  lemma TxFailedParts(cfg: Config, s: Hopper, now: nat)
    requires Sane(cfg) && Inv(cfg, s) && |s.q.expires| == CHANNELS
    ensures Possible(cfg, s, Event.TxFailed(now)) && Inv(cfg, Apply(cfg, s, Event.TxFailed(now)))
    ensures Apply(cfg, s, Event.TxFailed(now)) == Hopper(
      s.radio.(fallbackPending := s.radio.fallbackPending || (Counts(s, now) && Silent(cfg, s.timers, now))),
      s.timers.(holdUntil := if Counts(s, now) then 0 else s.timers.holdUntil),
      s.coop.(phase := if OfferLost(s) then CoopIdle else s.coop.phase, offerInFlight := false), s.q, s.hits)
  {
    hide Counts, Silent, Inv;
    QuietStep(cfg, s, Event.TxFailed(now));
  }

  lemma OfferWorkParts(cfg: Config, s: Hopper, pick: nat, sent: bool, now: nat)
    requires Sane(cfg) && Inv(cfg, s) && |s.q.expires| == CHANNELS && PickOk(cfg, s, pick, now)
    ensures var e := Event.OfferWork(pick, sent, now);
      && Possible(cfg, s, e) && Apply(cfg, s, e) == s.(coop := OfferedCoop(s, pick, sent, now))
      && Inv(cfg, Apply(cfg, s, e))
  {
    hide Inv, PickOk;
    QuietStep(cfg, s, Event.OfferWork(pick, sent, now));
  }

  lemma CommitParts(cfg: Config, s: Hopper, ok: bool, now: nat)
    requires |s.q.expires| == CHANNELS
    ensures var e := Event.CommitWork(ok, now);
      && Legal(cfg, s, e)
      && Quiet(cfg, s, e) == s.(coop := if s.coop.phase == Armed then s.coop.(phase := CoopIdle) else s.coop)
  {
  }

  lemma NoPickIsOk(cfg: Config, s: Hopper, now: nat)
    requires |s.q.expires| == CHANNELS
    ensures PickOk(cfg, s, INVALID, now)
  {
  }

  lemma AgedByNothing(cfg: Config, s: Hopper)
    requires Inv(cfg, s)
    ensures HitTable.Decay(s.hits, 0) == s.hits
  {
    HitTable.DecayByZero(s.hits);
  }

  lemma HopWorkParts(cfg: Config, s: Hopper, pick: nat, ok: bool, now: nat)
    requires |s.q.expires| == CHANNELS
    ensures var e := Event.HopWork(pick, ok, now);
      && PlanOf(cfg, s, e) == (if ok then Decide(cfg, s, pick, now) else Stay)
      && Quiet(cfg, s, e) == s.(radio := s.radio.(fallbackPending := false))
      && (PickOk(cfg, s, pick, now) ==> Legal(cfg, s, e))
  {
  }

  /** Hops decided by `hop_work_fn` consume the pending flag. */
  lemma LandedIgnoresPending(cfg: Config, s: Hopper, plan: Plan)
    requires |s.q.expires| == CHANNELS && plan.Hop? && plan.target < CHANNELS && cfg.tableSize > 0 && plan.kind != Cooperative
    ensures Landed(cfg, s.(radio := s.radio.(fallbackPending := false)), plan) == Landed(cfg, s, plan)
  {
  }
}
