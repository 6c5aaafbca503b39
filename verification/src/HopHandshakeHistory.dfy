/** The cooperative-hop handshake over whole runs (src/esb/channel_hop_ep.c): where it stands is
  * what happened last, and undisturbed it ends with the hop that was agreed. */
module HopHandshakeHistory {
  import opened Clock32
  import opened HopManager
  import opened HopRuns
  import opened HopHistory
  import opened Quarantine

  /** The link is good enough to talk: up, with user traffic, and past both cooldowns. */
  ghost predicate MayOffer(cfg: Config, s: Hopper, es: seq<Event>, now: nat)
    requires Running(cfg, s, es)
  {
    && LinkIsUp(cfg, s, es) && Sending(cfg, s, es)
    && !CooldownActive(CooldownEnd(cfg, s, es), now) && !CooldownActive(CoopCooldownEnd(cfg, s, es), now)
  }

  /** A degraded link opened an offer, and since then it was not withdrawn, its packet's result
    * is not in, and the endpoint is neither idle nor disconnected. */
  ghost predicate OfferOpen(cfg: Config, s: Hopper, es: seq<Event>)
    requires Running(cfg, s, es)
    decreases |es|, 0
  {
    if es == [] then s.coop.phase == Offered else
      LastStep(cfg, s, es);
      var e, front := Latest(es), Front(es);
      if e.Disconnected? then false
      else if e.GoIdle? then OfferOpen(cfg, s, front) && !Sending(cfg, s, front)
      else if e.TxSuccess? || e.TxFailed? then OfferOpen(cfg, s, front) && !OfferTagged(cfg, s, front)
      else if e.OfferWork? then e.sent && OfferNumbered(cfg, s, es)
      else if e.Degraded? then
        OfferOpen(cfg, s, front) || (!OfferArmed(cfg, s, front) && MayOffer(cfg, s, front, e.now))
      else OfferOpen(cfg, s, front)
  }

  /** Where the OFFER work would send: the confirmed channel while it is worth going to, a fresh
    * pick otherwise. */
  ghost function OfferGoal(cfg: Config, s: Hopper, es: seq<Event>): nat
    requires Running(cfg, s, es) && es != [] && Latest(es).OfferWork?
  {
    LastStep(cfg, s, es);
    var e, agreed := Latest(es), ConfirmedChannel(cfg, s, Front(es));
    if agreed != INVALID && agreed != ReachedChannel(cfg, s, Front(es)) && !Quarantined(Before(cfg, s, es).q, agreed, e.now)
    then agreed else e.pick
  }

  /** The last event is an OFFER work that sends, or at least uses up a sequence number. */
  ghost predicate OfferNumbered(cfg: Config, s: Hopper, es: seq<Event>)
    requires Running(cfg, s, es) && es != [] && Latest(es).OfferWork?
    decreases |es| - 1, 1
  {
    LastStep(cfg, s, es);
    && LinkIsUp(cfg, s, Front(es)) && Sending(cfg, s, Front(es)) && OfferOpen(cfg, s, Front(es))
    && OfferGoal(cfg, s, es) != INVALID && OfferGoal(cfg, s, es) != ReachedChannel(cfg, s, Front(es))
  }

  /** The latest OFFER's packet is on its way: no TX event has come since. */
  ghost predicate OfferTagged(cfg: Config, s: Hopper, es: seq<Event>)
    requires Running(cfg, s, es)
    decreases |es|, 0
  {
    if es == [] then s.coop.offerInFlight else
      LastStep(cfg, s, es);
      var e, front := Latest(es), Front(es);
      if e.Disconnected? || e.TxSuccess? || e.TxFailed? then false
      else if e.GoIdle? then OfferTagged(cfg, s, front) && !Sending(cfg, s, front)
      else if e.OfferWork? && OfferNumbered(cfg, s, es) then e.sent
      else OfferTagged(cfg, s, front)
  }

  /** The OFFER was acknowledged, and since then the commit work has not run, and the endpoint is
    * neither idle nor disconnected. */
  ghost predicate OfferArmed(cfg: Config, s: Hopper, es: seq<Event>)
    requires Running(cfg, s, es)
    decreases |es|, 0
  {
    if es == [] then s.coop.phase == Armed else
      LastStep(cfg, s, es);
      var e, front := Latest(es), Front(es);
      if e.Disconnected? || e.CommitWork? then false
      else if e.GoIdle? then OfferArmed(cfg, s, front) && !Sending(cfg, s, front)
      else if e.TxSuccess? then OfferArmed(cfg, s, front) || (OfferOpen(cfg, s, front) && OfferTagged(cfg, s, front))
      else if e.OfferWork? then OfferArmed(cfg, s, front) && LinkIsUp(cfg, s, front) && Sending(cfg, s, front)
      else OfferArmed(cfg, s, front)
  }

  function NextByte(n: nat): nat { (n + 1) % 256 }

  /** The number of the latest OFFER, a byte. */
  ghost function OfferNumber(cfg: Config, s: Hopper, es: seq<Event>): nat
    requires Running(cfg, s, es)
  {
    if es == [] then s.coop.seq_ else
      LastStep(cfg, s, es);
      if Latest(es).OfferWork? && OfferNumbered(cfg, s, es) then NextByte(OfferNumber(cfg, s, Front(es)))
      else OfferNumber(cfg, s, Front(es))
  }

  /** The latest OFFER's goal, or the real channel that a later ACCEPT with its number answered
    * with while the handshake was open. */
  ghost function AgreedTarget(cfg: Config, s: Hopper, es: seq<Event>): nat
    requires Running(cfg, s, es)
  {
    if es == [] then s.coop.target else
      LastStep(cfg, s, es);
      var e, front := Latest(es), Front(es);
      if e.OfferWork? && OfferNumbered(cfg, s, es) then OfferGoal(cfg, s, es)
      else if e.Accept? && e.seq_ == OfferNumber(cfg, s, front) && e.agreed < CHANNELS
              && (OfferOpen(cfg, s, front) || OfferArmed(cfg, s, front)) then e.agreed
      else AgreedTarget(cfg, s, front)
  }

  ghost function PhaseNow(cfg: Config, s: Hopper, es: seq<Event>): Phase
    requires Running(cfg, s, es)
  {
    if OfferOpen(cfg, s, es) then Offered else if OfferArmed(cfg, s, es) then Armed else CoopIdle
  }

  lemma LastCoop(cfg: Config, s: Hopper, es: seq<Event>)
    requires Running(cfg, s, es) && es != []
    ensures After(cfg, s, es).coop ==
      if LastHop(cfg, s, es).Hop?
      then (if LastHop(cfg, s, es).kind == Cooperative then Before(cfg, s, es).coop.(phase := CoopIdle) else Before(cfg, s, es).coop)
      else QuietCoop(cfg, Before(cfg, s, es), Latest(es))
    ensures LastHop(cfg, s, es).Hop? ==>
      if Latest(es).CommitWork? then LastHop(cfg, s, es).kind == Cooperative && Before(cfg, s, es).coop.phase == Armed
      else Latest(es).HopWork? && LastHop(cfg, s, es).kind != Cooperative
  {
    hide QuietCoop, Legal, Useful;
    LastStep(cfg, s, es);
  }

  /** How the last event moves the handshake, from where it stood. */
  ghost predicate OpenMoves(cfg: Config, s: Hopper, es: seq<Event>)
    requires Running(cfg, s, es) && es != []
  {
    LastStep(cfg, s, es);
    var e, front := Latest(es), Front(es);
    var open := OfferOpen(cfg, s, front);
    OfferOpen(cfg, s, es) ==
      match e
      case Disconnected => false
      case GoIdle => open && !Sending(cfg, s, front)
      case TxSuccess(_) => open && !OfferTagged(cfg, s, front)
      case TxFailed(_) => open && !OfferTagged(cfg, s, front)
      case OfferWork(_, sent, _) => sent && OfferNumbered(cfg, s, es)
      case Degraded(now) => open || (!OfferArmed(cfg, s, front) && MayOffer(cfg, s, front, now))
      case _ => open
  }

  ghost predicate ArmedMoves(cfg: Config, s: Hopper, es: seq<Event>)
    requires Running(cfg, s, es) && es != []
  {
    LastStep(cfg, s, es);
    var e, front := Latest(es), Front(es);
    var armed := OfferArmed(cfg, s, front);
    OfferArmed(cfg, s, es) ==
      match e
      case Disconnected => false
      case CommitWork(_, _) => false
      case GoIdle => armed && !Sending(cfg, s, front)
      case TxSuccess(_) => armed || (OfferOpen(cfg, s, front) && OfferTagged(cfg, s, front))
      case OfferWork(_, _, _) => armed && LinkIsUp(cfg, s, front) && Sending(cfg, s, front)
      case _ => armed
  }

  ghost predicate TagMoves(cfg: Config, s: Hopper, es: seq<Event>)
    requires Running(cfg, s, es) && es != []
  {
    LastStep(cfg, s, es);
    var e, front := Latest(es), Front(es);
    var tagged := OfferTagged(cfg, s, front);
    OfferTagged(cfg, s, es) ==
      match e
      case Disconnected => false
      case TxSuccess(_) => false
      case TxFailed(_) => false
      case GoIdle => tagged && !Sending(cfg, s, front)
      case OfferWork(_, sent, _) => if OfferNumbered(cfg, s, es) then sent else tagged
      case _ => tagged
  }

  ghost predicate Moves(cfg: Config, s: Hopper, es: seq<Event>)
    requires Running(cfg, s, es) && es != []
  {
    OpenMoves(cfg, s, es) && ArmedMoves(cfg, s, es) && TagMoves(cfg, s, es)
  }

  lemma OpenMovesSo(cfg: Config, s: Hopper, es: seq<Event>)
    requires Running(cfg, s, es) && es != []
    ensures OpenMoves(cfg, s, es)
  {
    LastStep(cfg, s, es);
    hide After, Apply, MayOffer, OfferNumbered, LinkIsUp, Sending, Possible, OfferTagged, OfferArmed;
  }

  lemma ArmedMovesSo(cfg: Config, s: Hopper, es: seq<Event>)
    requires Running(cfg, s, es) && es != []
    ensures ArmedMoves(cfg, s, es)
  {
    LastStep(cfg, s, es);
    hide After, Apply, MayOffer, OfferNumbered, LinkIsUp, Sending, Possible, OfferTagged, OfferOpen;
  }

  lemma TagMovesSo(cfg: Config, s: Hopper, es: seq<Event>)
    requires Running(cfg, s, es) && es != []
    ensures TagMoves(cfg, s, es)
  {
    LastStep(cfg, s, es);
    hide After, Apply, MayOffer, OfferNumbered, LinkIsUp, Sending, Possible, OfferArmed, OfferOpen;
  }

  /** What the words of the agreement are after the last event. */
  ghost predicate NumberMoves(cfg: Config, s: Hopper, es: seq<Event>)
    requires Running(cfg, s, es) && es != []
  {
    LastStep(cfg, s, es);
    var e, number := Latest(es), OfferNumber(cfg, s, Front(es));
    OfferNumber(cfg, s, es) == if e.OfferWork? && OfferNumbered(cfg, s, es) then NextByte(number) else number
  }

  ghost predicate TargetMoves(cfg: Config, s: Hopper, es: seq<Event>)
    requires Running(cfg, s, es) && es != []
  {
    LastStep(cfg, s, es);
    var e, front := Latest(es), Front(es);
    AgreedTarget(cfg, s, es) ==
      if e.OfferWork? && OfferNumbered(cfg, s, es) then OfferGoal(cfg, s, es)
      else if e.Accept? && e.seq_ == OfferNumber(cfg, s, front) && e.agreed < CHANNELS
              && (OfferOpen(cfg, s, front) || OfferArmed(cfg, s, front)) then e.agreed
      else AgreedTarget(cfg, s, front)
  }

  ghost predicate Agrees(cfg: Config, s: Hopper, es: seq<Event>)
    requires Running(cfg, s, es) && es != []
  {
    NumberMoves(cfg, s, es) && TargetMoves(cfg, s, es)
  }

  lemma NumberMovesSo(cfg: Config, s: Hopper, es: seq<Event>)
    requires Running(cfg, s, es) && es != []
    ensures NumberMoves(cfg, s, es)
  {
    LastStep(cfg, s, es);
    hide After, Apply, OfferNumbered, Possible, NextByte, Legal, Running;
  }

  lemma TargetMovesSo(cfg: Config, s: Hopper, es: seq<Event>)
    requires Running(cfg, s, es) && es != []
    ensures TargetMoves(cfg, s, es)
  {
    LastStep(cfg, s, es);
    hide After, Apply, OfferNumbered, OfferGoal, OfferOpen, OfferArmed, OfferNumber, Possible;
  }

  ghost predicate CoopIsHistory(cfg: Config, s: Hopper, es: seq<Event>)
    requires Running(cfg, s, es)
  {
    && After(cfg, s, es).coop ==
         Coop(PhaseNow(cfg, s, es), AgreedTarget(cfg, s, es), OfferNumber(cfg, s, es), OfferTagged(cfg, s, es))
    && !(OfferOpen(cfg, s, es) && OfferArmed(cfg, s, es))
  }

  /** The OFFER work of the machine is that of the history. */
  lemma OfferWords(cfg: Config, s: Hopper, es: seq<Event>)
    requires Running(cfg, s, es) && es != [] && Latest(es).OfferWork?
    requires Running(cfg, s, Front(es)) && CoopIsHistory(cfg, s, Front(es))
    ensures var t, e := Before(cfg, s, es), Latest(es);
      && OfferGoal(cfg, s, es) == CoopTarget(t, e.pick, e.now) && (OfferNumbered(cfg, s, es) <==> Offers(t, e.pick, e.now))
      && (t.radio.linkUp <==> LinkIsUp(cfg, s, Front(es))) && (t.radio.active <==> Sending(cfg, s, Front(es)))
  {
    LastStep(cfg, s, es);
    RadioIsHistory(cfg, s, Front(es));
    hide OfferArmed, OfferTagged, OfferNumber, AgreedTarget, OfferOpen;
    hide Running, After, Apply, Quarantined, Possible;
    hide ReachedChannel, ConfirmedChannel, StillSynced, UnprovenFrom, LastLeft, FallbackAsked, LinkIsUp, Sending;
  }

  lemma OfferTurn(cfg: Config, s: Hopper, es: seq<Event>)
    requires Running(cfg, s, es) && es != [] && Latest(es).OfferWork?
    requires Running(cfg, s, Front(es)) && CoopIsHistory(cfg, s, Front(es)) && Moves(cfg, s, es) && Agrees(cfg, s, es)
    ensures CoopIsHistory(cfg, s, es)
  {
    LastStep(cfg, s, es);
    OfferWords(cfg, s, es);
    LastCoop(cfg, s, es);
    hide OfferOpen, OfferArmed, OfferTagged, OfferNumber, AgreedTarget, OfferNumbered, OfferGoal, Offers, CoopTarget;
    hide Running, After, Apply, LastHop, Possible, LinkIsUp, Sending;
  }

  lemma OtherTurn(cfg: Config, s: Hopper, es: seq<Event>)
    requires Running(cfg, s, es) && es != [] && !Latest(es).OfferWork?
    requires Running(cfg, s, Front(es)) && CoopIsHistory(cfg, s, Front(es)) && Moves(cfg, s, es) && Agrees(cfg, s, es)
    ensures CoopIsHistory(cfg, s, es)
  {
    LastStep(cfg, s, es);
    RadioIsHistory(cfg, s, Front(es));
    TimersAreHistory(cfg, s, Front(es));
    LastCoop(cfg, s, es);
    hide OfferOpen, OfferArmed, OfferTagged, OfferNumber, AgreedTarget, OfferNumbered, OfferGoal, OfferedCoop;
    hide Running, After, Apply, PlanOf, CooldownActive, LastHop, Possible;
    hide ReachedChannel, ConfirmedChannel, StillSynced, UnprovenFrom, LastLeft, FallbackAsked, LinkIsUp, Sending;
    hide CooldownEnd, CoopCooldownEnd, LastSign, HoldEnd;
  }

  /** Over every run the variables of the handshake are what happened last, and it is never open
    * and armed at once. */
  lemma {:induction false} HandshakeIsHistory(cfg: Config, s: Hopper, es: seq<Event>)
    requires Running(cfg, s, es)
    ensures CoopIsHistory(cfg, s, es)
  {
    if es != [] {
      LastStep(cfg, s, es);
      HandshakeIsHistory(cfg, s, Front(es));
      OpenMovesSo(cfg, s, es);
      ArmedMovesSo(cfg, s, es);
      TagMovesSo(cfg, s, es);
      NumberMovesSo(cfg, s, es);
      TargetMovesSo(cfg, s, es);
      assert Moves(cfg, s, es) && Agrees(cfg, s, es);
      hide CoopIsHistory, Moves, Agrees, Running, OpenMoves, ArmedMoves, TagMoves, NumberMoves, TargetMoves;
      if Latest(es).OfferWork? { OfferTurn(cfg, s, es); } else { OtherTurn(cfg, s, es); }
    }
  }

  /** Over every run, which failures count and which of them ask for the hop work: none while the
    * result of an open offer is due, the endpoint is idle or holds on the rendezvous channel;
    * the others past the cooldown, or inside it to ask for the fallback once after enough
    * silence. */
  lemma FailuresCountExactly(cfg: Config, s: Hopper, es: seq<Event>, now: nat)
    requires Running(cfg, s, es)
    ensures var counts := !(OfferOpen(cfg, s, es) && OfferTagged(cfg, s, es)) && Sending(cfg, s, es)
                          && !(HoldEnd(cfg, s, es) != 0 && Ahead(HoldEnd(cfg, s, es), now));
      var cooling := CooldownEnd(cfg, s, es) != 0 && Ahead(CooldownEnd(cfg, s, es), now);
      var silent := cfg.fallbackMs > 0 && LastSign(cfg, s, es) != 0 && Elapsed(now, LastSign(cfg, s, es)) >= cfg.fallbackMs;
      && (Counts(After(cfg, s, es), now) <==> counts)
      && (Submits(cfg, After(cfg, s, es), now) <==> counts && (!cooling || (silent && !FallbackAsked(cfg, s, es))))
  {
    HandshakeIsHistory(cfg, s, es);
    RadioIsHistory(cfg, s, es);
    TimersAreHistory(cfg, s, es);
    hide Running, After, OfferOpen, OfferArmed, OfferTagged, OfferNumber, AgreedTarget;
    hide ReachedChannel, ConfirmedChannel, StillSynced, UnprovenFrom, LastLeft, FallbackAsked, LinkIsUp, Sending;
    hide CooldownEnd, CoopCooldownEnd, LastSign, HoldEnd;
  }

  // ---- To its end ----

  /** Events that leave the handshake alone. */
  predicate Bystander(e: Event) {
    !(e.TxSuccess? || e.TxFailed? || e.GoIdle? || e.Disconnected? || e.OfferWork? || e.CommitWork? || e.Accept?)
  }

  lemma StepAside(cfg: Config, s: Hopper, e: Event)
    requires Possible(cfg, s, e) && Bystander(e) && s.coop.phase != CoopIdle && s.radio.linkUp && s.radio.active
    ensures var t := Apply(cfg, s, e); t.coop == s.coop && t.radio.linkUp && t.radio.active
  {
    hide Quarantined, CooldownActive, Useful, Legal;
  }

  lemma {:induction false} StandAside(cfg: Config, s: Hopper, es: seq<Event>)
    requires Running(cfg, s, es) && (forall e :: e in es ==> Bystander(e))
    requires s.coop.phase != CoopIdle && s.radio.linkUp && s.radio.active
    ensures var t := After(cfg, s, es); t.coop == s.coop && t.radio.linkUp && t.radio.active
    decreases |es|
  {
    if es != [] {
      assert es[0] in es;
      StepAside(cfg, s, es[0]);
      StandAside(cfg, Apply(cfg, s, es[0]), es[1..]);
    }
  }

  /** Undisturbed, an OFFER that is sent and acknowledged ends with a hop to the channel agreed:
    * with an open offer, a number goes out for the goal; its packet is acknowledged, with or
    * without an ACCEPT of that number in it; and when the commit work finds the radio willing
    * and on another channel, the radio goes there. */
  lemma HandshakeCompletes(cfg: Config, s: Hopper, pick: nat, sent: nat, a: seq<Event>, answer: Event, acked: nat,
                           b: seq<Event>, now: nat)
    requires Possible(cfg, s, OfferWork(pick, true, sent)) && Offers(s, pick, sent)
    requires var t := Apply(cfg, s, OfferWork(pick, true, sent));
      && Running(cfg, t, a) && (forall e :: e in a ==> Bystander(e))
      && (answer == UserTx || (answer.Accept? && answer.seq_ == t.coop.seq_))
      && Possible(cfg, After(cfg, t, a), answer)
      && var u := Apply(cfg, After(cfg, t, a), answer);
      && Possible(cfg, u, TxSuccess(acked)) && Running(cfg, Apply(cfg, u, TxSuccess(acked)), b) && (forall e :: e in b ==> Bystander(e))
    ensures var t := Apply(cfg, s, OfferWork(pick, true, sent));
      var u := Apply(cfg, After(cfg, t, a), answer);
      var w := After(cfg, Apply(cfg, u, TxSuccess(acked)), b);
      var agreed := if answer.Accept? && answer.agreed < CHANNELS then answer.agreed else CoopTarget(s, pick, sent);
      |w.q.expires| == CHANNELS && agreed != INVALID && agreed != w.radio.channel ==>
        PlanOf(cfg, w, CommitWork(true, now)) == Hop(Cooperative, agreed, now)
  {
    var t := Apply(cfg, s, OfferWork(pick, true, sent));
    StandAside(cfg, t, a);
    var u := Apply(cfg, After(cfg, t, a), answer);
    AnswerTaken(cfg, After(cfg, t, a), answer);
    AckArms(cfg, u, acked);
    StandAside(cfg, Apply(cfg, u, TxSuccess(acked)), b);
    hide Apply, After, Running, Possible, Quarantined;
  }

  lemma AnswerTaken(cfg: Config, s: Hopper, answer: Event)
    requires Possible(cfg, s, answer) && s.coop.phase == Offered && s.radio.linkUp && s.radio.active
    requires answer == UserTx || (answer.Accept? && answer.seq_ == s.coop.seq_)
    ensures var t := Apply(cfg, s, answer);
      && t.coop == s.coop.(target := if answer.Accept? && answer.agreed < CHANNELS then answer.agreed else s.coop.target)
      && t.radio.linkUp && t.radio.active
  {
  }

  lemma AckArms(cfg: Config, s: Hopper, now: nat)
    requires Possible(cfg, s, TxSuccess(now)) && OfferLost(s)
    ensures var t := Apply(cfg, s, TxSuccess(now));
      && t.coop == s.coop.(phase := Armed, offerInFlight := false)
      && t.radio.linkUp == s.radio.linkUp && t.radio.active == s.radio.active
  {
  }
}
