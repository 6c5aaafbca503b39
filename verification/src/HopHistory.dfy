/** What the hop manager's variables say about the past (src/esb/channel_hop_ep.c): over every
  * run, each of them is the latest event of its kind since the latest that voids it. */
module HopHistory {
  import opened Clock32
  import opened HopManager
  import opened HopRuns
  import opened HitTable
  import opened Quarantine
  import Evidence
  import Offenders
  import SessionHits

  function Front(es: seq<Event>): seq<Event>
    requires es != []
  {
    es[..|es| - 1]
  }

  function Latest(es: seq<Event>): Event
    requires es != []
  {
    es[|es| - 1]
  }

  /** The last event of a run happens in the state the others lead to. */
  lemma {:induction false} LastStep(cfg: Config, s: Hopper, es: seq<Event>)
    requires Running(cfg, s, es) && es != []
    ensures Running(cfg, s, Front(es)) && Possible(cfg, After(cfg, s, Front(es)), Latest(es))
    ensures After(cfg, s, es) == Apply(cfg, After(cfg, s, Front(es)), Latest(es))
    decreases |es|
  {
    hide Possible, Apply;
    if |es| > 1 {
      LastStep(cfg, Apply(cfg, s, es[0]), es[1..]);
      assert Front(es)[1..] == Front(es[1..]);
    }
  }

  /** The state before the last event, and the hop that event made. */
  ghost function Before(cfg: Config, s: Hopper, es: seq<Event>): (t: Hopper)
    requires Running(cfg, s, es) && es != []
    ensures Running(cfg, s, Front(es)) && Possible(cfg, t, Latest(es)) && |t.q.expires| == CHANNELS
  {
    LastStep(cfg, s, es);
    After(cfg, s, Front(es))
  }

  ghost function LastHop(cfg: Config, s: Hopper, es: seq<Event>): Plan
    requires Running(cfg, s, es) && es != []
  {
    PlanOf(cfg, Before(cfg, s, es), Latest(es))
  }

  // ---- The channels ----

  /** Where the latest hop went. */
  ghost function ReachedChannel(cfg: Config, s: Hopper, es: seq<Event>): nat
    requires Running(cfg, s, es)
  {
    if es == [] then s.radio.channel
    else if LastHop(cfg, s, es).Hop? then LastHop(cfg, s, es).target
    else (LastStep(cfg, s, es); ReachedChannel(cfg, s, Front(es)))
  }

  /** A CONFIRM of a real channel that is not quarantined. */
  predicate Takes(s: Hopper, e: Event)
    requires |s.q.expires| == CHANNELS
  {
    e.Confirm? && e.agreed < CHANNELS && !Quarantined(s.q, e.agreed, e.now)
  }

  /** The channel of the latest CONFIRM taken since the last hop or disconnection. */
  ghost function ConfirmedChannel(cfg: Config, s: Hopper, es: seq<Event>): nat
    requires Running(cfg, s, es)
  {
    if es == [] then s.radio.committed
    else if LastHop(cfg, s, es).Hop? || Latest(es).Disconnected? then INVALID
    else if Takes(Before(cfg, s, es), Latest(es)) then Latest(es).agreed
    else (LastStep(cfg, s, es); ConfirmedChannel(cfg, s, Front(es)))
  }

  /** The channel the last hop left, if that was an ordinary one and nothing was acknowledged
    * or disconnected since. */
  ghost function UnprovenFrom(cfg: Config, s: Hopper, es: seq<Event>): nat
    requires Running(cfg, s, es)
  {
    if es == [] then s.radio.prev
    else if LastHop(cfg, s, es).Hop? then
      if LastHop(cfg, s, es).kind == Normal then ReachedChannel(cfg, s, Front(es)) else INVALID
    else if Latest(es).TxSuccess? || Latest(es).Disconnected? then INVALID
    else (LastStep(cfg, s, es); UnprovenFrom(cfg, s, Front(es)))
  }

  /** The channel other than the rendezvous one that was left last, not counting fallbacks,
    * since the last disconnection. */
  ghost function LastLeft(cfg: Config, s: Hopper, es: seq<Event>): nat
    requires Running(cfg, s, es)
  {
    if es == [] then s.radio.prevKnown
    else if LastHop(cfg, s, es).Hop? && LastHop(cfg, s, es).kind != Fallback
            && ReachedChannel(cfg, s, Front(es)) != cfg.rendezvous then ReachedChannel(cfg, s, Front(es))
    else if Latest(es).Disconnected? then INVALID
    else (LastStep(cfg, s, es); LastLeft(cfg, s, Front(es)))
  }

  // ---- The flags ----

  /** The latest CONFIRM was taken, and since then neither REQUEST nor a look at the agreed
    * channel, on a link that is up, nor a refused CONFIRM, a hop or a disconnection. */
  ghost predicate StillSynced(cfg: Config, s: Hopper, es: seq<Event>)
    requires Running(cfg, s, es)
  {
    if es == [] then s.radio.synced
    else if LastHop(cfg, s, es).Hop? || Latest(es).Disconnected? then false
    else
      LastStep(cfg, s, es);
      var e, front := Latest(es), Front(es);
      if e.Confirm? && e.agreed < CHANNELS then Takes(Before(cfg, s, es), e)
      else
        && StillSynced(cfg, s, front)
        && !(e.Request? && LinkIsUp(cfg, s, front))
        && !(e.Negotiate? && LinkIsUp(cfg, s, front) && Sending(cfg, s, front)
             && !Useful(Before(cfg, s, es), ConfirmedChannel(cfg, s, front), e.now))
  }

  ghost predicate LinkIsUp(cfg: Config, s: Hopper, es: seq<Event>)
    requires Running(cfg, s, es)
  {
    if es == [] then s.radio.linkUp
    else if Latest(es).Connected? then true
    else if Latest(es).Disconnected? then false
    else (LastStep(cfg, s, es); LinkIsUp(cfg, s, Front(es)))
  }

  /** User traffic on a link that is up, or the connection itself, since the endpoint last went
    * idle. */
  ghost predicate Sending(cfg: Config, s: Hopper, es: seq<Event>)
    requires Running(cfg, s, es)
  {
    if es == [] then s.radio.active
    else if Latest(es).Connected? then true
    else if Latest(es).Disconnected? || Latest(es).GoIdle? then false
    else
      LastStep(cfg, s, es);
      (Latest(es).UserTx? && LinkIsUp(cfg, s, Front(es))) || Sending(cfg, s, Front(es))
  }

  /** A failure that counted after enough silence, since the hop work last ran. */
  ghost predicate FallbackAsked(cfg: Config, s: Hopper, es: seq<Event>)
    requires Running(cfg, s, es)
  {
    if es == [] then s.radio.fallbackPending
    else if Latest(es).HopWork? || Latest(es).Disconnected? then false
    else
      LastStep(cfg, s, es);
      var t := Before(cfg, s, es);
      || (Latest(es).TxFailed? && Counts(t, Latest(es).now) && Silent(cfg, t.timers, Latest(es).now))
      || FallbackAsked(cfg, s, Front(es))
  }

  lemma LastRadio(cfg: Config, s: Hopper, es: seq<Event>)
    requires Running(cfg, s, es) && es != []
    ensures After(cfg, s, es).radio ==
      if LastHop(cfg, s, es).Hop? then LandedRadio(cfg, Before(cfg, s, es).radio, LastHop(cfg, s, es))
      else QuietRadio(cfg, Before(cfg, s, es), Latest(es))
  {
    hide LandedRadio, QuietRadio, PlanOf, Legal;
    LastStep(cfg, s, es);
  }

  lemma {:induction false} ChannelIsReached(cfg: Config, s: Hopper, es: seq<Event>)
    requires Running(cfg, s, es)
    ensures After(cfg, s, es).radio.channel == ReachedChannel(cfg, s, es)
  {
    if es != [] {
      LastStep(cfg, s, es);
      ChannelIsReached(cfg, s, Front(es));
      LastRadio(cfg, s, es);
      hide Running, After, Apply, PlanOf, Quarantined, Counts, Silent, Useful;
    }
  }

  lemma {:induction false} CommittedIsConfirmed(cfg: Config, s: Hopper, es: seq<Event>)
    requires Running(cfg, s, es)
    ensures After(cfg, s, es).radio.committed == ConfirmedChannel(cfg, s, es)
  {
    if es != [] {
      LastStep(cfg, s, es);
      CommittedIsConfirmed(cfg, s, Front(es));
      LastRadio(cfg, s, es);
      hide Running, After, Apply, PlanOf, Quarantined, Counts, Silent, Useful;
    }
  }

  lemma {:induction false} PrevIsUnproven(cfg: Config, s: Hopper, es: seq<Event>)
    requires Running(cfg, s, es)
    ensures After(cfg, s, es).radio.prev == UnprovenFrom(cfg, s, es)
  {
    if es != [] {
      LastStep(cfg, s, es);
      PrevIsUnproven(cfg, s, Front(es));
      ChannelIsReached(cfg, s, Front(es));
      LastRadio(cfg, s, es);
      hide Running, After, Apply, PlanOf, Quarantined, Counts, Silent, Useful, ReachedChannel;
    }
  }

  lemma {:induction false} KnownIsLastLeft(cfg: Config, s: Hopper, es: seq<Event>)
    requires Running(cfg, s, es)
    ensures After(cfg, s, es).radio.prevKnown == LastLeft(cfg, s, es)
  {
    if es != [] {
      LastStep(cfg, s, es);
      KnownIsLastLeft(cfg, s, Front(es));
      ChannelIsReached(cfg, s, Front(es));
      LastRadio(cfg, s, es);
      hide Running, After, Apply, PlanOf, Quarantined, Counts, Silent, Useful, ReachedChannel;
    }
  }

  lemma {:induction false} UpIsLinkUp(cfg: Config, s: Hopper, es: seq<Event>)
    requires Running(cfg, s, es)
    ensures After(cfg, s, es).radio.linkUp <==> LinkIsUp(cfg, s, es)
  {
    if es != [] {
      LastStep(cfg, s, es);
      UpIsLinkUp(cfg, s, Front(es));
      LastRadio(cfg, s, es);
      hide Running, After, Apply, Quarantined, Counts, Silent, Useful, Decide;
    }
  }

  lemma {:induction false} ActiveIsSending(cfg: Config, s: Hopper, es: seq<Event>)
    requires Running(cfg, s, es)
    ensures After(cfg, s, es).radio.active <==> Sending(cfg, s, es)
  {
    if es != [] {
      LastStep(cfg, s, es);
      ActiveIsSending(cfg, s, Front(es));
      UpIsLinkUp(cfg, s, Front(es));
      LastRadio(cfg, s, es);
      hide Running, After, Apply, Quarantined, Counts, Silent, Useful, Decide, LinkIsUp;
    }
  }

  lemma {:induction false} PendingIsAsked(cfg: Config, s: Hopper, es: seq<Event>)
    requires Running(cfg, s, es)
    ensures After(cfg, s, es).radio.fallbackPending <==> FallbackAsked(cfg, s, es)
  {
    if es != [] {
      LastStep(cfg, s, es);
      PendingIsAsked(cfg, s, Front(es));
      LastRadio(cfg, s, es);
      hide Running, After, Apply, Quarantined, Counts, Silent, Useful;
    }
  }

  lemma {:induction false} SyncedIsKept(cfg: Config, s: Hopper, es: seq<Event>)
    requires Running(cfg, s, es)
    ensures After(cfg, s, es).radio.synced <==> StillSynced(cfg, s, es)
  {
    if es != [] {
      LastStep(cfg, s, es);
      SyncedIsKept(cfg, s, Front(es));
      CommittedIsConfirmed(cfg, s, Front(es));
      UpIsLinkUp(cfg, s, Front(es));
      ActiveIsSending(cfg, s, Front(es));
      LastRadio(cfg, s, es);
      hide Running, After, Apply, PlanOf, Quarantined, Counts, Silent, ConfirmedChannel, LinkIsUp, Sending;
      assert After(cfg, s, es).radio.synced <==> StillSynced(cfg, s, es);
    }
  }

  /** Over every run the variables about channels and link are what happened last. */
  lemma RadioIsHistory(cfg: Config, s: Hopper, es: seq<Event>)
    requires Running(cfg, s, es)
    ensures After(cfg, s, es).radio ==
      Radio(ReachedChannel(cfg, s, es), ConfirmedChannel(cfg, s, es), StillSynced(cfg, s, es), UnprovenFrom(cfg, s, es),
            LastLeft(cfg, s, es), FallbackAsked(cfg, s, es), LinkIsUp(cfg, s, es), Sending(cfg, s, es))
  {
    ChannelIsReached(cfg, s, es);
    CommittedIsConfirmed(cfg, s, es);
    SyncedIsKept(cfg, s, es);
    PrevIsUnproven(cfg, s, es);
    KnownIsLastLeft(cfg, s, es);
    PendingIsAsked(cfg, s, es);
    UpIsLinkUp(cfg, s, es);
    ActiveIsSending(cfg, s, es);
  }

  // ---- Where the next hop goes ----

  /** The next hop, from the past alone. */
  ghost function NextHop(cfg: Config, s: Hopper, es: seq<Event>, pick: nat, now: nat): Plan
    requires Running(cfg, s, es) && |After(cfg, s, es).q.expires| == CHANNELS
  {
    var here, agreed := ReachedChannel(cfg, s, es), ConfirmedChannel(cfg, s, es);
    var unproven, known := UnprovenFrom(cfg, s, es), LastLeft(cfg, s, es);
    if FallbackAsked(cfg, s, es) then
      if here == cfg.rendezvous then Stay else Hop(Fallback, cfg.rendezvous, now)
    else if unproven != INVALID && unproven != here then Hop(Revert, unproven, now)
    else if agreed != INVALID && agreed != here && !Quarantined(After(cfg, s, es).q, agreed, now) then Hop(Normal, agreed, now)
    else if here != cfg.rendezvous then Hop(Normal, cfg.rendezvous, now)
    else if known != INVALID && known != here then Hop(Normal, known, now)
    else if pick == INVALID || pick == here then Stay
    else Hop(Normal, pick, now)
  }

  /** Over every run, a hop work that the radio does not refuse goes where the past says: home
    * for a fallback asked for, back from an unproven hop, to the channel the dongle confirmed,
    * home, to the channel last left, or to a fresh pick. */
  lemma NextHopIsHistory(cfg: Config, s: Hopper, es: seq<Event>, pick: nat, now: nat)
    requires Sane(cfg) && Running(cfg, s, es) && |After(cfg, s, es).q.expires| == CHANNELS
    ensures PlanOf(cfg, After(cfg, s, es), Event.HopWork(pick, true, now)) == NextHop(cfg, s, es, pick, now)
  {
    RadioIsHistory(cfg, s, es);
    hide ReachedChannel, ConfirmedChannel, UnprovenFrom, LastLeft, FallbackAsked, StillSynced, LinkIsUp, Sending, Running, After, Quarantined;
  }

  ghost predicate NoHops(cfg: Config, s: Hopper, es: seq<Event>)
    requires Running(cfg, s, es)
    decreases |es|
  {
    es != [] ==> !PlanOf(cfg, s, es[0]).Hop? && NoHops(cfg, Apply(cfg, s, es[0]), es[1..])
  }

  /** Without a hop, a CONFIRM or a disconnection the agreed channel stays agreed. */
  lemma {:induction false} AgreedStays(cfg: Config, s: Hopper, es: seq<Event>)
    requires Running(cfg, s, es) && NoHops(cfg, s, es) && forall e :: e in es ==> !e.Confirm? && !e.Disconnected?
    ensures After(cfg, s, es).radio.committed == s.radio.committed && After(cfg, s, es).radio.channel == s.radio.channel
    decreases |es|
  {
    if es != [] {
      assert es[0] in es;
      AgreedStays(cfg, Apply(cfg, s, es[0]), es[1..]);
      hide Running, After, PlanOf, Quarantined, Counts, Silent, Useful;
    }
  }

  /** The negotiated channel is where the next hop goes: after a CONFIRM that was taken, and any
    * run without a further CONFIRM, a hop or a disconnection, a hop work with no fallback asked
    * for and no revert due makes an ordinary hop to the agreed channel, if that is another
    * channel and not quarantined by then. */
  lemma ConfirmedIsNext(cfg: Config, s: Hopper, agreed: nat, at: nat, es: seq<Event>, pick: nat, now: nat)
    requires Sane(cfg) && Possible(cfg, s, Confirm(agreed, at)) && Takes(s, Confirm(agreed, at))
    requires var t := Apply(cfg, s, Confirm(agreed, at));
      Running(cfg, t, es) && NoHops(cfg, t, es) && forall e :: e in es ==> !e.Confirm? && !e.Disconnected?
    ensures var u := After(cfg, Apply(cfg, s, Confirm(agreed, at)), es);
      && u.radio.committed == agreed && u.radio.channel == s.radio.channel
      && (|u.q.expires| == CHANNELS && !u.radio.fallbackPending && (u.radio.prev == INVALID || u.radio.prev == u.radio.channel)
          && agreed != u.radio.channel && !Quarantined(u.q, agreed, now) ==>
            PlanOf(cfg, u, Event.HopWork(pick, true, now)) == Hop(Normal, agreed, now))
  {
    AgreedStays(cfg, Apply(cfg, s, Confirm(agreed, at)), es);
    hide Running, After, NoHops, Quarantined;
  }

  lemma {:induction false} RevertStays(cfg: Config, s: Hopper, es: seq<Event>)
    requires Running(cfg, s, es) && NoHops(cfg, s, es) && forall e :: e in es ==> !e.TxSuccess? && !e.Disconnected?
    ensures After(cfg, s, es).radio.prev == s.radio.prev && After(cfg, s, es).radio.channel == s.radio.channel
    decreases |es|
  {
    if es != [] {
      assert es[0] in es;
      RevertStays(cfg, Apply(cfg, s, es[0]), es[1..]);
      hide Running, After, PlanOf, Quarantined, Counts, Silent, Useful;
    }
  }

  /** A hop that proves nothing is undone: after an ordinary hop, and any run without an
    * acknowledgement, a hop or a disconnection, a hop work with no fallback asked for goes back
    * to the channel it left. */
  lemma UnprovenIsReverted(cfg: Config, s: Hopper, e: Event, es: seq<Event>, pick: nat, now: nat)
    requires Sane(cfg) && Possible(cfg, s, e) && PlanOf(cfg, s, e).Hop? && PlanOf(cfg, s, e).kind == Normal
    requires s.radio.channel < CHANNELS
    requires var t := Apply(cfg, s, e);
      Running(cfg, t, es) && NoHops(cfg, t, es) && forall e :: e in es ==> !e.TxSuccess? && !e.Disconnected?
    ensures var u := After(cfg, Apply(cfg, s, e), es);
      |u.q.expires| == CHANNELS && !u.radio.fallbackPending ==>
        PlanOf(cfg, u, Event.HopWork(pick, true, now)) == Hop(Revert, s.radio.channel, now)
  {
    RevertStays(cfg, Apply(cfg, s, e), es);
    PlanIsMove(cfg, s, e);
    hide Running, After, NoHops, Quarantined, Decide;
    assert Apply(cfg, s, e).radio.prev == s.radio.channel && Apply(cfg, s, e).radio.channel != s.radio.channel;
    var u := After(cfg, Apply(cfg, s, e), es);
    if |u.q.expires| == CHANNELS && !u.radio.fallbackPending {
      DecidesRevert(cfg, u, pick, now);
    }
  }

  lemma DecidesRevert(cfg: Config, u: Hopper, pick: nat, now: nat)
    requires |u.q.expires| == CHANNELS && !u.radio.fallbackPending && u.radio.prev != INVALID && u.radio.prev != u.radio.channel
    ensures Decide(cfg, u, pick, now) == Hop(Revert, u.radio.prev, now)
  {
  }

  // ---- The clocks ----

  /** The end of the cooldown of the latest hop since the last disconnection. */
  ghost function CooldownEnd(cfg: Config, s: Hopper, es: seq<Event>): nat
    requires Running(cfg, s, es)
  {
    if es == [] then s.timers.cooldownUntil
    else if LastHop(cfg, s, es).Hop? then Later(LastHop(cfg, s, es).at, cfg.cooldownMs)
    else if Latest(es).Disconnected? then 0
    else (LastStep(cfg, s, es); CooldownEnd(cfg, s, Front(es)))
  }

  /** The end of the cooldown of the latest cooperative hop since the last disconnection. */
  ghost function CoopCooldownEnd(cfg: Config, s: Hopper, es: seq<Event>): nat
    requires Running(cfg, s, es)
  {
    if es == [] then s.timers.coopCooldownUntil
    else if LastHop(cfg, s, es).Hop? && LastHop(cfg, s, es).kind == Cooperative then Later(LastHop(cfg, s, es).at, cfg.coopCooldownMs)
    else if Latest(es).Disconnected? then 0
    else (LastStep(cfg, s, es); CoopCooldownEnd(cfg, s, Front(es)))
  }

  /** When the latest hop was made or packet acknowledged since the last disconnection. */
  ghost function LastSign(cfg: Config, s: Hopper, es: seq<Event>): nat
    requires Running(cfg, s, es)
  {
    if es == [] then s.timers.linkEventAt
    else if LastHop(cfg, s, es).Hop? then Stamp(LastHop(cfg, s, es).at)
    else if Latest(es).TxSuccess? then Stamp(Latest(es).now)
    else if Latest(es).Disconnected? then 0
    else (LastStep(cfg, s, es); LastSign(cfg, s, Front(es)))
  }

  /** The end of the hold of the latest fallback, unless something was acknowledged, a failure
    * counted, or the link was disconnected since. */
  ghost function HoldEnd(cfg: Config, s: Hopper, es: seq<Event>): nat
    requires Running(cfg, s, es)
  {
    if es == [] then s.timers.holdUntil
    else if LastHop(cfg, s, es).Hop? && LastHop(cfg, s, es).kind == Fallback && cfg.holdMs > 0
      then Stamp(Later(LastHop(cfg, s, es).at, cfg.holdMs))
    else if Latest(es).TxSuccess? || Latest(es).Disconnected? then 0
    else if Latest(es).TxFailed? && Counts(Before(cfg, s, es), Latest(es).now) then 0
    else (LastStep(cfg, s, es); HoldEnd(cfg, s, Front(es)))
  }

  lemma LastTimers(cfg: Config, s: Hopper, es: seq<Event>)
    requires Running(cfg, s, es) && es != []
    ensures After(cfg, s, es).timers ==
      if LastHop(cfg, s, es).Hop? then LandedTimers(cfg, Before(cfg, s, es).timers, LastHop(cfg, s, es))
      else QuietTimers(cfg, Before(cfg, s, es), Latest(es))
  {
    hide LandedTimers, QuietTimers, PlanOf, Legal;
    LastStep(cfg, s, es);
  }

  /** Over every run the four clocks are those of what happened last. */
  lemma {:induction false} TimersAreHistory(cfg: Config, s: Hopper, es: seq<Event>)
    requires Running(cfg, s, es)
    ensures After(cfg, s, es).timers ==
      Timers(CooldownEnd(cfg, s, es), LastSign(cfg, s, es), HoldEnd(cfg, s, es), CoopCooldownEnd(cfg, s, es))
  {
    if es != [] {
      LastStep(cfg, s, es);
      TimersAreHistory(cfg, s, Front(es));
      LastTimers(cfg, s, es);
      hide Running, After, Apply, Counts, Decide, Later;
    }
  }
}
