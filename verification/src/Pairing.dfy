/** Pairing with a dongle (src/esb/pairing.c), across reboots. */
module Pairing {

  const PAIR_REQ: nat := 0x02
  const DISCONNECT: nat := 0x07
  const VERIFY_RESP: nat := 0x11
  const RESYNC: nat := 0x13
  const ID_BYTES: nat := 6

  type Id = seq<nat>

  const NO_ID: Id := [0, 0, 0, 0, 0, 0]

  datatype Phase = Idle | Unpaired | Verifying | Connected

  /** RAM and the record in flash; an empty record means none was ever saved. */
  datatype State = State(phase: Phase, peer: Id, stored: bool, record: seq<nat>)

  datatype Event = Reboot | Start | Stop | Unpair | Receive(data: seq<nat>)

  // ---- The record ----

  /** `save_paired` */
  function Record(paired: bool, peer: Id): seq<nat> {
    if paired then [1] + peer else [0] + NO_ID
  }

  /** `settings_load_cb` over freshly cleared RAM: the peer id is taken over whatever the
    * paired byte says; records of another length are dropped. */
  function LoadedStored(record: seq<nat>): bool {
    |record| == 1 + ID_BYTES && record[0] == 1
  }

  function LoadedPeer(record: seq<nat>): (peer: Id)
    ensures |peer| == ID_BYTES
  {
    if |record| == 1 + ID_BYTES then record[1..] else NO_ID
  }

  /** A record is a flag and an id, the zero id without a bond, and reloads to just that. */
  lemma RecordIsBond(paired: bool, peer: Id)
    requires |peer| == ID_BYTES
    ensures var r := Record(paired, peer);
      && |r| == 1 + ID_BYTES && r[0] == (if paired then 1 else 0) && r[1..] == (if paired then peer else NO_ID)
      && LoadedStored(r) == paired && LoadedPeer(r) == if paired then peer else NO_ID
  {
  }

  // ---- Steps ----

  predicate Carries(data: seq<nat>, code: nat) {
    |data| >= 1 + ID_BYTES && data[0] == code
  }

  function IdOf(data: seq<nat>): (id: Id)
    requires |data| >= 1 + ID_BYTES
    ensures |id| == ID_BYTES
  {
    data[1..1 + ID_BYTES]
  }

  predicate IsCode(data: seq<nat>, code: nat) {
    |data| >= 1 && data[0] == code
  }

  function Forgotten(s: State): State {
    s.(peer := NO_ID, stored := false, record := Record(false, NO_ID))
  }

  /** `pairing_on_rx` */
  function Received(s: State, data: seq<nat>): State {
    if Carries(data, PAIR_REQ) && s.phase == Unpaired then
      State(Connected, IdOf(data), true, Record(true, IdOf(data)))
    else if Carries(data, VERIFY_RESP) && s.phase == Verifying && IdOf(data) == s.peer then
      s.(phase := Connected)
    else if IsCode(data, DISCONNECT) then Forgotten(s).(phase := Unpaired)
    else if IsCode(data, RESYNC) && s.phase == Connected then s.(phase := Verifying)
    else s
  }

  function Step(s: State, e: Event): State {
    match e
    case Reboot => State(Idle, LoadedPeer(s.record), LoadedStored(s.record), s.record)
    case Start => s.(phase := if s.stored then Verifying else Unpaired)
    case Stop => s.(phase := Idle)
    case Unpair => Forgotten(s).(phase := if s.phase == Idle then Idle else Unpaired)
    case Receive(data) => Received(s, data)
  }

  function Run(s: State, es: seq<Event>): State {
    if es == [] then s else Step(Run(s, es[..|es| - 1]), es[|es| - 1])
  }

  // ---- What holds in every state ----

  ghost predicate Inv(s: State) {
    && |s.peer| == ID_BYTES
    && (s.phase == Verifying || s.phase == Connected ==> s.stored)
    && (s.phase == Unpaired ==> !s.stored)
    && s.stored == LoadedStored(s.record) && s.peer == LoadedPeer(s.record)
  }

  /** Whatever flash holds, booting leads to a good state. */
  lemma BootIsGood(s: State)
    ensures Inv(Step(s, Reboot))
  {
  }

  lemma {:induction false} RunKeepsInv(s: State, es: seq<Event>)
    requires Inv(s)
    ensures Inv(Run(s, es))
  {
    if es != [] {
      RunKeepsInv(s, es[..|es| - 1]);
    }
  }

  /** A power cycle at any moment of any run loses nothing: the pairing that is loaded is
    * the one that was in RAM. */
  lemma RebootKeepsPairing(s: State, es: seq<Event>)
    requires Inv(s)
    ensures var now := Run(s, es); var later := Run(s, es + [Reboot]);
      later.stored == now.stored && later.peer == now.peer && later.phase == Idle
  {
    RunKeepsInv(s, es);
    assert (es + [Reboot])[..|es|] == es;
  }

  // ---- Who the peer is ----

  datatype Bond = NoBond | With(id: Id)

  /** The bond a run leaves: the latest PAIR_REQ accepted and not dropped since. */
  function BondAfter(s: State, es: seq<Event>, start: Bond): Bond {
    if es == [] then start else
      var front, e := es[..|es| - 1], es[|es| - 1];
      if e == Unpair || (e.Receive? && IsCode(e.data, DISCONNECT)) then NoBond
      else if e.Receive? && Carries(e.data, PAIR_REQ) && Run(s, front).phase == Unpaired then With(IdOf(e.data))
      else BondAfter(s, front, start)
  }

  function BondOf(s: State): Bond {
    if s.stored then With(s.peer) else NoBond
  }

  /** Over every run, reboots included, the stored peer is exactly that bond. */
  lemma {:induction false} StoredIsLatestPairing(s: State, es: seq<Event>)
    requires Inv(s)
    ensures BondOf(Run(s, es)) == BondAfter(s, es, BondOf(s))
  {
    if es != [] {
      StoredIsLatestPairing(s, es[..|es| - 1]);
      RunKeepsInv(s, es[..|es| - 1]);
    }
  }

  /** An event that ends any earlier confirmation of the peer. */
  predicate Breaks(e: Event) {
    !e.Receive? || IsCode(e.data, DISCONNECT) || IsCode(e.data, RESYNC)
  }

  /** Event k is an answer that is taken: a PAIR_REQ while unpaired, or a VERIFY_RESP while
    * verifying, naming `id`; and nothing since ends it. */
  ghost predicate ConfirmedAt(s: State, es: seq<Event>, k: nat, id: Id) {
    && k < |es| && Answers(Run(s, es[..k]).phase, es[k], id)
    && forall j :: k < j < |es| ==> !Breaks(es[j])
  }

  predicate Answers(phase: Phase, e: Event, id: Id) {
    e.Receive? && ((phase == Unpaired && Carries(e.data, PAIR_REQ)) || (phase == Verifying && Carries(e.data, VERIFY_RESP)))
    && IdOf(e.data) == id
  }

  /** How one event makes or keeps a connection. */
  lemma ConnectStep(s: State, e: Event)
    requires Inv(s)
    ensures var t := Step(s, e);
      && (t.phase == Connected <==> Answers(s.phase, e, t.peer) || (s.phase == Connected && !Breaks(e)))
      && (!Breaks(e) && t.peer != s.peer ==> t.phase == Connected)
      && (s.phase == Connected && !Breaks(e) ==> t.peer == s.peer)
  {
  }

  /** Over every run: connected if and only if, since the last start, resync, unpair,
    * disconnect or reboot, the dongle has answered a check or paired anew as the stored peer. */
  lemma {:induction false} ConnectedIsConfirmed(s: State, es: seq<Event>)
    requires Inv(s) && s.phase != Connected
    ensures Run(s, es).phase == Connected <==> exists k: nat :: ConfirmedAt(s, es, k, Run(s, es).peer)
    ensures Run(s, es).phase == Connected ==> Run(s, es).stored
  {
    RunKeepsInv(s, es);
    if es != [] {
      var front, last, t := es[..|es| - 1], |es| - 1, Run(s, es);
      var before := Run(s, front);
      ConnectedIsConfirmed(s, front);
      RunKeepsInv(s, front);
      ConnectStep(before, es[last]);
      hide Inv, Step, Answers, Breaks;
      forall k: nat
        ensures ConfirmedAt(s, es, k, t.peer) <==>
          if k == last then Answers(before.phase, es[last], t.peer) else ConfirmedAt(s, front, k, t.peer) && !Breaks(es[last])
      {
        ConfirmedLonger(s, front, es[last], k, t.peer);
        assert es == front + [es[last]];
      }
      if Answers(before.phase, es[last], t.peer) {
        assert ConfirmedAt(s, es, last, t.peer);
      } else if t.phase == Connected {
        var k: nat :| ConfirmedAt(s, front, k, before.peer);
        assert ConfirmedAt(s, es, k, t.peer);
      }
    }
  }

  lemma ConfirmedLonger(s: State, es: seq<Event>, e: Event, k: nat, id: Id)
    ensures ConfirmedAt(s, es + [e], k, id) <==>
      if k == |es| then Answers(Run(s, es).phase, e, id) else ConfirmedAt(s, es, k, id) && !Breaks(e)
  {
    hide Run, Answers, Breaks;
    if k <= |es| {
      assert (es + [e])[..k] == es[..k] && es[..|es|] == es;
    }
    if ConfirmedAt(s, es + [e], k, id) && k < |es| {
      assert !Breaks((es + [e])[|es|]);
      assert forall j :: k < j < |es| ==> (es + [e])[j] == es[j];
    }
  }

  /** Pairing runs since the last start, and a DISCONNECT starts it too; a stop or a reboot ends
    * it. */
  predicate Runs(s: State, es: seq<Event>) {
    if es == [] then s.phase != Idle else
      var e := es[|es| - 1];
      if e == Start then true
      else if e == Stop || e == Reboot then false
      else (e.Receive? && IsCode(e.data, DISCONNECT)) || Runs(s, es[..|es| - 1])
  }

  lemma {:induction false} IdleIsStopped(s: State, es: seq<Event>)
    ensures Run(s, es).phase == Idle <==> !Runs(s, es)
  {
    if es != [] {
      IdleIsStopped(s, es[..|es| - 1]);
    }
  }

  /** Over every run the phase is the history: idle while stopped, waiting for a partner without
    * a bond, connected once the bond is confirmed, and asking for that otherwise. */
  lemma PhaseIsHistory(s: State, es: seq<Event>)
    requires Inv(s) && s.phase != Connected
    ensures Run(s, es).phase ==
      if !Runs(s, es) then Idle
      else if BondAfter(s, es, BondOf(s)) == NoBond then Unpaired
      else if exists k: nat :: ConfirmedAt(s, es, k, Run(s, es).peer) then Connected
      else Verifying
  {
    IdleIsStopped(s, es);
    StoredIsLatestPairing(s, es);
    ConnectedIsConfirmed(s, es);
    RunKeepsInv(s, es);
    hide Run, Runs, BondAfter, ConfirmedAt;
  }

  // ---- The module's variables ----

  class Manager {
    var phase: Phase
    var peer: Id
    var stored: bool
    var record: seq<nat>

    ghost function View(): State
      reads this
    {
      State(phase, peer, stored, record)
    }

    ghost predicate Valid()
      reads this
    {
      Inv(View())
    }

    /** Power-on with a record in flash, and `pairing_init`. */
    constructor (flash: seq<nat>)
      ensures Valid() && View() == Step(State(Idle, NO_ID, false, flash), Reboot)
    {
      phase, record := Idle, flash;
      stored := |flash| == 1 + ID_BYTES && flash[0] == 1;
      peer := if |flash| == 1 + ID_BYTES then flash[1..] else NO_ID;
    }

    method SavePaired(paired: bool)
      modifies this`record
      ensures record == Record(paired, peer)
    {
      record := [if paired then 1 else 0] + if paired then peer else NO_ID;
    }

    /** `pairing_start` */
    method Start()
      requires Valid()
      modifies this`phase
      ensures Valid() && View() == Step(old(View()), Event.Start)
    {
      phase := if stored then Verifying else Unpaired;
    }

    /** `pairing_stop` */
    method Stop()
      requires Valid()
      modifies this`phase
      ensures Valid() && View() == Step(old(View()), Event.Stop)
    {
      phase := Idle;
    }

    /** `pairing_unpair` */
    method Unpair()
      requires Valid()
      modifies this
      ensures Valid() && View() == Step(old(View()), Event.Unpair)
    {
      stored, peer := false, NO_ID;
      SavePaired(false);
      if phase != Idle {
        phase := Unpaired;
      }
    }

    /** `pairing_on_rx` */
    method OnRx(data: seq<nat>)
      requires Valid()
      modifies this
      ensures Valid() && View() == Step(old(View()), Receive(data))
    {
      if |data| < 1 {
        return;
      }
      if data[0] == PAIR_REQ {
        if phase == Unpaired && |data| >= 1 + ID_BYTES {
          peer := data[1..1 + ID_BYTES];
          stored, phase := true, Connected;
          SavePaired(true);
        }
      } else if data[0] == VERIFY_RESP {
        if phase == Verifying && |data| >= 1 + ID_BYTES {
          if data[1..1 + ID_BYTES] == peer {
            phase := Connected;
          }
        }
      } else if data[0] == DISCONNECT {
        phase, stored, peer := Unpaired, false, NO_ID;
        SavePaired(false);
      } else if data[0] == RESYNC {
        if phase == Connected {
          phase := Verifying;
        }
      }
    }
  }
}
