/** Cooperative hops go only where the handshake agreed (src/esb/channel_hop_ep.c). */
module CoopHops {
  import opened HopManager
  import opened HopRuns
  import opened Quarantine

  /** What happens on the air and in the radio, as far as the handshake is concerned. */
  datatype Note = OfferSent(target: nat, seq_: nat) | AcceptHeard(agreed: nat, seq_: nat) | CoopHop(target: nat)

  function Emitted(cfg: Config, s: Hopper, e: Event): seq<Note>
    requires |s.q.expires| == CHANNELS
  {
    match e
    case OfferWork(pick, sent, now) =>
      if Offers(s, pick, now) && sent then [OfferSent(CoopTarget(s, pick, now), (s.coop.seq_ + 1) % 256)] else []
    case Accept(agreed, seq_) => if agreed < CHANNELS then [AcceptHeard(agreed, seq_)] else []
    case CommitWork(_, _) => if PlanOf(cfg, s, e).Hop? then [CoopHop(PlanOf(cfg, s, e).target)] else []
    case _ => []
  }

  ghost function Trace(cfg: Config, s: Hopper, es: seq<Event>): seq<Note>
    requires Running(cfg, s, es)
    decreases |es|
  {
    if es == [] then [] else Emitted(cfg, s, es[0]) + Trace(cfg, Apply(cfg, s, es[0]), es[1..])
  }

  /** Sequence byte of the latest OFFER. */
  function LatestSeq(notes: seq<Note>): nat {
    if notes == [] then 0
    else if notes[|notes| - 1].OfferSent? then notes[|notes| - 1].seq_
    else LatestSeq(notes[..|notes| - 1])
  }

  function Tabled(table: set<nat>, latest: nat, note: Note): set<nat> {
    if note.OfferSent? then {note.target}
    else if note.AcceptHeard? && note.seq_ == latest then table + {note.agreed}
    else table
  }

  /** The channels on the table: the latest OFFER's target and every channel an ACCEPT with
    * its sequence byte has answered with since. */
  function OnTable(notes: seq<Note>): set<nat> {
    if notes == [] then {} else
      var front := notes[..|notes| - 1];
      Tabled(OnTable(front), LatestSeq(front), notes[|notes| - 1])
  }

  /** Every cooperative hop goes to a channel on the table when it is made. */
  ghost predicate AllAgreed(notes: seq<Note>, from: nat) {
    forall k: nat :: from <= k < |notes| && notes[k].CoopHop? ==> notes[k].target in OnTable(notes[..k])
  }

  /** A handshake under way is about the latest OFFER. */
  ghost predicate Backed(c: Coop, notes: seq<Note>) {
    c.offerInFlight || c.phase == Armed ==> c.target in OnTable(notes) && c.seq_ == LatestSeq(notes)
  }

  lemma Push(notes: seq<Note>, note: Note)
    ensures (notes + [note])[..|notes|] == notes
    ensures LatestSeq(notes + [note]) == if note.OfferSent? then note.seq_ else LatestSeq(notes)
    ensures OnTable(notes + [note]) == Tabled(OnTable(notes), LatestSeq(notes), note)
  {
  }

  lemma StepBacked(cfg: Config, s: Hopper, e: Event, past: seq<Note>)
    requires Possible(cfg, s, e) && Backed(s.coop, past)
    ensures Backed(Apply(cfg, s, e).coop, past + Emitted(cfg, s, e))
    ensures forall note :: note in Emitted(cfg, s, e) && note.CoopHop? ==> note.target in OnTable(past)
    ensures |Emitted(cfg, s, e)| <= 1
  {
    hide Legal, OnTable, LatestSeq, Quarantined, CooldownActive, Silent, Counts, Decide;
    hide LandedQ, LandedHits, LandedTimers, LandedRadio, QuietTimers, QuietQ, QuietRadio, QuietHits;
    var notes := Emitted(cfg, s, e);
    if notes == [] {
      assert past + notes == past;
    } else {
      Push(past, notes[0]);
      assert past + notes == past + [notes[0]];
    }
  }

  /** Over every run that starts with no handshake under way. */
  lemma {:induction false} CoopHopsAreAgreed(cfg: Config, s: Hopper, es: seq<Event>, past: seq<Note>)
    requires Running(cfg, s, es) && Backed(s.coop, past)
    ensures AllAgreed(past + Trace(cfg, s, es), |past|)
    decreases |es|
  {
    hide Legal, Apply, OnTable, LatestSeq, Backed;
    if es != [] {
      var notes, next := Emitted(cfg, s, es[0]), Apply(cfg, s, es[0]);
      StepBacked(cfg, s, es[0], past);
      CoopHopsAreAgreed(cfg, next, es[1..], past + notes);
      var all := past + Trace(cfg, s, es);
      assert all == past + notes + Trace(cfg, next, es[1..]);
      forall k: nat | |past| <= k < |all| && all[k].CoopHop? ensures all[k].target in OnTable(all[..k]) {
        if k == |past| && notes != [] {
          assert all[..k] == past && all[k] == notes[0];
        }
      }
    }
  }
}
