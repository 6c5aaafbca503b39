# ESB endpoint: model and proofs

The endpoint firmware carries keyboard, consumer and pointer reports over a 2.4 GHz radio
that loses packets, goes quiet and changes channel. This project models its stateful core in
Dafny and proves properties of every run: what the host ends up with, where every unit of
pointer motion went, where the radio can hop, and what a power cycle keeps.

`dafny verify dfyconfig.toml` checks the whole project.

## Layout

Each part of the program that updates its variables in place is a class whose methods are
proved to take one step of a state machine written as functions; the whole-run theorems are
lemmas about those machines.

| files in `src/` | part of the program |
|---|---|
| `SendRing`, `SendRings`, `Packets`, `Link`, `Transport` | per-send rings and bookkeeping of `src/esb/esb_transport.c`; `Link` is the machine, `Transport.EsbTransport` the variables |
| `LinkAnswers`, `LinkTiming` | what a send answers and sets; the quiet window and the age of refunds in true time |
| `VendoredRadio`, `VendoredBalance`, `VendoredHost`, `VendoredCount` | the same bookkeeping over the radio library as it is compiled in: the machine, where motion goes, what the host ends on, the retransmit count |
| `VendoredReplay`, `VendoredRelay` | the queues and the relay of `src/esb/hid_relay.c` over that library |
| `Convergence`, `Parking`, `Replay`, `Lane` | which report the host ends on; drop-oldest queues with re-park |
| `Modifiers`, `KeySlots`, `HidRelay`, `HeldKeys` | `src/esb/hid_relay.c`; `HeldKeys` ties the host's report to the keys down |
| `RelaySessions` | what the end of a session leaves behind in the relay |
| `Overtaking` | two contexts sending reports of one kind |
| `Pointer`, `InputProcessor`, `MotionSent`, `HeldButtons` | `src/esb/input_processor_esb.c`; `MotionSent` says when motion leaves, `HeldButtons` ties the recorded buttons to those held |
| `LinkQuality` | link-quality window, smoothed attempts, adaptive retransmit count |
| `Quarantine`, `Draw`, `Picker` | `src/esb/channel_hop.c` |
| `HitTable`, `SessionHits`, `Offenders`, `DecayClock`, `Evidence` | offender evidence, its record and its clock, in `src/esb/channel_hop_ep.c` |
| `HopManager`, `HopRuns`, `HopTiming`, `CoopHops`, `HopEndpoint` | the hop state machine of `src/esb/channel_hop_ep.c` |
| `HopHistory`, `HopStoresHistory`, `HopHandshakeHistory` | what its variables say about the past, and so where the next hop goes |
| `HopTrigger` | which failures reach it, in the event handler of `src/esb/esb_transport.c` |
| `Pairing` | `src/esb/pairing.c` |
| `Clock32`, `Modulo` | 32-bit uptime and the arithmetic of wrapping counters |

## Assumptions

- Radio contract. `Link`, and everything built on it, takes the contract that
  `src/esb/esb_transport.c:153-161` and `src/esb/esb_transport.c:736-743` describe: each
  accepted payload yields exactly one TX event, in FIFO order, unless it is flushed. A failed
  payload leaves the FIFO before its event or right after it (`lingers` covers both), and the
  host may have heard it although its acknowledgement was lost (`heard`). Writing a payload
  after the full-check and setting the retransmit count succeed.
- The library that is compiled in, `vendor/nrf-esb/subsys/esb.c`, does not keep this contract:
  a payload whose retransmits ran out stays at the front of the FIFO and is sent again, a flush
  does not stop the packet on the air, and the retransmit count cannot be set while the radio
  is busy. The `Vendored` modules run the event handler against that behaviour and state, over
  every run, exactly when each promise survives. The rings stay in step if and only if each
  failure meets a full FIFO and each flush a radio that is not sending (`InStepExactly`). Then
  the bookkeeping is a run of `Link`, and what `Link` keeps of queue, in-flight count and motion
  (`SessionInStep`) and what `Convergence` keeps of reports (`HarmlessSpares`) holds. The radio's
  own retransmit count is not part of that: `InStepYetOff` is a run in step throughout that ends
  off the steady count. Without lockstep, motion is still conserved if and only if every event
  balances (`BalancedExactly`), the host keeps converging if and only if every event spares the
  report (`ConvergesExactly`, and `RelayExactly` for the whole relay), and the radio ends off the
  steady count if and only if an override was set and not restored since (`OffExactly`).
  `MotionTwice`, `KeyLost` and `OverrideOutlives` are the runs that break them.
- Ring sizes. The transport's methods start from rings that can hold a full FIFO; its
  constructor proves that this is so exactly for FIFO depths up to `SendRing.SafeDepth` of each
  ring. `SafeDepthExact` proves that bound is exact, and `ShippedDepths` computes it: with the
  default ring sizes it is 16, so a FIFO of 32, as used with the shell relay, does not fit.
- One session of the radio slot, starting with empty rings.
- Calls that send keyboard, consumer or mouse reports exclude each other: their snapshots are
  sent outside the scheduler lock, and `HidRelay.OvertakenReport` shows that the host can
  otherwise end on the older report, and `Overtaking.OvertakenExactly` says for which
  interleavings it does. Radio events, hops, quiet windows and other packets may
  come between any two sends.

## Where code and comments disagree

- `quarantine_add` says it clamps the expiry at the end of the 32-bit range and that a hold is
  at least as long as asked. It wraps, and an old, larger expiry can swallow a hold after the
  clock has wrapped: `Quarantine.AddHoldsExactly`, `Quarantine.HoldLostAtWrap`.
- The hop cooldown uses zero for "none" without guarding its end against zero, so a cooldown
  that would end exactly on a multiple of 2^32 ms does not exist: `HopTiming.CooldownLasts`.
- `src/Kconfig:789-794` promises a hop to the rendezvous channel when transmissions keep failing
  for the fallback delay after a hop. The failure hook is called only once a failure window, so
  with the default 85, 330 and 360 ms and a dead channel, 30 of every 85 phases of the first
  failure reach the last 30 ms of the cooldown (`HopTrigger.DefaultReach`). On the rendezvous
  channel itself the request is dropped (`HopTiming.DroppedAtHome`).
- `src/esb/esb_transport.c:1540-1543` expects a refused retransmit count to be picked up at the
  next idle moment, and `src/esb/esb_transport.c:551-555` expects the adaptive tick to restore
  one. A refused count is forgotten, and the tick sets a count only when its target has
  changed: `VendoredCount.OverrideOutlives`.
- `session_hits` is described as condemnations since boot. It is that number if and only if the
  channel's entry was there at each of them but the first, has not been aged since the first,
  and the count fits 16 bits: `SessionHits.SessionExactly`. Another channel taking the entry
  over, aging and a reclaim each make it fall short: `SessionHits.SessionFallsShort`.

## Model

| member | source | states |
|---|---|---|
| SendRing.SafeDepthExact | src/esb/esb_transport.c:455-463 | a ring of `size` slots under a counter that wraps at `modulus` holds a backlog of `depth` without reusing a slot, from any counter values, if and only if depth <= SafeDepth |
| SendRing.SlotCollision | src/esb/esb_transport.c:660-662 | the collision that bounds it, across the wrap of the counter |
| SendRing.ShippedDepths | src/esb/esb_transport.c:174-180 | the default rings of 16 and 48 are safe for 16 packets; 64 slots would be safe for 64 |
| SendRing.Ring.Push | src/esb/esb_transport.c:1478-1479 | appends one record to the outstanding ones, whatever the wrapped counters are |
| SendRing.Ring.Pop | src/esb/esb_transport.c:455-463 | returns the oldest outstanding record; an empty ring yields the default |
| SendRings.Rings.Push | src/esb/esb_transport.c:660-694 | one slot per accepted packet in all three rings keeps them describing the FIFO's packets in order |
| SendRings.Rings.Pop | src/esb/esb_transport.c:696-731 | each pop returns exactly the flags and the record of the packet whose event fired |
| SendRings.Rings.HarvestKinds | src/esb/esb_transport.c:765-786 | the harvest loop over the motion ring collects exactly the HID kinds of the outstanding packets |
| Transport.EsbTransport.constructor | src/esb/esb_transport.c:136-190 | a session starts with empty FIFO and rings; the rings can stay in step exactly when their sizes are safe for the FIFO depth |
| Transport.EsbTransport.Send | src/esb/esb_transport.c:1373-1600 | a send with its quiet check, shell refusal, flush-on-full, override, refund and ring pushes is the machine's send, and keeps rings and FIFO in step |
| Transport.EsbTransport.RefundApply | src/esb/esb_transport.c:619-658 | the refund moves motion from the pool into the report, the part beyond 16 bits stays, a stale pool is dropped |
| Transport.EsbTransport.OnTxSuccess | src/esb/esb_transport.c:861-930 | the acknowledged packet's own record is settled; the result says whether it counts for link quality |
| Transport.EsbTransport.OnTxFailed | src/esb/esb_transport.c:943-1068 | the failed packet's motion goes to the pool, its kind to the resync mask, and a full FIFO is flushed |
| Transport.EsbTransport.FlushTx | src/esb/esb_transport.c:750-792 | a flush forgets every slot, asks for a resync of every kind dropped, and restores the retransmit count |
| Transport.EsbTransport.SetChannel | src/esb/esb_transport.c:1157-1264 | a hop stashes and restores the FIFO without losing a packet or a slot, and wipes only the refund pool |
| Transport.EsbTransport.RestoreOrDrop | src/esb/esb_transport.c:804-808 | parked packets come back in front in order, or are given up: their kinds enter the resync mask, the in-flight count is zeroed and the steady retransmit count restored |
| Transport.EsbTransport.TripStart | src/esb/esb_transport.c:1602-1660 | a side-trip parks the FIFO and sends its own packet without touching the rings |
| Transport.EsbTransport.TripDone | src/esb/esb_transport.c:1660-1690 | after the side-trip's event the FIFO and the rings are as before it |
| Transport.EsbTransport.AdaptiveRetry | src/esb/esb_transport.c:533-547 | a new target that the radio takes becomes the steady count; a refused one changes nothing |
| Transport.EsbTransport.TakeResync | src/esb/esb_transport.c:246-255 | the resync worker takes the whole mask at once |
| Transport.EsbTransport.PerformAll | src/esb/esb_transport.c:841-1070 | over any sequence of steps the variables follow the machine and rings, FIFO and counters stay in step |
| LinkAnswers.SendAnswers | src/esb/esb_transport.c:1373-1471 | a send is put off exactly during a side-trip or a quiet window, turned away exactly when it is a shell packet for a full FIFO, and either way no packet is touched |
| LinkAnswers.TypeBytes | src/esb/esb_transport.c:1523-1530 | which type bytes are sent at the elevated count and which belong to the shell |
| LinkAnswers.SendTakes | src/esb/esb_transport.c:1463-1600 | a packet that is taken goes to the end of the FIFO, which a full one is flushed for; which retransmit count it asks for, what is in flight and which resyncs are due then |
| LinkAnswers.FailureFlushes | src/esb/esb_transport.c:1050-1068 | a failure takes the front packet, and the rest exactly if the FIFO is still full; the kinds it asks for and the count it restores |
| LinkAnswers.SuccessTells | src/esb/esb_transport.c:861-930 | an acknowledgement takes the front packet and restores the count exactly after an override |
| LinkAnswers.HeldBack | src/esb/esb_transport.c:1317-1320 | pointer reports are held back exactly while as many moving ones as the cap are outstanding |
| LinkAnswers.RetuneSets | src/esb/esb_transport.c:533-547 | a new target becomes the count meant |
| LinkTiming.QuietAfterHop | src/esb/esb_transport.c:1249-1262 | d milliseconds of true time after a hop that tuned, over any run without another and with no side-trip running, every send is refused if and only if d is inside the quiet time, one millisecond more when its end would read zero |
| LinkTiming.HopMoves | src/esb/esb_transport.c:1157-1248 | a hop moves the radio, keeps every packet and forgets the refunds; a refused one changes nothing |
| LinkTiming.FailureStamps | src/esb/esb_transport.c:713-722 | the first failed motion stamps the pool, later ones keep the stamp |
| LinkTiming.SendReturns | src/esb/esb_transport.c:619-658 | a mouse report takes the refund with it, clamped to 16 bits an axis with the rest kept, if and only if the pool's stamp is fresh; otherwise the refund is dropped by name and the report leaves as it is |
| LinkTiming.RefundByAge | src/esb/esb_transport.c:619-658 | the same in true time, from the failure to the send, over any run without a mouse report or a hop between |
| LinkTiming.ClampIsClosest | src/esb/esb_transport.c:602-617 | clamping takes the 16-bit value closest to what was asked |
| LinkTiming.OthersLeaveRefund | src/esb/esb_transport.c:1551-1597 | no other packet touches the refund |
| Link.ApplyKeepsInv | src/esb/esb_transport.c:696-787 | every step keeps FIFO bound, exact in-flight count, ownership of retransmit overrides, motion conservation and the refund stamp |
| Link.RunKeepsInv | src/esb/esb_transport.c:660-808 | the same over every run |
| Link.FreshInv | src/esb/esb_transport.c:174-190 | and a new session satisfies it |
| Link.NothingOutstanding | src/esb/esb_transport.c:728-787 | in any run of a session, whenever no send is outstanding the retransmit count is the steady one, the in-flight count is zero, and accepted motion is acknowledged, in the pool or in a named drop |
| Link.RefundBalances | src/esb/esb_transport.c:619-658 | the refund moves motion between pool and report or names what it drops, per axis |
| VendoredRadio.RunDrifts | vendor/nrf-esb/subsys/esb.c:1402-1415 | over the library as compiled in, in every state of every run the ring slots describe a suffix of the outstanding packets |
| VendoredRadio.InStepExactly | vendor/nrf-esb/subsys/esb.c:1375-1415 | the slots describe all of them in every state if and only if every failure meets a full FIFO and every flush a radio that is not sending, and the bookkeeping of such a run is that of a run of `Link`; hops, side-trips and retunes included, the radio's own retransmit count not |
| VendoredRadio.StartInStep | src/esb/esb_transport.c:174-190 | a new session starts in step |
| VendoredRadio.SessionInStep | vendor/nrf-esb/subsys/esb.c:1375-1415 | so for a whole session: in step throughout if and only if every event is harmless, and then in-flight count, refund stamp and motion are as over the contract |
| VendoredRadio.GivenUpInStep | src/esb/esb_transport.c:1058-1066 | one failure keeps the rings in step if and only if the FIFO is full |
| VendoredBalance.ApplyGains | src/esb/esb_transport.c:696-787 | from every reachable state: a failure with room accounts for the oldest slot's motion once too often, a flush misses the motion of packets without a slot, a stale acknowledgement swaps one packet's motion for another's, and nothing else changes the balance |
| VendoredBalance.RunGains | src/esb/esb_transport.c:696-787 | the balance after any run is the sum of those amounts, and the in-flight count is that of the slots left |
| VendoredBalance.BalancedExactly | src/esb/esb_transport.c:713-722 | motion is conserved in every state of a run if and only if every such amount is zero |
| VendoredBalance.NothingOutstanding | src/esb/esb_transport.c:728-787 | at rest the in-flight count is zero, and accepted motion differs from what is accounted for by exactly the run's amounts |
| VendoredBalance.MotionTwice | src/esb/esb_transport.c:713-722 | a failure with room in the FIFO, from rings in step, counts its packet's motion exactly once more than was accepted |
| VendoredHost.SparesExactly | src/esb/esb_transport.c:750-787 | one event, from every reachable state: the host still converges on a kind's report if and only if a resync is due, a newer report is parked, the host shows it, the event flushes no report of the kind without a slot unless one has a slot, and no acknowledgement of a packet already flushed shows the host an older one; a failure with room hides nothing |
| VendoredHost.ConvergesExactly | src/esb/esb_transport.c:240-255 | the same over every run, in every state |
| VendoredHost.RoomySpares | vendor/nrf-esb/subsys/esb.c:1402-1415 | without a flush no event hides a report: a failure with room never loses one |
| VendoredHost.NoFlushSpares | src/esb/esb_transport.c:750-787 | so the host keeps converging over every run without a flush, however many packets fail early |
| VendoredHost.HarmlessSpares | src/esb/esb_transport.c:1058-1066 | and over every harmless run, flushes included |
| VendoredHost.ReportArrives | src/esb/esb_transport.c:1551-1571 | an accepted report is the last of its kind the host heard once all has drained, if every event since spared it |
| VendoredHost.KeyLost | src/esb/esb_transport.c:750-787 | for every FIFO of at least two packets, a run that loses a key report without asking for a keyboard resync |
| VendoredCount.OffStep | vendor/nrf-esb/subsys/esb.c:2587-2596 | one event: the radio is off the steady count afterwards if and only if a send took an idle radio off it, or it was off and the event did not restore it: by a TX event that leaves the radio idle and pops an override's slot, a failure at a full FIFO, a flush or a send at a full FIFO or with an override on an idle radio, or a new count |
| VendoredCount.OffExactly | src/esb/esb_transport.c:551-566 | over every run: off at the end if and only if some send raised the count and nothing restored it since |
| VendoredCount.BusyPeriod | src/esb/esb_transport.c:551-566 | when the radio is next idle it is off the steady count if and only if the packet that started it left it off and the last TX event neither popped an override's slot nor flushed |
| VendoredCount.OverrideOutlives | src/esb/esb_transport.c:551-566 | for every FIFO of at least two packets, a run that ends idle and empty with the override's count still set |
| VendoredCount.InStepYetOff | src/esb/esb_transport.c:551-566 | that run is in step throughout, and the intended count is back at the steady one while the radio's is not |
| VendoredReplay.DrainShows | src/esb/hid_relay.c:208-235 | over the library as compiled in, from every reachable state: a drain keeps the host converging on the newest report, whatever fails or is flushed meanwhile |
| VendoredReplay.OfferShows | src/esb/hid_relay.c:287-335 | and after an offer the host converges on the offered report |
| VendoredReplay.OfferPlays | src/esb/hid_relay.c:287-335 | what a call does to the other kinds is a run of its own sends and of what comes between them |
| VendoredRelay.MoveExactly | src/esb/hid_relay.c:266-446 | one call of the relay: the host follows the reports not being sent in every state of it if and only if its events and the other report's sends spare them, and then follows both afterwards |
| VendoredRelay.RelayExactly | src/esb/hid_relay.c:266-446 | over every run of key events, radio events, resyncs, retries and session changes: the host follows keyboard and consumer keys in every state if and only if every call spares them |
| VendoredRelay.HostShowsHeld | src/esb/hid_relay.c:287-446 | and once everything has drained in such a run, the host shows exactly the keys down and the modifiers they hold, while releases match presses and every event fits |
| VendoredRelay.PoweredOnSound | src/esb/hid_relay.c:448-454 | power-on is such a state |
| Convergence.ApplyConverges | src/esb/esb_transport.c:696-787 | no step of the radio or of another sender can hide a state: afterwards a resync of the kind is due, or the last report heard, queued or parked still conveys it |
| Convergence.OwnSendConverges | src/esb/esb_transport.c:1551-1571 | an accepted report makes its state the one the host converges on |
| Convergence.RunConverges | src/esb/esb_transport.c:240-255 | the same over every run |
| Parking.DrainExact | src/esb/hid_relay.c:208-235 | the transport takes the oldest snapshots in order, and the queue is exactly the longest suffix that fits of unsent, then live, then parked meanwhile |
| Parking.FaithfulUses | src/esb/hid_relay.c:178-264 | over every history of offers and replays, what was taken followed by what is parked is a subsequence of the arrivals ending in the newest |
| Lane.ReportLane.Enqueue | src/esb/hid_relay.c:178-186 | append with drop-oldest, in place in the pending array |
| Lane.ReportLane.Repark | src/esb/hid_relay.c:219-230 | the two memory moves leave exactly the newest entries of unsent tail and live queue, in order |
| Lane.ReportLane.DrainPending | src/esb/hid_relay.c:208-235 | the drain loop is the specified drain, whatever happens between its sends |
| Lane.ReportLane.OfferReport | src/esb/hid_relay.c:287-335 | park, or replay and send, is the specified offer |
| Replay.DrainConverges | src/esb/hid_relay.c:208-235 | a drain keeps the host converging on the newest report, whatever happens between its sends |
| Replay.OfferConverges | src/esb/hid_relay.c:287-314 | after a report is offered the host converges on that report |
| Replay.DrainKeeps | src/esb/hid_relay.c:266-285 | the retry worker's replay of a queue keeps the link invariant and the queue's shape |
| Replay.OtherOfferConverges | src/esb/hid_relay.c:316-335 | offering one kind of report does not disturb what another kind converges on |
| Modifiers.RefcountsExact | src/esb/hid_relay.c:73-91 | over every sequence of presses and matched releases, each counter is the number of keys holding the modifier and the mask shows exactly the held ones, at every moment, if and only if no modifier ever has more than 255 holders |
| Modifiers.NoneHeldExact | src/esb/hid_relay.c:73-91 | the counters start exact |
| Modifiers.KeyExact | src/esb/hid_relay.c:73-91 | the same for one key |
| Modifiers.Counter.ModsInc | src/esb/hid_relay.c:73-81 | the loop over the bits with byte-wide counters |
| Modifiers.Counter.ModsDec | src/esb/hid_relay.c:83-91 | the loop over the bits, skipping counters at zero |
| KeySlots.PressHolds | src/esb/hid_relay.c:98-111 | a press adds the key to the held set when a slot is free and never duplicates one |
| KeySlots.ReleaseHolds | src/esb/hid_relay.c:118-125 | a release removes exactly that key |
| KeySlots.FreeSlotExact | src/esb/hid_relay.c:98-111 | slots without a duplicate have room exactly while fewer keys are listed than there are slots |
| KeySlots.PressLists | src/esb/hid_relay.c:98-111 | a press keeps the list exactly the keys down if and only if the key is listed already or there is room |
| KeySlots.ReleaseLists | src/esb/hid_relay.c:118-125 | a release does if and only if no other key down shares the slot's usage |
| KeySlots.Slots.KeysPress | src/esb/hid_relay.c:99-109 | the two search loops over the slots |
| KeySlots.Slots.KeysRelease | src/esb/hid_relay.c:119-123 | the clearing loop over the slots |
| HidRelay.PlayFollows | src/esb/hid_relay.c:287-454 | over every run of key events, failures, flushes, hops, quiet windows, resyncs, retries and session changes: once a report of a kind was offered in an active session, a resync is due or the last report heard, queued or parked is the local state |
| HidRelay.HostConverges | src/esb/hid_relay.c:345-356 | so once FIFO, queues and mask are empty, the host's last keyboard and consumer reports are those of the relay's local state |
| HidRelay.PoweredOnFollows | src/esb/hid_relay.c:448-454 | and the relay starts in such a state |
| HidRelay.RetryAgainExact | src/esb/hid_relay.c:266-285 | the retry worker asks for another round if and only if the link was quiet or a report is still parked |
| RelaySessions.FlagsAreHistory | src/esb/hid_relay.c:364-378 | the flags say whether a session runs and whether one ran at the last key event |
| RelaySessions.KeyOutside | src/esb/hid_relay.c:371-443 | a key event outside a session is tracked and sends nothing, and drops what is parked if and only if a session ran at the key event before |
| RelaySessions.ResyncOutside | src/esb/hid_relay.c:345-350 | nor does the resync worker send anything then |
| RelaySessions.LeftoversForgotten | src/esb/hid_relay.c:371-378 | over every run: after a key event outside a session that follows one inside, both queues are empty, and whatever was parked before has no part in anything the relay does afterwards |
| HeldKeys.ShownExactly | src/esb/hid_relay.c:381-431 | over every sequence of presses and matched releases, masks and slots show exactly the keys down, at every moment, if and only if every press finds room, no release takes a slot shared with another key, and no modifier has more than 255 holders |
| HeldKeys.HostShowsHeld | src/esb/hid_relay.c:287-446 | over every run of the relay under those conditions: once everything has drained, the host's last keyboard report names exactly the keys down and the explicit and implicit modifiers they hold, and the last consumer report exactly the consumer keys |
| HeldKeys.NoneShown | src/esb/hid_relay.c:31-40 | power-on shows that no key is down |
| HidRelay.OvertakenReport | src/esb/hid_relay.c:300-314 | with two senders at once the host can end on the older report although everything was delivered |
| Overtaking.OvertakenExactly | src/esb/hid_relay.c:208-314 | with any reports of the kind sent or parked by the other context during an offer: the host ends on the newest one if and only if a resync is due, none was made, or the last one made shows what the offer ends on, which is the last one parked behind a report that was sent and the offered report otherwise |
| Overtaking.DirectSendsOvertaken | src/esb/hid_relay.c:300-314 | with direct sends only: unless a resync is due, the newest is overtaken if and only if it shows another state than the offered report |
| HidRelay.LocalState.TrackEvent | src/esb/hid_relay.c:381-431 | modifier counters and key slots after an event, and which reports it asks for |
| HidRelay.HidRelayModule.OnKeyEvent | src/esb/hid_relay.c:358-446 | the event handler is the machine's key step |
| HidRelay.HidRelayModule.OnResyncWork | src/esb/hid_relay.c:345-356 | the resync callback, after whatever earlier callbacks sent once the mask was taken, is the machine's resync step |
| HidRelay.HidRelayModule.OnRetryWork | src/esb/hid_relay.c:266-285 | the retry worker replays both queues, and comes back exactly as `RetryAgain` says |
| Pointer.PlayKeeps | src/esb/input_processor_esb.c:122-338 | every run of input events, retries, resyncs, radio events and session changes keeps motion balance, stamps and button convergence |
| Pointer.MotionAccounted | src/esb/input_processor_esb.c:49-255 | end to end, per axis: input equals acknowledged + outstanding + refund pool + accumulator + stale accumulator + 16-bit clamp + stale refund + wiped by a hop + flushed, and a nonzero pool or accumulator has a stamp |
| MotionSent.InputOutcome | src/esb/input_processor_esb.c:283-338 | what one input event does: nothing outside a session, a delta waits for the synchronisation, a synchronised event or a button change sends what there is |
| MotionSent.SendOutcome | src/esb/input_processor_esb.c:173-256 | a send of the accumulated motion queues one report with the buttons and all of it, clamped and with a fresh refund, exactly when nothing defers it, the backlog goes through, the motion is fresh or a button changed and the link stays open; stale motion is dropped then, and all motion kept otherwise; a change that is not sent is parked |
| MotionSent.RetryOutcome | src/esb/input_processor_esb.c:122-171 | the retry worker does the same with fresh motion and drops the rest |
| MotionSent.DeltaLeaves | src/esb/input_processor_esb.c:333-335 | with nothing waiting, a synchronised delta leaves at once and nothing is left |
| MotionSent.MotionAge | src/esb/input_processor_esb.c:293-304 | motion is too old exactly when its first delta is, in true time, more than the limit ago |
| Pointer.ButtonsConverge | src/esb/input_processor_esb.c:258-281 | with nothing on its way, the host shows exactly the buttons the processor recorded (acknowledged mouse reports) |
| HeldButtons.RecordExactly | src/esb/input_processor_esb.c:283-338 | the record of a button is its last press or release while the session was active |
| HeldButtons.HostShowsHeld | src/esb/input_processor_esb.c:258-338 | so, with nothing on its way, the host shows exactly the buttons held if and only if each button's last press or release was seen or agrees with the record |
| Pointer.PoweredOnKeeps | src/esb/input_processor_esb.c:344-356 | the processor starts in such a state |
| InputProcessor.EsbInputProcessor.OnInputEvent | src/esb/input_processor_esb.c:283-338 | the event handler is the machine's input step |
| InputProcessor.EsbInputProcessor.SendMouseReport | src/esb/input_processor_esb.c:173-256 | deferral, replay, stale drop, send and merge-back |
| InputProcessor.EsbInputProcessor.OnRetryWork | src/esb/input_processor_esb.c:122-171 | the retry worker is the machine's retry step |
| InputProcessor.EsbInputProcessor.OnResyncWork | src/esb/input_processor_esb.c:265-281 | the resync callback, after whatever earlier callbacks sent once the mask was taken, is the machine's resync step |
| LinkQuality.Shifted | src/esb/esb_transport.c:469-488 | shifting the register by one event drops its oldest bit and moves the popcount by the difference |
| LinkQuality.PopcountIsOnes | src/esb/esb_transport.c:480-487 | the popcount of the register is the number of retried or failed events in it |
| LinkQuality.LowBits | src/esb/esb_transport.c:896-900 | its low bits are the latest events |
| LinkQuality.Scoreboard.ShiftWindow | src/esb/esb_transport.c:469-488 | for window sizes 8 to 32, register and cached count are those of the last events since the last hop |
| LinkQuality.Scoreboard.OnSuccess | src/esb/esb_transport.c:882-915 | the trigger fires if and only if it is armed for it and enough of the last window, or of the last eight sends, were retried; and when it re-arms |
| LinkQuality.SmoothedInRange | src/esb/esb_transport.c:495-503 | the average stays in [10, 160] for sends of 1 to 16 attempts |
| LinkQuality.SmoothedStep | src/esb/esb_transport.c:495-503 | under constant attempts a, the fixed points are exactly the band [10a-7, 10a], approached without overshoot |
| LinkQuality.SmoothedSettles | src/esb/esb_transport.c:495-503 | and the band is reached within as many steps as the average was tenths away, for good |
| LinkQuality.TargetMonotone | src/esb/esb_transport.c:516-531 | the adaptive count stays in [MIN, MAX] and never falls when the average rises |
| LinkQuality.TargetExactly | src/esb/esb_transport.c:516-531 | it is the ends outside the interpolation range, and inside it divides the range of counts as the average divides its own, rounded down |
| Quarantine.TimedIsTrueTime | src/esb/channel_hop.c:80-101 | while times and holds end before 2^31 ms, a channel is quarantined exactly until the latest hold asked for since it was last lifted |
| Quarantine.AheadIsTrueTime | src/esb/channel_hop.c:93-101 | the signed test agrees with true time for deadlines within 2^31 ms |
| Quarantine.AddHoldsExactly | src/esb/channel_hop.c:80-91 | a hold lasts at least as long as asked if and only if its expiry is the larger word or the old one still covers it |
| Quarantine.HoldLostAtWrap | src/esb/channel_hop.c:85-90 | a five-minute hold lost after the clock has wrapped |
| Quarantine.Store.Add | src/esb/channel_hop.c:80-91 | the larger expiry word wins |
| Quarantine.Store.Is | src/esb/channel_hop.c:103-113 | out-of-range, avoided or timed |
| Quarantine.Store.Count | src/esb/channel_hop.c:115-123 | counts exactly the quarantined channels |
| Draw.SmoothedBetween | src/esb/channel_hop.c:46-48 | a smoothed reading lies between the old one and the sample, so a byte holds it and it never becomes the "no sample" mark |
| Draw.SmoothedIsMix | src/esb/channel_hop.c:46-48 | and it is the mix of the two in the configured proportion, cut off towards zero |
| Draw.Tracker.Update | src/esb/channel_hop.c:38-49 | one channel's reading becomes the sample or the smoothed value, the others stay |
| Draw.WeightMonotone | src/esb/channel_hop.c:172-181 | weights rise with signal strength from exactly WEIGHT_MIN to exactly WEIGHT_MAX, without overflow |
| Draw.WeightExactly | src/esb/channel_hop.c:172-181 | in between, the weight divides its range as the reading divides the candidates' span, rounded down; without a reading it is the middle |
| Draw.WeightsInRange | src/esb/channel_hop.c:172-181 | every weight, sampled or not, lies in [WEIGHT_MIN, WEIGHT_MAX] |
| Draw.TotalFits | src/esb/channel_hop.c:206-210 | the total is positive and fits a signed 32-bit int |
| Draw.OwnerIsUnique | src/esb/channel_hop.c:210-216 | a residue belongs to one candidate only |
| Draw.ShareIsWeight | src/esb/channel_hop.c:210-216 | each candidate owns exactly weight-many of the residues 0..total-1 |
| Draw.Tracker.WeightedIndex | src/esb/channel_hop.c:183-218 | sum-then-walk returns the owner of the residue drawn; the closing fallback is never reached; without samples the draw is uniform |
| Picker.AllowedAtZero | src/esb/channel_hop.c:236-256 | with no distance left, a channel is allowed if and only if it is neither quarantined nor the one to avoid |
| Picker.AllowedExactly | src/esb/channel_hop.c:130-164 | in channel numbers: allowed if and only if no timed-quarantined channel and not the one to avoid is within d, and twice the way to every offender is more than d |
| Picker.AllowedShrinks | src/esb/channel_hop.c:236-274 | a channel that keeps a distance keeps every smaller one |
| Picker.Passes | src/esb/channel_hop.c:130-164 | the filters accept exactly the channels more than d from every timed-quarantined channel and from the one to avoid, and more than d/2 from every offender |
| Picker.Pick | src/esb/channel_hop.c:227-288 | the result is INVALID if and only if every channel is quarantined or to be avoided; otherwise it keeps every distance that any channel keeps, and is the candidate the draw names |
| HitTable.SpaceSaving | src/esb/channel_hop_ep.c:293-330 | over every history of accepted condemnations: hits sum to their number, each tracked count lies between the true count and the true count plus the table minimum, session counts are lower bounds, and an untracked channel's true count is at most the minimum |
| SessionHits.SessionExactly | src/esb/channel_hop_ep.h:100 | over every history of condemnations, reclaims and agings since boot: an entry's session count is at most the number of its channel's condemnations, and equals it if and only if the entry was there at each but the first, was not aged since the first, and the count fits 16 bits |
| SessionHits.SessionFallsShort | src/esb/channel_hop_ep.c:322-329 | a takeover, an aging and a reclaim after which the count is one and the truth two |
| SessionHits.LoadIsBooted | src/esb/channel_hop_ep.c:533-551 | whatever flash holds, boot starts every session count at zero |
| HitTable.HeavyIsTracked | src/esb/channel_hop_ep.h:27-29 | a channel with more than 1/size of all condemnations is in the table |
| HitTable.CondemnKeepsSound | src/esb/channel_hop_ep.c:297-330 | distinct channels in band, 1 <= hits <= 65535, session <= hits; an accepted channel is tracked afterwards |
| HitTable.ReclaimRemoves | src/esb/channel_hop_ep.c:335-341 | removes exactly that channel's entry |
| HitTable.DecayAdds | src/esb/channel_hop_ep.c:425-436 | aging by a and then by b is aging by a + b |
| HitTable.DecayMembers | src/esb/channel_hop_ep.c:425-436 | keeps exactly the entries with more hits than periods, each aged |
| Offenders.TopUnique | src/esb/channel_hop_ep.c:351-382 | there is exactly one list of the top N eligible entries, worst first, ties in table order |
| Offenders.PickedExactly | src/esb/channel_hop_ep.c:351-382 | a channel is avoided if and only if it has reached the threshold, is not the rendezvous channel, and fewer than N offenders have more hits or as many and an earlier entry |
| Offenders.WriteThenLoad | src/esb/channel_hop_ep.c:390-401 | loading a written record into an empty table restores channels, hits and the 16-bit-saturated minutes |
| Offenders.RebuildReproduces | src/esb/channel_hop_ep.c:507-553 | and rebuilding with the same N and rendezvous channel gives the same bytes |
| Offenders.LoadKeepsSound | src/esb/channel_hop_ep.c:507-553 | no record, however damaged, is read out of bounds or breaks the table |
| Offenders.StoredExactly | src/esb/channel_hop_ep.c:515-531 | a record is read as far as it says, or as far as it goes |
| Offenders.LoadRaises | src/esb/channel_hop_ep.c:533-551 | a tracked channel ends with the larger of its own count and the largest the record gives it |
| Offenders.ReplayIsIdle | src/esb/channel_hop_ep.c:533-551 | replaying a record changes nothing |
| DecayClock.AdvanceCountsExactly | src/esb/channel_hop_ep.c:447-456 | a sample is counted in full if and only if remainder and gap stay below 2^32 ms |
| DecayClock.GapIsTrueTime | src/esb/channel_hop_ep.c:447-456 | a sample adds exactly the true time since the last one unless the uptime wrapped in between |
| DecayClock.AppliedIsQuotient | src/esb/channel_hop_ep.c:442-464 | over any run of checks, periods applied are all counted milliseconds divided by the period |
| DecayClock.PeriodOf | src/esb/channel_hop_ep.c:284-291 | zero seconds switch decay off, anything below a minute counts as one, and the longest period fits the saved word |
| DecayClock.CheckTrails | src/esb/channel_hop_ep.c:467-472 | after a check the saved minutes trail the live ones by less than max(1, period/16) |
| DecayClock.RunTrails | src/esb/channel_hop_ep.c:442-473 | so in every state of a run after its first check |
| Evidence.OffenderStore.RecordHit | src/esb/channel_hop_ep.c:297-330 | count, append or take over the first least entry, in place |
| Evidence.OffenderStore.Reclaimed | src/esb/channel_hop_ep.c:335-349 | drops the channel from the table and from the avoided set |
| Evidence.OffenderStore.Rebuild | src/esb/channel_hop_ep.c:357-386 | the selection loops produce exactly the top N, as the avoided set and as bytes |
| Evidence.OffenderStore.Write | src/esb/channel_hop_ep.c:390-401 | the record written, and the snapshots that suppress the next write |
| Evidence.OffenderStore.Distill | src/esb/channel_hop_ep.c:410-418 | flash is rewritten if and only if the offender bytes changed |
| Evidence.OffenderStore.AgeBy | src/esb/channel_hop_ep.c:425-436 | the compaction loop |
| Evidence.OffenderStore.CheckDecay | src/esb/channel_hop_ep.c:442-473 | clock, table, avoided set, its bytes and flash after a check: rebuilt when a period was due, and flash rewritten exactly when the check says so |
| Evidence.OffenderStore.LoadRecord | src/esb/channel_hop_ep.c:507-553 | the merge loop over any record |
| Evidence.OffenderStore.Boot | src/esb/channel_hop_ep.c:571-593 | everything is rebuilt from flash and nothing is written |
| Evidence.RebootKeepsAvoided | src/esb/channel_hop_ep.c:587-593 | a reboot right after a write restores the avoided set, for any record length the loader accepts that holds the record |
| Evidence.DroppedIsGone | src/esb/channel_hop_ep.c:342-348 | the swap-remove drops exactly that channel from the avoided set |
| HopRuns.InitialInv | src/esb/channel_hop_ep.c:1288-1323 | initialisation satisfies the hop manager's invariant, whatever flash held |
| HopRuns.LegalIsPossible | src/esb/channel_hop_ep.c:1018-1071 | in every good state every event can be taken, and only real channels are asked of the radio |
| HopRuns.RunKeepsInv | src/esb/channel_hop_ep.c:990-1147 | over every run: channel 0..100, synced only with a committed channel, the revert target is the channel just left and never the current one, the rendezvous channel never timed out, evidence well formed |
| HopRuns.RendezvousStaysFree | src/esb/channel_hop_ep.c:1325-1335 | once connected, and for ever after, the rendezvous channel is neither timed- nor persistently quarantined |
| HopRuns.HopsAreChained | src/esb/channel_hop_ep.c:1123-1147 | every successful hop changes channel, and no two reverts follow each other |
| HopRuns.HomeDraws | src/esb/channel_hop_ep.c:990-1147 | each hop nobody steered brings the rendezvous channel strictly closer, and nothing else moves it away |
| HopRuns.ReturnsHome | src/esb/channel_hop_ep.c:1014-1071 | with no accepted CONFIRM and no cooperative commit, the rendezvous channel is reached within at most three hops |
| HopRuns.EverySecondHopIsHome | src/esb/channel_hop_ep.c:1039-1064 | and from then on at least every second hop goes there, whatever successes, fallbacks and disconnections occur |
| HopRuns.SettlesOnArrival | src/esb/channel_hop_ep.c:1047-1051 | back on the rendezvous channel with a last known channel, the endpoint is settled on that pair |
| HopRuns.HopHomeSettles | src/esb/channel_hop_ep.c:965-971 | a hop home that is not a fallback settles on the channel it left |
| HopRuns.Alternates | src/esb/channel_hop_ep.c:1039-1064 | settled, every further hop goes to the other one of the two fixed channels, fallbacks included |
| HopHistory.RadioIsHistory | src/esb/channel_hop_ep.c:965-1147 | over every run: the channel is the one reached last, the agreed one the latest CONFIRM taken since the last hop or disconnection, the revert target the channel an unproven ordinary hop left, the last known one the channel left last, and each flag what set or cleared it last |
| HopHistory.NextHopIsHistory | src/esb/channel_hop_ep.c:990-1067 | so the next hop follows from the past alone: home for a fallback asked for, back from an unproven hop, to the confirmed channel, home, to the channel last left, or to a fresh pick |
| HopHistory.ConfirmedIsNext | src/esb/channel_hop_ep.c:1031-1035 | after an accepted CONFIRM and any run without another, a hop or a disconnection, a hop with no fallback asked for and no revert due goes to the confirmed channel, if that is another one and not quarantined by then |
| HopHistory.UnprovenIsReverted | src/esb/channel_hop_ep.c:1022-1029 | after an ordinary hop and any run without an acknowledgement, a hop or a disconnection, a hop with no fallback asked for goes back where it came from |
| HopHistory.TimersAreHistory | src/esb/channel_hop_ep.c:965-988 | over every run both cooldowns, the silence clock and the hold are those of the latest hop, acknowledgement or fallback |
| HopStoresHistory.EvidenceIsHistory | src/esb/channel_hop_ep.c:1080-1147 | over every run the evidence is exactly: a condemnation of the channel left by each ordinary hop and revert but none by a fallback or a cooperative hop, a reclaim of the channel each revert and fallback goes to and of the rendezvous channel at each connection, and the agings |
| HopStoresHistory.QuarantineIsHistory | src/esb/channel_hop_ep.c:965-975 | over every run a channel's timed quarantine is what hops asked: held when left, for the time of that kind of hop, lifted when gone back to |
| HopStoresHistory.AvoidedIsHistory | src/esb/channel_hop_ep.c:335-386 | over every run the avoided channels are those the latest rebuild picked and no revert, fallback or connection took up again |
| HopHandshakeHistory.HandshakeIsHistory | src/esb/channel_hop_ep.c:1175-1285 | over every run phase, target, number and tag of the handshake are what opened, answered, acknowledged or ended it last |
| HopHandshakeHistory.HandshakeCompletes | src/esb/channel_hop_ep.c:1175-1266 | undisturbed, an OFFER that is sent and acknowledged ends with a hop to its goal, or to the channel an ACCEPT with its number answered with |
| HopHandshakeHistory.FailuresCountExactly | src/esb/channel_hop_ep.c:1497-1573 | over every run, which calls of the failure hook count and which of them ask for the hop work |
| HopTiming.CooldownLasts | src/esb/channel_hop_ep.c:227-232 | the cooldown lasts exactly its time after a hop if and only if its end is not a multiple of 2^32 ms |
| HopTiming.SilenceIsMeasured | src/esb/channel_hop_ep.c:1562-1564 | the silence clock is exact, except after a hop at reading zero |
| HopTiming.FallbackWindow | src/esb/channel_hop_ep.c:1005-1020 | on an active endpoint with no offer in flight, a call of the failure hook d ms after a hop makes the hop work go to the rendezvous channel if and only if the hop did not end there, d is inside the cooldown, the measured silence has reached the fallback delay and no hold runs |
| HopTiming.FallbackCanFire | src/esb/channel_hop_ep.c:31-35 | so some call can do so if and only if the hop did not end there, the delay is set, and some millisecond from the delay to the end of the cooldown is outside a hold left from before |
| HopTiming.DefaultWindows | src/Kconfig:785-824 | with the default 330, 685 and 360 ms and no hold left: calls from 330 to 360 ms after a hop that ended elsewhere, and none after one that ended on the rendezvous channel, as every fallback does |
| HopTiming.DroppedAtHome | src/esb/channel_hop_ep.c:1014-1021 | on the rendezvous channel a call in the window sets the pending flag, and the hop work drops it and stays |
| HopTiming.HoldIsExact | src/esb/channel_hop_ep.c:1534-1539 | a hold runs for exactly its time, or one millisecond more when its end would read zero |
| HopTiming.HoldLasts | src/esb/channel_hop_ep.c:1534-1539 | after a fallback no failure counts until the hold is over, at any clock reading |
| HopTrigger.FailureTrigger.OnTxFailed | src/esb/esb_transport.c:966-1029 | the failure counters, stamps and calls of the hook, by window and by weak link |
| HopTrigger.CallsExactly | src/esb/esb_transport.c:984-1006 | after a hop, while nothing is acknowledged: a failure calls the hook, once, if and only if a whole failure window has passed in true time since the first failure or the last call |
| HopTrigger.WeakCallsExactly | src/esb/esb_transport.c:1008-1029 | after an acknowledgement, a failure calls the hook for the weak link if and only if the weak-link delay has passed in true time since that or the last such call |
| HopTrigger.StartsAnew | src/esb/esb_transport.c:866-873 | a hop, an acknowledgement and a hop that was not made start the counting anew |
| HopTrigger.FallbackFires | src/esb/esb_transport.c:984-1006 | over every run of failures after a hop: the hop work goes home if and only if the hop did not end there and some failure called the hook in the fallback's window, with the hold over |
| HopTrigger.DefaultReach | src/Kconfig:526-530 | with the defaults and a failure every millisecond: it does so within the cooldown if and only if the first failure comes early enough and in 30 of every 85 phases |
| CoopHops.CoopHopsAreAgreed | src/esb/channel_hop_ep.c:1175-1266 | over every run, a cooperative hop goes to the latest OFFER's target or to a channel an ACCEPT with that OFFER's 8-bit sequence answered with since |
| CoopHops.StepBacked | src/esb/channel_hop_ep.c:1371-1404 | every event keeps a handshake under way about the latest OFFER |
| HopEndpoint.HopEndpoint.ChooseTarget | src/esb/channel_hop_ep.c:990-1067 | the decision: pending fallback, revert, agreed channel, rendezvous, last known, fresh pick |
| HopEndpoint.HopEndpoint.CommitBookkeeping | src/esb/channel_hop_ep.c:965-988 | the common tail of a hop |
| HopEndpoint.HopEndpoint.HopWork | src/esb/channel_hop_ep.c:990-1147 | the work function takes the machine's hop step, and a refused retune changes nothing but the consumed fallback flag |
| HopEndpoint.HopEndpoint.TxFailed | src/esb/channel_hop_ep.c:1497-1573 | the failure hook is the machine's step, and asks for a hop if and only if the failure counts and the cooldown is over or a fallback becomes pending |
| HopEndpoint.HopEndpoint.TxSuccess | src/esb/channel_hop_ep.c:1575-1604 | the success hook is the machine's step and arms an open offer |
| HopEndpoint.HopEndpoint.OnConfirm | src/esb/channel_hop_ep.c:1407-1452 | only an in-band channel that is not quarantined is committed |
| HopEndpoint.HopEndpoint.OnAccept | src/esb/channel_hop_ep.c:1381-1404 | only a current sequence in an open handshake changes the target |
| HopEndpoint.HopEndpoint.OfferWork | src/esb/channel_hop_ep.c:1175-1217 | the offer step with its sequence byte |
| HopEndpoint.HopEndpoint.CommitWork | src/esb/channel_hop_ep.c:1219-1257 | the cooperative commit step; it is retried if and only if an armed commit towards another channel was refused |
| HopEndpoint.HopEndpoint.LinkDegraded | src/esb/channel_hop_ep.c:1268-1285 | latches an offer only when active, idle and past both cooldowns |
| HopEndpoint.HopEndpoint.OnConnected | src/esb/channel_hop_ep.c:1325-1335 | the connection step |
| HopEndpoint.HopEndpoint.OnDisconnected | src/esb/channel_hop_ep.c:1337-1362 | the disconnection step |
| HopEndpoint.HopEndpoint.CheckDecay | src/esb/channel_hop_ep.c:442-473 | a decay check leaves the hop manager alone or takes its rebuild step |
| Pairing.BootIsGood | src/esb/pairing.c:75-85 | booting from any record leads to a state where the invariant holds |
| Pairing.RecordIsBond | src/esb/pairing.c:42-85 | a record is a flag and an id, the zero id without a bond, and reloads to just that |
| Pairing.RunKeepsInv | src/esb/pairing.c:115-238 | verifying or connected implies a stored peer, unpaired implies none, and the record always reloads to the pairing in RAM |
| Pairing.RebootKeepsPairing | src/esb/pairing.c:42-48 | a power cycle at any moment of any run keeps the pairing |
| Pairing.StoredIsLatestPairing | src/esb/pairing.c:141-221 | over every run, reboots included, the stored peer is the latest accepted PAIR_REQ not followed by unpair or DISCONNECT |
| Pairing.PhaseIsHistory | src/esb/pairing.c:115-239 | over every run the phase is the history: idle while stopped, waiting without a bond, connected once the bond is confirmed, asking for that otherwise |
| Pairing.ConnectedIsConfirmed | src/esb/pairing.c:158-239 | connected if and only if, since the last start, RESYNC, unpair, DISCONNECT or reboot, the stored peer has named itself in a VERIFY_RESP while verifying or in a PAIR_REQ while unpaired |
| Pairing.Manager.OnRx | src/esb/pairing.c:153-239 | the packet handler is the machine's step, over raw bytes and lengths |
| Pairing.Manager.Unpair | src/esb/pairing.c:141-151 | RAM, record and state after an unpair |

## Left out

- Radio hardware and the inside of the radio library: only the FIFO, the packet on the air, the retransmit count, the channel and the points in `VendoredRadio` are modelled; timing on the air, packet ids and interrupts are not.
- VendoredRadio.InStepExactly: a TX event is handled before the next one; two events whose interrupts merge into one, and events between the steps of a send or of a stash and its restore, are not modelled.
- Link.NothingOutstanding: holds under the radio contract; over the library as compiled in, `VendoredBalance.NothingOutstanding` and `VendoredCount.OffExactly` say what holds instead.
- Transport.EsbTransport.OnTxFailed: the failed packet leaves the FIFO, as the radio contract has it; `VendoredRadio` keeps it there.
- HidRelay.HostConverges: rests on the radio contract, as does HeldKeys.HostShowsHeld; `VendoredRelay.RelayExactly` and `VendoredRelay.HostShowsHeld` are the statements over the library as compiled in.
- Slot stop and restart: the rings are not reset by the program, so a session is modelled from empty rings only.
- Transport.EsbTransport.TripDone: the side-trip ends with its packet's event; a timeout, a late event, a failed return to the channel and the window between the event and the restore are not modelled.
- Concurrent senders: report calls are exclusive; a resync or retry worker running between two sends of another call is outside the runs of `HidRelay` and `VendoredRelay`; what it does to the report the host ends on is `Overtaking.OvertakenExactly`.
- Pointer.MotionAccounted: the accumulators and the refund pool are unbounded integers, so overflow of their 32-bit fields is not modelled, one input processor is the only source of mouse motion, and the radio contract is assumed (see `VendoredBalance.RunGains`).
- Pointer.ButtonsConverge: unacknowledged mouse mode is excluded; those reports deliberately ask for no resync. The radio contract is assumed, and so for `HeldButtons.HostShowsHeld` (see `VendoredHost.ConvergesExactly`); the input processor is not run over the library as compiled in.
- KeySlots.Slots.KeysPress: slot-based reports only; the bitmap report variant is not modelled.
- Byte layout and length of HID packets, the pipe number, retry-delay jitter, report-rate and activity statistics.
- Hop triggers: `HopTrigger` stops where a hop is made, and `HopRuns` lets the hop work run at any time, because the retry worker resubmits it without looking at the cooldown.
- Proposals, post-hop bursts and renegotiation pacing: only what they do to the committed channel and its synced flag is kept.
- OFFER delivery: the in-flight tag is consumed by the next TX event, which may belong to an older packet, so nothing is claimed about which packet was acknowledged.
- The dongle: its side of every handshake is arbitrary input here.
- Draw.ShareIsWeight: counts residues of the total; the bias of reducing a 32-bit random word to them, and the generator itself, are not modelled.
- LinkQuality.TargetMonotone: needs MIN <= MAX, as the option's help demands; the wrap of a reversed range is not modelled.
- `pairing_unpair` does not notify the hop manager, so no claim ties the hop manager's link flag to the pairing state.
- Shell relay, bench, behaviors, settings storage, logging and devicetree.
