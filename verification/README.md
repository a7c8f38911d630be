# Model and proofs of the proxy-switcher engine

This project models the Rust engine of proxy-switcher and proves what it is supposed to keep. Four
connected parts are covered:

- **The proxy pool and its probe scheduler.** The class `ProxyPool` holds what the engine holds: a
  vector of records, a hash index into it, a position of the selection and two sets of ids. Each of
  its methods is proved against a function of `PoolSpec`, where a pool is a plain list with a
  selected id and no index. `PoolRuns`, `PoolCapacity`, `HealthRuns` and `ProbeRounds` prove what
  holds over every run of those operations, and `PoolLaws` what single operations come to, told by the fields
  of the records alone; `BatchGuard` is the flag that lets one probe batch run
  at a time.
- **The user-space TCP path.** `Packets` builds, checksums and parses packets byte by byte.
  `TcpPath` is the forwarding of one flow's data. `Handshakes` is a state machine in which the
  forwarding thread and any number of background tasks interleave; every lock the code takes is one
  step. `DeviceRouters` is the handshake code itself, updating its sets and maps in place; whatever the
  other tasks do between two of its locks, an execution of it is shown to be a behaviour of that machine.
- **The local proxy's rotation.** `LocalProxySpec` says what each choice, rotation and failure
  means, `LocalProxies` is the class that updates its maps in place, `LocalProxyRuns` has the
  run-level results, `RingRuns` those on interleaved uses of the ring of recent proxies, and `PinLaws` says how long pins and slots
  last and who comes after them.
- **Parsers with an inverse and fast forms of simple definitions.** Base64, DNS names and responses,
  client names, the country database and the one-pass statistics.

Clocks are explicit parameters in nanoseconds. Scores are `real`, and the freshness weight of a score
is an arbitrary function of its age. What another task, a socket or a proxy does is an arbitrary
input or an arbitrary choice. An entry of an avoided set is tagged as an id or as a host.

## Where the code does not do what its documentation says

The code is modelled as it is. A promise it does not keep has a concrete input on which it fails and
the exact condition under which it holds.

- The capacity cut is documented to drop the least useful proxies (crates/proxy-core/src/pool/mod.rs:191-195).
  It ranks the most useful first and drops the front. `CutKeepsTheMoreUsefulIff` says when the
  documented claim holds: when nothing or everything is dropped, or all records tie.
- Condemned proxies are documented not to come back. `merge` screens them; `add`, `restore` and
  `remember_condemned` do not. `NoReturnOfTheCondemned` is the exact condition,
  `AddBringsBackTheCondemned` an input.
- A later success does not withdraw a pending eviction (`LaterSuccessIsStillEvicted`);
  `PendingIsWhoWasCondemned` states exactly what pends.
- A score is documented to be 100 at 100 ms, about 50 at one second and about 10 at five
  (crates/proxy-core/src/pool/mod.rs:863). It is a thousand over the milliseconds, at most 100: 10, 1 and 0.2
  there, and 100 only up to 10 ms (`ScoreOfLatency`).
- A scrape is documented to replace nothing a health check learned (crates/proxy-core/src/pool/mod.rs:138-143).
  It overwrites the anonymity a probe measured, and a link always claims it to be unknown
  (`MergeForgetsTheMeasuredAnonymity`); `MergeKeepsHealthIff` is the exact condition.
- A retransmitted SYN is documented not to open a second tunnel. Looking up the flow and inserting
  into `pending` are two lock acquisitions, and so are removing from `pending` and tracking.
  `RetransmissionMayOpenASecondTunnel` is the trace, `OneTunnelPerFlowIff` the condition.
- Parsing a DNS response gives up at the first answer whose name does not decode, the root among them, and
  loses the addresses behind it (`ResponseReadsUpTo`, `RootNameLosesTheRest`); `ResponseRoundTripIff` says
  when none is lost. A first question that does not decode is not stepped over, and no address is found
  (`UnreadQuestionFindsNothing`).
- A retransmitted data segment is written to the destination again (`RetransmissionIsForwardedAgain`);
  the acknowledgement stays in step exactly when the client's data comes in order (`InStepIffInOrder`).
- A read may be larger than the 16-bit total length can say (`FullReadSaysForty`); `TotalLengthIsTrueIff`
  is the limit, and `UdpLengthsAreTrueIff` that of the UDP builder. The checksums still verify.
- `decode_name` has no guard against pointers in a circle (`PointerToItselfNeverHalts`);
  `HaltsWithinLength` characterises when it returns.
- A dashed session value is documented to stay one value. Its further parts become parameters of
  their own, and white space behind a value is trimmed off (`NameParsesBackIff`, `DashedSessionIsCut`,
  `SpacedSessionIsTrimmed`).
- Sessions are documented to be held on proxies, servers and addresses of their own. After every tunnel, in
  every rotation mode, the session is pinned to whoever carried it, and nothing looks at the other sessions
  then. `SessionsStayApartIff` is the exact condition on the pins; a sticky client that falls back on the
  device's selection (`FallbackPinJoins`), two clients of one timed slot (`TimedPinsJoin`) and a failover
  (`FailoverMayJoinSessions`) are inputs on which sessions end on one proxy.
- Turning a session over is documented to move it to another proxy. The request after it goes back to the
  dropped one, and is pinned to it, exactly when its mode leads back to it (`TurnedSessionMovesOnIff`): under
  a sticky policy when nothing else matches and the device routes through it (`TurnedSessionMayComeBack`),
  under a timed one also when the slot still serves it (`TimedSlotLeadsBack`), and under a policy per request
  also when it is the best outside the ring (`PerRequestLeadsBack`). A failover may end on it as well
  (`FailoverMayComeBack`), and so may a pick between the two locks of the rotation (`PickBetweenIff`,
  `PickBetweenPinsTheDropped`). Turning a policy over has the same two exceptions (`TurnedSlotMovesOnIff`,
  `SlotPickBetweenIff`).
- A proxy that was just used is documented not to be used again straight away. Two requests that read the ring
  before either remembers its choice get one proxy (`InterleavedPicksMeet`); `InterleavedPicksAreSpreadIff` is
  the exact condition. Who carried after a failover is not remembered at all, and can be the very next choice
  (`FailoverIsPickedNext`).
- `unverified` in the statistics is documented as never confirmed; the code counts whatever is not
  working now (`UnverifiedIsNeverConfirmedIff`, `FailingCountsAsUnverified`). `below_threshold` is documented as
  working but too slow; it counts fast proxies that open no tunnel too (`BelowThresholdIsTooSlowIff`,
  `FastWithoutTunnelCountsAsBelow`).
- The country lookup answers from the last range that starts early enough, so overlapping ranges hide
  each other (`CoveredIsAnsweredIff`, `NestedRangeHides`).
- Turning a credential over is meant for its own sessions. It drops every session whose key starts with its
  name and a colon (`KeyIsDroppedIff`). Of the sessions that headers ask for those are exactly its own
  (`HeaderKeysAreColonFree`, `RotationDropsExactlyItsSessions`); a client without a credential is held under
  its address, and one over IPv6 can go with a credential (`PeerIsDroppedWithACredential`).

## Model

| member | source | states |
|---|---|---|
| ProxyPools.ProxyPool.Merge | crates/proxy-core/src/pool/mod.rs:144-189 | a scrape on the indexed pool is a merge into the plain list, and `added` is the number of distinct new uncondemned ids, which is how much longer the pool got |
| ProxyPools.ProxyPool.Restore | crates/proxy-core/src/pool/mod.rs:321-341 | restoring on the indexed pool appends the records whose id the plain list lacks, as they are, and counts those ids |
| ProxyPools.ProxyPool.Add | crates/proxy-core/src/pool/mod.rs:827-842 | a manual add replaces the record of that id in place or appends it, health forgotten |
| ProxyPools.ProxyPool.Retain | crates/proxy-core/src/pool/mod.rs:577-604 | rebuilding vector, index and position in one pass drops exactly the doomed, and the selection stays on its id or becomes none |
| ProxyPools.ProxyPool.Remove | crates/proxy-core/src/pool/mod.rs:844-852 | removes the id if the list has it and says whether it did |
| ProxyPools.ProxyPool.EvictPending | crates/proxy-core/src/pool/mod.rs:281-297 | the sweep drops what is pending, adds it to the condemned and leaves nothing pending |
| ProxyPools.ProxyPool.EnforceCapacity | crates/proxy-core/src/pool/mod.rs:196-229 | drops the front of the stable ranking and returns how many ids that is |
| ProxyPools.ProxyPool.SetActive | crates/proxy-core/src/pool/mod.rs:606-611 | selects the id if the list has it, otherwise changes nothing |
| ProxyPools.ProxyPool.ActivateBestAvoiding | crates/proxy-core/src/pool/mod.rs:776-808 | the position stored is that of the best eligible record, which is also returned |
| ProxyPools.ProxyPool.Rotate | crates/proxy-core/src/pool/mod.rs:815-825 | the selection moves to the record after the selected one, around the end |
| ProxyPools.ProxyPool.ApplyHealthResult | crates/proxy-core/src/pool/mod.rs:444-533 | one result changes one record and pends exactly when it condemns |
| ProxyPools.FoldIn | crates/proxy-core/src/pool/mod.rs:458-531 | the field-by-field update agrees with the meaning of the verdict, and decides the eviction from the new streak and the old success |
| ProxyPools.ProxyPool.ReportFailure | crates/proxy-core/src/pool/mod.rs:678-695 | a failure found by traffic counts like a failed probe but pends nobody |
| ProxyPools.ProxyPool.Lookup | crates/proxy-core/src/pool/mod.rs:766-770 | a lookup through the index answers what a linear search would |
| ProxyPools.IndexIsSearch | crates/proxy-core/src/pool/mod.rs:44-48 | an index that agrees with its vector is linear search for every id, present or not |
| ProxyPools.ValidIsWellFormed | crates/proxy-core/src/pool/mod.rs:44-48 | the indexed state stands for a list with distinct ids and a selection that is in it |
| PoolRuns.EveryOperationIsLawful | crates/proxy-core/src/pool/mod.rs:144-852 | each of the thirteen operations keeps ids distinct, keeps the order of those that stay, and lets the selection go exactly when its proxy leaves |
| PoolRuns.PoolStaysWellFormed | crates/proxy-core/src/pool/mod.rs:144-852 | over any sequence of operations ids stay distinct and the selection stays inside |
| PoolRuns.SurvivorsKeepTheirOrder | crates/proxy-core/src/pool/mod.rs:577-604 | over any run, the proxies that never left are a prefix of the pool in the order they had |
| PoolRuns.SelectionFollowsItsProxy | crates/proxy-core/src/pool/mod.rs:581-603 | over any run that does not select, the selection is the same id, or none exactly when that id left at some point |
| PoolRuns.CondemnedReturnsUnlessScreened | crates/proxy-core/src/pool/mod.rs:158-163 | one operation keeps the condemned out exactly when it is one that screens or what it brings in needs no screening |
| PoolRuns.NoReturnOfTheCondemned | crates/proxy-core/src/pool/mod.rs:144-163 | no condemned proxy is in the pool at any moment of a run if and only if every way in was screened; the condemned only grow |
| PoolRuns.AddBringsBackTheCondemned | crates/proxy-core/src/pool/mod.rs:827-842 | a manual add puts a condemned proxy into the pool |
| PoolRuns.CondemnedOnlyGrows | crates/proxy-core/src/pool/mod.rs:288-311 | no operation takes an id out of the condemned |
| PoolRuns.MergeKeepsHealthIff | crates/proxy-core/src/pool/mod.rs:138-172 | merge moves no known proxy, and leaves all of its record but the country as it was exactly when it is condemned, is not offered, or its last offer claims the anonymity already held |
| PoolRuns.MergeForgetsTheMeasuredAnonymity | crates/proxy-core/src/pool/mod.rs:165-172 | a proxy measured as elite is unknown after a scrape of its link |
| PoolRuns.RotationVisitsEveryProxyOnce | crates/proxy-core/src/pool/mod.rs:815-825 | as many rotations as there are proxies select each of them once |
| PoolCapacity.RankingSorts | crates/proxy-core/src/pool/mod.rs:205-217 | the ranking is a permutation of the positions in which no later one beats an earlier one |
| PoolCapacity.CutIsExact | crates/proxy-core/src/pool/mod.rs:196-229 | the cut leaves the smaller of the size and the capacity |
| PoolCapacity.CutTakesTheMostUseful | crates/proxy-core/src/pool/mod.rs:205-224 | no survivor is more useful than any record that was dropped |
| PoolCapacity.CutKeepsTheMoreUsefulIff | crates/proxy-core/src/pool/mod.rs:191-224 | the documented claim holds exactly when the pool fits, the capacity is zero, or all records tie |
| PoolCapacity.CutDropsTheWorkingProxy | crates/proxy-core/src/pool/mod.rs:205-224 | of one proxy that works and one that never did, a cut to one drops the one that works |
| PoolCapacity.BestIsTheHighest | crates/proxy-core/src/pool/mod.rs:702-763 | for any freshness weight, the choice is an eligible record of the highest effective score, the last of those that tie, and there is none exactly when nobody is eligible |
| PoolLaws.MergeContents | crates/proxy-core/src/pool/mod.rs:158-177 | after a scrape a proxy is in the pool if and only if it was, or it was offered and is not condemned |
| PoolLaws.NewcomerStartsAfresh | crates/proxy-core/src/pool/mod.rs:172-177 | a new proxy has the endpoint of its first offer, the anonymity of its last, the first country claimed, no success, no streak and no score, and is due at once |
| PoolLaws.MergeCounts | crates/proxy-core/src/pool/mod.rs:144-189 | the pool grows by the number of distinct new ids |
| PoolLaws.RestoredAsSaved | crates/proxy-core/src/pool/mod.rs:321-341 | a restored proxy is the first record saved for its id, as saved; one the pool has is left as it is |
| PoolLaws.RestoreCounts | crates/proxy-core/src/pool/mod.rs:321-341 | restoring adds the number of distinct ids the pool lacks |
| PoolLaws.AddedStartsAfresh | crates/proxy-core/src/pool/mod.rs:827-842 | a manual add leaves the proxy as given with no health and due at once, and every other as it was |
| PoolLaws.RemovedIsGone | crates/proxy-core/src/pool/mod.rs:844-852 | the removed id is gone and every other record is as it was |
| PoolLaws.SweepTakesThePending | crates/proxy-core/src/pool/mod.rs:281-297 | a sweep takes out exactly what pends, condemns it and leaves nothing pending |
| PoolLaws.SurvivorsAreUntouched | crates/proxy-core/src/pool/mod.rs:219-224 | the records that survive a cut are as they were |
| PoolLaws.WhoIsAhead | crates/proxy-core/src/pool/mod.rs:205-217 | the cut's order by the fields: the later success, then the smaller latency with none first, then the higher score |
| PoolLaws.ChoiceIsWorthMost | crates/proxy-core/src/pool/mod.rs:702-728 | the choice is a working, tunnelling record above the floor, off the avoided ids, hosts and exits, worth the most and last of its equals; there is none exactly when there is no such record |
| PoolLaws.TheBestBecomesTheSelection | crates/proxy-core/src/pool/mod.rs:776-808 | that record becomes the active one, and without one the selection stays |
| PoolLaws.WorthIsTheAgedScore | crates/proxy-core/src/pool/mod.rs:871-886 | a score is weighed by the whole seconds since the last success, whenever the last check was |
| PoolLaws.FutureSuccessIsFresh | crates/proxy-core/src/pool/mod.rs:880-880 | a success in the future weighs like one of this moment |
| PoolLaws.FresherWins | crates/proxy-core/src/pool/mod.rs:864-870 | when the weight falls with age, the fresher of two equal scores and the better of two as fresh is worth more |
| PoolLaws.SelectedIsInFront | crates/proxy-core/src/pool/mod.rs:606-611 | selecting a known id puts its record in front, an unknown one changes nothing |
| PoolLaws.PolicyNarrowsDown | crates/proxy-core/src/credentials.rs:113-134 | a policy that names nothing asks for the score alone; named countries, in any case, and protocols refuse all others, and no country at all is refused |
| PoolLaws.DueInPoolOrder | crates/proxy-core/src/pool/mod.rs:352-365 | the due list is the pool in its own order less those whose next probe lies ahead |
| HealthRuns.AlikeAfter | crates/proxy-core/src/pool/mod.rs:444-533 | no operation can tell two pools apart that differ only in when proxies were and will be probed |
| HealthRuns.InconclusiveIsTransparent | crates/proxy-core/src/pool/mod.rs:485-494 | deleting the inconclusive results from any run changes no streak, score, success, exit, selection or eviction |
| HealthRuns.TrackAfter | crates/proxy-core/src/pool/mod.rs:444-533 | which operations change the streak, the score, the last success and the age of a proxy, and how; all others change none of them |
| HealthRuns.StreakCountsFailures | crates/proxy-core/src/pool/mod.rs:458-505 | over any run, the streak is the saturated number of failures since the proxy last worked or was added by hand, and it has worked exactly when a probe said so since |
| HealthRuns.BackoffFollowsTheStreak | crates/proxy-core/src/pool/mod.rs:101-109 | over any run, the k-th failure since the proxy last worked or was added puts the next probe off by the k-th entry of the backoff list, the last serving every further one and 3600 seconds an empty list, and halves the score |
| HealthRuns.ScoreDecays | crates/proxy-core/src/pool/mod.rs:502-504 | over any run, the score is what the last success measured, halved once for every failure since |
| HealthRuns.ScoreOfLatency | crates/proxy-core/src/pool/mod.rs:888-894 | a measured score times its latency is 1000 from 10 ms on, below that it is 100, and a latency of zero scores nothing |
| HealthRuns.FailureMarks | crates/proxy-core/src/pool/mod.rs:678-695 | what one failure, probed or found by traffic, does to the record, by its fields |
| HealthRuns.ResultMarks | crates/proxy-core/src/pool/mod.rs:458-494 | a working result sets score, latency, success, tunnel and the working wait, and exit and anonymity only if it has them; an inconclusive one moves the times of the probes alone |
| HealthRuns.AgeIsMeasured | crates/proxy-core/src/pool/mod.rs:509-512 | the age an unverified proxy is judged by is the whole seconds since it was first seen |
| HealthRuns.PendingIsWhoWasCondemned | crates/proxy-core/src/pool/mod.rs:525-529 | between two sweeps, an id is pending exactly when it was or when some failed probe condemned it |
| HealthRuns.LaterSuccessIsStillEvicted | crates/proxy-core/src/pool/mod.rs:459-483 | a proxy condemned by a failure is swept out although a later probe of the same batch found it working |
| HealthRuns.CondemnationIsCounted | crates/proxy-core/src/pool/mod.rs:496-531 | a failed probe condemns exactly when the failures counted over the run, with those the proxy came with if it has not started over, reach the limit, or the proxy never worked in it and is past the age limit |
| ProbeRounds.ProbeTargets | crates/proxy-core/src/health/mod.rs:878-916 | the result is that of the first target that settles it; if none of those tried does, the last inconclusive one, and one of its own if none was tried |
| ProbeRounds.CheckBatch | crates/proxy-core/src/health/mod.rs:920-939 | the results are folded in one by one, and each counter is the number of results of its verdict |
| ProbeRounds.ProbeBatch | crates/proxy-daemon/src/main.rs:713-824 | the loop runs rounds until the deadline or until nothing is due and then sweeps, whatever results come in; the counters add up to all the results, and to everything handed out when each proxy comes back with one |
| ProbeRounds.HeldClockProbesEachDueOnce | crates/proxy-daemon/src/main.rs:718-809 | with the clock held and positive waits, the rounds hand out the due list front to back, each proxy once, stop after the number of rounds it takes, and leave nothing due |
| ProbeRounds.RoundsForIsCeiling | crates/proxy-daemon/src/api.rs:1101-1130 | that number of rounds is the due count divided by the round size, rounded up |
| ProbeRounds.NotDueNotHandedOut | crates/proxy-core/src/pool/mod.rs:352-365 | a proxy whose next probe is at or past the deadline is in no later round of the batch |
| ProbeRounds.WorkingIsProbedOnce | crates/proxy-daemon/src/main.rs:709-717 | on a moving clock, a proxy that came back working is never handed out again in the same batch |
| BatchGuard.BatchesTakeTurns | crates/proxy-daemon/src/main.rs:635-824 | over every interleaving of scheduled and manual batches, the flag is up exactly while one of them probes, and when all have ended nobody is left waiting for a sweep |
| BatchGuard.NextKeepsGuard | crates/proxy-daemon/src/api.rs:1067-1135 | each single step keeps that, including giving the flag back before the sweep |
| BatchGuard.SweepMayRunInTheNextBatch | crates/proxy-daemon/src/main.rs:819-824 | a sweep may remove what the batch after it has just condemned, while that batch is still probing |
| Packets.IpChecksum | crates/proxy-core/src/packet/mod.rs:210-220 | the wrapping 32-bit loop over pairs of bytes computes the complement of the folded word sum, odd lengths included |
| Packets.FoldCarries | crates/proxy-core/src/packet/mod.rs:216-218 | the carry loop ends, in 16 bits |
| Packets.AccumulatorNeverWraps | crates/proxy-core/src/packet/mod.rs:211-215 | no input of up to 131074 bytes, which is more than any read with its headers, makes the 32-bit accumulator wrap |
| Packets.FoldIsResidue | crates/proxy-core/src/packet/mod.rs:216-218 | folding keeps the residue modulo 0xFFFF and gives zero only for zero |
| Packets.ChecksumVerifies | crates/proxy-core/src/packet/mod.rs:210-261 | a checksum put where it was computed as zero makes the sum fold to 0xFFFF; section 1 of RFC 1071 |
| Packets.TcpChecksum | crates/proxy-core/src/packet/mod.rs:242-261 | it covers the pseudo-header and the segment with its checksum field taken as zero, whatever is in it |
| Packets.UdpChecksum | crates/proxy-core/src/packet/mod.rs:222-240 | the same for UDP |
| Packets.BuildTcpPacket | crates/proxy-core/src/packet/mod.rs:55-102 | pushing the fields and patching both checksums gives the packet described field by field |
| Packets.BuildUdpPacket | crates/proxy-core/src/packet/mod.rs:166-208 | the same for UDP, its 16-bit length wrapping |
| Packets.BuildResponsePacket | crates/proxy-core/src/packet/mod.rs:105-163 | answers with the ends swapped, acknowledging one for SYN, FIN and RST and the length for data; nothing for what is not TCP |
| Packets.ResponseGoesBack | crates/proxy-core/src/packet/mod.rs:105-157 | the response parses with ends and ports swapped, the payload carried, and acknowledges one past a SYN, FIN or RST and the end of the data otherwise |
| Packets.UdpComesBack | crates/proxy-core/src/packet/mod.rs:160-207 | addresses, ports and payload of a built UDP packet read back |
| Packets.ParsesIff | crates/proxy-core/src/packet/mod.rs:16-49 | bytes are a packet exactly when they are IPv4 with headers long enough and as long as they say; only TCP is looked into, and the payload is the rest |
| Packets.TcpPacketVerifies | crates/proxy-core/src/packet/mod.rs:55-102 | a receiver that recomputes both checksums from the packet alone accepts every packet built, for every field and every payload up to 131042 bytes |
| Packets.UdpPacketVerifies | crates/proxy-core/src/packet/mod.rs:166-208 | the same for UDP |
| Packets.TotalLengthIsTrueIff | crates/proxy-core/src/packet/mod.rs:66-71 | the total length field is the packet's length exactly when the payload has at most 65495 bytes |
| Packets.UdpLengthsAreTrueIff | crates/proxy-core/src/packet/mod.rs:173-192 | the UDP length field is true exactly up to 65527 bytes of payload, the total length field exactly up to 65507 |
| Packets.FullReadSaysForty | crates/proxy-core/src/router/mod.rs:516-537 | a read that fills the 65536-byte buffer makes a packet whose length field says forty |
| Packets.ParseUndoesBuild | crates/proxy-core/src/packet/mod.rs:16-36 | parsing a built packet gives back every field and the payload |
| Packets.ParseIpHead | crates/proxy-core/src/packet/ip.rs:19-44 | the header parser reads back each field of a written header, whatever follows it |
| Packets.ParseTcpHead | crates/proxy-core/src/packet/tcp.rs:25-52 | the same for the TCP header, numbers of 32 bits and flags included |
| TcpPath.Router.HandleData | crates/proxy-core/src/router/mod.rs:467-505 | what a packet does to the tracked flows and the byte counter: only its own flow changes, a failed write or a FIN or RST forgets it |
| TcpPath.Router.PumpFlow | crates/proxy-core/src/router/mod.rs:508-552 | what each outcome of a read does: a packet at the flow's next number and the number moved on, or the flow forgotten, or nothing |
| TcpPath.StreamIsCarried | crates/proxy-core/src/router/mod.rs:508-552 | over any run, parsing what was sent gives segments of the flow, contiguous modulo 2^32, whose payloads are exactly the bytes read |
| TcpPath.StreamStartsAfterSyn | crates/proxy-core/src/router/mod.rs:390-397 | from the handshake on, the first of them is numbered server ISN plus one; section 3.4 of RFC 9293 |
| TcpPath.EveryPacketAcknowledges | crates/proxy-core/src/router/mod.rs:526-536 | from the handshake on, every packet sent parses with an acknowledgment number one past the client's initial number before any data, and the end of its last data then; in order, that is client ISN plus one plus the bytes received so far |
| TcpPath.InStepIffInOrder | crates/proxy-core/src/router/mod.rs:496-498 | the acknowledged number is client ISN plus one plus the bytes forwarded, throughout the run, if and only if the client's data came in order |
| TcpPath.EverythingIsForwarded | crates/proxy-core/src/router/mod.rs:481-499 | the destination gets every payload in arrival order, in sequence or not |
| TcpPath.RetransmissionIsForwardedAgain | crates/proxy-core/src/router/mod.rs:481-499 | a repeated segment is forwarded twice and puts the acknowledgement out of step |
| Handshakes.EveryInterleavingKeepsInv | crates/proxy-core/src/router/mod.rs:206-439 | over every interleaving: `pending` is exactly the keys of admitted handshakes not yet finished, no two hold one key, each gets one answer acknowledging its SYN, a retransmitted SYN gets the SYN-ACK its flow's opener sent, a proxied flow never goes direct, and at most three distinct proxies are tried |
| Handshakes.NextKeepsInv | crates/proxy-core/src/router/mod.rs:206-439 | each single step of any task keeps all of that |
| Handshakes.ConnectKeepsInv | crates/proxy-core/src/router/mod.rs:322-360 | a connection attempt, successful or not, within the three tries and without repeating a proxy |
| Handshakes.ReplaceKeepsInv | crates/proxy-core/src/router/mod.rs:361-381 | the replacement is none of the proxies that failed |
| Handshakes.TrackKeepsInv | crates/proxy-core/src/router/mod.rs:388-397 | tracking a flow promises its opener's SYN-ACK to later retransmissions |
| DeviceRouters.DeviceRouter.HandleOutgoing | crates/proxy-core/src/router/mod.rs:206-304 | the thread's code on a SYN, with any steps of other tasks between its locks, is a behaviour of the machine and keeps its invariant: a flow that was tracked gets its SYN-ACK again, a pending one nothing, a proxied one without a proxy a RST, any other a task with the proxy in front or none |
| DeviceRouters.DeviceRouter.CarryOn | crates/proxy-core/src/router/mod.rs:315-384 | the failover loop, whatever connects and whatever other tasks do during an attempt and before a replacement, is a behaviour of the machine and ends connected or given up, at most three tries on distinct proxies by the invariant; it starts with the proxy in front and gives up a proxied flow only after three, or when no candidate is left outside those tried |
| DeviceRouters.DeviceRouter.RunTask | crates/proxy-core/src/router/mod.rs:306-436 | the whole task is one too, with others between any two of its locks: its handshake is done with one answer, the last packet sent, which is the SYN-ACK under the number it tracked or a RST; on the way the flow is tracked at client ISN plus one and server ISN plus one |
| DeviceRouters.OthersKeep | crates/proxy-core/src/router/mod.rs:206-439 | whatever the other tasks do in between, it is still a behaviour of the machine, the invariant holds, and what is the own task's is as it left it |
| HandshakeOwners.OwnershipBreaksOnlyUnclear | crates/proxy-core/src/router/mod.rs:222-246 | a step leaves a flow with two openers, or an opener beside its tunnel, exactly when it admits a SYN whose flow is tracked or about to be |
| HandshakeOwners.OneOpenerPerFlowIff | crates/proxy-core/src/router/mod.rs:222-397 | a behaviour keeps one opener per flow throughout, and none beside a tracked tunnel, if and only if every admission in it was clear |
| HandshakeOwners.OneTunnelPerFlowIff | crates/proxy-core/src/router/mod.rs:222-397 | along a behaviour no flow can ever come to have two connections, in hand or tracked, from what has been admitted so far, if and only if every admission in it was clear |
| HandshakeOwners.UnclearMayDouble | crates/proxy-core/src/router/mod.rs:239-246 | after any unclear admission, however the policy decides and through any proxy, a successful attempt gives the flow a second connection |
| HandshakeOwners.AtomicStepsKeepOneTunnel | crates/proxy-core/src/router/mod.rs:386-397 | with each of the two check-then-act pairs taken as one step, every behaviour keeps one opener per flow and can never double a tunnel |
| HandshakeOwners.RetransmissionMayOpenASecondTunnel | crates/proxy-core/src/router/mod.rs:237-246 | as written, a retransmission between removal and tracking opens a second tunnel: two connections of one flow in hand |
| HandshakeOwners.EveryStepCounts | crates/proxy-core/src/router/mod.rs:315-436 | each step of a handshake brings it nearer to its answer and touches no other handshake |
| HandshakeOwners.UnansweredCanMove | crates/proxy-core/src/router/mod.rs:206-436 | an unanswered handshake is never stuck, whatever the others do |
| HandshakeOwners.HandshakesAreBounded | crates/proxy-core/src/router/mod.rs:315-436 | no behaviour contains more than twenty steps of one handshake |
| HandshakeOwners.GivesUpIffItHasCause | crates/proxy-core/src/router/mod.rs:306-384 | a handshake's step gives up if and only if no proxy is in front of a proxied flow, its direct connection failed, its third proxy failed, or no candidate is left that it has not tried |
| HandshakeOwners.FailedProxyIsBlamed | crates/proxy-core/src/router/mod.rs:356-366 | a proxy that is to be replaced has failed once more and is no candidate any longer |
| HandshakeOwners.AnswersAcknowledgeTheSyn | crates/proxy-core/src/router/mod.rs:402-433 | parsed by the client, the answers are a SYN-ACK and a RST-ACK of its flow acknowledging its number plus one; section 3.5 of RFC 9293 |
| HandshakeOwners.QuiescentMeansAnswered | crates/proxy-core/src/router/mod.rs:386-435 | when nothing is pending and nobody is between steps, every admitted SYN has had exactly one answer |
| LocalProxies.LocalProxy.StickyProxy | crates/proxy-core/src/local_proxy.rs:517-587 | the stepwise update of sessions and avoided sets is the sticky choice: a standing pin, or a new pin apart from all others, or the device's selection if allowed |
| LocalProxies.LocalProxy.TimedProxy | crates/proxy-core/src/local_proxy.rs:590-631 | the slot's proxy while its window lasts, else a choice away from the recent ones, remembered |
| LocalProxies.LocalProxy.PerRequestProxy | crates/proxy-core/src/local_proxy.rs:634-648 | a choice away from the recent ones, remembered |
| LocalProxies.LocalProxy.RememberUsed | crates/proxy-core/src/local_proxy.rs:671-680 | push and pop leave the newest sixteen |
| LocalProxies.LocalProxy.RotateSession | crates/proxy-core/src/local_proxy.rs:419-442 | drops the session, avoids its proxy next time, and says whether there was one |
| LocalProxies.LocalProxy.RotatePolicy | crates/proxy-core/src/local_proxy.rs:449-469 | drops the slot, and avoids its proxy if it had one |
| LocalProxies.LocalProxy.RotateCredential | crates/proxy-core/src/local_proxy.rs:476-498 | one key at a time, in any order, turns over all sessions under the credential's prefix and counts them |
| LocalProxies.LocalProxy.PinSession | crates/proxy-core/src/local_proxy.rs:1027-1044 | the session is written down for the proxy that carried, other sessions untouched |
| LocalProxies.LocalProxy.RecordFailure | crates/proxy-core/src/local_proxy.rs:1047-1061 | blames the proxy, releases exactly its sessions and empties exactly its slots |
| LocalProxies.LocalProxy.Attempt | crates/proxy-core/src/local_proxy.rs:935-1003 | one attempt: it carries and changes nothing, or its proxy is blamed and released and the candidate worth the most outside the avoided ids, hosts and exits is next, none exactly when the pool has no such record |
| LocalProxies.LocalProxy.OpenTunnel | crates/proxy-core/src/local_proxy.rs:921-1009 | at most max(1, max_attempts) attempts, and one unless the budget is spent at once, on pairwise distinct ids and hosts, replacements off the recent exits; it gives up only when the attempts are used up, the budget is spent or the pool has no candidate left; failures up by exactly the failed attempts and rotations by at most that, each failed proxy blamed in order, the proxy returned is the last tried, and exactly the failed proxies' sessions are released |
| LocalProxies.LocalProxy.ServeTunnel | crates/proxy-core/src/local_proxy.rs:683-719 | choosing, opening and pinning in every mode: the tunnel starts with the policy's choice, the sessions of the proxies that failed are released, and the client's session ends pinned to whoever carried; when nobody did, the sessions are what the choice left of them, less those held on a failed proxy, and it was tried until the attempts, the budget or the candidates were used up |
| PinLaws.PinIsKeptOrMadeAnew | crates/proxy-core/src/local_proxy.rs:517-587 | all of a sticky pick by the fields: a pin that has not run out, to a proxy the pool has and the policy allows, is returned and nothing changes; otherwise the client is pinned for its own seconds to a record worth the most of those apart from the other sessions, or to nobody |
| PinLaws.ExpiredPinIsReplaced | crates/proxy-core/src/local_proxy.rs:521-529 | a pin that has run out is gone after the next pick, whoever comes then |
| PinLaws.PinLastsItsSeconds | crates/proxy-core/src/local_proxy.rs:565-569 | a pin made for some seconds is returned unchanged until they are over and never from then on; one made for none never runs out |
| PinLaws.SlotServesOrIsReplaced | crates/proxy-core/src/local_proxy.rs:590-631 | all of a timed pick by the fields: the slot's proxy within its window, otherwise a record worth the most of those not used lately takes the place for a window of its own |
| PinLaws.SlotLastsItsWindow | crates/proxy-core/src/local_proxy.rs:590-609 | who took the place serves the policy for the whole window, a second at least, and from then on the slot is given away anew |
| PinLaws.RequestGetsTheBestNotLately | crates/proxy-core/src/local_proxy.rs:634-648 | a pick per request is a record worth the most of those not used lately, remembered, and none exactly when there is no such record |
| PinLaws.FallbackIsTheDevices | crates/proxy-core/src/local_proxy.rs:558-560 | the fallback is the record the device routes through, if the policy allows it |
| PinLaws.TurningAwayAddsUp | crates/proxy-core/src/local_proxy.rs:419-442 | a rotation adds its proxy to those the client was turned away from before, and touches no other client |
| PinLaws.TurningACredentialAway | crates/proxy-core/src/local_proxy.rs:476-498 | the same of each session of a credential, and of no other |
| PinLaws.FailureReleases | crates/proxy-core/src/local_proxy.rs:1047-1061 | a failure releases exactly the sessions on that proxy and empties exactly its slots, which keep their window |
| LocalProxyRuns.ChoiceIsAllowed | crates/proxy-core/src/local_proxy.rs:506-514 | in every rotation mode whoever is returned is in the pool and allowed by the policy |
| LocalProxyRuns.SessionsStayApartIff | crates/proxy-core/src/local_proxy.rs:517-719 | over any run of picks and pins in every mode, rotations, expiries and failures: held sessions have pairwise distinct proxies, hosts and known exits at every moment, if and only if every pin was to a proxy free of the other sessions |
| LocalProxyRuns.OwnPinIsFree | crates/proxy-core/src/local_proxy.rs:533-586 | the proxy a sticky pick has just pinned is free to be pinned again when it has carried |
| LocalProxyRuns.StandingPinIsFreeIff | crates/proxy-core/src/local_proxy.rs:521-529 | renewing a pin that stood is free exactly when its proxy has not moved onto a host or exit another session holds |
| LocalProxyRuns.FallbackPinJoins | crates/proxy-core/src/local_proxy.rs:558-560 | without any failover, a client that falls back on the device's selection is pinned to the proxy another session holds |
| LocalProxyRuns.TimedPinsJoin | crates/proxy-core/src/local_proxy.rs:590-631 | two clients of one timed slot are both pinned to the proxy in front |
| LocalProxyRuns.PinStaysApartIff | crates/proxy-core/src/local_proxy.rs:1027-1044 | a pin keeps the sessions apart exactly when no other session holds the proxy, its host or its exit |
| LocalProxyRuns.FailoverMayJoinSessions | crates/proxy-core/src/local_proxy.rs:997-1001 | the failover's choice may be a proxy another session holds, and pinning it joins the two |
| LocalProxyRuns.StandingPinIsKept | crates/proxy-core/src/local_proxy.rs:521-529 | an unexpired pin the policy allows is returned and nothing changes |
| LocalProxyRuns.PicksLeaveOthersAlone | crates/proxy-core/src/local_proxy.rs:521-584 | a sticky pick adds, drops and changes no session but the client's |
| LocalProxyRuns.TurnedSessionMovesOnIff | crates/proxy-core/src/local_proxy.rs:419-442 | in every mode the pick after a rotation does not itself pin the dropped proxy, and the request, its pin included, ends on it exactly when the mode leads back: nothing else matches and the device routes through it; the slot serves it; or it is the best outside the ring |
| LocalProxyRuns.TimedSlotLeadsBack | crates/proxy-core/src/local_proxy.rs:587-609 | a slot whose window has not run out puts a client that was turned away back on the same proxy although another matches |
| LocalProxyRuns.PerRequestLeadsBack | crates/proxy-core/src/local_proxy.rs:634-648 | a choice per request can be the dropped proxy at once although another matches |
| LocalProxyRuns.TurnHoldsUnlessTouched | crates/proxy-core/src/local_proxy.rs:419-442 | whatever happens between the two locks of a rotation other than a pick or a pin for this client, the next sticky pick does not pin the dropped proxy |
| LocalProxyRuns.PickBetweenIff | crates/proxy-core/src/local_proxy.rs:419-442 | a sticky pick between the two locks pins the dropped proxy exactly when it is the best that matches |
| LocalProxyRuns.PickBetweenPinsTheDropped | crates/proxy-core/src/local_proxy.rs:419-442 | with a single proxy such a pick leaves the client on it when the rotation is over |
| LocalProxyRuns.TurnedSlotMovesOnIff | crates/proxy-core/src/local_proxy.rs:444-469 | the timed pick after a policy was turned over does not put the dropped proxy in the slot, and returns it exactly when nothing else matches and the device routes through it |
| LocalProxyRuns.SlotPickBetweenIff | crates/proxy-core/src/local_proxy.rs:449-469 | a timed pick between the two locks puts it back exactly when it is the best outside the ring |
| LocalProxyRuns.TurnedSessionMayComeBack | crates/proxy-core/src/local_proxy.rs:554-560 | with a single proxy the first request after a rotation is pinned to the dropped one at once, and the avoidance is forgotten |
| LocalProxyRuns.FailoverMayComeBack | crates/proxy-core/src/local_proxy.rs:997-1001 | a failover after a rotation may end on the dropped proxy |
| LocalProxyRuns.PicksAreSpread | crates/proxy-core/src/local_proxy.rs:590-680 | over any run of picks taken as one step each, the ring is the newest sixteen remembered picks, and any seventeen in a row have pairwise distinct ids and known exits |
| RingRuns.InterleavedPicksAreSpreadIff | crates/proxy-core/src/local_proxy.rs:650-680 | however reading and remembering interleave among any number of clients, any seventeen remembered picks in a row have pairwise distinct ids and known exits if and only if each differs from those remembered since its client read the ring |
| RingRuns.UninterruptedIsFresh | crates/proxy-core/src/local_proxy.rs:634-648 | a client between whose two locks nobody remembers anything always meets that |
| RingRuns.PickReadsThenRemembers | crates/proxy-core/src/local_proxy.rs:587-648 | a remembered pick of one step leaves the ring and the record that the two steps in a row leave |
| RingRuns.InterleavedPicksMeet | crates/proxy-core/src/local_proxy.rs:634-648 | two requests that both read the ring before either remembers are given the same proxy |
| RingRuns.FailoverIsPickedNext | crates/proxy-core/src/local_proxy.rs:921-1009 | a proxy that carried after a failover is not remembered, and the next request can be given it again |
| Base64.Decode | crates/proxy-core/src/local_proxy.rs:1329-1350 | the loop over a 32-bit buffer that loses its high bits gives the bytes the whole string of bits stands for, or nothing at the first foreign character |
| Base64.DecodeLink | crates/proxy-core/src/scraper/links.rs:173-212 | the same for the URL-safe alphabet with white space of any script skipped, nothing for an empty text or invalid UTF-8 |
| Base64.ShiftKeepsLow | crates/proxy-core/src/local_proxy.rs:1341-1346 | the low bits of the wrapped buffer are those of the unbounded value |
| Base64.RegroupLength | crates/proxy-core/src/local_proxy.rs:1336-1349 | n symbols give 6n/8 bytes, rounded down |
| Base64.DecodeUndoesEncode | crates/proxy-core/src/local_proxy.rs:1329-1350 | decoding gives any bytes back from their encoding, with padding and white space anywhere; section 4 of RFC 4648 |
| Base64.DecodeLinkUndoesEncode | crates/proxy-core/src/scraper/links.rs:173-212 | the same for the link decoder on bytes that are UTF-8, in either alphabet; section 5 of RFC 4648 |
| Base64.DecodersAgreeWhereBothSucceed | crates/proxy-core/src/scraper/links.rs:173-212 | on any text on which both decoders succeed they give the same bytes |
| Base64.DecodedLength | crates/proxy-core/src/local_proxy.rs:1336-1349 | any accepted text gives six bits a symbol, rounded down |
| Base64.DecodesIff | crates/proxy-core/src/local_proxy.rs:1329-1340 | a text is accepted exactly when it is of the 64 symbols, padding and ASCII white space |
| Base64.CredentialsComeBackIff | crates/proxy-core/src/local_proxy.rs:1276-1294 | name and password come back from a Basic header exactly when the name has no colon; section 2 of RFC 7617 |
| ClientNames.LongestIsUnique | crates/proxy-core/src/credentials.rs:413-423 | the credential is the one longest known name that is the whole name or is followed by a dash, and there is none exactly when no name is |
| ClientNames.ParseParameters | crates/proxy-core/src/credentials.rs:374-403 | the loop with its pending key pairs the dash-separated parts as the recursive reading does |
| ClientNames.ParametersComeBack | crates/proxy-core/src/credentials.rs:374-403 | any list of parameters, each a key in any case and a dash-free value that is no key, comes back in its order from its text |
| ClientNames.NameParsesBackIff | crates/proxy-core/src/credentials.rs:410-436 | a credential with `-session-` and a value parses back to both exactly when the value has no dash, is no keyword and ends in no white space |
| ClientNames.SpacedSessionIsTrimmed | crates/proxy-core/src/credentials.rs:411-411 | `work-session-x ` with a space behind is not read as the session `x ` of `work` |
| ClientNames.DashedSessionIsCut | crates/proxy-core/src/credentials.rs:369-403 | `work-session-a-b` is not read as the session `a-b` of `work` |
| ClientNames.UnknownNameStands | crates/proxy-core/src/credentials.rs:410-436 | a name that no known credential matches stands for itself, trimmed, with no parameters |
| ClientNames.BareNameHasDefaultSession | crates/proxy-core/src/credentials.rs:353-355 | a bare known name carries no parameters and is in the default session |
| ClientNames.SessionKeysAreInjective | crates/proxy-core/src/credentials.rs:361-363 | on colon-free names, equal keys mean the same credential and the same session |
| ClientNames.HeaderKeysAreColonFree | crates/proxy-core/src/local_proxy.rs:1284-1293 | the credential and the session that a Basic header asks for hold no colon, whatever the header and the known names |
| ClientNames.KeyIsDroppedIff | crates/proxy-core/src/local_proxy.rs:476-498 | for any names, a session goes with a credential exactly when it is its own, its owner starts with the credential and a colon, or its session repeats what the credential has behind its owner and a colon |
| ClientNames.RotationDropsExactlyItsSessions | crates/proxy-core/src/local_proxy.rs:476-498 | of the sessions of colon-free owners and session names, turning any credential over drops its own and nobody else's |
| ClientNames.PeerIsDroppedWithACredential | crates/proxy-core/src/local_proxy.rs:329-336 | an anonymous client over IPv6 loses its session to a credential that its address starts with |
| DnsNames.HaltsWithinLength | crates/proxy-core/src/dns/mod.rs:172-201 | the decoder returns at all if and only if it does within as many steps as the message has bytes, plus one |
| DnsNames.PointingBackHalts | crates/proxy-core/src/dns/mod.rs:183-193 | it returns whenever every pointer followed targets before the start of its run of labels; section 4.1.4 of RFC 1035 |
| DnsNames.PointerToItselfNeverHalts | crates/proxy-core/src/dns/mod.rs:183-193 | a pointer to itself as the first name holds it for ever |
| DnsNames.DecodeName | crates/proxy-core/src/dns/mod.rs:167-208 | the loop gives the labels along the pointers joined by dots and the offset behind the part on the wire, on every name on which it ends |
| DnsNames.JoinIsInjective | crates/proxy-core/src/dns/mod.rs:207-207 | names of labels without dots are equal only when the labels are |
| DnsNames.SkipName | crates/proxy-core/src/dns/mod.rs:210-228 | the skipping loop finds the end of the part on the wire without reading labels |
| DnsNames.SkipAgreesWithDecode | crates/proxy-core/src/dns/mod.rs:167-228 | whenever the decoder returns an offset, skipping returns the same one |
| DnsResponses.ParseDnsResponse | crates/proxy-core/src/dns/mod.rs:88-163 | the parser with its early exits computes what the message means section by section |
| DnsResponses.ParseAnswers | crates/proxy-core/src/dns/mod.rs:130-162 | the answer loop keeps what it has when it gives up in the middle |
| DnsResponses.NoResponseFindsNothing | crates/proxy-core/src/dns/mod.rs:88-104 | a query, a message too short for a header and one without answers give no addresses |
| DnsResponses.ResponseReadsUpTo | crates/proxy-core/src/dns/mod.rs:88-163 | for any written response, every name in it being anything that fits the wire, labels of up to 191 bytes included: if the first question decodes, parsing gives the A addresses up to the first record whose name does not, in order and each with the name asked for, or hangs where that name does; if the question hangs so does parsing; if it is given up on there are no addresses |
| DnsResponses.UnreadQuestionFindsNothing | crates/proxy-core/src/dns/mod.rs:108-119 | in any message, a first question that is the root, broken or not UTF-8 leaves no address to be found, however the rest is read |
| DnsResponses.ResponseRoundTripIff | crates/proxy-core/src/dns/mod.rs:133-137 | with a question that decodes, that is all the addresses exactly when every name decodes, or the first that does not is given up on and no A record is at it or behind it |
| DnsResponses.ResponseRoundTrip | crates/proxy-core/src/dns/mod.rs:88-163 | when the first question is written out and not the root and every answer's name can be read, written out or through a valid pointer, all the A addresses come back |
| DnsResponses.RootNameLosesTheRest | crates/proxy-core/src/dns/mod.rs:203-205 | an answer named by the root loses the address behind it |
| DnsResponses.UsualNamesRead | crates/proxy-core/src/dns/mod.rs:133-137 | the pointer to the first question and every name written out are valid answer names |
| Geo.FromCsv | crates/proxy-core/src/geo.rs:64-115 | the ranges are those of the usable rows, sorted and none lost, each pointing at its own code, codes held once; the 16-bit cast loses nothing |
| Geo.UsableIff | crates/proxy-core/src/geo.rs:82-87 | a row counts exactly when both addresses parse and its code is two ASCII letters, which are put in upper case |
| Geo.FewCodes | crates/proxy-core/src/geo.rs:91-107 | at most 676 distinct two-letter codes exist, by counting |
| Geo.PartitionPoint | crates/proxy-core/src/geo.rs:140-144 | bisection finds the boundary between the ranges that start in time and those that do not |
| Geo.Lookup | crates/proxy-core/src/geo.rs:132-152 | bisection answers what the last range that starts at or before the address answers |
| Geo.LookupIsLinearScan | crates/proxy-core/src/geo.rs:132-152 | on disjoint ranges listed in any order, the answer is the code of the range that holds the address, and none when no range does |
| Geo.CoveredIsAnsweredIff | crates/proxy-core/src/geo.rs:140-151 | on any sorted list, every covered address gets an answer if and only if no range reaches past the end of a later one before the next begins |
| Geo.NestedRangeHides | crates/proxy-core/src/geo.rs:140-151 | a nested range makes the lookup miss an address the outer one holds |
| Statistics.CountPool | crates/proxy-core/src/pool/statistics.rs:101-227 | the single pass gives for each number, row and bucket the count of its own filter; rows are there exactly for classes that are not empty, the largest first |
| Statistics.CountIsCardinality | crates/proxy-core/src/pool/statistics.rs:120-171 | such a count is the cardinality of the set of records in the class |
| Statistics.BucketOf | crates/proxy-core/src/pool/statistics.rs:158-166 | the search finds the one range that holds the value, and its default is never used |
| Statistics.BucketsPartition | crates/proxy-core/src/pool/statistics.rs:86-94 | every latency is in exactly one range |
| Statistics.Ranked | crates/proxy-core/src/pool/statistics.rs:173-203 | the rows list each key of the map once with its entry, in descending order of count |
| Statistics.WorkingSplitsThePool | crates/proxy-core/src/pool/statistics.rs:121-132 | working and unverified add up to the pool, tunnel-capable and below-threshold to the working |
| Statistics.DueIsTheDueList | crates/proxy-core/src/pool/statistics.rs:134-136 | the number due is the length of the list a batch is taken from |
| Statistics.UnverifiedIsNeverConfirmedIff | crates/proxy-core/src/pool/statistics.rs:16-17 | the number is that of proxies never confirmed, as documented, exactly when no proxy that once worked is failing now |
| Statistics.FailingCountsAsUnverified | crates/proxy-core/src/pool/statistics.rs:121-132 | one proxy that worked once and is failing now is counted as unverified |
| Statistics.BelowThresholdIsTooSlowIff | crates/proxy-core/src/pool/statistics.rs:18-19 | the number is that of working proxies with too low a score, as documented, exactly when every other working proxy opens tunnels |
| Statistics.FastWithoutTunnelCountsAsBelow | crates/proxy-core/src/pool/statistics.rs:121-132 | one working proxy that is fast enough and opens no tunnel is counted as below the threshold |
| Statistics.ClassesAddUp | crates/proxy-core/src/pool/statistics.rs:138-156 | the protocol rows and the anonymity rows add up to the pool and to its working proxies, the country rows to the proxies with a country |
| Statistics.ShownCountriesAreLargest | crates/proxy-core/src/pool/statistics.rs:195-204 | a country cut off after twenty rows has no more proxies than any that is shown |
| Statistics.BucketsAddUp | crates/proxy-core/src/pool/statistics.rs:158-166 | the latency ranges add up to the proxies with a measured latency |

## Left out

- Sockets, TLS, the TUN device, SQLite, HTTP clients, routing tables and `ip` commands: calls into code the model cannot see. A connect, a read, a write and a probe are arbitrary outcomes.
- Handshakes.Next: the interleaving of tasks is proved on a state machine on values, one step per lock taken; aliasing of the shared maps through `Arc` is not modelled beyond that.
- DeviceRouters.DeviceRouter.RunTask: the connection itself, the counter of opened tunnels and the log are left out; the tracker holds the numbers of a flow here and its forwarded bytes in `TcpPath`.
- TcpPath.StreamIsCarried: the event of a read includes a read of no bytes, which the code treats as the end of the flow and never sends; the statement covers it as well.
- ProbeRounds.ProbeBatch: the deadline test and the due list are taken at one instant, and nobody else touches the pool meanwhile.
- ProbeRounds.HeldClockProbesEachDueOnce: each proxy handed out comes back with one result, as it does whenever a probe target is configured.
- ProbeRounds.WorkingIsProbedOnce: results are taken to arrive no earlier than the batch starts, and the same clock measures the deadline and the due times.
- LocalProxies.LocalProxy.OpenTunnel: whether the time budget is spent is an arbitrary choice before each attempt, so no time bound is stated; plain forwarding is part of the arbitrary outcome; the sessions, slots and the recent ring are not changed by other clients meanwhile.
- LocalProxyRuns.PicksAreSpread: the picks are taken one after another, as in the class; with reading and remembering as two steps it is `RingRuns.InterleavedPicksAreSpreadIff`. Only remembered picks are in the record: a standing pin, a slot in its window, a fallback and a failover are not.
- DnsNames.DecodeName: takes only names on which the source's loop ends, because the source does not end on the others; the same holds for DnsResponses.ParseDnsResponse.
- DnsResponses.ResponseReadsUpTo: whether a label is valid UTF-8 is an arbitrary predicate. When the first question is given up on, whether the misaligned reading behind it comes to an end is not said. The class of a record is ignored as in the source.
- Base64.DecodeLink: whether the decoded bytes are valid UTF-8 is an arbitrary predicate.
- ClientNames.HeaderKeysAreColonFree: the lossy conversion of the decoded header to text is an arbitrary function.
- LocalProxyRuns.SessionsStayApartIff: picks and pins are taken one after another, each as one step; a rotation of one session or slot is two, that of a credential one.
- Geo.FromCsv: starts from lines already split into fields and addresses already parsed; splitting text, `parse_ipv4` and the flag emoji are left out, and so is the load time.
- Geo.Lookup: takes an IPv4 address; an IPv6 address has no country in the source.
- Packets.TcpPacketVerifies: payloads of more than 131042 bytes are not covered. A read gives at most 65536.
- Packets.UdpPacketVerifies: the 16-bit length sum wraps as in a release build; a debug build stops on overflow.
- Rounding and NaN of scores: scores are reals and the freshness weight is any function.
- The casts of intervals from `u64` to `i64` and chrono's range: intervals are unbounded naturals, and one operation reads the clock once.
- One shared set of strings for avoided ids and hosts: the entries are tagged, so an id that itself begins with `host:` is not confused with a host.
- The password, the cipher and the country a list reported: fields of a record nothing here depends on.
- Geolocating the pool, also after each result of a scheduled round: it changes a record's country and nothing else.
- `best` by raw score, `unverified`, `working`, `healthy_count` and the other read-only counts: filters with nothing to prove that `Statistics` does not cover.
- `RoutePolicy`, the exemptions and `decide`: a decision is an arbitrary input of the handshake machine. That `always_direct` is narrowed by `ports` can be read off one body.
- `pipe`, the watchdog, `serve_request` and plain forwarding: timing and byte copying.
- The DNS cache, `handle_udp` and the UDP association table: a map insert and a socket.
- `percent_decode`, `split_host_port`, list scraping and format detection: heuristics over text.
- Passwords, salts, SHA-256, argon2, random numbers, the TypeScript API, the console, the command line and the configuration.
