# A model of the openchannel connector, and of four tools beside it

The connector keeps a small message queue and a delivery protocol over shared
tables, and it splits its work across transactions on purpose. Its claims are
therefore claims about interleavings. This project states them over labelled
transition systems in which every transaction is one action, and any other
actor, or a crash, may run between two of them.

Each table-changing handler appears three times, and the three are tied
together:

- a function from tables to tables, one per transaction (`Inbound`, `Outbound`,
  `Endpoints`);
- a class whose methods perform it in place, loop by loop, each proved equal to
  that function (`InboundStores`, `Outbound.OutboundStore`, `AccountStores`);
- a transition system whose steps are that function (`QueueMachine`,
  `OutboundMachine`, `EndpointMachine`). `DrainRun`,
  `OutboundMachine.ATransmissionIsARun` and `MintRace.AMintIsARun` show that
  what a drain tick, a transmission and a mint do in one go is a run of the
  system, for every outcome their methods specify, the ones that stop half-way
  included; so what is proved of every run holds of them.

| files | what they cover |
|---|---|
| `Records`, `RecordContents` | natural keys, thread keys, addresses, roster, minted refs; every field of a record and every bit of a ref, said of the document's characters |
| `DrainFailure` | classification of a failed ingest, the verdict of a tick |
| `Inbound`, `InboundStore` | admission, the drain, the archive subscription, the sweep |
| `QueueMachine` | the inbound transition system; nothing accepted is lost |
| `ArchiveRace`, `Reposting`, `ArchiveFailures` | landing against archiving: order independence, honesty over all runs, what a sender has to keep for it, and the runs in which it fails |
| `AttemptBudget`, `OverlappingTicks` | attempts and parkings, where they go wrong exactly, and the runs in which they do |
| `Progress`, `SoftCap`, `DrainRun` | bounded waiting, the cap, the tick as a run |
| `Outbound`, `OutboundMachine`, `DeliveryLadder` | the send and its ledger, conservation, at most once |
| `Endpoints`, `EndpointMachine`, `MintRace` | the endpoint row, its audit trail, overlapping mints |
| `WaiterBudget`, `WaiterMemo` | the memoised waiter-budget reader, and when its memo and the order of calls are free |
| `Paths`, `MoveModules`, `MoveSpelling`, `MoveRewriter` | the import-preserving file mover |
| `PolicyStream`, `PolicyReading` | the record stream of the secret-scan policy, and what a consumer reads in it |
| `DemoLedger` | the generated demonstration ledger |
| `Basics`, `Texts` | options, results, finite sets, splitting and joining |

Histories (what was accepted, swept, delivered, claimed, posted) stand beside
the tables in each transition system. No handler reads them; they let a claim
about a whole run be said of its last state.

## Where the code and its account of itself part

These are results, each with the input that shows it and, unless it says
otherwise, the exact condition under which the claim does hold.

- A row can claim an archived entry when a message is posted while an earlier
  request of it may still land (`ArchiveFailures.OneMessageTwiceContradicts`),
  or when a marker expires while its request waits
  (`ArchiveFailures.AnExpiredMarkerContradicts`, with one tick at a time); each
  is a run from the empty tables. A run is honest throughout exactly when none
  of its steps is a landing whose archive was delivered and whose marker is
  gone (`ArchiveRace.EveryRunIsHonestExactlyUnless`). What keeps every run from
  that step is stated of the posts and the sweeps
  (`ArchiveRace.NoRunContradictsAnArchive`): retries and replays are harmless,
  and a message may be posted again once its earlier requests were decided
  without an entry (`Reposting.PostingEachMessageOnceIsEnough`,
  `Reposting.RepostingOnceDecidedIsSafe`). The delivery has to be one step
  (`ArchiveRace.ASplitDeliveryLeavesTheClaim`).
- A redelivered archive moves no inbound row and records nothing, but where the
  first delivery withdrew a row the second matches nothing and leaves a marker.
- Two ticks in flight can park a request twice, or spend its fifth attempt and
  leave it waiting (`OverlappingTicks.OverlappingTicksParkTwice`,
  `OverlappingTicks.OverlappingTicksOverspend`, each a run from the empty
  tables). The trail keeps one entry per parked request exactly until a tick
  parks a request that no longer waits, because the entry does not ask
  (`AttemptBudget.OneEntryEachIsLostExactlyThere`); and the budget holds exactly
  until attempts read too early park a request at other than its fifth charge,
  or keep it waiting past its fourth
  (`AttemptBudget.TheBudgetIsLostExactlyThere`). With one tick in flight neither
  write can occur.
- `outbound_sent` is said to follow the row. It does exactly in the runs where
  no sent row is rewritten; a re-run of a completed attempt is counted again,
  because the in-flight write has already taken its row out of `sent`
  (`Outbound.WhatTheCounterFollows`,
  `OutboundMachine.TheCounterFollowsTheRowsUnlessOneIsRewritten`).
- "The row is written before the request leaves" does not mean the row is there
  when it leaves. The upsert keeps the row's first instant, so an attempt first
  written more than thirty days ago and re-run can lose its row to a sweep in
  between (`OutboundMachine.AnOldAttemptCanLeaveWithoutItsRow`); otherwise it
  is there (`OutboundMachine.APostLeavesWithItsRowExactlyUnlessSweptAway`).
- Claims order mints, seals do not. A mint can be told it succeeded while the
  stored key is an older mint's, whose owner is told that it may have been
  replaced (`MintRace.AnOlderClaimCanSealLast`). A returned key is the stored
  one exactly when no other mint sealed after it
  (`MintRace.WhatAMintMayConclude`).
- With mutually recursive helpers the waiter budget depends on which is called
  first (`WaiterBudget.MutualRecursionCountsByCallOrder`). Where no two
  different helpers reach each other it does not, and the memo counts what the
  recursion guard alone would; where every helper waits for some time itself,
  both hold exactly there (`WaiterMemo.TheOrderIsFreeExactlyWhenUntangled`). No
  unread timeout is hidden even in a cycle
  (`WaiterBudget.EveryUnreadTimeoutIsReported`).
- A moved file without an extension loses its importers: taking the last zero
  characters off its name takes all of it off
  (`MoveModules.AFileWithoutAnExtensionIsLost`). A file below a directory whose
  name starts with a dot is spelled without the `./` a bundler needs
  (`Paths.BareExactlyBelowADotDirectory`).

## Model

| member | source | states |
|---|---|---|
| Records.AddressesOf | extensions/openchannel/record.go:184-207 | the loop answers the addresses of sender and member that are not blank, in that order, and none at all when the sender named none |
| RecordContents.WhoIsAddressed | extensions/openchannel/record.go:184-207 | the sender's address and then the member's, trimmed, the member's only if it is not blank; none at all without the sender's |
| Records.ParticipantsOf | extensions/openchannel/record.go:275-294 | the loop answers the roster of the parties that carry an account or an address |
| Records.ARecordIsBuiltExactlyUnderItsKey | extensions/openchannel/record.go:104-158 | a record is built exactly when the body reads and names a message id, and its key is the endpoint ref and that id |
| RecordContents.WhatARecordHolds | extensions/openchannel/record.go:104-244 | unreadable exactly without a document, refused exactly for a blank message id; otherwise each field is the document's own, trimmed where the source trims: thread from the sender's or the message, time from the document or the request, a domain only for a sender without an account |
| RecordContents.TrimmingTrims | extensions/openchannel/record.go:142-143 | what trimming leaves is the text between the blanks at either end, and nothing exactly for a blank text |
| RecordContents.TheDomainOf | extensions/openchannel/record.go:247-253 | the domain is what follows the last @, trimmed and lowered; none without an @ or with nothing after it |
| Records.RecordsShareAKeyExactlyWhenTheyAreOneMessage | extensions/openchannel/record.go:128-130 | two records built under refs without a colon share a key exactly when they share both the ref and the message id |
| Records.AColonInARefMergesTwoEndpoints | extensions/openchannel/record.go:130 | why the ref alphabet matters: with a colon allowed in a ref, two different endpoints can share a key |
| Records.ThreadsOfDifferentEndpointsNeverCoincide | extensions/openchannel/record.go:144-167 | thread keys of different colon-free refs differ whatever the threads are called |
| Records.AMessageIsInternalExactlyWhenItsSenderSaidSo | extensions/openchannel/record.go:170-207 | whatever addresses the core's own-domain rule covers, its all-parties gate judges a message internal exactly when some own domain is registered, the sender named an address it covers, and the member's own, if named, is covered too; never over an empty set |
| Records.TheRosterKeepsExactlyTheIdentifiable | extensions/openchannel/record.go:275-294 | every identifiable party holds its own place in the roster, in order and once per listing, and no other party holds any |
| RecordContents.WhoIsListed | extensions/openchannel/record.go:280-291 | a party is listed exactly when its account or its address is not blank, by its account, address and name, each trimmed |
| Records.DifferentEntropyGivesDifferentRefs | extensions/openchannel/ref.go:29-46 | base64url without padding (section 5 of RFC 4648) never gives two byte strings of one length the same ref |
| RecordContents.ARefSpellsItsBytes | extensions/openchannel/ref.go:40-46 | character by character, each four of a ref are the bits of three bytes in order, in the alphabet of section 5 of RFC 4648, the last group padded with zero bits |
| Records.EveryMintedRefRoutesAndHoldsNoColon | extensions/openchannel/ref.go:40-55 | sixteen bytes always give twenty-two characters of the published ref grammar, none of them a colon |
| DrainFailure.Classify | extensions/openchannel/drainfailure.go:79-115 | which sentinels give each class, and which classes are terminal; the outage class is exactly what matches none and never parks; authority outranks the other non-terminal answers |
| DrainFailure.WhatTheVerdictMeans | extensions/openchannel/drainfailure.go:134-175 | a tick is done exactly when something landed or nothing stays waiting; it postpones itself exactly for a live tick whose every waiting stall is the outage; it reports the mixed class exactly when two of them differ |
| DrainFailure.TheVerdictIsOrderFree | extensions/openchannel/drainfailure.go:134-175 | the verdict depends only on the multiset of the batch's outcomes |
| InboundStores.InboundStore.AcceptingEndpoint | extensions/openchannel/inbound.go:108-143 | answers the one enabled endpoint of a ref, and none exactly when there is no such endpoint |
| InboundStores.InboundStore.Receive | extensions/openchannel/inbound.go:86-106 | a signed request for an enabled ref is enqueued; one that is not changes nothing and is answered unauthenticated; storage that fails changes nothing and is answered transient |
| InboundStores.InboundStore.Enqueue | extensions/openchannel/inbound.go:174-228 | a refusal changes nothing; an acceptance adds the one waiting row, as it came, and one to its endpoint's counter |
| Inbound.WhenAnArrivalIsRefused | extensions/openchannel/inbound.go:174-211 | over capacity exactly at a thousand waiting, then unauthenticated exactly for a nonce already held |
| QueueMachine.AnArrivalIsARun | extensions/openchannel/inbound.go:174-228 | resolved, counted and inserted with nobody else moving, an arrival leaves the tables its handler leaves |
| InboundStores.InboundStore.PendingRequests | extensions/openchannel/drain.go:96-119 | the batch is the oldest hundred waiting requests, or all of them, oldest first, each as its row and its endpoint have it |
| Inbound.OnlyAReadableRequestIsTheCores | extensions/openchannel/drain.go:182-200 | a request no record can be built of stalls as its own fault whatever the core would say; any other is the core's to answer |
| InboundStores.InboundStore.MarkLanded | extensions/openchannel/drain.go:202-236 | a waiting row lands, or lands withdrawn when a marker was consumed, with every column stated, the time of the move among them; a row no longer waiting stays as it is though the marker goes |
| InboundStores.InboundStore.MarkStalled | extensions/openchannel/drain.go:253-289 | an outage spends no attempt and parks nothing; a terminal class or the fifth attempt parks; parked or not the row is dated by the move; a parking, and nothing else, appends its entry |
| InboundStores.InboundStore.MoveRow | extensions/openchannel/drain.go:130-167 | the answers that land, the class of every one that does not, the entry a landed row names and the reason a parking gives |
| InboundStores.InboundStore.LandAll | extensions/openchannel/drain.go:128-172 | the tables after the batch are the moves in order up to the first refused row write, and the verdict is that of all outcomes, or the tick's own failure |
| InboundStores.InboundStore.SweepDecided | extensions/openchannel/retention.go:70-107 | a row goes exactly when it is decided and thirty days past its last change, a marker exactly when it is over an hour old; what stays is unchanged, and a sweep that storage refuses removes nothing and fails the tick |
| InboundStores.InboundStore.Drain | extensions/openchannel/drain.go:74-83 | a whole tick: a batch that cannot be read fails it with nothing moved; otherwise the moves up to a refused row write, the verdict, and a sweep exactly when the verdict is done, whose refusal fails the tick with the moves kept |
| InboundStores.InboundStore.WithdrawFor | extensions/openchannel/withdraw.go:76-94 | withdraws and dates exactly the landed rows that claim the activity and answers each of their ids once |
| InboundStores.InboundStore.WithdrawCaptured | extensions/openchannel/withdraw.go:37-107 | one delivery: rows withdrawn and recorded, or a marker left when none claimed the activity; a delivery that is not ours touches nothing |
| Inbound.WhatADeliveryLeaves | extensions/openchannel/withdraw.go:37-107 | in the tables' own columns: which rows are withdrawn and when, one entry for each, a marker dated by the first notice only where no row claimed the activity, and all else as it was |
| QueueMachine.NothingAcceptedIsLost | extensions/openchannel/retention.go:70-94 | at every reachable state each accepted request is held, or was swept decided and over thirty days after the last step that changed its state, read off the states and no column; each held row is an accepted one, the counter is rows held plus rows swept, and one row is held per endpoint and nonce |
| QueueMachine.ARowLeavesExactlyWhenItsTimeIsUp | extensions/openchannel/retention.go:70-94 | from every reachable state a step takes a row exactly when it is a sweep, the row does not wait, and its state last changed over thirty days before |
| QueueMachine.DecisionsStand | extensions/openchannel/drain.go:222-233 | along every run no decided request waits again, and no waiting request is ever swept |
| ArchiveRace.TheOrderMattersExactlyWhenAnotherRowClaimedIt | extensions/openchannel/withdraw.go:37-107 | deliver-then-land and land-then-deliver leave the same row exactly when no other row claimed the entry or a marker was held, and the same rows and markers exactly when those two go together |
| ArchiveRace.TheTwoOrdersEndTheSameWay | extensions/openchannel/drain.go:202-236 | with one claimant and no marker, both orders end withdrawn, naming the entry, with no marker left |
| ArchiveRace.ASplitDeliveryLeavesTheClaim | extensions/openchannel/withdraw.go:46-65 | why a delivery is one transaction: split around a landing, the row claims an archived entry beside the marker meant for it |
| ArchiveRace.HonestyIsLostExactlyThere | extensions/openchannel/drain.go:202-236 | a step makes some row claim an archived entry exactly when it is a landing whose archive was delivered and whose marker is missing |
| ArchiveRace.EveryRunIsHonestExactlyUnless | extensions/openchannel/drain.go:202-236 | a run names no archived entry in a landed row at any of its states exactly when no step of it is that landing |
| ArchiveRace.AnExpiredMarkerLosesItsArchive | extensions/openchannel/retention.go:95-101 | whatever else the queue holds, a landing after its marker was swept claims an archived entry |
| ArchiveFailures.AnExpiredMarkerContradicts | extensions/openchannel/retention.go:95-101 | a run from the empty tables, one tick at a time: a tick stops before its row moves, the entry is archived, the next tick stalls that request and sweeps its marker, and the third lands it |
| ArchiveRace.ASecondLandingFindsNoMarker | extensions/openchannel/drain.go:222-233 | of two requests that became one entry, only the first to land finds the marker |
| ArchiveRace.AMatchedArchiveLeavesNoMarker | extensions/openchannel/withdraw.go:46-65 | an archive that matched a row leaves no marker for another landing |
| ArchiveRace.TwoRequestsOfOneMessageCanContradict | extensions/openchannel/withdraw.go:37-107 | from any state between ticks whose batch is two requests of one message not yet on the timeline, some run ends with a landed row naming an archived entry |
| ArchiveFailures.OneMessageTwiceContradicts | extensions/openchannel/withdraw.go:37-107 | a run from the empty tables, of one message posted under two nonces, that ends with a landed row naming an archived entry |
| ArchiveRace.NoRunContradictsAnArchive | extensions/openchannel/withdraw.go:37-107 | in every interleaving where each insert that the nonce check lets through finds no entry of its message and no earlier request of it that may still land, and no needed marker expired, no landed row names an archived entry |
| Reposting.PostingEachMessageOnceIsEnough | extensions/openchannel/inbound.go:174-228 | so it is, with any overlap of ticks, for senders no message id of whom is accepted twice at an endpoint, however often they retry or are replayed |
| Reposting.RepostingOnceDecidedIsSafe | extensions/openchannel/drain.go:253-289 | and, with one tick in flight, for senders who post a message again only once its earlier requests were decided and the core holds no entry of it |
| ArchiveRace.ARedeliveryMovesNothing | extensions/openchannel/withdraw.go:46-65 | an archive delivered again moves no row and adds no entry |
| AttemptBudget.EveryParkingIsEarnedAndRecordedOnce | extensions/openchannel/drain.go:253-289 | with one tick in flight a waiting row has spent at most four attempts, a parked one met a terminal class or its fifth spent attempt, and has exactly one parking entry |
| AttemptBudget.OneEntryEachIsLostExactlyThere | extensions/openchannel/drain.go:276-289 | from a state with one parking entry per parked request, a step keeps it so exactly unless it is a stall that parks a request which no longer waits |
| AttemptBudget.TheBudgetIsLostExactlyThere | extensions/openchannel/drain.go:253-275 | from a state within budget, a step keeps it exactly unless it stalls a waiting row that the attempts as read park at other than its fifth charge, or keep waiting past its fourth |
| AttemptBudget.EveryRunKeepsBothExactlyUnless | extensions/openchannel/drain.go:253-289 | a run keeps either throughout exactly when no step of it is that write, however many ticks overlap |
| OverlappingTicks.OverlappingTicksParkTwice | extensions/openchannel/drain.go:276-289 | a run from the empty tables in which two ticks record one parking twice |
| OverlappingTicks.OverlappingTicksOverspend | extensions/openchannel/drain.go:253-289 | a run from the empty tables in which a request read twice at three attempts waits on after its fifth |
| AttemptBudget.AnOutageOfAnyLengthSpendsNothing | extensions/openchannel/drain.go:253-275 | over every run, overlapping ticks, crashes, archives and sweeps included, a waiting request answered with nothing but the outage still waits with the attempts it had |
| AttemptBudget.EveryWithdrawalIsRecordedOnce | extensions/openchannel/ledger.go:151-168 | in every run each landed row an archive withdrew has exactly one withdrawal entry, and a row withdrawn through its marker none |
| Progress.EveryRequestIsDecidedInTime | extensions/openchannel/drain.go:96-172 | one tick at a time, no outage answer and later arrivals sorting later: a request with p ahead of it is decided within 5 * (p / 100 + 1) completed ticks, however many others stop part-way in between |
| Progress.ATickSpendsItsFront | extensions/openchannel/drain.go:253-289 | under the same conditions, stopped ticks before it included, the attempts left over the rows that waited fall by at least the size of the front on every tick, so they fall while anything waits |
| SoftCap.TheQueueStaysUnderItsCap | extensions/openchannel/inbound.go:174-211 | with at most k arrivals between count and insert an endpoint never holds more than 999 + k waiting |
| SoftCap.TheCapIsMet | extensions/openchannel/inbound.go:46 | and for every k some run holds exactly 999 + k, hence 1000 when arrivals are serial |
| DrainRun.ATickIsARunOfTheMachine | extensions/openchannel/drain.go:74-172 | every outcome of a tick that read its batch, with the clock moving, a row write refused part-way or the sweep refused, is that of a run of the transition system ending with the tick no longer in flight |
| Outbound.TheRowSaysWhatHappened | extensions/openchannel/outbound.go:63-91 | sent exactly for a two-hundred answer, unknown exactly for a request that went out unanswered, and the class tells a blocked dial from both |
| Outbound.TheLadderStopsExactlyWhenItMayHaveArrived | extensions/openchannel/send.go:129-156 | whatever storage did, the send reports success or an unknown outcome exactly when the receiver may hold the message, and tells an unrecorded failure from a declined one |
| Outbound.TheRowAndTheReportDisagreeExactlyOnBoth | extensions/openchannel/send.go:166-171 | the ledger's switch and the report's agree on every error but one matching both sentinels, which no post gives |
| Outbound.WhatTheCounterFollows | extensions/openchannel/outbound.go:123-157 | one attempt completed twice counts once; completed, announced again and completed again counts twice |
| Outbound.LiveSaysNoExactlyWhenSomethingIsKnownMissing | extensions/openchannel/send.go:181-240 | live answers yes exactly when all four facts hold, and an error exactly when one could not be found out |
| Outbound.OutboundStore.RecordAttempt | extensions/openchannel/outbound.go:123-157 | the upsert keeps recipient and first instant, and the counter moves only when this write moves the row to sent |
| Outbound.OutboundStore.Transmit | extensions/openchannel/send.go:129-156 | nothing leaves unannounced; the row ends at its outcome or stays unknown; the report stops the ladder exactly when the message may have arrived |
| Outbound.OutboundStore.SendVia | extensions/openchannel/send.go:71-104 | every refusal before the post changes nothing and lets nothing leave, each under its own report; after a post the attempt's row has the recipient and the instant it was first written with, the outcome and class the answer and the recording give it, no other row moves, and the counter moves exactly for an accepted and recorded post |
| Outbound.OutboundStore.SweepLedger | extensions/openchannel/retention.go:86-94 | an attempt goes exactly when its row was first written over thirty days ago, whatever was written over it since; what stays is unchanged |
| OutboundMachine.ATransmissionIsARun | extensions/openchannel/send.go:129-156 | a whole transmission is three actions of the transition system |
| OutboundMachine.TheCounterIsConserved | extensions/openchannel/outbound.go:123-157 | in every run the counter is the rows now sent, plus the sent rows swept, plus the sent rows overwritten |
| OutboundMachine.TheCounterFollowsTheRowsUnlessOneIsRewritten | extensions/openchannel/outbound.go:101-122 | the counter is rows sent plus sent rows swept exactly in the runs no action of which stores an outcome other than sent over a row of that endpoint now sent |
| OutboundMachine.TheCounterNeverExceedsTheAcceptances | extensions/openchannel/outbound.go:144-156 | in every run the counter is at most the posts the receiver accepted |
| OutboundMachine.APostLeavesWithItsRowExactlyUnlessSweptAway | extensions/openchannel/send.go:118-133 | a post leaves with its row held exactly unless a sweep since the last write found the row's first instant past the window; always within thirty days of it |
| OutboundMachine.AnOldAttemptCanLeaveWithoutItsRow | extensions/openchannel/retention.go:89-94 | a run in which a post leaves with no row for its attempt |
| DeliveryLadder.EveryArrivalIsLostOrSettled | extensions/openchannel/send.go:118-171 | up the ladder, crashes included, the posts of a delivery that may have arrived are one per crash that struck one in flight, plus one exactly when the ladder stopped or has one in flight |
| DeliveryLadder.AtMostOnceWithoutCrashes | extensions/openchannel/send.go:129-171 | in a crash-free run a delivery has at most one post that may have arrived, exactly one once the ladder stopped, and none while it goes on |
| DeliveryLadder.WhereASendLeads | extensions/openchannel/send.go:129-171 | a delivery stops after a post that may have arrived, goes to the next attempt after one that did not, and makes the same attempt again after a crash |
| DeliveryLadder.EveryPostCarriesItsDeliverysNonce | extensions/openchannel/client.go:87-90 | in every run each post carries the digest of its delivery's id |
| DeliveryLadder.AReceiverKeepsOneMessagePerDelivery | extensions/openchannel/client.go:76-90 | in every run a receiver keeping one message per nonce holds at most one of a delivery, and one exactly when it took any, where digests do not collide |
| DeliveryLadder.OneCrashCanLandTwice | extensions/openchannel/send.go:118-128 | without such a receiver one crash after the post is enough for two acceptances |
| AccountStores.AccountStore.Open | extensions/openchannel/endpoint.go:118-163 | a new endpoint has the ref and id it was given, is enabled, without address, traffic or secret, at version one, and opens the trail; opening again is the same endpoint and writes nothing |
| EndpointMachine.TheFirstOpeningNamesTheEndpoint | extensions/openchannel/endpoint.go:118-163 | over every run the endpoint keeps the id and ref of its first opening, the trail opens with it, and the counters are the traffic since |
| AccountStores.AccountStore.UpdateOwnEndpoint | extensions/openchannel/endpoint.go:246-277 | refused exactly without an endpoint or for an id that is not the caller's, skipped exactly for a no-op, neither leaving a mark; otherwise the one field moves, the version by one, and one entry holds the row as it was and as it is |
| AccountStores.AccountStore.SetEnabled | extensions/openchannel/endpoint.go:172-195 | writes, and appends the one entry of that verb, exactly when the row holds the other state |
| AccountStores.AccountStore.RegisterUrl | extensions/openchannel/endpoint.go:201-218 | accepted exactly for a dialable address and the caller's own endpoint, named or not; then it always writes and appends one entry; refused, it changes nothing |
| AccountStores.AccountStore.ClaimMint | extensions/openchannel/secret.go:68-120 | accepted exactly for the caller's own endpoint: the answer is one above the version held, both counters move by one, and secret and trail stay; refused, nothing changes |
| AccountStores.AccountStore.RecordMinted | extensions/openchannel/secret.go:127-154 | recorded exactly while the claimed version stands, with one entry whose images are the row as it is and no other change; otherwise it says superseded and changes nothing |
| AccountStores.AccountStore.MintSecret | extensions/openchannel/secret.go:39-174 | alone, the stored key moves exactly when the answer is the key or says it rotated unrecorded, and no such mint is told it was superseded |
| EndpointMachine.TheTrailReplays | extensions/openchannel/ledger.go:55-89 | in every run the trail replays, verb by verb, to the row's state and address; each before-image is the previous after-image up to traffic and version; pauses and resumes alternate; the version is one plus the edits plus the claims |
| EndpointMachine.AStepOnlyAppends | extensions/openchannel/endpoint.go:172-177 | no step takes an entry off the trail or the version back, and one that decided nothing adds none |
| MintRace.ClaimsAreSerialised | extensions/openchannel/secret.go:93-116 | the i-th claim is given version i, over any overlap of mints and edits |
| MintRace.WhatAMintMayConclude | extensions/openchannel/secret.go:127-169 | a conflict exactly when another mint claimed later, never for an edit; success exactly when none did and the write was stored; and then the key is the stored one exactly when no other mint, all of them claimed earlier, sealed after it |
| MintRace.AnOlderClaimCanSealLast | extensions/openchannel/secret.go:122-169 | a run that tells the mint whose key is stored that it lost, and the other that it won |
| MintRace.AMintIsARun | extensions/openchannel/secret.go:39-174 | an unopposed mint, whatever storage does with its claim, its seal and its record, is a run of the transition system |
| MintRace.EverySuccessIsOnTheTrail | extensions/openchannel/secret.go:146-153 | the trail holds one minting per mint told it succeeded |
| WaiterBudget.Reader.HelperCost | frontend/scripts/test-budget.ts:234-249 | the memo and the path in place; comes back on every finite graph |
| WaiterBudget.Reader.BudgetOf | frontend/scripts/test-budget.ts:225-298 | one body read item by item, with the path left as it was found |
| WaiterBudget.Join | frontend/scripts/test-budget.ts:272-278 | a helper's unresolved timeouts join the caller's once each |
| WaiterBudget.TheMemoAgreesWithPlainRecursion | frontend/scripts/test-budget.ts:216-250 | where no helper reaches itself, milliseconds and unresolved timeouts are those of plain recursion without guard or memo |
| WaiterBudget.CostsAdd | frontend/scripts/test-budget.ts:221-223 | that plain recursion counts every call: a helper awaited four times costs four times |
| WaiterBudget.ACallCostsItsBody | frontend/scripts/test-budget.ts:272-278 | and one call costs what the body it names does |
| WaiterBudget.Waited | frontend/scripts/test-budget.ts:252-270 | an unstated timeout counts the library's 2782 milliseconds, one that folds its value, and one that cannot be read is named and counts nothing |
| WaiterBudget.MutualRecursionCountsByCallOrder | frontend/scripts/test-budget.ts:237-241 | two helpers that call each other, for which the total depends on the order of the calls |
| WaiterMemo.UntangledIsEnough | frontend/scripts/test-budget.ts:216-250 | where no two different helpers reach each other, whatever they cost: the memoised reading is that of the guard alone, as a memo keyed on the path would give it, and its milliseconds are the same for the calls in any order |
| WaiterMemo.TheOrderIsFreeExactlyWhenUntangled | frontend/scripts/test-budget.ts:234-249 | where every helper waits for some time itself, each of the two holds exactly when no two different helpers reach each other |
| WaiterBudget.EveryUnreadTimeoutIsReported | frontend/scripts/test-budget.ts:12-16 | on every finite graph, cyclic ones included, the reading lists exactly the unreadable timeouts of the waiters the body reaches |
| Paths.SpelledResolves | frontend/scripts/move-modules.ts:149-150 | the spelling of a path from a directory starts with a dot and resolves back to that path |
| Paths.NoSpellingIsShorter | frontend/scripts/move-modules.ts:149 | no spelling of a path from a directory has fewer parts than the one the script gives it |
| Paths.BareExactlyBelowADotDirectory | frontend/scripts/move-modules.ts:150 | it is one a bundler reads as relative exactly unless it goes down into a name starting with a dot |
| MoveModules.ANamedPathLeadsToItsTargetExactlyWhen | frontend/scripts/move-modules.ts:119-151 | the path a new specifier is spelled for leads to the moved file exactly when the file can still be named that way |
| MoveModules.AMovedImportNamesItsFileExactlyWhen | frontend/scripts/move-modules.ts:163-178 | an import one side of which moved names the file at its new place, from the importer's new place, exactly under that condition |
| MoveSpelling.WhatAMovedImportIsSpelledFor | frontend/scripts/move-modules.ts:131-151 | read off the old specifier and its file alone: one that said its file's extension resolves to the moved file itself and finds it whatever is about; one that left an index unsaid resolves to the moved file's directory; any other to the moved file's path without its extension |
| MoveSpelling.AnImportSaidInFullFollowsItsFile | frontend/scripts/move-modules.ts:142-148 | a stylesheet, say: an import ending in its file's own extension names that file after the move |
| MoveSpelling.AnExtensionRunsFromTheLastDot | frontend/scripts/move-modules.ts:143-145 | an extension is what follows the last dot of a name, unless that dot is its first character |
| MoveSpelling.TheResolverTries | frontend/scripts/lib/source-tree.ts:223-243 | the fifteen candidates of a path, in order |
| MoveModules.AnUntouchedImportNamesItsFileExactlyWhen | frontend/scripts/move-modules.ts:166-169 | an import neither side of which moved keeps its text, and keeps its file exactly when no file moved onto an earlier candidate |
| MoveModules.EveryImportFollowsItsFile | frontend/scripts/move-modules.ts:153-185 | with no ambiguous stem after the move, every relative import follows its file exactly when neither side moved or the file keeps its role |
| MoveModules.AFileWithoutAnExtensionIsLost | frontend/scripts/move-modules.ts:146-149 | a target without an extension is respelled as the working directory |
| MoveRewriter.PlanMoves | frontend/scripts/move-modules.ts:54-76 | refused exactly when a file is moved twice or two files would move to one place; otherwise every file is mapped once, to its own target |
| MoveRewriter.AFileLandsWhereItIsSent | frontend/scripts/move-modules.ts:58-70 | a file given to a directory lands in it under its own name, and anywhere else at the place named |
| MoveRewriter.ADirectorySendsItsFiles | frontend/scripts/move-modules.ts:58-70 | a directory sends each of its files, each to its path below the new place |
| MoveRewriter.ADirectoryKeepsItsLayout | frontend/scripts/move-modules.ts:62-67 | a file below a moved directory keeps its path below it |
| MoveRewriter.SpliceAll | frontend/scripts/move-modules.ts:179-184 | the descending splices are the simultaneous substitution of all spans, every other character kept |
| MoveRewriter.RewriteImports | frontend/scripts/move-modules.ts:155-185 | the file's text with exactly the changed specifiers substituted at once |
| MoveRewriter.EachPlaceHoldsItsValue | frontend/scripts/move-modules.ts:170-176 | every place, changed or not, stands where the edits before it shift it to, and holds its new specifier or the text it had |
| MoveRewriter.TheRewrittenTextNamesItsFiles | frontend/scripts/move-modules.ts:153-185 | in the rewritten text each place whose specifier named a file holds one that names it at its new place, exactly when neither side moved or the file keeps its role |
| PolicyStream.StopwordCount | tools/gitleakspolicy/main.go:183-194 | the stopwords of all three places, each counted once |
| PolicyStream.Renderer.WriteRecord | tools/gitleakspolicy/main.go:213-224 | an empty value writes nothing, a value with the unit separator or a newline is refused and writes nothing, any other writes its one line |
| PolicyStream.Renderer.Render | tools/gitleakspolicy/main.go:134-176 | the stream, or the first refusal, of the whole policy in file order |
| PolicyStream.RenderRefusesExactlyWhen | tools/gitleakspolicy/main.go:196-221 | the stream is refused exactly when some allowlist holds a value with the separator or a newline |
| PolicyStream.ARefusalNamesTheFirst | tools/gitleakspolicy/main.go:134-140 | and a refusal names the first such value in file order |
| PolicyStream.TheStreamReadsBackIndexByIndex | tools/gitleakspolicy/main.go:127-176 | split on newlines and separators, the stream gives back every record written that is not empty, and under each index those of that index alone, in file order |
| PolicyReading.WhatIsReadOfATopLevelList | tools/gitleakspolicy/main.go:149-166 | under the number of each of the file's own allowlists, counted from one, a consumer reads its description under desc, its target rules under rule, its paths under path and its regexes under regex, the empty ones left out |
| PolicyReading.WhatIsReadOfARulesList | tools/gitleakspolicy/main.go:167-171 | and so for the allowlists of each rule, whose numbers go on from there |
| PolicyReading.WhatIsReadOfTheFile | tools/gitleakspolicy/main.go:145-148 | under zero: true or false for the default rules, and the digits of the number of disabled rules and of the stopwords of all three places |
| PolicyReading.NothingIsReadOfAnotherNumber | tools/gitleakspolicy/main.go:149-171 | and nothing under any number past the last allowlist |
| DemoLedger.Settle | extensions/finance-demo/ledger.go:106-117 | one roll out of a thousand disputes an invoice, a second says how many days late it is paid, and it stays open where that is after the anchor; nothing else of it changes |
| DemoLedger.WhatAnInvoiceSays | extensions/finance-demo/ledger.go:68-86 | an invoice's dates, its amount by one roll, its exact tax, and its names |
| DemoLedger.WhatSettlesAnInvoice | extensions/finance-demo/ledger.go:88-117 | the newest few are left open without a roll; every other is disputed or paid by the rolls after its amount |
| DemoLedger.TheKindIs | extensions/finance-demo/ledger.go:50-64 | the first roll, out of three, picks how the customer pays |
| DemoLedger.CreditNoteFor | extensions/finance-demo/ledger.go:122-141 | the note credits a quarter of the net of the eligible invoice that was picked, fourteen days after it, and is named after it |
| DemoLedger.EligibleFor | extensions/finance-demo/ledger.go:122-129 | the scan counts the invoices at the front that are old enough |
| DemoLedger.Generate | extensions/finance-demo/ledger.go:55-101 | refused exactly without a customer; otherwise the ledger of its stream, with somebody to credit |
| DemoLedger.EveryInvoiceIsConsistent | extensions/finance-demo/ledger.go:68-98 | every invoice's dates, exact tax and quarter, and its one of three states: open, disputed, or paid in full after issue and by the anchor |
| DemoLedger.TheScanCountsThirtyEight | extensions/finance-demo/ledger.go:119-129 | for every anchor and stream the credit-note scan counts exactly 38 |
| DemoLedger.WhatEveryLedgerHolds | extensions/finance-demo/ledger.go:55-141 | for every customer, anchor and stream: the invoices consistent, payments and paid invoices one to one at the gross amount, their totals equal, the open tail unpaid, old undisputed invoices paid, and the credit note an exact quarter of one of the first thirty-eight |

## Left out

- InboundStores.InboundStore.WithdrawCaptured: one delivery is one step; what the database does between its statements is stated only by `ArchiveRace.ASplitDeliveryLeavesTheClaim`.
- AttemptBudget.EveryParkingIsEarnedAndRecordedOnce: assumes at most one tick in flight, which is the dispatcher's uniqueness window; what holds without it is `AttemptBudget.EveryRunKeepsBothExactlyUnless`.
- Progress.EveryRequestIsDecidedInTime: counts completed ticks and assumes later arrivals sort later, which the database's clock gives; a tick that crashes or is refused a row write may happen any number of times but is not a completed one.
- OutboundMachine.TheCounterIsConserved: one recording is one step; two first writes of an attempt that has no row to lock are serialised here, and a run may sweep the row in between.
- DeliveryLadder.AReceiverKeepsOneMessagePerDelivery: the digest is any function; that SHA-256 does not collide is the stated hypothesis, not a result.
- MintRace.WhatAMintMayConclude: the random source never gives one key twice, and a commit whose answer is lost counts as not stored.
- Records.AMessageIsInternalExactlyWhenItsSenderSaidSo: which addresses an own domain covers, subdomains and domain folding included, is a parameter.
- WaiterBudget.TheMemoAgreesWithPlainRecursion: a body is the list of its waiters and calls in visit order; parsing, scopes and constant folding are not part of this model, and milliseconds are whole numbers.
- WaiterBudget.Reader.BudgetOf: what ceiling a test states, and which calls are tests, is not part of this model.
- MoveModules.EveryImportFollowsItsFile: resolution is the script's own; bundler aliases and package imports are not relative and are not touched. The resolver's extensions are those of `frontend/scripts/lib/source-tree.ts`.
- MoveRewriter.TheRewrittenTextNamesItsFiles: a specifier written with escapes is spliced like any other, but its text is then not the specifier it reads as.
- MoveRewriter.SpliceAll: the library sort is a stable insertion sort here, and places come with their specifiers already read.
- DemoLedger.Settle: answers the settled invoice instead of changing it through a pointer nothing else holds.
- DemoLedger.WhatEveryLedgerHolds: dates are whole days and the year of a day is a parameter; amounts stay far below 64 bits, so integers are unbounded.
- A row of the endpoint table is named by its owner, because the unit declares one edge; SQL, locks and isolation are one atomic step per transaction.
- Refused storage writes are inputs of each operation; a commit that fails after taking effect is not modelled.
- The integer columns (attempts, versions, counters) are unbounded.
- JSON decoding, HMAC, TLS, sealing and the egress guard are inputs with the classes the code branches on; text is a sequence of code points, lower-casing is ASCII, and blanks are the ones Go's TrimSpace cuts.
- The outbound ledger is swept in its own transition system; in the code one transaction sweeps all three tables.
- Callers without a member behind them are refused before anything here and are left out, with argument decoding.
- Listings, rendering, failure prose, unit declarations, the screens, the jurisdiction packs, boot wiring and the end-to-end lane.
