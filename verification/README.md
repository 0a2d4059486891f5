# Runvard verification models

Runvard is a self-hosted server console. This project models its stateful and algorithmic
parts in Dafny and proves what they promise:

* **Federation.** Each server keeps a signed event log of who belongs to the federation, applies
  events in whatever order they arrive, authenticates its peers' requests once each, pairs new
  servers with one-shot codes, and hands users to other servers with one-shot tickets.
  `Membership`, `Agreement`, `RecordedEvents`, `RevocationTimes`, `LogReplay`, `JoinOrder`, `Convergence`,
  `RestAgreement`, `Exchange`, `Samples`, `Replica`, `RequestReplay`, `Pairing`, `Sso`.
* **Network map.** A breadth-first search orients the links of a mesh report, a device graph keeps a
  parent forest mirrored as edges, and cards are packed into group boxes.
  `Mesh`, `DeviceGraph`, `Promotion`, `MapChanges`, `NetworkMap`, `Layout`, `Traversal`, `RouterOrder`,
  `Packing`, `GroupLayout`.
* **Time Machine service.** A registry of backup targets keeps the Samba and Avahi files and the native
  quotas in step with its own record, through failures; a job queue replicates targets, survives worker
  crashes, and publishes versions at a receiver.
  `SambaConfig`, `Registry`, `JobQueue`, `QueueEffects`, `QueueSafety`, `StrandedClaims`, `ReplicaPromotion`,
  `Worker`, `Receiver`, `ReceiverLimits`, `VersionReuse`, `Commit`, `SoloCommit`.
* **Workspace updater.** A fixed sequence of states and commands that fails closed. `Workspace`.
* **Compose ports.** Port specs are read and rewritten, and free host ports chosen. `Stripping`, `PortSpecs`, `Ports`.

Code that changes state step by step is a class or a method, with loops where the server's code has them;
the properties of whole runs are lemmas about the functions those methods are proved to compute.
External commands, writes and peers may fail or stop at any point; where a method tries one, an
arbitrary Boolean decides. Signatures, hashes, random ids, clocks and port probes are parameters.

`dafny verify dfyconfig.toml` checks everything.

## Where the code does less than it seems to

* Replicas that recorded the same events agree on members, keys and who is revoked, but not always on *when*:
  an enrolment or update may carry a revocation time of its own. The time shown is the recorded one exactly when
  the last of them carried none or a recorded revocation reaches what it carried, and two replicas show the same
  exactly when they last heard the same or a revocation reaches both: `RevocationTimes.TimeFollowsLogExactly`,
  `RevocationTimes.SameEventsSameTimeExactly`. `Agreement.CarriedTimesBreakAgreement` shows it of any server enrolled
  twice.
* Two replicas can exchange their whole logs for ever without either changing and still disagree, whenever one
  saw an update before and one after its author's revocation: `Convergence.RestWithoutAgreement`. Every endless
  exchange comes to rest, and then replicas agree exactly when neither blocks anything the other recorded:
  `Exchange.ExchangesEndInExactAgreement`, `RestAgreement.RestAgreesExactly`.
* Joining replays the log sorted by creation time, so a server enrolled in the same second as its enroller
  may be unable to join (`LogReplay.EqualTimesCanBreakJoin`), and always is when an enroller's clock ran behind
  its own enrolment (`JoinOrder.LaggingClockBreaksJoin`). It goes through exactly when every event comes after what
  it builds on: `JoinOrder.JoinSucceedsExactly`; from a log listed in recording order it is enough that times never
  decrease: `JoinOrder.JoinInRecordingOrder`.
* The replay cache forgets the oldest request when it is full. Nothing gets through twice while no 60 seconds
  see more than one acceptance above what it holds; with two above, a request can:
  `RequestReplay.ReplayBoundExactly`.
* The limit of five wrong pairing codes holds for any 60 consecutive readings of the clock and not for 61:
  `Pairing.GuessLimitExactly`.
* Merging a scan report promotes a device without a MAC to the identity of a registered one. The graph
  survives exactly when that device had no parent and does not sit above the promoted one:
  `Promotion.PromotionKeepsGraphExactly`.
* Running a replication does not check that its job is still waiting. Starting keeps one active job per
  replication exactly when the job was active or nothing else was: `QueueSafety.StartKeepsOneActive`,
  `QueueSafety.StaleStartBreaksOneActive`. It keeps the bound of three runs exactly when the job was started no
  more often than it was given another turn, and a finished job can be run again without end:
  `QueueSafety.StartKeepsBoundExactly`, `QueueSafety.RerunsAreUnbounded`.
* A run whose job is not there is given up without giving back its claim. Nothing else strands one, and until the
  worker process dies no replication with the same source or destination starts:
  `StrandedClaims.ClaimsStayRunsExactly`, `StrandedClaims.StrandedUntilCrash`, `StrandedClaims.StrandedBlocks`.
* Promotion does not last. Exactly three steps end it, and the replication can then be enabled again: pausing it,
  the end of a run that was under way, and a recovery that finds its job out of turns:
  `ReplicaPromotion.PromotionLastsExactly`, `ReplicaPromotion.PromotionCanBePausedAway`,
  `ReplicaPromotion.RunUnderWayEndsPromotion`.
* A visible replica version is removed file by file, so it does not always carry its marker. It does as long as
  fewer than two greater versions were published (`Receiver.NewestVersionsSurvive`), without it two greater whole
  ones are there (`Receiver.UnmarkedIsSuperseded`), and two are enough for it to go first
  (`ReceiverLimits.MarkerCanGoFirst`).
* A published version is not always left as it is: once a prune has emptied its directory, a second session of the
  same number may rename over it. That takes two sessions of one number and two of different greater ones, and
  wherever there are such four it can happen: `VersionReuse.RewrittenExactly`.
* Staging directories are cleaned up by the age of their number alone, and a transfer may take a day before its
  commit starts. A cleanup that overtakes a commit makes it publish a version without its marker:
  `Receiver.DayOldCutoff` says when that cannot happen, `ReceiverLimits.LateCutoffPublishesUnmarked` what happens else.
* An updater run that cannot read the status file takes it for an empty one, and from its first write on the running
  digests are no longer reported, until a run succeeds: `Workspace.Updater.RunUpdate` says exactly when they are right.
* The port search returns its preference when all 200 ports are taken, so the result is usable exactly when
  one of them was: `Ports.NextPortIsLeast`, `Ports.PortsDoNotClash`.

## Model

| member | source | states |
|---|---|---|
| Membership.AppliedFacts | modules/federation/membership.py:50-129 | An accepted event is new, is recorded under its id along with everything recorded before, concerns its subject alone, and was issued by a known member that is not revoked, or by the first member enrolling itself where nobody is known |
| Membership.OutcomeExactly | modules/federation/membership.py:67-129 | An event is applied if and only if it is of this federation and a known kind, new, signed by an active member or the founder, under its own digest, about some node, and an enrolment of a newcomer with a key or of a standing member under its key, a standing member's own update no older than its record, or a revocation of a member; it is ignored if and only if it is recorded already or such an update but older |
| Membership.StoredRecord | modules/federation/membership.py:102-126 | Enrolments, the founder's among them, and updates store the key, metadata and time they bring; a revocation stores the mark and the later of two times and keeps the rest |
| Membership.OfferConcat | modules/federation/service.py:301-307 | Offering two batches in a row is offering them together, refusals skipped |
| Agreement.StepKeepsView | modules/federation/membership.py:50-129 | One event keeps the members, keys and revocations exactly those the log records |
| Agreement.RunKeepsView | modules/federation/membership.py:50-129 | After any sequence of offers the node map's members, keys and revocations are determined by the recorded events |
| Agreement.RunKeepsTimes | modules/federation/membership.py:119-129 | Revocation times are determined by the recorded events too when no recorded subject carries one |
| Agreement.RevocationTimeExactly | modules/federation/membership.py:119-129 | An accepted revocation leaves the recorded time exactly when it is the first and what the member carried does not exceed it (or nothing was carried and it is negative), or the time was the recorded one already, or it is neither negative nor earlier than the stored time and every recorded revocation |
| Agreement.SameEventsSameView | modules/federation/membership.py:67-129 | Two replicas with equal event logs, however reached and whatever they verify signatures with, have equal members, keys and revocations |
| Agreement.RunsSettle | modules/federation/membership.py:50-129 | Over any run a member's key never changes, a revoked member stays revoked, and nothing it issues is recorded afterwards |
| Agreement.CarriedTimesBreakAgreement | modules/federation/membership.py:102-126 | For any scheme and any server enrolled twice and revoked: the two orders of the enrolments record the same events, and show the same revocation time if and only if what they carried comes to the same by the time of the revocation |
| RevocationTimes.TimeFollowsLogExactly | modules/federation/membership.py:102-126 | After any sequence of offers a member's stored time is the one its log records if and only if its last enrolment or update carried none, or a recorded revocation is neither negative nor earlier than what it carried |
| RevocationTimes.SameEventsSameTimeExactly | modules/federation/membership.py:102-126 | Two replicas with equal logs show a revoked member the same time if and only if they last heard it carry the same, or one recorded revocation is no earlier than either |
| RecordedEvents.RunKeepsVouched | modules/federation/membership.py:50-129 | Every recorded event is under its own digest, and the members the view ends with are its issuer, under the key that verifies it, and its subject, under the key it names |
| RecordedEvents.IssuerKeyFollowsLog | modules/federation/membership.py:50-64 | By the log, an event has a key to be signed with exactly when its issuer was enrolled and not revoked or it founds an empty log, and the key is the only one ever enrolled for that issuer |
| RecordedEvents.AppliedElsewhere | modules/federation/membership.py:67-129 | An event one replica recorded is applied by another that knows the same keys exactly when its issuer and subject are in place there and it is not stale |
| RecordedEvents.RunKeepsUpdateTime | modules/federation/membership.py:102-118 | A member's stored update time is that of a recorded enrolment or update of it |
| LogReplay.LogReplaysRun | modules/federation/membership.py:72-129 | Rejected and stale events leave no trace: replaying only the applied ones gives the same state |
| LogReplay.LogListsRecorded | modules/federation/membership.py:128-129 | The log is exactly the recorded events, each once |
| LogReplay.SortedIsSorted | modules/federation/service.py:279-280 | Ordering by creation time is a permutation in that order |
| LogReplay.SortKeepsOrderOfTime | modules/federation/service.py:279-280 | Events of one time keep the listing's order |
| LogReplay.ReplayIsOffering | modules/federation/service.py:279-284 | A replay goes through if and only if no event is refused when its turn comes, and then ends where offering them does |
| LogReplay.JoinRebuildsView | modules/federation/service.py:271-284 | With strictly increasing creation times, any listing of a log replays without refusal into exactly the exporter's state |
| LogReplay.EqualTimesCanBreakJoin | modules/federation/service.py:279-280 | For any founder and any server it enrols in the same second, a listing of their log in the other order is refused |
| JoinOrder.JoinInRecordingOrder | modules/federation/service.py:271-284 | A log listed in the order it was recorded, with times that never decrease, replays into exactly the exporter's state |
| JoinOrder.JoinSucceedsExactly | modules/federation/service.py:271-284 | Any listing of a log, sorted, replays without refusal if and only if its first event is a member enrolling itself, every other comes between its issuer's enrolment and revocation, updates and revocations come after their subject's enrolment, and enrolments and updates before its revocation; every event is then applied, and the log is the exporter's |
| JoinOrder.LaggingClockBreaksJoin | modules/federation/service.py:279-280 | The join fails from every listing of a log with an event older than every enrolment of its issuer, equal times or not |
| Convergence.OfferGrowsOrIsNothing | modules/federation/service.py:301-307 | A batch either adds events to the log or changes nothing at all |
| Convergence.ChangesBounded | modules/federation/service.py:352-369 | However N replicas exchange events of a pool, deliveries that change anything number at most N times the pool's size |
| Convergence.SchedulesComeToRest | modules/federation/service.py:352-369 | Every exchange schedule reaches a point after which no delivery changes anything |
| Convergence.RestWithoutAgreement | modules/federation/membership.py:54-55 | For any scheme, founder, server it enrols, change that server makes and revocation of it: replicas that heard the last two in different orders are at rest with each other, one without the change in its log and with the older metadata |
| Samples.DisagreementWithoutCollisions | modules/federation/membership.py:54-55 | Such replicas exist under a scheme whose event ids never collide |
| Samples.DifferentTimesWithoutCollisions | modules/federation/membership.py:102-126 | So do replicas with equal logs and different revocation times |
| RestAgreement.FirstMissingIsBlocked | modules/federation/membership.py:50-129 | Of what a replica at rest is missing, the first event the other recorded has its issuer or subject revoked here, or is older than the record here, or enrols a member under another key, or founds another federation, and the last only as the other's very first event |
| RestAgreement.MissingExactlyWhenBlocked | modules/federation/service.py:352-369 | A replica at rest is missing an event if and only if a missing event is blocked in one of these ways |
| RestAgreement.RestAgreesExactly | modules/federation/service.py:352-369 | Two replicas at rest with each other have equal logs if and only if neither blocks anything it misses of the other's |
| RestAgreement.PeacefulRestAgrees | modules/federation/service.py:352-369 | At rest, with nobody revoked, no missing update stale, the same keys and the same founding event, logs are equal |
| Exchange.RestIsQuiet | modules/federation/service.py:352-369 | Where replicas keep telling each other their whole logs, from the rest point on nobody would take anything another has recorded |
| Exchange.ExchangesEndInExactAgreement | modules/federation/service.py:352-369 | Every such exchange comes to rest, and then any two replicas have equal logs if and only if neither blocks anything it misses of the other's |
| Convergence.OwnUpdatesSettle | modules/federation/membership.py:105-118 | While a member is not enrolled again or revoked, its stored update time never falls and its metadata is that of its latest update |
| Convergence.UpdateOrderIsIrrelevant | modules/federation/membership.py:105-118 | The same updates with distinct times leave the same metadata in whatever order they come |
| Replica.Replica.ApplyEvent | modules/federation/membership.py:67-129 | The in-place update computes the specified step and reports true exactly for the events above; a refusal or a stale event leaves the state as it was |
| Replica.Replica.AcceptSync | modules/federation/service.py:301-307 | A peer's events are applied oldest first, refusals skipped |
| Replica.Replica.Join | modules/federation/service.py:271-284 | A join succeeds exactly when the replay meets no refusal and enrols the joiner, and then holds the replayed state |
| RequestReplay.KeyIsInjective | modules/federation/protocol.py:71 | A cache key names one sender and one nonce |
| RequestReplay.NonceCache.Consume | modules/federation/protocol.py:65-76 | A nonce is refused exactly when it was seen at most 120 seconds ago; else it is remembered with its time, what is older goes, and of the rest only one of the oldest, if there was no room; the limit is kept |
| RequestReplay.NonceCache.VerifyRequest | modules/federation/protocol.py:79-107 | A request is accepted exactly when its sender is the expected one, recipient and version match, its clock is at most 30 seconds off, its nonce has at least two characters and is not remembered, and its signature verifies; refused headers leave the cache alone |
| RequestReplay.EntryStays | modules/federation/protocol.py:66-77 | An accepted request is remembered with its time for 60 seconds, as long as no more have been accepted since its time than the cache holds |
| RequestReplay.ReplayNeedsCrowd | modules/federation/protocol.py:66-107 | A signed request accepted twice is accepted within 60 seconds, and these see at least two acceptances more than the cache holds |
| RequestReplay.NoRequestAcceptedTwice | modules/federation/protocol.py:66-107 | No signed request is accepted twice in any history with a non-decreasing clock in which no 60 seconds see more than one acceptance above what the cache holds |
| RequestReplay.ReplayBoundExactly | modules/federation/protocol.py:66-107 | For every limit, keeping such spans within a bound is enough to accept nothing twice if and only if the bound is at most the limit plus one |
| RequestReplay.CacheStaysBounded | modules/federation/protocol.py:74-76 | The cache never exceeds its limit |
| RequestReplay.OneMoreAllowsReplay | modules/federation/protocol.py:74-76 | For every limit, limit + 1 different requests at one moment let the first of them through again |
| Pairing.PairingCodes.Issue | modules/federation/pairing.py:24-33 | Issuing forgets every earlier code and keeps the new one's digest for 600 seconds |
| Pairing.PairingCodes.Consume | modules/federation/pairing.py:35-54 | Limited exactly with five recent failures, else invalid, used, expired or paired by the stored code; only an unknown code adds a failure, and only a pairing marks the code |
| Pairing.RecentInOrder | modules/federation/pairing.py:37-40 | Pruning a failure list keeps the order of what is left |
| Pairing.OnlyTheLastCodeIsKept | modules/federation/pairing.py:24-54 | In every run only the code issued last is kept, marked used exactly when somebody has paired since |
| Pairing.PairingUsesTheLastCode | modules/federation/pairing.py:47-54 | A pairing uses the last code issued, within ten minutes, and is the first to use it |
| Pairing.PairingsNeedCodes | modules/federation/pairing.py:24-54 | Between two pairings a code was issued |
| Pairing.PairingsNeverOutnumberCodes | modules/federation/service.py:161-232 | Pairings never outnumber codes, and an unused code leaves one to spare |
| Pairing.CodePairsOnce | modules/federation/pairing.py:49-53 | No code pairs twice if codes and digests are distinct |
| Pairing.RecentGuessesKnown | modules/federation/pairing.py:38-48 | The pruned failure list tells the recent wrong guesses of a remote exactly |
| Pairing.FiveWrongGuessesAMinute | modules/federation/pairing.py:38-48 | With a non-decreasing clock no remote gets more than five wrong codes looked at in any half-open minute |
| Pairing.TenGuessesInSixtyOneSeconds | modules/federation/pairing.py:38-44 | Ten wrong codes are looked at between one reading of the clock and the same a minute later, both included |
| Pairing.GuessLimitExactly | modules/federation/pairing.py:38-48 | For every number of clock readings, at most five wrong codes of a remote are looked at within so many in every history if and only if they are at most 60 |
| Sso.TicketDesk.Issue | modules/federation/sso.py:42-64 | The claim is for the target and federation, for 60 seconds, with the name cut to 128 characters, an unknown role made read-only and the expert mark for administrators alone; the entry kept has its hash |
| Sso.TicketDesk.Redeem | modules/federation/sso.py:88-104 | A ticket is redeemed exactly when it is pending under its hash, unredeemed and not expired, and then it alone is marked; a refusal changes nothing |
| Sso.ValidateExactly | modules/federation/sso.py:67-85 | The accepting node takes a ticket if and only if it decodes, verifies, names this node and federation, is neither expired nor from more than 30 seconds ahead, and has a known role; it keeps the claim but for an expert mark without the role |
| Sso.RedeemActsAtOneNode | modules/federation/sso.py:88-104 | A redemption is the desk's at its node and touches no other node |
| Sso.IssuedTicketLogsIn | modules/federation/service.py:395-431 | A ticket issued anywhere at any moment is taken by the node it names from 30 seconds before to 60 after its issue and not otherwise, confirmed by its issuer up to 60 seconds after and not otherwise, and then logs the user in with the issued claim |
| Sso.StepKeepsSafe | modules/federation/service.py:395-431 | Interleaved issue, accept and redeem steps keep every pending entry tied to its issued claim and every confirmed login to a spent ticket of its own |
| Sso.LoginsWereIssued | modules/federation/service.py:411-425 | Every accepted login carries a claim its issuer issued, for that node and federation, with the issued role, expert only for an administrator |
| Sso.OneLoginPerTicket | modules/federation/service.py:411-431 | Two accepted logins never come from one issued ticket |
| Sso.RedeemedInTime | modules/federation/sso.py:101-103 | A login is confirmed within 60 seconds of its ticket's issue by the issuer's clock |
| Mesh.CollectEdges | modules/network_map_fritz.py:83-95 | One edge for each pair of different devices that some active link joins, carrying the first such link's medium; no self-loops |
| Mesh.HopDepths | modules/network_map_fritz.py:96-107 | The queue computes the least number of hops from a gateway for every device that can be reached, and reaches all of them |
| Mesh.Visit | modules/network_map_fritz.py:103-107 | Visiting one device keeps the search's frontier within one hop and closes its neighbourhood |
| Mesh.Orient | modules/network_map_fritz.py:108-114 | Each edge is turned towards the deeper device and feeds its connection type |
| Mesh.ReadNodes | modules/network_map_fritz.py:61-81 | Rows, identities and links of the usable nodes, in order |
| Mesh.ParseTopology | modules/network_map_fritz.py:58-115 | Row i is that of the i-th usable node: its MAC, the id of the last known device with it or else `lan:` and the MAC, the address of the last host row with it or else the known one, and the gateway mark exactly when that address is the gateway's. There is one edge for each pair of different devices an active link joins, with the first such link's medium. It leads from the device fewer hops from those at the gateway's address, with equally many out of one of them or else as the link does, and the connection type is that of the last edge from one hop nearer. It fails exactly when no node is usable |
| DeviceGraph.ReparentingKeepsGraph | modules/network_map.py:188-225 | Giving a device a parent whose walk up is clear keeps the forest, the mirror edges and known endpoints |
| DeviceGraph.ClearMeansNoCycle | modules/network_map.py:213-220 | The walk is clear exactly when there is no parent, or it is a known device neither the edited one nor below it |
| DeviceGraph.WithoutManualInOrder | modules/network_map.py:222 | Dropping a device's manual edges keeps the order of the others |
| Promotion.PromotionKeepsGraphExactly | modules/network_map.py:256-266 | Promotion keeps the graph well formed if and only if the new identity is fresh, or had no parent and is not above the promoted device |
| Promotion.ReplacedParentBreaksMirror | modules/network_map.py:258-266 | An identity that had a parent is left with a manual edge its device does not have |
| Promotion.ReplacedAncestorMakesCycle | modules/network_map.py:258-266 | An identity above the promoted device ends up above itself |
| NetworkMap.NetworkMap.WalksClear | modules/network_map.py:213-220 | The cursor loop ends and accepts exactly the parents whose walk up is clear |
| Stripping.StripExactly | modules/network_map.py:197 | Stripping gives the one middle part between characters of a kind that neither begins nor ends with one |
| NetworkMap.NetworkMap.EditDevice | modules/network_map.py:188-225 | An edit goes through exactly when the device is known, its fields are valid and the walk up from the parent asked for, stripped, or else the present one, is clear; each field given then has that value, the others and all other devices are as before, and the device's one manual edge is that of its parent; a refused edit changes nothing; the graph stays well formed |
| NetworkMap.NetworkMap.Promote | modules/network_map.py:256-266 | Device, children and edges take the new identity; the graph survives exactly when the target is safe |
| NetworkMap.NetworkMap.MergeOne | modules/network_map.py:250-270 | A report stands for its id, else its MAC's identity, else its address's. A LAN device with that address and no MAC is promoted to it if there is one: record, children and edges take the new identity. Address and MAC are then recorded, the rest kept |
| MapChanges.ReportIsRecorded | modules/network_map.py:256-268 | The same of one report as a function of the devices before it, with and without a promotion |
| NetworkMap.NetworkMap.MergeLan | modules/network_map.py:250-270 | A whole scan is these steps in order, and keeps the graph when every promotion was safe |
| NetworkMap.NetworkMap.IngestFritz | modules/network_map.py:227-238 | A mesh report replaces the reported edges except into devices placed by hand, and keeps parents and the graph |
| MapChanges.LastRowIsTaken | modules/network_map.py:231-234 | A device shows the MAC of its last row |
| MapChanges.AddressStays | modules/network_map.py:231-234 | It shows the last address any of its rows gives |
| MapChanges.ConnectionStays | modules/network_map.py:230-234 | It shows the last connection type given, unless it was placed by hand |
| MapChanges.NotGivenStays | modules/network_map.py:231-234 | What no row gives stays as it was |
| MapChanges.MeshEdgesInOrder | modules/network_map.py:235 | Reported edges keep the report's order |
| MapChanges.KeepOriginInOrder | modules/network_map.py:235 | So do the edges that are not replaced |
| NetworkMap.NetworkMap.IngestZigbeeDevices | modules/network_map.py:307-319 | The bridge's devices are recorded; parents and the graph stay |
| MapChanges.AddressesAreTaken | modules/network_map.py:307-319 | A listed device is put on the Zigbee network and keeps the rest; others are as before |
| NetworkMap.NetworkMap.IngestZigbeeMesh | modules/network_map.py:323-337 | The bridge's links between two different known devices replace its earlier edges; the graph stays |
| MapChanges.LinksAreTheEdges | modules/network_map.py:327-334 | Every link between two different known devices has its edge, and there are no other edges |
| MapChanges.LinksInOrder | modules/network_map.py:327-334 | They come in the links' order |
| Layout.MembersAreBelonging | static/network-map-layout.js:34-40 | A group lists just the devices that are not the gateway and are on Zigbee for the Zigbee group, and otherwise those whose own connection, or else whose last LAN or WLAN edge, is the group's, and in the unplaced group the rest |
| Traversal.Traverse | static/network-map-layout.js:44-49 | The members are walked breadth-first: roots first, then the neighbours of each device in its turn, and a member nobody led to when it is the first one left, always in member order |
| Traversal.WalkIsUnique | static/network-map-layout.js:44-49 | There is only one such order |
| RouterOrder.PrioritizedIsRouterFirst | static/network-map-layout.js:50 | The Zigbee reordering is a permutation: coordinators, then routers, then the first end device linked to each router in the routers' order, then the rest, each as walked |
| Packing.ColumnSlot | static/network-map-layout.js:62 | Slots of a named group are centred, 116 apart, from 72 below its top |
| Packing.GridSlot | static/network-map-layout.js:81 | Slots of the unplaced group fill rows of a grid with equal margins, 230 and 116 apart, from below its header |
| Packing.EventuallyFree | static/network-map-layout.js:60-62 | For any occupied points some slot and all after it are free, so the slot search ends |
| Packing.FindSlot | static/network-map-layout.js:60-62 | The first slot from the current one that clashes with nothing |
| Packing.FillFrame | static/network-map-layout.js:56-63 | Cards saved inside the frame stay, every other gets the first free slot given those and the ones before it; the height holds them all |
| Packing.RuleKeepsCardsApart | static/network-map-layout.js:56-63 | Two cards of a group are apart unless the user saved both |
| Packing.RuleKeepsCardsInside | static/network-map-layout.js:56-63 | Every card is within its frame's sides and below its header |
| GroupLayout.LayoutGroup | static/network-map-layout.js:51-66 | A group box holds its cards and its expand or collapse control, which no card overlaps |
| GroupLayout.OrderGroup | static/network-map-layout.js:39-50 | A group's order is a permutation of its members, walked breadth-first and, for Zigbee, with its routers put first |
| GroupLayout.AllGroups | static/network-map-layout.js:38-84 | Three named groups and, if anything is left, the unplaced one; boxes apart, each device in one group |
| GroupLayout.LayoutGroups | static/network-map-layout.js:31-85 | For every device list, edge list, width and expanded set: the gateway is the first declared one, else the first FRITZ!Box; each group's ids and count are those of the devices that belong to it; cards inside their boxes, boxes and gateway card apart, no card over another unless the user saved both in one group, none over a control; shown plus hidden is the count, as many shown as the group's limit; each group shows the front of its order by the placing rule, in the frame of its place beside or below the others |
| SambaConfig.SortByNameSorts | modules/time_machine.py:269-270 | Sorting targets by share name is a permutation in that order |
| SambaConfig.NameLeqIsDictionaryOrder | modules/time_machine.py:267 | Names are compared letter by letter |
| SambaConfig.SortKeepsOrderOfName | modules/time_machine.py:267 | Targets of one name keep the registry's order |
| SambaConfig.RenderedInNameOrder | modules/time_machine.py:262-332 | The include has one share for each enabled target, no more and no fewer, in name order, with that target's name, id, directory, account and size |
| SambaConfig.RenderListsEnabled | modules/time_machine.py:262-332 | The rendered shares are exactly those that describe an enabled target |
| SambaConfig.AdvertisedInNameOrder | modules/time_machine.py:297-332 | The advertisement lists the enabled targets' names in order, and is absent exactly when there are none |
| SambaConfig.RenderIgnoresDisabled | modules/time_machine.py:262-332 | Disabled targets do not show in the rendering at all |
| SambaConfig.ForgettingDisabledKeepsFiles | modules/time_machine.py:2277-2283 | Dropping a disabled target from the registry leaves both managed files right |
| Registry.Registry.ActivateSamba | modules/time_machine.py:390-441 | The managed include is the rendering, or everything is as before unless an undo step failed |
| Registry.Registry.ActivateAvahi | modules/time_machine.py:444-469 | The advertisement is that of the enabled targets, or as before unless an undo step failed |
| Registry.Registry.ActivateManaged | modules/time_machine.py:481-493 | Both files together, or both as before; a file changed by hand is not touched |
| Registry.FilesPublishTheEnabled | modules/time_machine.py:481-493 | Files that say what the record says offer each enabled target's share and name, and no share of a disabled one |
| Registry.Registry.Commit | modules/time_machine.py:691-716 | Files and record change together or not at all |
| Registry.Registry.SetTargetEnabled | modules/time_machine.py:1951-1973 | On success the target has the switch asked for, waits or is paused accordingly, and is offered or withdrawn; nothing else of it or of another target changes. Returning or raising, the include equals the rendering of the record and quotas equal the limits, unless an undo step failed; with no command failing it is refused only for a removed target, missing storage or a changed file |
| Registry.Registry.RemoveTarget | modules/time_machine.py:2161-2218 | The same for removing a target: disabled, removed and withdrawn; refused only while its replication runs or on a changed file |
| Registry.Registry.QuarantineUnavailable | modules/time_machine.py:2012-2051 | The same for taking out every enabled target whose storage is unavailable, and no other, at once |
| Registry.Registry.UpdateTargetPolicy | modules/time_machine.py:2080-2158 | The same for resizing: the new limit, 95 hundredths of it advertised, and the quota, set first and given back when the rest fails; which capacities are accepted |
| Registry.Registry.CreateTarget | modules/time_machine.py:601-716 | The same for creating, the dataset made first and destroyed when the rest fails; refused only with 20 targets, for a taken name or on a changed file |
| Registry.Registry.DeleteTargetData | modules/time_machine.py:2233-2284 | Only data of a removed target goes, its record with it; nothing needs undoing |
| Registry.Registry.Reconcile | modules/time_machine.py:2578-2590 | Reconciling makes the files those of the record, whatever was in them |
| Registry.ResizedLimits | modules/time_machine.py:2105-2158 | Setting one limit with its quota keeps all quotas equal to limits, and putting the old quota back undoes it |
| Worker.ReplicationQueue.QueueReplication | modules/time_machine.py:1168-1190 | A request returns the waiting or running job if there is one and changes nothing, else adds one behind the others, only the oldest beyond a hundred dropped; it is refused exactly for unknown, disabled or promoted replications |
| Worker.ReplicationQueue.CancelQueued | modules/time_machine.py:2196-2203 | Waiting jobs of the given replications are cancelled, others untouched |
| Worker.ReplicationQueue.UpdateReplicationPolicy | modules/time_machine.py:1106-1165 | Pausing cancels just the replication's waiting jobs, enabling ends a pause; a promoted replication cannot be enabled; nothing else changes |
| Worker.ReplicationQueue.RecoverInterruptedJobs | modules/time_machine.py:808-856 | The recovery loop requeues each interrupted job with one more recovery counted, or fails it at the third or without its replication; replications end in warning, passive or as before accordingly |
| Worker.ReplicationQueue.StartRun | modules/time_machine.py:1372-1420 | A run starts exactly when the replication is in service and ready, no claim shares its source or destination, and the first job of the id is one of its; claim, job, replication and run are then recorded |
| Worker.ReplicationQueue.UpdateReplication | modules/time_machine.py:1309-1325 | A job is written back in its place, or appended if it fell out of the list, only the oldest dropped; the replication takes the status |
| Worker.ReplicationQueue.FinishRun | modules/time_machine.py:1564-1586 | The run and its claim are gone and no other; if its replication exists, that is passive or in warning, and the run's job stands completed or failed in its place or behind the others |
| QueueEffects.StepEffect | modules/time_machine.py:808-1586 | Each step of the queue, from every state, changes exactly this and leaves the rest as it was |
| QueueSafety.StepKeepsSafe | modules/time_machine.py:808-1586 | Every step, crashes and truncation to 100 jobs included, keeps one active job per replication, claims apart, and no job entering `running` more than three times |
| QueueSafety.RunsStaySafe | modules/time_machine.py:808-1586 | So it is in every state of every run |
| QueueSafety.StartKeepsOneActive | modules/time_machine.py:1398-1420 | Starting keeps one active job per replication if and only if the job was active or the replication had none |
| QueueSafety.StaleStartBreaksOneActive | modules/time_machine.py:1372-1420 | A job cancelled and replaced while it waited can still be started, and then two are active |
| QueueSafety.StartKeepsBoundExactly | modules/time_machine.py:1398-1420 | Starting keeps the bound on entries into `running` if and only if the job has entered it no more often than it was given another turn, and that less often than the limit |
| QueueSafety.RerunsAreUnbounded | modules/time_machine.py:1398-1420 | A finished job can be run by its id any number of times |
| QueueSafety.ClaimKeepsApart | modules/time_machine.py:1290-1306 | Adding a claim keeps all claims off each other's sources and destinations if and only if it is held already or is one the check does not refuse |
| StrandedClaims.ClaimsStayRunsExactly | modules/time_machine.py:1397-1423 | Where every claim is that of one run under way and every run has its own, a step keeps it so if and only if it is not a start that takes a claim and then finds no such job |
| StrandedClaims.ClaimsStayRunsThroughout | modules/time_machine.py:808-1586 | Over a whole run it is so at every moment if and only if no step is such a start |
| StrandedClaims.StrandedUntilCrash | modules/time_machine.py:1290-1306 | A claim no run holds outlives every step but the death of the worker process |
| StrandedClaims.StrandedBlocks | modules/time_machine.py:1290-1306 | While it is there, no replication starts that shares its source or destination |
| StrandedClaims.UnknownJobStrands | modules/time_machine.py:1397-1407 | An unknown job id on an empty queue strands a claim at once |
| QueueSafety.RecoveryIsFinal | modules/time_machine.py:808-856 | Recovery leaves nothing running and no interrupted replication marked as replicating, and repeating it changes nothing |
| QueueSafety.RemovalSilencesTarget | modules/time_machine.py:2161-2203 | A removed target with nothing running keeps no active job and nothing to start; other targets' replications are untouched |
| ReplicaPromotion.PromotionLastsExactly | modules/time_machine.py:808-1586 | A step leaves a promoted replication promoted if and only if it is neither a pause of it, nor the end of a run of it, nor a recovery with an interrupted job of it at the limit |
| ReplicaPromotion.PromotedThroughout | modules/time_machine.py:808-1586 | Over a whole run it stands promoted at every moment if and only if no step of the run is one of these |
| ReplicaPromotion.PromotedIsNotStarted | modules/time_machine.py:1168-1190 | While it stands promoted no job of it is queued and no run of it starts |
| ReplicaPromotion.EndedPromotionCanBeEnabled | modules/time_machine.py:1126-1145 | Enabling a promoted replication is refused; after any of the three steps it succeeds and makes it startable |
| ReplicaPromotion.PromotionCanBePausedAway | modules/time_machine.py:1126-1145 | Pausing a promoted replication and then enabling it makes it an ordinary one |
| ReplicaPromotion.RunUnderWayEndsPromotion | modules/time_machine.py:1564-1586 | A replication promoted while a run of it is under way loses the promotion when the run ends, whichever way, with nobody pausing it |
| QueueSafety.MaintenanceKeepsSafe | modules/time_machine.py:2432-2534 | Maintenance jobs share the list without harm |
| Receiver.StepKeepsSafe | modules/time_machine_receiver.py:104-185 | Any interleaving of transfers, commits, prunes and cleanups keeps each version whole or superseded by two whole greater ones |
| Receiver.RunsStaySafe | modules/time_machine.py:1521-1563 | So it is after every run, sessions dying between any two file operations |
| Receiver.QuietStepKeepsFinals | modules/time_machine_receiver.py:145-185 | Transfers, listing and staging cleanup never touch a published version |
| Receiver.NewestVersionsSurvive | modules/time_machine_receiver.py:128-141 | A published version with fewer than two greater ones is there whole, with its marker |
| Receiver.VisibleVersionsOnlyShrink | modules/time_machine_receiver.py:71-142 | What is visible was published; files only leave it, and it goes, once two greater versions are whole; the one thing that replaces it is a commit of a second session of its number, renamed over a directory emptied that way, which is then a whole version |
| VersionReuse.OwnNumbersNeverRewritten | modules/time_machine_receiver.py:114-141 | While no two sessions share a number, nothing is ever written to a visible version |
| VersionReuse.RewrittenExactly | modules/time_machine_receiver.py:114-141 | For all sessions and the numbers they carry, some run writes a visible version again if and only if two of them carry its number and two carry different greater ones |
| Receiver.UnmarkedIsSuperseded | modules/time_machine_receiver.py:128-141 | In every reachable state a visible version without its marker has two greater whole ones |
| Receiver.CleanSparesCommits | modules/time_machine_receiver.py:145-185 | Such a cleanup leaves the staging directory of every commit in progress as it is |
| ReceiverLimits.MarkerCanGoFirst | modules/time_machine_receiver.py:128-141 | For all n < u < v a run publishes just these and ends with n visible, files left and its marker gone |
| ReceiverLimits.LateCutoffPublishesUnmarked | modules/time_machine_receiver.py:145-185 | From every state with a marked commit of an older session, a later cutoff lets a cleanup make it publish a version without its marker |
| Commit.SortNumbers | modules/time_machine_receiver.py:130-138 | The complete versions in ascending order |
| Commit.VersionStore.CommitVersion | modules/time_machine_receiver.py:104-142 | A commit succeeds exactly when the staging directory is there and the number free, publishes it with its marker, and removes exactly the complete versions with two greater complete ones |
| Commit.AtMostTwoComplete | modules/time_machine_receiver.py:139-141 | At most two complete versions are left |
| Commit.CommittedSurvives | modules/time_machine_receiver.py:128-141 | The version just committed survives exactly when at most one greater complete one was there; what goes was superseded |
| Commit.GrowingNumbersSurvive | modules/time_machine.py:1535-1563 | With growing numbers it survives |
| Commit.OthersUntouched | modules/time_machine_receiver.py:128-141 | Incomplete versions and other staging directories are left alone |
| Commit.NothingElseAppears | modules/time_machine_receiver.py:128-142 | Whatever is there afterwards is the version published or was there before, unchanged |
| SoloCommit.SoloRunCommits | modules/time_machine_receiver.py:104-142 | A session's commit steps, undisturbed, lead to what the whole commit does: done pruning, just the superseded complete versions are gone and its own is published |
| SoloCommit.NeverStuck | modules/time_machine_receiver.py:116-142 | Until then it always has a next step |
| SoloCommit.ChecksExactly | modules/time_machine_receiver.py:119-127 | It checks out exactly when its staging directory is there and its number is free |
| Commit.CommitNamesItsOwnVersion | modules/time_machine_receiver.py:71-127 | Of a staging name rsync may write to, the commit rule accepts its own number only |
| Workspace.Updater.Persist | modules/workspace_app.py:132-135 | The status file is replaced as a whole or not at all, before the audit line |
| Workspace.Updater.RunUpdate | modules/workspace_app.py:179-213 | Whatever fails, a run leaves a prefix of the script and at most one verdict; if nothing fails it succeeds, with the release's id and digests in the status; others than administrators and concurrent runs leave nothing. The running digests reported afterwards are those of the last succeeded run if and only if this run succeeded, or they were and it could read the status file or wrote nothing, or nothing has ever been in service |
| Workspace.RunsAreBeginnings | modules/workspace_app.py:188-212 | A run writes and issues the first so many of the eighteen states and commands in their order, perhaps tries the next command, and perhaps writes one verdict |
| Workspace.FailedLeavesTheLiveSystemAlone | modules/workspace_app.py:200-212 | The verdict is `failed` exactly when the migration was never announced, and then neither it nor the switch was tried |
| Workspace.LiveOnlyAfterBackup | modules/workspace_app.py:203-209 | The migration is tried only after a recorded dump and a passed probe, the switch only after the migration |
| Workspace.SucceededMeansEverything | modules/workspace_app.py:188-211 | Success is written only after all of them, in order |
| Workspace.StatesFollowTheDeclaredOrder | modules/workspace_app.py:24 | Persisted states are a prefix of the declared order and at most one terminal state, `failed` after three to six, manual recovery after eight to ten |
| PortSpecs.CleanAround | modules/apps.py:562-563 | Stripping blanks and quotes works at a spec's ends only |
| PortSpecs.CleanExactly | modules/apps.py:561 | Cleaning takes off all blanks at the ends and then all quotes |
| PortSpecs.CutIsExact | modules/apps.py:562-565 | Cutting a spec loses nothing |
| PortSpecs.CutOfText | modules/apps.py:577-589 | Writing the pieces and cutting them gives them back |
| PortSpecs.PublishedInPlace | modules/apps.py:561-589 | In a spec written as address, host port, container side and protocol, the host port is the number read, and the one written takes its place; the rest is kept |
| PortSpecs.NothingPublished | modules/apps.py:561-589 | A spec without a colon before its protocol publishes nothing and is only cleaned |
| PortSpecs.ReplacedPortReadsBack | modules/apps.py:554-589 | Reading a replaced spec gives the new port, for every spec that publishes one |
| PortSpecs.ReplacingChangesTheHostOnly | modules/apps.py:571-589 | Address, container side and protocol are unchanged |
| PortSpecs.LastReplacementWins | modules/apps.py:571-589 | A second replacement forgets the first when the spec was wholly cleaned |
| PortSpecs.ReadSignedReadsDecimals | modules/apps.py:567-570 | Reading a sign and digits inverts writing a number |
| Ports.NextAvailableHostPort | modules/apps.py:719-727 | The bounded loop, its early stop included, computes the specified search |
| Ports.NextPortIsLeast | modules/apps.py:719-727 | The search returns the least usable port of its window, a usable one exactly when there is one, else the preference |
| Ports.AllocatedPortSpecs | modules/apps.py:730-747 | Each spec that publishes a port is rewritten to the host port chosen for it, others are left alone |
| Ports.ChosenInTurn | modules/apps.py:719-745 | The first spec to publish a port gets the least free one of the 200 from it on, neither reserved nor chosen before, or the port itself if there is none; later specs with that port share it |
| Ports.PortsDoNotClash | modules/apps.py:730-747 | Different published ports get different, unreserved, available ports if and only if every search finds one |
| Ports.PortsAreLeast | modules/apps.py:719-747 | Each is then the least at or above its preference not reserved, unavailable or given away before |
| Ports.SpecsReadBack | modules/apps.py:730-747 | Specs that published the same port publish the same host port afterwards |
| Ports.AllocatedNamedPorts | modules/apps.py:930-937 | Each name gets the port its search finds |
| Ports.NamedInTurn | modules/apps.py:930-937 | Each name in turn gets the least free one of the 200 from its preference on, not given to a name before, or its preference if there is none |
| Ports.NamedPortsDoNotClash | modules/apps.py:930-937 | Named ports are usable and all different, even for equal preferences, if and only if every search finds one |

## Left out

* Routes, HTML, WebSockets, terminals, DOM code, dashboard tiles and the modules that only wrap shell commands.
* Ed25519, SHA-256, base64, JSON and cosign: parameters, assumed collision-free or invertible only where a lemma says so. Redeeming is assumed to reach the node a ticket names.
* `layoutNetwork`, the simpler layout; the group layout is modelled in full. Coordinates are reals, so rounding is not.
- GroupLayout.LayoutGroups: device ids are assumed distinct, as they are keys of one dictionary.
* The bound of 20 federation members, URL and network checks on peers, peer health and snapshots.
* Pairing: failures and the used mark live in memory until the state is saved, so a crash may forget them; used and expired codes are refused without counting as failures, as in the code.
* The main smb.conf is a flag saying whether it includes the managed file; share and path validation, accounts, snapshots, verification and alerts of Time Machine targets are not modelled; storage being fit for use is a parameter.
- Registry.Registry.CreateTarget: validation of names, owners and capacity is not modelled, nor is the 0.95 capacity factor; the identifier is taken as fresh.
- Registry.Registry.Reconcile: restores the files only; the report it returns is not modelled.
* Replications between local disks (`_prune_local_replica_versions`), `promote_replica`, schedules and bandwidth limits; promotion is the step that sets a replication's status.
- QueueSafety.StepKeepsSafe: each locked section is one step, and a start takes a job waiting at that moment; what other starts keep is in `QueueSafety.StartKeepsOneActive` and `QueueSafety.StartKeepsBoundExactly`.
- StrandedClaims.ClaimsStayRunsExactly: a first write that fails after the claim was taken strands it too; failing writes of the queue are not modelled.
- Receiver.StepKeepsSafe: staging names are not drawn twice, rsync writes by name, and a cleanup's cutoff is at most the number of every commit in progress; nothing in the code enforces that last bound, and `ReceiverLimits.LateCutoffPublishesUnmarked` shows it is needed.
- Commit.VersionStore.CommitVersion: numbers stand for names, so leading zeros and digits outside ASCII are not modelled; a directory is removed at once here and file by file in `Receiver`.
* Network map: names, kinds, status, availability, expiry of devices and groups are left out; saved positions enter through the layout only. A device row of a mesh report keeps its id, MAC, address, gateway flag and connection type.
- PortSpecs.ReplacedPortReadsBack: what counts as an integer is a parameter that must read back written numbers; blanks are the six ASCII ones.
- Ports.AllocatedPortSpecs: parsing Compose files for reserved ports is not modelled; the set of reserved ports is a parameter.
- Workspace.Updater.RunUpdate: the audit line's contents, file modes, the lock file itself and verification of the release are not modelled beyond their failing.
