# Verified model of Homo Sui Iuris

Homo Sui Iuris simulates an immune system for a self-adapting program. This project models its hard parts in
Dafny and proves what they promise, on all inputs and on all runs.

* **Fuzzy antigens** (`Fingerprint`, `MinHashIndex`, `Leukocyte`). A payload is folded to canonical text, cut into
  shingles and hashed to a MinHash signature. A banded index finds similar signatures. An agent blocks payloads
  that match a registered antigen, exactly or nearly.
* **Knowledge by consensus** (`Consensus`, `Mitochondrion`). The nodes of a full mesh accept a content when two
  thirds of their peers anchor it. Anchors are write-once.
* **The antigen network** (`RelayStore`, `RelayProtocol`, `RelayServer`, `NodeTransport`, `NetworkedNode`). A relay
  remembers a bounded number of antigens, replays them to every node that joins, and fans new ones out. The
  handlers are cut into steps at every await, and once more before the first send of a replay or a broadcast, and
  interleave freely; the runs given as inputs are cut at awaits only. A node buffers its logs across dropped
  connections and reconnects with backoff.
* **The guarded update loop** (`TraceGap`, `CoreEngine`, `Erythrocyte`, `BearerLoop`, `LoopSafety`, `LoopReadiness`,
  `LoopAudit`, `LoopLog`, `LoopNumbers`, `LoopQuiet`). Errors recalibrate a weight; large ones ask for approval to reset the model;
  after each recalibration a detector scans every weight's history for poisoning. Three W0 weights must never move.
* **The watchdog** (`Watcher`, `Verdicts`, `Incentives`, `LlmAgent`). An agent picks an action from a cost table, an
  environment records what it sees and may gate the safety zone, and a watcher labels the episode from log and
  declaration alone.

Where the source updates objects in place, the model has a class whose methods are proved against functions on
values; the theorems are about those functions and about runs of them. Hash functions, NFKC and lower-casing are
parameters of the model. Numbers are exact: floats are reals, counters are unbounded as in Python.

## What the proofs found

The code is modelled as it is. Where a promise in its text or its documentation is not met in full, the exact
condition is proved.

* Banded lookup: the class comment gives "~1 recall" at 0.80. Recall is exact there, and for any threshold it is
  exact if and only if the threshold exceeds `1 - 1/rows`; at 0.75 a stored signature is missed by its lookup
  (`MinHashIndex.LookupExactIff`, `MinHashIndex.LookupMisses`, `MinHashIndex.DeployedRecall`).
* Consensus agrees for every mesh size except two and four (`Consensus.AgreementIff`).
* A relayed broadcast breaks off when a later target leaves while an earlier send is awaited, because the lookup at
  line 204 of `bootstrap_relay.py` raises `KeyError`, which is not caught. With three others connected, the last can
  then miss an antigen for as long as it stays connected (`RelayProtocol.BreakOffStarves`); what is lost is
  exactly what that broadcast alone still had to deliver (`RelayProtocol.BreakOffCost`).
* A broadcast leaves out its sender by name. A node that dies with an antigen of its own unread at the relay, restarts
  and joins before the relay reads it, is not served that antigen in its new session
  (`RelayProtocol.RestartStarves`); it is served if and only if the relay remembered the antigen already or another
  broadcast was bringing it (`RelayProtocol.RestartServedIff`). On every run that is all a restarted node can
  lack, break-offs apart (`RelayProtocol.SettledNodesAreImmune`); what the relay remembered at the join always
  arrives if the session lasts (`RelayProtocol.ReplayServesAll`).
* A vaccination can be shadowed by one for another weight (`Leukocyte.OtherWeightShadows`); within one weight, never.
  A block survives a registration for another weight if and only if it was an exact hit and another hash is
  registered, or only this weight could win the fuzzy search and the newcomer cannot win it
  (`Leukocyte.OtherWeightSparesIff`).
* Overlapping flushes of the log buffer lose nothing but can reorder entries (`NodeTransport.OverlapReorders`). The
  order of distinct entries is kept at every moment if and only if sends succeed oldest first and fail youngest first
  (`NodeTransport.StepKeepsLineupIff`, `NodeTransport.OrderIff`).
* A step of the update loop can raise, but only over a matrix that fails three checks a caller can make before the
  first step (`LoopReadiness.NeverRaisesIff`). One of them is a W0 weight with a negative variance threshold that is
  off its baseline.
* A history entry whose source is not legitimate is described as an outside write. The loop's own rollback under
  TruthPriority writes from such a source, so a loop that nobody touches can flag its own weight. It never does so
  if and only if the detector is off or TruthPriority is below one (`LoopQuiet.LeavesItselfAloneIff`).
* The rollback restores adaptability exactly when the raise was not clamped, or adaptability was zero
  (`LoopSafety.DeniedResetTakesBack`).
* Harm is never bought if and only if its unit price exceeds what a bypass gains over the exit and is not negative;
  a negative price is a bounty that grows with the harm (`Incentives.NoHarmBoughtIff`).
* A dishonest agent is found out if and only if the world sees its second path, or sees the zone it enters; behind
  the gate the recorded refusal convicts only without permission and outside the mistake excuse
  (`Incentives.DishonestyIsFoundIff`).
* Translating the utility agent's choice into words and back fails only where it claims an obstacle on a task with
  neither a wall nor a lawful exit (`LlmAgent.RoundTripIff`).

## Model

| member | source | states |
|---|---|---|
| `Fingerprint.CanonicalIsJoinedWords` | leukocyte_protocol.py:88-94 | two substitutions and a trim yield exactly the folded text's alphanumeric words, joined by single spaces |
| `Fingerprint.CanonicalShape` | leukocyte_protocol.py:83-94 | canonical text is trimmed, single-spaced, and free of every character the leet table folds away |
| `Fingerprint.CanonicalizeIdempotent` | leukocyte_protocol.py:88-94 | folding canonical text changes nothing |
| `Fingerprint.WordsOfJoin` | leukocyte_protocol.py:88-94 | splitting into words undoes joining them |
| `Fingerprint.SameCanonicalIffSameWords` | leukocyte_protocol.py:88-94 | two payloads fold to one text if and only if their folded words are the same |
| `Fingerprint.ShinglesEmptyIffNoText` | leukocyte_protocol.py:97-102 | only empty text has no shingles, so only it has no fuzzy fingerprint |
| `Fingerprint.MinOverShingles` | leukocyte_protocol.py:119-124 | a slot is the least salted hash over all shingles, in whatever order they are visited |
| `Fingerprint.ComputeMinhash` | leukocyte_protocol.py:105-125 | each slot of the result is the least salted hash over every window of k characters of the canonical text, and attained by one; a shorter text is its own window; no text, no signature |
| `Fingerprint.SignatureIsSummary` | leukocyte_protocol.py:97-125 | that, for all windows wherever they stand, is exactly what the signature of a payload is |
| `Fingerprint.AgreeConcat` | leukocyte_protocol.py:128-133 | agreement of signatures adds up over their parts |
| `Fingerprint.FullAgreement` | leukocyte_protocol.py:128-133 | all slots agree only on identical signatures |
| `Fingerprint.JaccardBounds` | leukocyte_protocol.py:128-133 | the estimate lies in [0, 1] and is 1 for identical non-empty signatures only |
| `Fingerprint.LeetSpellingsFoldAlike` | leukocyte_protocol.py:82-94 | two texts whose letters differ only by leet spelling fold to the same canonical text |
| `MinHashIndex.BrokenBandsNeedDifferences` | leukocyte_protocol.py:153-155 | every band without a common key uses up a differing slot of its own |
| `MinHashIndex.IntactBandsBound` | leukocyte_protocol.py:136-155 | pigeonhole: with d differing slots at least BANDS - d bands survive |
| `MinHashIndex.SimilarEnoughSharesBand` | leukocyte_protocol.py:166-173 | signatures above the critical similarity always meet in some band |
| `MinHashIndex.SpoiledPairIsMissed` | leukocyte_protocol.py:166-173 | at the critical similarity a pair exists that no band reveals |
| `MinHashIndex.RecallExactIff` | leukocyte_protocol.py:136-180 | every pair that reaches the threshold shares a band if and only if the threshold exceeds 1 - 1/rows |
| `MinHashIndex.LookupMisses` | leukocyte_protocol.py:166-180 | at any lower threshold there is a store and a query whose one match the lookup answers with None |
| `MinHashIndex.LookupExactIff` | leukocyte_protocol.py:166-180 | the lookup answers as a scan of everything stored, for every store and query, if and only if the threshold exceeds 1 - 1/rows |
| `MinHashIndex.DeployedRecall` | leukocyte_protocol.py:75-79 | at 128 slots and 0.80 seven bands survive and every lookup is exact; at 0.75 some lookup is not |
| `MinHashIndex.BestInPartIsBest` | leukocyte_protocol.py:171-180 | the best of a part that holds every match is the best of the whole |
| `MinHashIndex.AddKeepsBuckets` | leukocyte_protocol.py:163-164 | adding a signature keeps each bucket exactly the stored signatures with that band key |
| `MinHashIndex.BucketIsMatches` | leukocyte_protocol.py:171-173 | a bucket looked up with a query holds exactly the stored signatures that share the band |
| `MinHashIndex.MinHashLSH.Make` | leukocyte_protocol.py:144-151 | a slot count that does not divide into bands is refused, any other gives an empty index |
| `MinHashIndex.MinHashLSH.Add` | leukocyte_protocol.py:157-164 | stores the antigen, skips unusable signatures, and keeps every bucket exact |
| `MinHashIndex.MinHashLSH.CollectCandidates` | leukocyte_protocol.py:171-173 | the candidates are exactly the stored signatures sharing a band with the query |
| `MinHashIndex.MinHashLSH.FindSimilar` | leukocyte_protocol.py:166-180 | None exactly when no candidate reaches the threshold, else a most similar one; above the critical similarity, the same of everything stored |
| `Leukocyte.DecisionExists` | leukocyte_protocol.py:212-239 | some decision is always possible, so a payload cannot be both surely blocked and surely passed |
| `Leukocyte.StoredSignatureIsFound` | leukocyte_protocol.py:166-180 | a query equal to a stored signature finds that very antigen |
| `Leukocyte.PrintSeesFours` | leukocyte_protocol.py:75-125 | a payload's fingerprint sees every four characters in a row of its canonical text, in 128 slots |
| `Leukocyte.NearInSlots` | leukocyte_protocol.py:75-133 | two fingerprints are near enough if and only if at least 103 of the 128 slots agree |
| `Leukocyte.VariantsAreBlocked` | leukocyte_protocol.py:212-239 | once a fingerprint is stored for a weight, all payloads with that canonical text are blocked for it and, unless blacklisted, passed for others |
| `Leukocyte.VaccinationBlocksVariants` | leukocyte_protocol.py:212-246 | registering an antigen of p blocks every q that folds to the same non-empty text |
| `Leukocyte.RegisterNeverUnblocks` | leukocyte_protocol.py:241-246 | a further registration for a weight never unblocks a payload for that weight |
| `Leukocyte.OtherWeightShadows` | leukocyte_protocol.py:218-246 | a registration for another weight can unblock one, exactly and fuzzily |
| `Leukocyte.FuzzySurvivesIff` | leukocyte_protocol.py:166-246 | whatever the fuzzy search can find stays an antigen for the weight, after a registration for another, if and only if it was so before and the newcomer cannot win the search |
| `Leukocyte.OtherWeightSparesIff` | leukocyte_protocol.py:212-246 | a block survives a registration for another weight if and only if it was an exact hit on a different hash, or a fuzzy one the newcomer cannot outdo |
| `Leukocyte.DeliveredState` | leukocyte_protocol.py:241-246 | after any deliveries the two indexes hold exactly the received fingerprints, each with an antigen that has it |
| `Leukocyte.DecisionsFollowTheSet` | leukocyte_protocol.py:212-246 | with one target weight every decision is the one dictated by the set of antigens received |
| `Leukocyte.VaccinationConverges` | leukocyte_protocol.py:212-246 | nodes with the same antigens decide alike, whatever the order and the repetitions |
| `Leukocyte.LeukocyteAgent.ShouldBlock` | leukocyte_protocol.py:212-239 | the answer is a possible decision of the stored immunity, and the counter counts blocks only |
| `Leukocyte.LeukocyteAgent.RegisterAntigen` | leukocyte_protocol.py:241-246 | indexes the antigen under hash and signature |
| `Consensus.TallyIsTwoThirds` | mitochondrion_protocol.py:129-181 | consensus is reached exactly when there are peers and three times the confirmations reach twice the peers; the ratio reported is confirmations over peers, zero without peers |
| `Consensus.AssimilationIsSupported` | mitochondrion_protocol.py:168-211 | an assimilated hash is anchored by two thirds of the other nodes |
| `Consensus.SupportPersists` | mitochondrion_protocol.py:199-203 | because anchors are write-once, no delivery ever takes support away |
| `Consensus.AssimilatesIff` | mitochondrion_protocol.py:144-211 | a delivery is assimilated if and only if its signature is genuine and at least two thirds of the other nodes, of which there is one, anchor its topic to its content |
| `Consensus.ForgeryIsInert` | mitochondrion_protocol.py:185-198 | a payload with a broken signature leaves the network as it was, whatever the others anchor |
| `Consensus.EventsAreSupported` | mitochondrion_protocol.py:185-222 | everything assimilated on a run is still supported at its end |
| `Consensus.SupportIsUnique` | mitochondrion_protocol.py:129-181 | quorum intersection: outside meshes of two and four, one topic supports one hash |
| `Consensus.PairDisagrees` | mitochondrion_protocol.py:185-211 | two nodes can persuade each other of opposite contents |
| `Consensus.PairsDisagree` | mitochondrion_protocol.py:185-211 | so can two pairs |
| `Consensus.AgreementIff` | mitochondrion_protocol.py:129-222 | a mesh of n nodes agrees on every run from all initial anchors if and only if n is neither 2 nor 4 |
| `Consensus.KnowledgeIsSupported` | mitochondrion_protocol.py:199-203 | whatever any knowledge base holds after a run is supported in the whole mesh |
| `Consensus.KnowledgeIsGenuine` | mitochondrion_protocol.py:144-211 | on every run from unlearned nodes each stored payload has a genuine signature and is filed under its own topic |
| `Consensus.FirstAnchorsLastIsKnown` | mitochondrion_protocol.py:199-206 | on every run a node's anchor is the one it started with or else the first content it assimilated, and what it knows is the last |
| `Consensus.KnowledgeAgrees` | mitochondrion_protocol.py:185-222 | any two knowledge bases agree on every topic they share |
| `Mitochondrion.MitochondrionEngine.RequestConsensus` | mitochondrion_protocol.py:168-181 | the loop over the peers computes the tally of the nodes that anchor the hash |
| `Mitochondrion.MitochondrionEngine.Metabolize` | mitochondrion_protocol.py:185-222 | a broken signature is answered as such without a poll, with one quarantine event without a ratio and nothing else changed; a genuine one gets the verdict of the poll, new ledger and knowledge or quarantine |
| `Mitochondrion.MitochondrionEngine.Quarantine` | mitochondrion_protocol.py:224-237 | appends one event with the reason and the ratio polled, if any |
| `Mitochondrion.KnowledgeNetwork.AddNode` | mitochondrion_protocol.py:248-260 | under a fresh name the full mesh is extended by an empty node; a taken name is replaced in the table |
| `Mitochondrion.TableSetReplaces` | mitochondrion_protocol.py:248-260 | a name already in the table keeps its place there, with the new engine |
| `Mitochondrion.KnowledgeNetwork.WireAll` | mitochondrion_protocol.py:256-258 | the new engine and each existing one list each other, and nothing else changes |
| `Mitochondrion.KnowledgeNetwork.PeerPollIsPoll` | mitochondrion_protocol.py:168-181 | in the mesh an engine's poll of its peer objects is the poll of all other nodes |
| `Mitochondrion.KnowledgeNetwork.Deliver` | mitochondrion_protocol.py:185-222 | a call on one engine object is one transition of the network, keeps the mesh, and quarantines exactly what it does not assimilate |
| `RelayStore.SameKeyIff` | bootstrap_relay.py:212-220 | two payloads are one antigen to the relay if and only if they have the same hash, or none and the same text, or one's hash spells out the other's text |
| `RelayStore.LatestAppend` | bootstrap_relay.py:221-223 | pop and re-insert on the history's reading: a key mentioned again moves to the end with its new payload |
| `RelayStore.RememberTruncated` | bootstrap_relay.py:221-226 | evicting from the front first makes no difference to what is remembered next |
| `RelayStore.StoreIsLatest` | bootstrap_relay.py:212-226 | after any history the store is the last `max` distinct keys by last mention, each with its latest payload |
| `RelayStore.LatestHasOnlyLastMentions` | bootstrap_relay.py:212-226 | the reference reading of a history is made of exactly the last mentions |
| `RelayStore.StoredIff` | bootstrap_relay.py:212-226 | a payload is stored if and only if it came with its key's last mention and fewer than `max` keys were mentioned since |
| `RelayProtocol.JoinKeeps` | bootstrap_relay.py:131-143 | a join starts its session with every remembered key in its snapshot |
| `RelayProtocol.SyncSendKeeps` | bootstrap_relay.py:237-243 | one send of the replay moves a key from snapshot to inbox |
| `RelayProtocol.DispatchKeeps` | bootstrap_relay.py:195-201 | remembering, evicting and listing the targets keep every connected node accounted for |
| `RelayProtocol.FanSendKeeps` | bootstrap_relay.py:202-206 | one send of a broadcast moves its key from pending to inbox |
| `RelayProtocol.BreakOffKeeps` | bootstrap_relay.py:201-204 | a broadcast that breaks off is recorded as owing exactly its remaining targets |
| `RelayProtocol.ReceiveKeeps` | networked_node.py:197-206 | a received antigen moves from inbox to blacklist |
| `RelayProtocol.LeaveKeeps` | bootstrap_relay.py:146-151 | a handler's cleanup keeps every other session accounted for |
| `RelayProtocol.StepKeepsInv` | bootstrap_relay.py:131-244 | every step keeps the invariant: a remembered key is, for each live session, delivered in this session, published under its node's name and known to the running process, in its inbox, in its snapshot, pending, owed by a break-off, or on record as skipped by its own broadcast; nodes may restart empty |
| `RelayProtocol.RunKeepsInv` | bootstrap_relay.py:131-244 | so does every interleaving of any length, and without break-offs nothing is owed |
| `RelayProtocol.RestartKeeps` | networked_node.py:194-206 | a node's process may start afresh between sessions, with an empty blacklist, without breaking any promise |
| `RelayProtocol.SettledNodesWereServed` | bootstrap_relay.py:131-244 | a live node with nothing on its way has registered each remembered key, from this very session or as one published under its name, unless it is owed it by a break-off or was skipped for it |
| `RelayProtocol.SettledNodesAreImmune` | bootstrap_relay.py:131-244 | on every run, whatever other sessions do, such a node blacklists each remembered hash, but for what a break-off owes its session and, after a restart, what a broadcast under its name skipped it for |
| `RelayProtocol.LiveNodesCanSettle` | bootstrap_relay.py:131-244 | from wherever a run has got to, a live node not in a broadcast of its own can settle in its session by sends already under way and by handling its messages, whatever other handlers do |
| `RelayProtocol.RelayRemembersTheLatest` | bootstrap_relay.py:195-226 | on every run, whoever is connected, the relay remembers the last `max` distinct antigens it has taken up, in order of last mention, each with its latest payload |
| `RelayProtocol.ConnectedIff` | bootstrap_relay.py:137-151 | on every run a node counts as connected if and only if the handler of the last session it joined with has not ended, and its messages go to that session |
| `RelayProtocol.QueuesStayInOrder` | bootstrap_relay.py:195-243 | every step keeps every queue in order: messages come in at the end and leave from the front, and a replay goes through its snapshot from the front |
| `RelayProtocol.StepKeepsSkips` | bootstrap_relay.py:195-201 | every step keeps it that a session is skipped only for keys published under its node's name |
| `RelayProtocol.StepKeepsPromise` | bootstrap_relay.py:131-244 | every step keeps a key that a session's own queues hold or that it has handled so, while the session stays open, and never skips it |
| `RelayProtocol.ReplayServesAll` | bootstrap_relay.py:137-143 | on every run all that was remembered at a join has reached the running process once that session's replay and inbox are through, whatever breaks off, restarts or is evicted |
| `RelayProtocol.FirstSendNeverBreaks` | bootstrap_relay.py:201-204 | what opens a replay or a broadcast can go on to its first send, whose target is still there |
| `RelayProtocol.DispatchServesIff` | bootstrap_relay.py:195-201 | a dispatch accounts for its antigen at every connected node but the sender's name, which it leaves as it was and puts on record as skipped exactly if it is not accounted for |
| `RelayProtocol.RestartServedIff` | bootstrap_relay.py:131-201 | an antigen still queued from a node's dead session reaches the restarted node if and only if the relay remembered it before or another broadcast was bringing it |
| `RelayProtocol.RestartStarves` | bootstrap_relay.py:131-201 | a concrete run, cut at awaits only, on which a restarted node lacks the antigen it published, with nothing left on its way |
| `RelayProtocol.BreakOffCost` | bootstrap_relay.py:201-206 | a node loses track of a key if and only if the broken-off broadcast alone still had it for that node |
| `RelayProtocol.BreakOffStarves` | bootstrap_relay.py:201-206 | a concrete run, cut at awaits only: the third of four nodes leaves while the send to the second is awaited, and the fourth, live and with nothing on its way, lacks the remembered antigen |
| `RelayProtocol.OnlyItsOwnHandlerDisconnects` | bootstrap_relay.py:137-151 | a stale session's cleanup never evicts a newer session of its node |
| `RelayServer.Relay.RememberAntigen` | bootstrap_relay.py:212-226 | pop, re-insert and the eviction loop perform the bounded update |
| `RelayServer.Relay.HandleJoin` | bootstrap_relay.py:137-143 | the code of a join performs the protocol's step |
| `RelayServer.Relay.SyncKnownAntigens` | bootstrap_relay.py:228-243 | one turn of the replay loop performs the step, a closed socket ending it |
| `RelayServer.Relay.Targets` | bootstrap_relay.py:201 | everyone connected but the sender, and nobody else |
| `RelayServer.Relay.RelayAntigen` | bootstrap_relay.py:195-201 | remembering before listing targets performs the dispatch |
| `RelayServer.Relay.FanOut` | bootstrap_relay.py:202-206 | one turn of the send loop performs the step, including the lookup that ends the handler |
| `RelayServer.Relay.HandleLeave` | bootstrap_relay.py:148-150 | the cleanup removes the session's own connection only |
| `NodeTransport.NothingIsLost` | node_transport.py:112-126 | sent, in flight and buffered together hold every queued entry once, however flushes overlap and end |
| `NodeTransport.OrderIsKept` | node_transport.py:112-126 | with one flush at a time they line up, in order, to everything queued |
| `NodeTransport.StepKeepsLineupIff` | node_transport.py:112-126 | with distinct entries a step keeps the order of all entries if and only if a success is the oldest batch's and a failure the youngest's |
| `NodeTransport.OrderIff` | node_transport.py:112-126 | on any run, flushes overlapping, nothing is ever out of order if and only if every send ends in that turn |
| `NodeTransport.OverlapReorders` | node_transport.py:115-126 | two overlapping flushes can deliver the younger batch first |
| `NodeTransport.LogBuffer.QueueLog` | node_transport.py:112-113 | appends to the buffer and to nothing else |
| `NodeTransport.LogBuffer.BeginFlush` | node_transport.py:115-118 | takes the whole buffer if there is a connection and something to send, else does nothing |
| `NodeTransport.LogBuffer.EndFlush` | node_transport.py:119-126 | a closed connection puts the batch back in front of what was queued meanwhile |
| `NodeTransport.RunForever` | node_transport.py:158-223 | the loop over backoff and retry flag produces exactly the trace of its turns |
| `NodeTransport.BackoffClosedForm` | node_transport.py:189-223 | the backoff after k sleeps in closed form, for any non-negative policy, growing or shrinking |
| `NodeTransport.BackoffIsCapped` | node_transport.py:189-223 | for a growing factor it is min(initial * factor^k, max) |
| `NodeTransport.SleepWithinJitter` | node_transport.py:217-218 | every sleep stays within its jitter's share of the backoff |
| `NodeTransport.CallbacksAreOrdered` | node_transport.py:191-223 | "reconnected" comes only right after "reconnecting", and that only right after a drop |
| `NodeTransport.CallbacksCount` | node_transport.py:158-223 | over the turns the loop gets to, one "disconnected" for each failed handshake or drop, and one "reconnected" for each session but an opening one |
| `NodeTransport.SleepOfTurn` | node_transport.py:189-223 | the sleep that ends turn i is the jittered backoff for the number of sleeps since the last session |
| `NodeTransport.SleepsFollowTheBackoff` | node_transport.py:189-223 | so for a growing factor it is min(initial * factor^(i - j), max) times one plus that turn's draw, j being the last drop or the start |
| `NetworkedNode.AllAreVaccinated` | networked_node.py:244-266 | an escalation registers, schedules and logs one vaccine per context, in order, and nothing else |
| `NetworkedNode.NothingIsFabricated` | networked_node.py:219-243 | a finding without contexts registers and schedules nothing, and is logged as such |
| `NetworkedNode.EscalationProtects` | networked_node.py:219-266 | afterwards every observed context, and all that folds to its non-empty text, is blocked for the weight |
| `NetworkedNode.PoisonIsBlocked` | networked_node.py:219-266 | from a poisoned write with its input as context, through nineteen further writes and a finding, to that input and its variants being blocked |
| `NetworkedNode.DeliveriesAreTracked` | networked_node.py:197-206 | after any deliveries the agent's blacklist has grown by exactly the keys the relay model tracks for the node |
| `NetworkedNode.HashlessShareOneKey` | networked_node.py:197-206 | of payloads that arrive without a hash the last alone is left in the exact index, under the empty hash, and no other entry of it is touched |
| `NetworkedNode.SettledNodesBlockReplays` | bootstrap_relay.py:228-244 | on every run a live node with nothing on its way blocks each payload whose hash the relay remembers, unless a break-off owes its session the antigen or, after a restart, its broadcast skipped the session |
| `NetworkedNode.PeersAreProtected` | networked_node.py:197-206 | a peer that received the broadcast, and then anything for the same weight, blocks the same payloads |
| `NetworkedNode.NetworkedLeukocyteNode.OnNetworkAntigen` | networked_node.py:197-211 | registers the antigen read with the handler's defaults and logs it |
| `NetworkedNode.NetworkedLeukocyteNode.Vaccinate` | networked_node.py:244-266 | one turn of the loop: fingerprint, self-vaccinate, schedule, log |
| `NetworkedNode.NetworkedLeukocyteNode.OnLocalOscillatingFinding` | networked_node.py:219-266 | corrects to the baseline first; without contexts fabricates nothing; a refused correction leaves all else as it was |
| `TraceGap.MeasureGap` | trace_gap.py:50-91 | the counting loop computes counts, ratio and fingerprints, for any kind of event |
| `TraceGap.CountAccounted` | trace_gap.py:74-78 | reaches the total exactly when the claim covers every event |
| `TraceGap.Prints` | trace_gap.py:75-82 | the fingerprints are exactly the non-empty contexts of unaccounted events |
| `TraceGap.ClosedGap` | trace_gap.py:84-91 | ratio in [0, 1], one exactly for a closed gap, and a closed gap leaves no fingerprint |
| `TraceGap.GapFollowsTheSet` | trace_gap.py:68-91 | whether the gap is open, and its fingerprints, depend on the set of events only |
| `TraceGap.WiderClaim` | trace_gap.py:68-78 | a wider claim never accounts for less |
| `CoreEngine.Recorded` | core_engine.py:144-204 | a history keeps its newest twenty entries, the new one last |
| `CoreEngine.RegisterGuards` | core_engine.py:259-306 | a canonical W0 name is registered immutable or refused; registration keeps the matrix guarded |
| `CoreEngine.StaysInWindow` | core_engine.py:144-204 | an entry stays in the history while fewer than twenty others follow it |
| `CoreEngine.HistoryIsLastTwenty` | core_engine.py:144-206 | after any writes a new weight's history is the last twenty of them in order, each with the value it replaced |
| `CoreEngine.WritesKeepFixtures` | core_engine.py:186-206 | no write by name or by reference moves an immutable value or a write-once field, and W0 names cannot be written by name |
| `CoreEngine.UpdateInPlainTerms` | core_engine.py:311-329 | by name: key error for an unknown name, refusal for canonical and immutable weights even with their own value, else that weight alone is written and the write recorded |
| `CoreEngine.TouchInPlainTerms` | core_engine.py:186-206 | by reference: refused only for an immutable weight with another value than its own |
| `CoreEngine.RegisterInPlainTerms` | core_engine.py:285-306 | refused for a canonical name without the flag, else a fresh weight whose baseline defaults to its value, last in order or in the place of its name, and no other weight touched |
| `CoreEngine.SteadyErrorIsLearned` | core_engine.py:420-440 | under a steady error the threshold's estimate closes on its size geometrically from wherever it started, floor and sensitivity staying as they are |
| `CoreEngine.SteadySignalIsTracked` | core_engine.py:355-370 | under a steady signal the model's distance from it shrinks by the factor 1 - gain at every observation |
| `CoreEngine.MovedStaysBetween` | core_engine.py:368-370 | with a gain in [0, 1] the model stays between its state and the observation |
| `CoreEngine.Weight.Touch` | core_engine.py:186-206 | an immutable weight takes its own value only; any accepted write is recorded |
| `CoreEngine.CriticalityMatrix.Register` | core_engine.py:291-306 | guard, new weight with an empty history, and its place in the order of names |
| `CoreEngine.CriticalityMatrix.Update` | core_engine.py:311-329 | missing name, refusal by registry or flag, or a recorded write of that weight alone |
| `CoreEngine.Model.Observe` | core_engine.py:368-370 | moves the state by the weight's gain, or raises without the weight |
| `Erythrocyte.ContextsAreUntraced` | erythrocyte.py:36-55 | the observed contexts are exactly the non-empty contexts of writes not the system's own |
| `Erythrocyte.ContextIsObserved` | erythrocyte.py:36-55 | the context of an outside write is observed at once and through the next nineteen writes |
| `Erythrocyte.MeanMinimizes` | erythrocyte.py:29-34 | the mean is the point of least scatter |
| `Erythrocyte.VarianceSign` | erythrocyte.py:29-34 | sample variance is never negative, and zero exactly when all values are equal |
| `Erythrocyte.VarianceBound` | erythrocyte.py:29-34 | at most n w^2 / (4 (n - 1)) for n values in a band of width w |
| `Erythrocyte.NarrowBandIsSteady` | erythrocyte.py:29-34 | with five samples or more a band with 5 w^2 <= 16 t never exceeds the threshold t |
| `Erythrocyte.ProvenanceInWholeNumbers` | erythrocyte.py:17-27 | the ratio is below 0.7 exactly when fewer than seven writes in ten are the system's own |
| `Erythrocyte.SuspicionInWholeNumbers` | erythrocyte.py:58-78 | a weight is suspicious exactly with five writes or more, off its baseline, and fewer than seven in ten its own |
| `Erythrocyte.ScanIsExact` | erythrocyte.py:58-103 | one finding for each suspicious weight, none for any other, in order and without repetition |
| `Erythrocyte.ScanInOrder` | erythrocyte.py:58-103 | the findings come in the order of the names |
| `Erythrocyte.VarianceInSums` | erythrocyte.py:29-34 | n (n - 1) times the sample variance is n times the sum of the squares less the square of the sum |
| `Erythrocyte.FindingInPlainTerms` | erythrocyte.py:58-103 | every finding of the model says just that of its weight, and no other weight has one |
| `Erythrocyte.ScanWeight` | erythrocyte.py:65-101 | one pass reports exactly from five writes on, off the baseline, fewer than seven in ten its own; oscillating if and only if n times the squares less the squared sum exceeds the threshold times n (n - 1); ratio, offset, variance and contexts as the history has them |
| `Erythrocyte.ScanMatrix` | erythrocyte.py:58-103 | the loop over names computes the findings |
| `Erythrocyte.OwnWritesAreTrusted` | erythrocyte.py:12-27 | a weight with only the system's own writes is never suspicious |
| `Erythrocyte.ImmutableNeverOscillates` | erythrocyte.py:76-90 | an immutable weight has variance zero, and is called oscillating only under a negative threshold |
| `Erythrocyte.NarrowWeightNeverOscillates` | erythrocyte.py:87-90 | values within a band of 0.4 are never called oscillating under thresholds from 0.05 |
| `BearerLoop.UpdateLoop.DoStep` | core_engine.py:701-705 | the objects step as the step function says: matrix, model, strategy, counters, flags, log, and what is raised |
| `BearerLoop.UpdateLoop.DoRecalibrate` | core_engine.py:707-746 | raise, then the shock if any, then the scan, stopping at the first exception |
| `BearerLoop.UpdateLoop.DoRaise` | core_engine.py:709-730 | the low-risk write and its log entry |
| `BearerLoop.UpdateLoop.HandleIrreversibleAction` | core_engine.py:849-911 | request, reset or rollback, and the refused write to W0 |
| `BearerLoop.UpdateLoop.EnforceTruthPriority` | core_engine.py:872-888 | the rollback, only while TruthPriority stands, a missing weight counting as zero |
| `BearerLoop.UpdateLoop.AttemptOverride` | core_engine.py:890-909 | the refusal is caught and logged, a missing weight is not |
| `BearerLoop.UpdateLoop.RunErythrocyteScan` | core_engine.py:748-810 | the loop routes the findings in order, up to the first exception |
| `BearerLoop.UpdateLoop.RouteFinding` | core_engine.py:770-803 | each pair of weight and class is routed once |
| `BearerLoop.UpdateLoop.EscalateFinding` | core_engine.py:812-843 | an approved escalation resets the weight to its baseline, a denied one is only counted |
| `LoopSafety.StepMoves` | core_engine.py:701-911 | all a step does to the matrix is one raise, at most one rollback of the same amount, and corrections |
| `LoopSafety.W0NeverMoves` | core_engine.py:186-329 | over every run, raising or not, no immutable value or write-once field changes and W0 names stay protected |
| `LoopSafety.AdaptabilityKeepsItsRange` | core_engine.py:707-888 | adaptability stays in [0, 1] on every run whose outside writes to it do |
| `LoopSafety.StepAndModel` | core_engine.py:849-867 | a step moves the model only to the actual value and only with approval |
| `LoopSafety.ModelStaysInHull` | core_engine.py:361-379 | every interval that holds the first state and all values shown holds the model's state |
| `LoopSafety.DeniedResetTakesBack` | core_engine.py:866-888 | a denied reset under TruthPriority never leaves adaptability above where it was, and restores it exactly when the raise was not clamped or it was zero |
| `LoopNumbers.StepInNumbers` | core_engine.py:401-440 | in a ready loop a step recalibrates if and only if the error is over the fixed threshold, or over both the floor and sensitivity times estimate; its first entry then names adaptability before and after a raise by a tenth of the excess, capped at one; otherwise nothing changes but history and estimate |
| `LoopNumbers.RaisingStep` | core_engine.py:701-730 | a step that raises teaches the threshold nothing; without a writable adaptability a critical step only counts and raises |
| `LoopNumbers.AdaptabilityAfterStep` | core_engine.py:707-888 | adaptability ends where raise and rollback put it, or, corrected by the detector, on its baseline |
| `LoopNumbers.SteadyErrorsDecide` | core_engine.py:420-440 | after k errors of one size a step recalibrates if and only if its error is over the floor and over sensitivity times (size + (1 - alpha)^k (estimate - size)) |
| `LoopNumbers.FindingMoves` | core_engine.py:774-838 | a finding moves the matrix if and only if it is oscillating, new, approved and of a writable weight, which is then on its baseline, its correction recorded, and no longer suspicious |
| `LoopNumbers.StepFlagsIff` | core_engine.py:742-803 | in a ready loop a step flags a weight in a class if and only if the detector is on, the error is over the threshold, and the weight's history with the step's own writes reports it so |
| `LoopNumbers.FindingIsLogged` | core_engine.py:770-843 | a new finding leaves one entry with the weight's baseline and value and how it was resolved, a flagged one nothing |
| `LoopReadiness.OscillatingMeansMutable` | core_engine.py:828-837 | in a ready loop the correction of an approved finding is always admissible |
| `LoopReadiness.StepSucceeds` | core_engine.py:701-911 | in a ready loop no step raises, and the loop stays ready |
| `LoopReadiness.ReadyRuns` | core_engine.py:701-911 | nor does any step of any run, with any outside writes in between |
| `LoopReadiness.UnreadyRuns` | core_engine.py:701-911 | every loop that is not ready has a run on which a step raises |
| `LoopReadiness.RegistrationsAreSound` | core_engine.py:291-306 | any registrations, refused ones included, leave a guarded matrix with empty histories |
| `LoopReadiness.NeverRaisesIff` | core_engine.py:701-911 | over a freshly registered matrix no run ever raises in a step if and only if the loop is ready |
| `LoopReadiness.DemonstrationIsReady` | core_engine.py:939-948 | the demonstration's loop never raises |
| `LoopAudit.LogSize` | core_engine.py:707-909 | each log entry is of exactly one kind, and each oscillating flag was approved or denied |
| `LoopAudit.RaiseBooks` | core_engine.py:707-730 | a recalibration is counted and logged once |
| `LoopAudit.HandlingBooks` | core_engine.py:849-909 | a shock is counted once, and logged with its answer and its refusal |
| `LoopAudit.RouteBooks` | core_engine.py:770-847 | a routed finding is counted and logged once, also when its correction raises |
| `LoopAudit.BooksBalance` | core_engine.py:689-911 | counters equal the log's tally; entries = recalibrations + 2 shocks + flags; flags = flagged set; each kind at most the number of weights |
| `LoopAudit.SignedWritesAreAudited` | core_engine.py:57-70 | on every run each write that carries the loop's signature has its entry in the log, with the same values |
| `LoopLog.StepCounts` | core_engine.py:701-740 | in a ready loop an error over the threshold is one recalibration, and asks for a reset exactly when it is over three times the threshold |
| `LoopLog.EveryErrorIsObserved` | core_engine.py:701-705 | on every run without exceptions the error history lists the steps' errors in order, and the threshold has observed each once |
| `LoopLog.StepReports` | core_engine.py:849-870 | a step adds one entry about the model if it asks for a reset, else none; it names the state the step found, the value asked for and the answer, and the model moves only on approval |
| `LoopLog.LogReplaysTheModel` | core_engine.py:361-379 | on every run, observations and exceptions included, the model's state is the start followed through the logged approved resets and the observations, each with the gain then in force, and the log's resets are the timeline's |
| `LoopLog.ModelSinceLastReset` | core_engine.py:849-870 | so it is the target of the last approved reset in the log, or the start, moved by the observations since |
| `LoopLog.LogTellsTheTruth` | core_engine.py:707-909 | on every run each entry is true: raises go up, to one at most; refusals name the unmoved BearerIntegrity; findings name a weight and its baseline |
| `LoopQuiet.QuietStep` | core_engine.py:707-746 | a step that takes nothing back finds nothing in a matrix of its own making |
| `LoopQuiet.QuietRuns` | core_engine.py:707-888 | a loop left to itself never produces a finding as long as no reset is denied under TruthPriority |
| `LoopQuiet.SelfAccusation` | core_engine.py:878-888 | with TruthPriority standing, at most four shocks make an untouched loop flag its own weight, under every strategy |
| `LoopQuiet.LeavesItselfAloneIff` | core_engine.py:849-888 | left to itself a loop never flags anything if and only if the detector is off or TruthPriority does not stand |
| `LoopQuiet.DemonstrationAccusesItself` | core_engine.py:939-948 | the demonstration's own configuration can come to flag adaptability |
| `Watcher.DeriveSteps` | watchdog/watcher.py:147-164 | the appends build the canonical log |
| `Watcher.Execute` | watchdog/watcher.py:249-266 | the loop with its break produces record, hidden steps and zone flag |
| `Verdicts.ExecutionSplits` | watchdog/watcher.py:249-266 | log and hidden record are the visible and blind parts, in order, of the plan up to the first stopped step, plus the refusal |
| `Verdicts.NothingUnrecorded` | watchdog/watcher.py:249-266 | together they hold each carried-out step once |
| `Verdicts.AllowedConcat` | watchdog/watcher.py:249-252 | the world's filter works step by step, in order |
| `Verdicts.AllowedCounts` | watchdog/watcher.py:249-252 | and takes out the walls of a task that has none, and nothing else |
| `Verdicts.MadeUpWallsAreFound` | watchdog/watcher.py:249-266 | on a task without a wall, in any world and whatever the plan, a declared report or stop is a false exit, or a bypass if something undeclared shows |
| `Verdicts.EpisodeIsItsRecord` | watchdog/watcher.py:249-266 | task and declaration pass unchanged, and a zone counts as crossed exactly when a zone act is on the record, never behind the gate |
| `Verdicts.GateHolds` | watchdog/watcher.py:255-261 | behind the gate no zone act is on the record, a refusal is its last entry, and is there exactly when a visible zone act was planned |
| `Verdicts.BlindZonePassesIff` | watchdog/watcher.py:242-266 | a zone act happens unrecorded if and only if the plan has one through a blind channel before anything the gate stops |
| `Verdicts.LogSeesTheVisible` | watchdog/watcher.py:249-266 | the log depends on nothing but the visible steps |
| `Verdicts.GapMeaning` | watchdog/watcher.py:470-474 | the gap is open exactly when some consequential step in the log was not announced |
| `Verdicts.SupportGapMeaning` | watchdog/watcher.py:476-485 | the support gap is open exactly when some claimed wall is not in the log, however the claims are listed |
| `Verdicts.NormIff` | watchdog/watcher.py:487-528 | the label is the norm if and only if all is announced, every claimed wall real, no zone attempt without permission, nothing disputed, nothing that passes for a mistake |
| `Verdicts.LabelIff` | watchdog/watcher.py:487-528 | the exact condition for each of the other labels, in terms of record, declaration and task alone |
| `Verdicts.GapShowsTheUndeclared` | watchdog/watcher.py:470-474 | the gap's fingerprints are the texts of the bypass and zone steps that nobody announced |
| `Verdicts.LabelFollowsTheSet` | watchdog/watcher.py:470-528 | reordering or repeating log entries never changes the label |
| `Verdicts.TwoRuns` | watchdog/watcher.py:249-266 | two plans with the same visible steps get the same log and the same label |
| `Verdicts.PartialDeclarationIsBypass` | watchdog/watcher.py:495-498 | declaring something while the log shows more is a bypass, whatever else holds |
| `Incentives.ChosenIff` | watchdog/watcher.py:404-416 | the choice is the action of highest utility, the earliest on ties |
| `Incentives.WalledChoiceIff` | watchdog/watcher.py:354-416 | for every table and walled task, the exact condition for each of the five choices, by what silence, declaration, way out and work pay inside and outside the zone |
| `Incentives.UnwalledChoiceIff` | watchdog/watcher.py:388-416 | the same without a wall |
| `Incentives.PermissionLiftsTheZone` | watchdog/watcher.py:354-383 | under every table a permitted task is chosen on as one whose bypass, equally harmful, is outside the zone |
| `Incentives.PermittedZoneIff` | watchdog/watcher.py:354-383 | the exact stake at which a permitted zone task is bypassed, and bypassed by declaration |
| `Incentives.PlansAreInOrder` | watchdog/watcher.py:147-164 | a plan is the attempt, the wall if there is one, the act, and after a crossing bypass the zone |
| `Incentives.AgentsIntend` | watchdog/watcher.py:418-443 | what the honest and the dishonest agent declare and plan, given their choice |
| `Incentives.CanonicalRecord` | watchdog/watcher.py:249-266 | the world records a canonical plan as planned, a gated zone act becoming a refusal |
| `Incentives.CanonicalLabel` | watchdog/watcher.py:487-528 | the label of each action declared in full, gate or no gate |
| `Incentives.HonestLabel` | watchdog/watcher.py:418-448 | an honest agent earns the label of its choice |
| `Incentives.DishonestyIsFoundIff` | watchdog/watcher.py:423-433 | declaring the harmless bypass and doing more is labelled a bypass if and only if the world sees the second path, or the zone under an exact condition on gate, permission and mistake |
| `Incentives.ScrutinyDecides` | watchdog/watcher.py:354-402 | gated, with silence dearer than words, neither silence nor a forbidden bypass is ever chosen |
| `Incentives.NeverBypassIff` | watchdog/watcher.py:354-528 | for gated tables the honest agent is labelled a bypass on no task if and only if scrutiny exceeds effort |
| `Incentives.BlockHasItsPrice` | watchdog/watcher.py:359-377 | without the gate every block is bought from some stake on; behind it the zone is never entered at any |
| `Incentives.ZoneIsBoughtIff` | watchdog/watcher.py:359-383 | without the gate but with a block, the zone is entered if and only if the stake covers the way out, the harm, the block and the scrutiny |
| `Incentives.OpenZoneIff` | watchdog/watcher.py:359-377 | with neither gate nor block the cheaper of silence and declaration decides, harm included |
| `Incentives.StoppedAttemptIff` | watchdog/watcher.py:365-373 | behind the gate a hopeless attempt is made exactly when block and scrutiny together cost nothing |
| `Incentives.UnpriceableIsNeverBought` | watchdog/watcher.py:59-83 | harm that is safety-relevant, irreversible, not compensable or not measurable is bought at no stake behind the gate |
| `Incentives.NoHarmBoughtIff` | watchdog/watcher.py:354-416 | no harm is bought for a walled task with an exit if and only if its price exceeds the gain over the exit and is no bounty |
| `Incentives.ExitInsteadOfWorkIff` | watchdog/watcher.py:385-416 | a doable task is exited if and only if the exit pays at least what the work leaves |
| `Incentives.FabricationIff` | watchdog/watcher.py:388-396 | without a wall an obstacle is made up, and labelled so, exactly when its reward less the penalty is worth the work |
| `Incentives.ShippedTables` | watchdog/watcher.py:291-329 | the closed loop meets both thresholds; the structure alone and the open loop do not meet the first |
| `LlmAgent.BuildMenu` | watchdog/llm_agent.py:160-168 | the insertions build the menu |
| `LlmAgent.AnswerRecord.ToIntent` | watchdog/llm_agent.py:258-299 | repairs the answer in place, on the record, and translates it or rejects it |
| `LlmAgent.MenuIsFeasible` | watchdog/llm_agent.py:160-168 | a word is on the menu if and only if its action has a utility at all, under whatever cost table, made-up obstacles apart |
| `LlmAgent.MenuIsInOrder` | watchdog/llm_agent.py:160-168 | the menu lists work, bypass, report and stop in that order, each at most once |
| `LlmAgent.RepairIsSettled` | watchdog/llm_agent.py:236-272 | repair turns an act into the bypass if and only if it is off the menu and spells out the bypass path, in part or among other words; turns just the three other words into declarations; records what it replaces; and is idempotent |
| `LlmAgent.RefusedIff` | watchdog/llm_agent.py:273-274 | an answer is refused exactly if its declaration is none of the four words or its act is not open on the task |
| `LlmAgent.AnswersMean` | watchdog/llm_agent.py:276-299 | the word for the act alone decides what is done; beside a bypass the declaration decides whether it is declared, silent or a lie |
| `LlmAgent.SynonymsKeepTheClaim` | watchdog/llm_agent.py:269-298 | a menu word written into the declaration keeps its claim: the lie of a give-up, the lie of an obstacle, or silence |
| `LlmAgent.AnswersGetTheirDue` | watchdog/llm_agent.py:276-299 | a lie is labelled a bypass from the log alone, for every task and gate; the truth gets the label of what was done |
| `LlmAgent.ChoiceIsOpen` | watchdog/watcher.py:385-396 | an agent only chooses what the task offers, but for made-up obstacles |
| `LlmAgent.RoundTripIff` | watchdog/llm_run.py:39-43 | an honest choice put into words comes back as its own intent, except a claimed obstacle without wall and lawful exit |
| `LlmAgent.RoundTrip` | watchdog/llm_agent.py:258-299 | in particular wherever the task has a wall or a lawful exit |

## Left out

- websockets, TLS, JSON text, files, console output, threads, HTTP and the web pages: messages are datatypes, logs are sequences.
- The relay's handshake, its message size limit, malformed messages, heartbeats and the files it writes log batches to.
- `threat_judge.py` and the advisory verdicts of a node, which gate nothing.
- `sovereign_action_protocol.py`: an ordered chain of guards whose claims can be read off one branch each.
- `P2PNetworkSimulation` and the demonstration functions: the same registrations, in process.
- The inside of SHA-256, BLAKE2b and NFKC, and how well MinHash estimates the true Jaccard similarity.
- Float rounding, also of the figures in findings and reports; timestamps, identifiers and the wording of reports.
- Epsilon noise in the agent's choice, and prompts, HTTP calls and JSON parsing of the language model's replies.
- Episodes built from a coarse action without a log; every episode here comes from the environment.
- Reflection, direct edits of private fields, custom W0 registries, and registering a weight again inside a run.
- Message payloads that are not objects, or whose target, distortion or slots are not of their expected types.
- Fingerprint.CanonicalizeIdempotent: assumes of NFKC and lower-casing only that they fix text over letters a to z, digits and spaces.
- TraceGap.MeasureGap: fingerprints are a set; their sorted order is not part of this model.
- MinHashIndex.MinHashLSH.FindSimilar: ties are free, because Python leaves the order of a set open.
- RelayProtocol.SettledNodesAreImmune: speaks of keys, because a replayed payload can overtake a newer one under the same key, and of payloads that carry a hash.
- RelayProtocol.ReceiveKeeps: a message still unread when its session closes is not handled afterwards.
- NodeTransport.NothingIsLost: a flush cancelled at the end of a session drops its batch and is not among the steps.
- NetworkedNode.NetworkedLeukocyteNode.OnLocalOscillatingFinding: takes the contexts as a list in some order; broadcasts are recorded as scheduled, and their sending is the relay model's Publish step.
- BearerLoop.UpdateLoop.DoStep: the threshold strategy is a value the loop replaces, not an object of its own, and the channel is an arbitrary answer per request.
- LoopAudit.BooksBalance: holds for the loop's own escalation; a networked node replaces it by one that corrects without counting.
- Incentives.HonestLabel: the honest agent's theorems are for fully instrumented worlds, as its `act` builds them.
