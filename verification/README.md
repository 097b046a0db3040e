# A Dafny model of LOTI

LOTI proves in what order events happened without any consensus. Every node grows hash-linked
clock chains, gossips its tips, and answers the question "bound this event": a request floods to
the event's creator, and the response retraces the request's path while every hop splices its own
clock events onto the chain it carries. This project models the node protocol, the two stores
behind it, the validator and portable proofs, the routers, the wire codec and the streaming part
of SHA-256, and proves what they promise.

How the model is put together:

- `Domain`, `Hashing`, `BigEndian`: the data, and the bytes that are hashed. The digest and the
  signer are parameters; nothing is assumed of the digest, in particular not injectivity, except in
  `Tamper`, which says so. `Arith` holds a few facts about products.
- `Log`, `Ring`: a store as a plain log, with every read defined by scanning. `MemoryStore` and
  `DiskStore` are the two real stores as classes, proved to answer exactly like the log.
- `Overlay`, `ChainBuild`, `Discovery`, `NodeModel`: one node as a value, one function per operation.
  `Queries` and `Nodes` are the same node as objects that update their fields in place, with the
  source's loops; every method is proved to produce the value model's new state and sends. `Objects`
  shows that every reachable node state meets what the node object asks of its value state.
- `Network`: any interleaving of local operations, restarts and datagrams delivered late, out of
  order, twice or never, over a global history of creations that gives "happened before" a meaning.
  `Invariant` and `Preservation` carry one invariant through every step; `Theorems`, `Bounds`,
  `Hydrate`, `Paths`, `Quiescence` and `FloodBound` draw the conclusions.
- `DiscoveryLaws`: conservation of callbacks over every interleaving, even with dishonest peers.
  `Progress`, `Moving`, `Answers`, `Standing` and `Asking`: queries move on, and exactly who hears
  what when. `Expiry` and `Upkeep`: exactly what expiry and garbage collection keep, and what it all
  means inside a network.
- `Walks`, `Hops`: exactly what a hop splices onto a chain and where its two walks stop. `Forwarding`,
  `Routes`, `Gossip`: exactly what is sent on, to whom, and what a notification leaves behind.
  `Tamper`: what the content hashes cover. `Layout`: where every byte goes.
- `Validate`, `Router`, `Wire`, `Codec`, `Packets`, `Proofs`, `Sha256`, `Snapshot`: the remaining
  components, each with its code and an independent specification.
- `LowerBound`, `Limits`, `Stall`, `Witness`: promises the code keeps only under a condition, with the exact
  condition, and runs of honest nodes that fall outside it.

What the network theorems rest on:

- The hash of a newly created event or clock event is not empty and nobody has used it before.
- Every node can verify what any node signs, and a client asks its own node about an event that
  names the node as creator only if the node published it.
- A claim that compares timestamps at a node needs that node's clock readings not to decrease;
  the members that need it say so. The creation-order claims do not.
- Clock readings, salts, random numbers, datagram loss, duplication and reordering are inputs.

Where the code and its own comments disagree, the model follows the code:

- `src/core/node.cpp:109-112` says pruning only widens an event's bounds. The upper bound indeed
  never moves earlier, but the lower bound can become later: `LowerBound.PruneTightensIff` says
  exactly when, `Witness.PruningCanTightenLower` gives a run.
- `src/core/node.cpp:414-415` aborts a bounds query without asking whether it is still in progress,
  against the assertion at `src/core/node.cpp:482`; with assertions compiled out its clients are
  told again (`Limits.BoundsAnsweredOnceIff`, `Limits.BoundsAnswersOverRuns`).
- `src/adapters/os/lmdb_store.hpp:57-58` says an older store is rejected, not migrated, but format 1
  is migrated at `src/adapters/os/lmdb_store.cpp:199-204`.
- `src/adapters/sim/in_memory_store.hpp:1-4` says the in-memory store mirrors the durable one
  exactly. They differ when a clock event names one hash twice (`DiskStore.StoresAgree`), in
  updating an unknown clock event, and in which of two events with equal hashes is found
  (`DiskStore.EventReadsAgree`; never on a log a node reaches, `Objects.StoresReadTheSame`).
- `src/core/node.cpp:765-766` calls a tail the events published since the chain's last tick. After a
  restart on a pruned chain it can reach further back, and the next tick references those events
  again (`Hydrate.RestartRecoversTail`).
- `src/core/node.cpp:194-199` writes a neighbour to the store only if the advertised tip changed, so an
  empty tip for a chain not heard of before grows the neighbour's list in memory alone. The two tables
  agree on every tip all the same (`Nodes.Node.LearnTip`).
- `src/core/proof/proof.cpp:12` speaks of 8 fingerprint bytes; the code takes 16.

One thing a reader might expect does not hold: `src/core/node.cpp:122-133` drops a finished chain
query once it is too old, also while an order query in progress still relies on it. That order query
then stays in progress when its other chain arrives, until it expires itself.
`Expiry.ExpiryCanLeaveOrderBehind` says exactly when, `Stall.OrderIsLeftBehind` gives a run. Without
such an expiry every order query completes as soon as both its chains are there
(`Progress.QueriesInStep`).

## Model

| member | source | states |
|---|---|---|
| Theorems.OrderAnswersAreTrue | src/core/node.cpp:385-412 | in every run of honest nodes, with datagrams lost, duplicated, delayed and reordered at will, an order told to a client of a node whose own clock never ran backward is the order in which the two events were really published; no other clock is assumed to behave |
| Theorems.BoundsAnswersAreTrue | src/core/node.cpp:385-391 | a completed bounds answer names the timestamps of two of the asking node's own clock events, one created before the event was published and one after it |
| Theorems.ChainAnswersAreTrue | src/core/node.cpp:450-467 | a chain told to a client is sound for its node, and the event was created after the chain's first clock event and before its last, both the node's own |
| Theorems.JustifiedIsTrue | src/core/node.cpp:599-603 | comparing two sound chains made of really created items orders their events as they were published |
| Theorems.PublicationOrderIsStrict | src/core/node.cpp:616-630 | no two events are each published before the other |
| Theorems.ResponsesCarryRealChains | src/core/node.cpp:270-298 | every chain inside a response in flight is linked and made only of items their creators really created |
| Theorems.AttachedChainsComplete | src/core/node.cpp:270-286 | a response that reaches its waiting originator and attaches at both ends completes the query with exactly that chain if its interval is not inverted and aborts it if it is; it is never inverted while the originator's clock does not run backward |
| Theorems.HomeCompletes | src/core/node.cpp:450-467 | the same for the query tables alone |
| Theorems.GraphIsAcyclic | src/core/node.cpp:616-661 | every reference anyone ever made resolves to an item created strictly earlier, under its true creator |
| Theorems.ReverseEdgesAreTruthful | src/core/node.cpp:191-211 | every learned reverse edge names a neighbour's clock event that does reference the clock event it is stored on |
| Theorems.RingIsNewestSuffix | src/core/node.cpp:101-115 | for any clock readings, each chain's live clock events are exactly the newest min(ticks, keep) of a hash-linked list with non-decreasing timestamps |
| Theorems.HistoryHashLinked | src/core/node.cpp:632-661 | each non-first clock event of a chain has its predecessor as first reference and is stamped no earlier |
| Theorems.RetainedIsSuffix | src/core/node.cpp:109-114 | what a ring of some capacity retains is the newest suffix of that size |
| Preservation.StepInv | src/core/node.cpp:101-298 | every step of the network, restarts included, keeps the global invariant: stores hold exactly the history's suffixes, tails cover what each chain has yet to reference, reverse edges and everything in flight are true |
| Preservation.ReachableInv | src/core/node.cpp:101-298 | so every reachable world satisfies it |
| Preservation.PublishKeeps | src/core/node.cpp:303-308 | publishing keeps a node consistent with the history extended by the new event |
| Preservation.TickKeeps | src/core/node.cpp:101-115 | ticking with ring pruning keeps a node consistent with the history extended by the new clock event |
| Preservation.PublishedIsOk | src/core/node.cpp:616-630 | a published event references exactly the current tip of every chain that has one, each already created |
| Preservation.TickedIsOk | src/core/node.cpp:632-661 | a new clock event references its predecessor first, then known neighbour tips of the same resolution, then the chain's tail, which covers every event published since the chain last ticked, and is stamped max(reading, predecessor) |
| Preservation.NotificationsTrue | src/core/node.cpp:162-169 | every notification sent names the new tip and a tip of the receiver that the new tip references |
| Preservation.NotificationKeeps | src/core/node.cpp:191-211 | processing a true notification keeps tips known and reverse edges truthful |
| Preservation.RequestKeeps | src/core/node.cpp:227-252 | processing a request keeps the node consistent and sends only requests and responses with real chains |
| Preservation.ResponseKeeps | src/core/node.cpp:270-298 | processing a response with a real chain keeps the node consistent and passes on only real chains |
| Preservation.GcKeeps | src/core/node.cpp:117-120 | garbage collection keeps the node consistent |
| Preservation.ExpireKeeps | src/core/node.cpp:122-157 | expiry keeps the node consistent |
| Preservation.RestartKeeps | src/core/node.cpp:760-783 | a restarted node, its tails rebuilt from the store, is consistent with the history, so every theorem about reachable worlds holds across restarts |
| Preservation.RebuiltTailOk | src/core/node.cpp:765-781 | a rebuilt tail holds the node's newest events, covers every one the chain has not referenced, and none that a live clock event of the chain references |
| History.ReferencesGoBack | src/core/node.cpp:616-661 | in a history of honest creations every reference points to a strictly earlier item under its true creator |
| History.ChainLinked | src/core/node.cpp:632-661 | consecutive clock events of one chain are linked by the first reference and stamped in order |
| History.StampsOrdered | src/core/node.cpp:639-646 | on a node whose readings never decrease, later clock events of any chain carry no smaller timestamps |
| ChainBuild.WalkBackSteps | src/core/node.cpp:564-579 | each step of the lower walk goes to a strictly lower sequence number, so it ends |
| ChainBuild.WalkForwardSteps | src/core/node.cpp:581-597 | each step of the upper walk goes to a strictly higher sequence number, so it ends |
| ChainBuild.AddLowerReal | src/core/node.cpp:537-549 | attaching an own lower clock event keeps a chain linked and real |
| ChainBuild.AddUpperReal | src/core/node.cpp:551-558 | attaching an own upper clock event keeps a chain linked and real |
| ChainBuild.WalkBackReal | src/core/node.cpp:564-579 | extending the lower end keeps a chain linked and real; where it stops is `Walks.WalkBackStops` |
| ChainBuild.WalkForwardReal | src/core/node.cpp:581-597 | extending the upper end keeps a chain linked and real; where it stops is `Walks.WalkForwardStops` |
| Walks.WalkBackStops | src/core/node.cpp:564-579 | the lower walk follows each clock event's first own live reference and stops at the first clock event that references the neighbour; it gives up exactly when the walk runs out without meeting one |
| Walks.WalkForwardStops | src/core/node.cpp:581-597 | the upper walk follows the oldest own successor on the chain and stops at the first clock event the neighbour is known to reference; it gives up exactly when there is none ahead |
| Walks.SpliceIsExact | src/core/node.cpp:287-297 | a hop splices if and only if both legs exist, and the result is the chain wrapped in exactly those two legs, which are unique |
| Walks.FirstOwnFinds | src/core/node.cpp:537-549 | the read behind the lower bound finds the first own live reference, or nothing exactly when there is none |
| Walks.NextFinds | src/core/node.cpp:588-592 | the read behind the upper walk finds the oldest own clock event of the chain that references the current one |
| Hops.SpliceTiesToNeighbor | src/core/node.cpp:564-597 | in an honest network the new lower end references a clock event of the neighbour and the new upper end is referenced by one, so the neighbour can carry on |
| Hops.LowerLegOnChain | src/core/node.cpp:564-579 | in an honest network the lower leg runs back along one chain of the node, one clock event at a time |
| Hops.UpperLegOnChain | src/core/node.cpp:581-597 | in an honest network the upper leg runs forward along one chain of the node, one clock event at a time |
| ChainBuild.SpliceReal | src/core/node.cpp:287-297 | whatever a hop splices onto a real chain is a real chain |
| ChainBuild.EncloseReal | src/core/node.cpp:278-286 | a real chain enclosed by its originator is real and ends in the originator's own clock events |
| ChainBuild.EnclosureIsTrue | src/core/node.cpp:450-467 | a real enclosed chain brackets its event in creation order |
| ChainBuild.RealChainIsSound | src/core/validate/chain.cpp:19-99 | validation accepts a real chain that a node encloses if and only if its interval is not inverted, so inversion is the only way an honest chain is turned down; with a clock that never ran backward it is accepted |
| ChainBuild.ComparisonIsTrue | src/core/node.cpp:599-603 | if one chain's interval ends before the other's begins, its event was created first; the comparison says so exactly then (`Validate.CompareIsExact`) |
| Bounds.OwnEventsStayBounded | src/core/node.cpp:310-332 | if a chain had a tip at publication, has ticked since and still holds those two clock events, a fresh query by the creator completes at once with an interval enclosing the publication reading, however far other chains are pruned |
| Bounds.OwnQueryCompletes | src/core/node.cpp:310-332 | the same for the query tables alone |
| Bounds.PruningNeverTightensUpper | src/core/node.cpp:551-558 | whatever is dropped from the store, the upper bound attached to an event never moves earlier |
| Bounds.EventPinsTip | src/core/node.cpp:622-626 | an event references the tip each chain had when it was published |
| Bounds.TickPinsEvent | src/core/node.cpp:654-656 | the first tick of a chain after a publication references the event |
| Witness.PruningCanTightenLower | src/core/node.cpp:109-114 | a run of one honest node with a steady clock, from its start: one more tick moves the lower bound of an event it published from 10 to 20 |
| LowerBound.PruneTightensIff | src/core/node.cpp:109-114 | pruning a chain to its newest k moves an event's lower bound later if and only if the first own live reference is on that chain with at least k newer entries and the first own live reference that is not is stamped later; it loses the bound if and only if all of them are; otherwise the bound found first stays |
| LowerBound.NothingTightensIff | src/core/node.cpp:109-114 | no pruning whatsoever moves the lower bound later if and only if no own live reference is stamped later than the present bound |
| LowerBound.CandidatesAfter | src/core/node.cpp:537-549 | pruning leaves exactly the own live references that are not doomed, in their order |
| LowerBound.DroppedIff | src/adapters/sim/in_memory_store.hpp:43-60 | pruning drops a clock event if and only if its chain holds at least k newer ones |
| DiscoveryLaws.EveryQueryAccountedFor | src/core/node.cpp:310-380 | over every interleaving of queries, responses and expiries, each chain and each order registration is either still waiting or has been answered, counted exactly |
| DiscoveryLaws.AnsweredExactlyOnce | src/core/node.cpp:427-532 | a client that asked once hears back at most once, and exactly once when it is no longer waiting |
| DiscoveryLaws.EveryAnswerJustified | src/core/node.cpp:385-412 | even against dishonest peers, every completed chain passed validation for the hash asked about, every completed order is the comparison of two such chains and every completed interval is that of one |
| DiscoveryLaws.AskChainLedger | src/core/node.cpp:310-343 | a chain query adds exactly its own registration to the ledger |
| DiscoveryLaws.AskBoundsLedger | src/core/node.cpp:345-361 | a bounds query disturbs no chain or order registration |
| DiscoveryLaws.AskOrderLedger | src/core/node.cpp:363-380 | an order query adds exactly its own registration |
| DiscoveryLaws.OnChainCompletedLedger | src/core/node.cpp:385-412 | completing a chain answers order queries without losing or repeating any |
| DiscoveryLaws.OnChainAbortedLedger | src/core/node.cpp:414-422 | aborting a chain answers order queries without losing or repeating any |
| DiscoveryLaws.PurgeChainsLedger | src/core/node.cpp:122-133 | expiring chain queries answers every waiter of the ones in progress |
| DiscoveryLaws.PurgeOrdersLedger | src/core/node.cpp:143-152 | expiring order queries answers every waiter of the ones in progress |
| Progress.QueriesInStep | src/core/node.cpp:385-422 | over every run in which nothing expires, a bounds query is completed with its chain's ends, aborted or in progress exactly as its chain query is; an order query is completed, with the comparison of its two chains, exactly when both chain queries are, aborted exactly when one of them is, and otherwise in progress with the node waiting on what is missing |
| Progress.DecidedIsExact | src/core/node.cpp:393-411 | a completed chain completes an order query in progress about its event, with the comparison of the two chains in the query's order, exactly when both chains are there; said without regard to which came first |
| Progress.CompleteOrdersPointwise | src/core/node.cpp:393-411 | every order query is decided by the chain on its own |
| Moving.NoOrderIsStuck | src/core/node.cpp:385-412 | over every run, expiry included, no order query is in progress while the table holds completed chains for both its events that the node was waiting on |
| Moving.NoBoundsIsStuck | src/core/node.cpp:385-391 | over every run a bounds query is in progress only while a chain query for its event is, with the node waiting on it |
| Moving.RunMoves | src/core/node.cpp:122-152 | the invariant behind both, through queries, responses and expiry, with one entry per key in each table |
| Answers.ChainCompletesOrder | src/core/node.cpp:393-411 | a chain the node waits on arrives: an order query whose other chain is there, whichever came first, completes with their comparison and each of its waiters hears exactly that exactly once; about any other order query nobody hears anything |
| Answers.ChainAbortsOrder | src/core/node.cpp:414-422 | a chain the node waits on fails: every order query in progress about its event aborts and each of its waiters hears so exactly once |
| Answers.ChainCompletesBounds | src/core/node.cpp:385-391 | a chain the node waits on arrives: a bounds query in progress about its event completes with the chain's two ends and each of its waiters hears exactly them exactly once; about any other nobody hears anything |
| Answers.ChainAbortsBounds | src/core/node.cpp:414-415 | a chain the node waits on fails: the bounds query about its event aborts whatever it was, and each waiter hears so once for every time the node waits on the chain |
| Answers.ResponseSettles | src/core/node.cpp:270-286 | the same for a response in any reachable state |
| Standing.EveryAnswerStands | src/core/node.cpp:310-422 | over every run in which nothing expires, every answer ever given agrees with the chain queries as they now stand: chains, ends and comparisons as held, failures only of failed queries |
| Standing.AnswersAgree | src/core/node.cpp:363-380 | so two clients told about the same two events were told the same |
| Asking.ChainIsRegistered | src/core/node.cpp:310-324 | a chain query is registered with its event, window, time and asker if it is the first for its hash, behind the others if one is under way, and not at all if one has settled; other hashes are untouched |
| Asking.BoundsIsRegistered | src/core/node.cpp:345-361 | a bounds query is registered with its event, time and asker, or joins the one under way |
| Asking.OrderIsRegistered | src/core/node.cpp:363-380 | an order query is registered with its events, time and asker, or joins the one under way |
| Expiry.PurgeIsExact | src/core/node.cpp:122-152 | after expiry an entry is there exactly if it was there and is not older than the limit: chain queries as they were, bounds and order queries as they were unless a chain query the node waited on for them was cut off; every callback reports a failure |
| Expiry.ExpiryCanLeaveOrderBehind | src/core/node.cpp:122-133 | an order query with one chain there and the node waiting on the other, when expiry comes and then the other chain: it completes if and only if the finished chain query was young enough to be kept; otherwise it stays in progress although both chains were found |
| Stall.OrderIsLeftBehind | src/core/node.cpp:122-133 | a run in which that happens |
| Upkeep.NoQueryIsLeftBehind | src/core/node.cpp:122-422 | in every world of a network, whatever was lost, repeated, expired or restarted, no order query is in progress whose two chains the node waited on and has, and a bounds query is in progress only while a chain query for its event is |
| Upkeep.ExpireAllIsExact | src/core/node.cpp:122-157 | in every world of a network, expiry keeps exactly the queries and flood records with start + expiry >= now and touches nothing else |
| Upkeep.GcIsExact | src/core/node.cpp:117-120 | garbage collection leaves, on any log, exactly the newest clock events of each chain that its capacity allows, all of a chain without one, and changes nothing else |
| Limits.BoundsAnsweredOnceIff | src/core/node.cpp:414-422 | aborting a chain leaves a bounds client told exactly once if and only if the node waits on the chain at most once with the bounds query in progress, or there is nobody to tell |
| Limits.AbortSurplus | src/core/node.cpp:414-422 | exactly how many surplus answers one aborted chain causes, read from the tables before it |
| Limits.BoundsClientCanBeToldTwice | src/core/node.cpp:414-422 | an order query and a bounds query on the same remote event, then expiry: the bounds client, registered once, is told twice |
| Limits.BoundsAnswersOverRuns | src/core/node.cpp:122-157 | over every run of queries, responses and expiry no bounds query is ever forgotten, and its client is told at most once per registration plus one round for each time the node waited on itself, once per bounds query and twice per order query |
| Queries.QueryTables.FinishBounds | src/core/node.cpp:478-498 | settles a bounds entry and calls each waiter once |
| Queries.QueryTables.FinishOrder | src/core/node.cpp:512-532 | settles an order entry and calls each waiter once |
| Queries.QueryTables.ChainCompleted | src/core/node.cpp:385-412 | drives bounds and order queries off a completed chain, as the value model does; what that amounts to is `Answers.ChainCompletesOrder` and `Answers.ChainCompletesBounds` |
| Queries.QueryTables.OfferOrder | src/core/node.cpp:393-411 | completes one order query if its other chain is there, whichever came first (`Progress.DecidedIsExact`), and calls each waiter once |
| Queries.QueryTables.ChainAborted | src/core/node.cpp:414-422 | aborts the bounds entry whatever its state and the order queries in progress |
| Queries.QueryTables.Abort | src/core/node.cpp:439-448 | aborts a chain query and tells every waiter |
| Queries.QueryTables.Complete | src/core/node.cpp:450-467 | validates, then completes or aborts, and tells every waiter |
| Queries.QueryTables.Finish | src/core/node.cpp:275-286 | holds the updated chain and completes or aborts |
| Queries.QueryTables.JoinChain | src/core/node.cpp:310-320 | a second query waits or is told at once |
| Queries.QueryTables.ExpireChains | src/core/node.cpp:122-133 | expires chain queries, aborting those in progress |
| Queries.QueryTables.ExpireBounds | src/core/node.cpp:134-142 | expires bounds queries |
| Queries.QueryTables.ExpireOrders | src/core/node.cpp:143-152 | expires order queries |
| Queries.QueryTables.Expire | src/core/node.cpp:122-152 | expires the three tables in turn |
| Nodes.Node.constructor | src/core/node.cpp:23-56 | a node on whatever its store holds: overlay loaded, every tail rebuilt, nothing in flight, unset flood caps made bounded; on an empty store a fresh node |
| Nodes.Node.AddNeighbor | src/core/node.cpp:69-72 | the value model's new state, and a new neighbour is written through to the store |
| Nodes.Node.LearnRoute | src/core/node.cpp:74-77 | the value model's new state, written through to the store |
| Nodes.Node.LearnRouteAt | src/core/node.cpp:79-82 | the value model's new state, the whole table written through to the store |
| Nodes.Node.TipReferences | src/core/node.cpp:622-626 | one reference per chain with a tip, in chain order |
| Nodes.Node.PublishEvent | src/core/node.cpp:303-308 | appends the event and pins it in every tail |
| Nodes.Node.BuildClockEvent | src/core/node.cpp:632-660 | the predecessor, matched neighbour tips and tail, with the clamped stamp |
| Nodes.Node.InsertClockEvent | src/core/node.cpp:632-661 | appends exactly that clock event |
| Nodes.Node.CrossLinks | src/core/node.cpp:647-653 | each neighbour's known tip of the same resolution |
| Nodes.Node.PinnedEvents | src/core/node.cpp:654-656 | the chain's unreferenced events |
| Nodes.Node.Tick | src/core/node.cpp:101-115 | append, clear the tail, notify every neighbour, prune the ring |
| Nodes.Node.Advertise | src/core/node.cpp:108-108 | one notification per neighbour |
| Nodes.Node.CollectGarbage | src/core/node.cpp:117-120 | prunes every configured ring |
| Nodes.Node.ProcessNotification | src/core/node.cpp:191-211 | buckets the tip, writing the neighbour through if it changed, and records the reverse edge once |
| Nodes.Node.LearnTip | src/core/node.cpp:194-199 | the store's neighbours keep the same tips as those in memory, to the letter unless an empty tip arrives |
| Gossip.TipIsLearned | src/core/node.cpp:191-199 | after a notification the sender's slot holds the advertised hash; every other slot, of this neighbour and of all others, holds what it did |
| Gossip.EdgeIsLearned | src/core/node.cpp:200-211 | the clock event with the named hash, if live, carries the edge; nothing else of it changes, and no other clock event changes |
| Gossip.RunStaysOnce | src/core/node.cpp:204-209 | over every run of a network no clock event lists an edge twice |
| Gossip.NotificationIsRecorded | src/core/node.cpp:191-211 | in every world of an honest network a notification fills its slot, puts its edge exactly once on the clock event it names, and changes nothing else of the node |
| Gossip.PeerIsAdded | src/core/node.cpp:69-72 | adding a peer makes it a neighbour whose tips are unknown; every other peer stays, with the tips it had |
| Gossip.StrangersAreIgnored | src/core/node.cpp:178-179 | a datagram from a node that is no neighbour has no effect |
| Nodes.Node.NextHops | src/core/node.cpp:36-54 | the configured router stack |
| Nodes.Node.Flood | src/core/node.cpp:217-225 | the value model's flood, which is exact: `Forwarding.FloodIsExact` |
| Forwarding.FloodIsExact | src/core/node.cpp:217-225 | a flood sends the copy with the extended breadcrumb exactly once to each next hop that is a neighbour, not the node itself and off the breadcrumb, and nothing else |
| Forwarding.RequestIsForwarded | src/core/node.cpp:227-252 | at a node that is not the creator a request is dropped if and only if the node is on its path, it is at its hop limit or its discovery is at the cap; otherwise it is flooded; forwarding counts against its own discovery only, whose record dates from the first forward |
| Forwarding.RequestIsAnswered | src/core/node.cpp:227-236 | at the creator a request is answered if and only if the event is stored, both legs exist and the way back is a neighbour, with exactly the spliced chain |
| Forwarding.ResponseIsRelayed | src/core/node.cpp:270-298 | at an intermediate a response is passed on if and only if both legs exist and the way back is a neighbour, with exactly the spliced chain |
| Forwarding.LaunchIsExact | src/core/node.cpp:335-343 | the first chain query about a remote event sends one request, with the configured hop limit and an empty path extended by the node, to every next hop; any other sends nothing |
| Forwarding.LaunchIsNotSilent | src/core/node.cpp:335-343 | under the flood policy it is sent to somebody as soon as any neighbour was cross-linked in the window |
| Forwarding.StaticLaunch | src/core/node.cpp:335-343 | under the static policy it is sent to the learned next hop, if that is a neighbour |
| Forwarding.BoundsLaunch | src/core/node.cpp:345-361 | the first bounds query about an event sends what its chain query sends, a later one nothing |
| Forwarding.OrderLaunch | src/core/node.cpp:363-380 | the first order query about two remote events nobody asked about sends a request for each |
| Nodes.Node.SendBack | src/core/node.cpp:258-268 | one hop back along the breadcrumb |
| Nodes.Node.FindOwn | src/core/node.cpp:539-547 | the first reference naming an own live clock event |
| Nodes.Node.AddLocalLower | src/core/node.cpp:537-549 | pushes that clock event on the front |
| Nodes.Node.AddLocalUpper | src/core/node.cpp:551-558 | pushes the oldest referencing clock event on the back |
| Nodes.Node.ExtendLower | src/core/node.cpp:564-579 | the unbounded walk back equals the value model's, whose stopping point is `Walks.WalkBackStops`, and terminates |
| Nodes.Node.Successor | src/core/node.cpp:588-592 | the lowest-numbered own clock event of the chain referencing the current one |
| Nodes.Node.ExtendUpper | src/core/node.cpp:581-597 | the unbounded walk forward equals the value model's, whose stopping point is `Walks.WalkForwardStops`, and terminates |
| Nodes.Node.Splice | src/core/node.cpp:289-296 | all four primitives in order, or nothing |
| Nodes.Node.Enclose | src/core/node.cpp:278-285 | both local bounds, and whether they attached |
| Nodes.Node.ProcessRequest | src/core/node.cpp:227-252 | reply, drop, cap or forward as the value model, which does so exactly when it should: `Forwarding.RequestIsForwarded`, `Forwarding.RequestIsAnswered` |
| Nodes.Node.ProcessResponse | src/core/node.cpp:270-298 | complete at home or splice and retrace |
| Nodes.Node.Receive | src/core/node.cpp:178-189 | ignores unknown senders, dispatches the rest |
| Nodes.Node.ReceiveBytes | src/core/node.cpp:171-189 | malformed bytes change nothing |
| Nodes.Node.DiscoverChain | src/core/node.cpp:310-343 | joins, completes locally or floods |
| Nodes.Node.DiscoverBounds | src/core/node.cpp:345-361 | joins or starts a chain query |
| Nodes.Node.DiscoverOrder | src/core/node.cpp:363-380 | joins or starts two chain queries |
| Nodes.Node.PurgeDiscoveries | src/core/node.cpp:122-157 | expires queries and dedup entries |
| Nodes.Node.IsReferenced | src/core/node.cpp:773-775 | whether some live clock event of the chain names the hash |
| Nodes.Node.RebuildTail | src/core/node.cpp:769-781 | the events after the newest one the chain references, in publish order |
| Nodes.Node.Hydrate | src/core/node.cpp:760-783 | loads neighbours, routes and timed routes from the store and rederives every tail |
| Nodes.Restart | src/core/node.cpp:23-56 | a new node on an old one's store comes back with the same log, routes and tips and with the tails the value model's restart rebuilds |
| Paths.RequestsCarryBreadcrumbs | src/core/node.cpp:217-252 | every request in flight carries a duplicate-free path over mutual neighbours from the originator to the sender, excluding receiver and creator, within the hop limit |
| Paths.ResponsesRetrace | src/core/node.cpp:258-298 | every response in flight is on the reverse of its request's forward path, between mutual neighbours, and is about to reach the originator exactly when its path is empty |
| Paths.EachHopShortens | src/core/node.cpp:258-268 | each hop keeps the forward path and shortens the remaining one by one |
| Quiescence.DeliveryQuiesces | test/harness/world.hpp:125-131 | from any reachable world, a run of deliveries and losses is no longer than an explicit load of what is in flight: delivering one by one always quiesces |
| Quiescence.DeliveryLoad | src/core/node.cpp:171-298 | what a delivery sends weighs strictly less than what was delivered |
| Quiescence.FloodAtMost | src/core/node.cpp:217-225 | a flood sends at most one copy per neighbour and at most the fan-out |
| FloodBound.FloodIsBounded | src/core/node.cpp:239-251 | with fan-out at most k and forward cap at most C, one discovery makes at most k * (1 + N * C) request sends across N nodes in any run, plus at most k * (1 + C) for each expiry or restart that makes a node forget it |
| FloodBound.DefaultFloodIsBounded | src/core/node.cpp:38-45 | left to their defaults, N flooding nodes spend at most 8 * (1 + 8 * N) requests on a discovery that no node forgets |
| FloodBound.EffectPays | src/core/node.cpp:239-251 | every node step that forgets nothing pays for the requests it sends with floods it has made |
| FloodBound.ForgettingCosts | src/core/node.cpp:153-156 | a step that forgets a discovery sends nothing and forgets at most one flood and C re-floods |
| FloodBound.RequestPays | src/core/node.cpp:239-251 | forwarding consumes the forward cap |
| Router.StaticHops | src/core/routing/discovery_router.hpp:56-62 | at most one hop, the static next hop for the destination, given exactly when that is a known neighbour |
| Router.HistoryHopsExact | src/core/routing/discovery_router.hpp:89-105 | exactly the known neighbours cross-linked inside the window, each once |
| Router.NeighborHistory | src/core/routing/discovery_router.hpp:89-105 | the scan computes them in order |
| Router.CollectInto | src/core/routing/discovery_router.hpp:92-98 | new known creators, once, in order |
| Router.DirectedMembers | src/core/routing/discovery_router.hpp:136-144 | directed hops are distinct and cross-linked |
| Router.RoutingTable | src/core/routing/discovery_router.hpp:131-147 | directed hops, or the fallback |
| Routes.DirectedIsExact | src/core/routing/discovery_router.hpp:136-144 | the directed hops are exactly the cross-linked hops of the routes whose validity overlaps the window, each once, in table order |
| Routes.TableIsExact | src/core/routing/discovery_router.hpp:131-147 | the table directs if and only if some route valid in the window has a cross-linked hop; otherwise the fallback is used as it is |
| Routes.OverlapIsSharing | src/core/routing/discovery_router.hpp:149-151 | two windows overlap exactly if they share an instant |
| Routes.HistoryInOrder | src/core/routing/discovery_router.hpp:89-105 | the neighbour history lists each known peer once, in the order the window first names it |
| Routes.SampleIsUniform | src/core/routing/discovery_router.hpp:167-177 | the random lid picks every arrangement of k candidates, each by exactly one outcome of its k draws, so the pick is as uniform as the draws |
| Routes.RouteIsLearned | src/core/node.cpp:74-77 | a static route, once learned, is the hop taken towards its destination; every other destination is reached as before |
| Routes.DirectionIsLearned | src/core/node.cpp:79-82 | a timed route, once learned, is listed after those known towards its destination, for exactly the windows its validity overlaps |
| Router.SampleKeeps | src/core/routing/discovery_router.hpp:167-177 | sampling k keeps distinct candidates, exactly min(k, n) of them |
| Router.Probabilistic | src/core/routing/discovery_router.hpp:167-177 | the partial shuffle in place |
| Router.FloodStack | src/core/routing/discovery_router.hpp:89-177 | for any random source: distinct known neighbours other than self, cross-linked in the window, empty only if there are none, and min(k, candidates) of them |
| Router.NextHopsBounded | src/core/node.cpp:36-54 | under any policy the hops are distinct known neighbours within the width |
| Validate.References | src/core/validate/chain.cpp:10-15 | linear search of a reference list |
| Validate.WalkClocks | src/core/validate/chain.cpp:35-52 | one run of clock events is clean iff intact and linked, and a fault is real |
| Validate.VerifyChain | src/core/validate/chain.cpp:19-99 | accepts exactly the chains meeting the declarative specification, reports their interval, and every rejection names a fault that is there; what the hashes checked cover is `Tamper.AcceptedAgree` |
| Tamper.ClockHashCovers | src/core/hash/hashing.cpp:40-47 | with an injective digest two intact clock events have the same hash if and only if they agree, as 64-bit values, on chain, timestamp and salt and, at the fixed widths of ids and hashes, on their references |
| Tamper.EventHashCovers | src/core/hash/hashing.cpp:32-38 | the same for two intact events whose contents are equally long, on content, salt and references |
| Tamper.AcceptedAgree | src/core/validate/chain.cpp:19-99 | two accepted chains that carry the same hashes in the same places, over contents equally long, agree on every hashed field of every item |
| Tamper.RewrittenClockIsRejected | src/core/validate/chain.cpp:35-52 | an accepted chain with any hashed field of a clock event rewritten under its old hash, or a signature that does not verify, is rejected |
| Tamper.RestampedIsRejected | src/core/validate/chain.cpp:35-52 | in particular with any timestamp changed |
| Tamper.RewrittenEventIsRejected | src/core/validate/chain.cpp:54-65 | and with content of the same length, salt or references of the event rewritten |
| Validate.OrderLaws | src/core/proof/proof.cpp:22-27 | on accepted chains swapping the arguments swaps the answer for any two, and a run of "before" answers composes, so no cycle can arise; when each answer is given is `Validate.CompareIsExact` |
| Validate.CompareIsExact | src/core/node.cpp:599-603 | before exactly if every instant of the first interval precedes every instant of the second, after exactly if the reverse, undetermined exactly if they share an instant |
| Validate.IntervalOrder | src/core/proof/proof.cpp:22-27 | and an interval order |
| Witness.InversionCheckIsNeeded | src/core/validate/chain.cpp:90-96 | a run of one honest node whose clock steps back between two chains yields a real, intact, linked, enclosing chain that compares as before itself; validation rejects it and the query aborts |
| Proofs.ProofRoundTrip | src/core/proof/proof.cpp:31-60 | a proof within field widths reads back as what its form carries, whatever bytes follow |
| Proofs.Serialize | src/core/proof/proof.cpp:31-44 | writes exactly the layout |
| Proofs.Deserialize | src/core/proof/proof.cpp:46-60 | reads exactly the layout or fails |
| Proofs.Verify | src/core/proof/proof.cpp:62-92 | valid if and only if the key fingerprints to the reference, the chains are sound and the recorded order is the compared one; failures are explained truthfully |
| Proofs.OrderProofIsExact | src/core/proof/proof.cpp:62-92 | an order proof with a matching key is valid if and only if both chains are sound and the order it records is how their two intervals lie |
| Proofs.ForgedProofIsInvalid | src/core/proof/proof.cpp:62-92 | a valid proof with a hashed field of one of its clock events rewritten under its old hash is no longer valid |
| Proofs.VerdictSurvivesTheWire | src/core/proof/proof.cpp:31-92 | a trip through the binary form does not change the verdict |
| Wire.IntRoundTrip | src/core/wire/codec.hpp:19-21 | a big-endian integer of any width reads back, whatever follows |
| Wire.SignedRoundTrip | src/core/wire/codec.hpp:41-41 | two's complement is undone on every 64-bit tick |
| Wire.BlobRoundTrip | src/core/wire/codec.hpp:92-98 | a length-prefixed blob reads back, whatever follows |
| Wire.CountedRoundTrip | src/core/wire/codec.hpp:169-175 | the element-count guard never refuses a genuine encoding |
| Wire.RefsRoundTrip | src/core/wire/codec.hpp:100-112 | a reference list reads back, whatever follows |
| Wire.EventRoundTrip | src/core/wire/codec.hpp:114-119 | an event within field widths reads back, whatever follows |
| Wire.ClockRoundTripWith | src/core/wire/codec.hpp:121-127 | a clock event within field widths reads back, whatever follows |
| Wire.ClocksRoundTrip | src/core/wire/codec.hpp:132-137 | a run of clock events reads back, whatever follows |
| Wire.ChainRoundTrip | src/core/wire/codec.hpp:129-139 | an event chain within field widths reads back, whatever follows |
| Wire.RangeRoundTrip | src/core/wire/codec.hpp:141-146 | a time range reads back, whatever follows |
| Wire.IdsRoundTrip | src/core/wire/codec.hpp:148-155 | a list of ids reads back, whatever follows |
| Wire.EventParsed | src/core/wire/codec.hpp:114-119 | whatever bytes decode to an event, it is within the field widths |
| Wire.ClockParsed | src/core/wire/codec.hpp:121-127 | whatever bytes decode to a clock event, it is within the field widths, its chain cut to 32 bits |
| Wire.ChainParsed | src/core/wire/codec.hpp:129-139 | whatever bytes decode to a chain, it is within the field widths |
| Codec.Writer.constructor | src/core/wire/codec.hpp:15-15 | an empty buffer |
| Codec.Writer.PutU8 | src/core/wire/codec.hpp:17-17 | appends one byte |
| Codec.Writer.PutInt | src/core/wire/codec.hpp:66-68 | shifting appends exactly the low bytes, most significant first |
| Codec.Writer.PutU32 | src/core/wire/codec.hpp:66-68 | appends the value modulo 2^32 |
| Codec.Writer.PutU64 | src/core/wire/codec.hpp:19-21 | appends the value modulo 2^64 |
| Codec.Writer.PutId | src/core/wire/codec.hpp:23-23 | appends the id |
| Codec.Writer.PutBlob | src/core/wire/codec.hpp:25-28 | appends length and bytes |
| Codec.Writer.PutRefs | src/core/wire/codec.hpp:30-33 | appends exactly the reference-list layout |
| Codec.Writer.PutEvent | src/core/wire/codec.hpp:35-37 | appends exactly the event layout |
| Codec.Writer.PutClock | src/core/wire/codec.hpp:39-43 | appends exactly the clock-event layout |
| Codec.Writer.PutClocks | src/core/wire/codec.hpp:47-50 | appends exactly the clock-list layout |
| Codec.Writer.PutChain | src/core/wire/codec.hpp:45-51 | appends exactly the chain layout |
| Codec.Writer.PutRange | src/core/wire/codec.hpp:53-56 | appends exactly the range layout |
| Codec.Writer.PutIds | src/core/wire/codec.hpp:58-61 | appends exactly the id-list layout |
| Codec.Reader.constructor | src/core/wire/codec.hpp:74-74 | starts at the front |
| Codec.Reader.GetU8 | src/core/wire/codec.hpp:76-76 | one byte or failure, never past the end |
| Codec.Reader.GetInt | src/core/wire/codec.hpp:78-83 | reads what the layout says or fails, never past the end |
| Codec.Reader.GetId | src/core/wire/codec.hpp:85-90 | reads what the layout says or fails, never past the end |
| Codec.Reader.GetBlob | src/core/wire/codec.hpp:92-98 | reads what the layout says or fails, never past the end |
| Codec.Reader.GetRef | src/core/wire/codec.hpp:106-109 | reads what the layout says or fails, never past the end |
| Codec.Reader.GetRefs | src/core/wire/codec.hpp:100-112 | reads what the layout says, guard included, or fails, never past the end |
| Codec.Reader.GetEvent | src/core/wire/codec.hpp:114-119 | reads what the layout says or fails, never past the end |
| Codec.Reader.GetClock | src/core/wire/codec.hpp:121-127 | reads what the layout says or fails, never past the end |
| Codec.Reader.GetClocks | src/core/wire/codec.hpp:132-137 | reads what the layout says, guard included, or fails, never past the end |
| Codec.Reader.GetChain | src/core/wire/codec.hpp:129-139 | reads what the layout says or fails, never past the end |
| Codec.Reader.GetRange | src/core/wire/codec.hpp:141-146 | reads what the layout says or fails, never past the end |
| Codec.Reader.GetIds | src/core/wire/codec.hpp:148-155 | reads what the layout says, guard included, or fails, never past the end |
| Packets.NotificationRoundTrip | src/core/wire/packets.cpp:16-23 | a notification's body reads back, whatever follows |
| Packets.RequestRoundTrip | src/core/wire/packets.cpp:25-35 | a request's body reads back, whatever follows |
| Packets.ResponseRoundTrip | src/core/wire/packets.cpp:37-44 | a response's body reads back, whatever follows |
| Packets.PacketRoundTrip | src/core/wire/packets.cpp:16-91 | every datagram within field widths decodes from its own encoding to itself, whatever bytes follow |
| Packets.DecodingIsStable | src/core/wire/packets.cpp:54-91 | whatever bytes decode, the datagram re-encodes to bytes that decode to it again |
| Packets.Encode | src/core/wire/packets.cpp:16-44 | writes exactly the layout |
| Packets.DecodeBody | src/core/wire/packets.cpp:59-89 | reads the body its type byte announces; other types fail |
| Packets.Decode | src/core/wire/packets.cpp:54-91 | a datagram or the error, on any bytes |
| Packets.SenderOf | src/core/wire/packets.cpp:46-52 | present exactly when the header is complete, and the decoder's sender whenever the bytes decode |
| Layout.DigitAt | src/core/wire/codec.hpp:19-21 | byte i of a w-byte number is its digit of weight 256^(w-1-i): most significant first |
| Layout.NotificationLayout | src/core/wire/packets.cpp:16-23 | a clock notification is 97 bytes, with every field at the offset the format gives it |
| Layout.RequestLayout | src/core/wire/packets.cpp:25-35 | a chain request is 113 bytes and 16 per hop, with every field at its offset |
| Layout.ResponseLayout | src/core/wire/packets.cpp:37-44 | a chain response is 37 bytes, the chain and 16 per hop, with every field at its offset |
| Layout.HeaderLayout | src/core/wire/packets.cpp:10-13 | every datagram starts with its type byte and the sender |
| Layout.EventLayout | src/core/wire/codec.hpp:35-37 | an event is 72 bytes, its content, 52 per reference and the signature, with every field at its offset |
| Layout.ClockLayout | src/core/wire/codec.hpp:39-43 | a clock event is 84 bytes, 52 per reference and the signature, with every field at its offset |
| Layout.ClockListLayout | src/core/wire/codec.hpp:45-51 | a run of clock events is its count and then each after the other |
| Layout.ChainLayout | src/core/wire/codec.hpp:45-51 | a chain is its event, then the lower run, then the upper run |
| Layout.EventCommitment | src/core/hash/hashing.cpp:32-38 | what is hashed of an event: content, salt, then creator and hash of each reference, each at its offset |
| Layout.ClockCommitment | src/core/hash/hashing.cpp:40-47 | what is hashed of a clock event: chain, timestamp, salt, then the references, each at its offset |
| Layout.ProofLayout | src/core/proof/proof.cpp:31-44 | a proof spells LOTIPROF, then holds version, kind, node, key and chain; an order proof goes on with the second chain and one byte of order |
| MemoryStore.InMemoryStore.constructor | src/adapters/sim/in_memory_store.hpp:19-20 | an empty log |
| MemoryStore.InMemoryStore.AddEvent | src/adapters/sim/in_memory_store.hpp:21-26 | appends to the log; every index still answers as a scan would |
| MemoryStore.InMemoryStore.AddClockEvent | src/adapters/sim/in_memory_store.hpp:27-35 | appends under the next, never reused, sequence number; every index still answers as a scan would |
| MemoryStore.InMemoryStore.UpdateClockEvent | src/adapters/sim/in_memory_store.hpp:36-39 | replaces the record of that hash in place, or nothing |
| MemoryStore.InMemoryStore.PruneChain | src/adapters/sim/in_memory_store.hpp:43-59 | keeps exactly the newest `keep` clock events of the chain and every other; 0 keeps all |
| MemoryStore.InMemoryStore.EvictOldest | src/adapters/sim/in_memory_store.hpp:46-58 | one turn of the loop removes the chain's oldest from every index |
| MemoryStore.Record | src/adapters/sim/in_memory_store.hpp:30-30 | one reverse-index entry per reference |
| MemoryStore.Erase | src/adapters/sim/in_memory_store.hpp:52-56 | drops the sequence number wherever a reference put it, and nowhere else |
| MemoryStore.Sort | src/adapters/sim/in_memory_store.hpp:85-85 | a sorted permutation, the same list when already sorted |
| MemoryStore.InMemoryStore.EventOf | src/adapters/sim/in_memory_store.hpp:61-65 | the oldest event with the hash, as a scan finds it |
| MemoryStore.InMemoryStore.ClockEventOf | src/adapters/sim/in_memory_store.hpp:67-72 | the live clock event with the hash, as a scan finds it |
| MemoryStore.InMemoryStore.SeqOf | src/adapters/sim/in_memory_store.hpp:76-80 | its sequence number |
| MemoryStore.InMemoryStore.ClockEventAt | src/adapters/sim/in_memory_store.hpp:73-75 | the live clock event under the sequence number, or the range error |
| MemoryStore.InMemoryStore.ClockEventsReferencing | src/adapters/sim/in_memory_store.hpp:81-87 | ascending, exactly the live clock events naming the hash, once per mention |
| MemoryStore.InMemoryStore.Latest | src/adapters/sim/in_memory_store.hpp:92-96 | the chain's newest live clock event: a tip never dangles |
| MemoryStore.InMemoryStore.LoadClockEvents | src/adapters/sim/in_memory_store.hpp:99-104 | all live clock events in sequence order across gaps |
| Log.KeepNewestOnChain | src/adapters/sim/in_memory_store.hpp:43-59 | pruning leaves exactly the newest of one chain and all of every other |
| Ring.EvictThenKeep | src/adapters/sim/in_memory_store.hpp:46-58 | evicting an overfull chain's oldest does not change what the ring keeps |
| Ring.EvictReferencing | src/adapters/sim/in_memory_store.hpp:52-56 | the reverse index after an eviction is the old one without that sequence number |
| Ring.LastSurvives | src/adapters/os/lmdb_store.cpp:581-583 | the newest record of the log survives any pruning that keeps something |
| DiskStore.LmdbStore.Open | src/adapters/os/lmdb_store.cpp:134-223 | counters, tips and per-chain sequences are exactly what the records imply; format 1 gets its reverse index rebuilt |
| DiskStore.OpenStore | src/adapters/os/lmdb_store.cpp:182-209 | opening refuses exactly the formats it does not know |
| DiskStore.LmdbStore.Reopen | src/adapters/os/lmdb_store.cpp:211-222 | from every valid store, closing and reopening rebuilds exactly the counters, tips and live sequences the running store held |
| DiskStore.Session | src/adapters/os/lmdb_store.cpp:115-127 | open, append, retry a full map, drop an uncommitted batch, prune, close and reopen: the reopened store is the one that was closed and holds exactly what was committed |
| DiskStore.LmdbStore.AddClockEvent | src/adapters/os/lmdb_store.cpp:449-453 | one more clock event and nothing else; any number of failed attempts leaves no trace and consumes no sequence number |
| DiskStore.LmdbStore.AddEvent | src/adapters/os/lmdb_store.cpp:443-447 | one more event under the next key and nothing else, whatever failed before |
| DiskStore.LmdbStore.PruneChain | src/adapters/os/lmdb_store.cpp:581-621 | keeps exactly the newest; a failed transaction changes neither disk nor trackers |
| DiskStore.LmdbStore.EventOf | src/adapters/os/lmdb_store.cpp:489-493 | absent, or the newest event stored under the hash |
| DiskStore.LmdbStore.ClockEventOf | src/adapters/os/lmdb_store.cpp:504-509 | as a scan finds it |
| DiskStore.LmdbStore.ClockEventsReferencing | src/adapters/os/lmdb_store.cpp:527-547 | ascending, exactly the live clock events naming the hash, each once |
| DiskStore.LmdbStore.Latest | src/adapters/os/lmdb_store.cpp:575-579 | the chain's newest live clock event |
| DiskStore.SeedChainTips | src/adapters/os/lmdb_store.cpp:623-634 | the scan in key order yields the trackers |
| DiskStore.RebuildRefs | src/adapters/os/lmdb_store.cpp:636-656 | the migration scan yields the reverse index the records imply |
| DiskStore.TrackersDetermined | src/adapters/os/lmdb_store.cpp:623-634 | the trackers are a function of what is stored |
| DiskStore.StoreRefs | src/adapters/os/lmdb_store.cpp:286-290 | the sequence number under every hash referenced, once |
| DiskStore.Delete | src/adapters/os/lmdb_store.cpp:588-612 | deletes one clock event with its index entries and nothing else |
| DiskStore.PutIsUpdate | src/adapters/os/lmdb_store.cpp:296-312 | overwriting a record under its key is an update of the log |
| DiskStore.StoresAgree | src/adapters/os/lmdb_store.cpp:527-547 | both stores' reverse indices name the same oldest clock event, and are equal iff no live clock event names the hash twice |
| DiskStore.EventReadsAgree | src/adapters/os/lmdb_store.cpp:489-493 | read by hash, the in-memory store gives the oldest event stored under it and the durable store the newest; they agree if and only if those two are equal |
| DiskStore.Batch.Begin | src/adapters/os/lmdb_store.cpp:239-240 | a private copy with the store's counters |
| DiskStore.Batch.AddEvent | src/adapters/os/lmdb_store.cpp:246-264 | the whole new transaction: one more event under the next dense key, everything else kept |
| DiskStore.Batch.AddClockEvent | src/adapters/os/lmdb_store.cpp:266-294 | the whole new transaction: one more clock event with its index entries, pending for the trackers, everything else kept |
| DiskStore.Batch.UpdateClockEvent | src/adapters/os/lmdb_store.cpp:296-312 | updates in place, or reports an unknown hash |
| DiskStore.Batch.Commit | src/adapters/os/lmdb_store.cpp:336-347 | all or nothing: a full map leaves the store untouched; otherwise counters and trackers advance to match the disk |
| DiskStore.Batch.Abort | src/adapters/os/lmdb_store.cpp:242-244 | an uncommitted batch changes nothing |
| Sha256.PaddingIsStandard | src/core/hash/picosha2.hpp:205-222 | the padding is that of section 5.1.1 of FIPS 180-4: a one bit, the least number of zero bits, and 64 bits of length |
| Sha256.AddedValue | src/core/hash/picosha2.hpp:235-247 | carrying over 16-bit digits adds modulo 2^64 |
| Sha256.ShiftedValue | src/core/hash/picosha2.hpp:253-261 | the digit-wise shift multiplies by eight modulo 2^64 |
| Sha256.DigitBytesEncode | src/core/hash/picosha2.hpp:263-267 | the digits written from the top are the number big-endian |
| Sha256.Hasher.constructor | src/core/hash/picosha2.hpp:184-191 | nothing fed yet |
| Sha256.Hasher.AddToLength | src/core/hash/picosha2.hpp:235-247 | the counter after adding, digit by digit |
| Sha256.Hasher.Process | src/core/hash/picosha2.hpp:193-203 | the message grows by the chunk; whole blocks are compressed in order, the rest is buffered |
| Sha256.Hasher.WriteBitLength | src/core/hash/picosha2.hpp:248-268 | eight times the length, 64-bit big-endian, in the last eight bytes |
| Sha256.Hasher.Finish | src/core/hash/picosha2.hpp:205-222 | the state is the block function folded over exactly the padded message |
| Sha256.Consume | src/core/hash/picosha2.hpp:197-202 | the compression loop over whole blocks |
| Sha256.HashChunks | src/core/hash/picosha2.hpp:193-222 | however the message is split into chunks, the result is that of the whole, padded |
| Hydrate.RestartRecoversTail | src/core/node.cpp:765-781 | a rebuilt tail always ends in the kept one, and equals it iff the newest event the chain referenced is still referenced by a live clock event of the chain |
| Hydrate.UnprunedTailsSurvive | src/core/node.cpp:765-781 | on an unpruned chain the rebuilt tail is exactly the kept one |
| Hydrate.TailsExactUntilRestart | src/core/node.cpp:654-656 | until a node restarts, every tail is exactly the events published since the chain last ticked |
| Preservation.TailUnreferenced | src/core/node.cpp:654-656 | an event published since its chain last ticked is referenced by no clock event of the chain |
| Snapshot.ImageRoundTrip | src/core/node.cpp:679-746 | a snapshot reads back as what was written |
| Snapshot.Write | src/core/node.cpp:679-709 | writes exactly the layout |
| Snapshot.Read | src/core/node.cpp:711-743 | the image, or the error of a truncated blob or another version |
| Snapshot.GetImage | src/core/node.cpp:711-743 | reads what the layout says or fails, never past the end |
| Snapshot.RestoreReproduces | src/core/node.cpp:711-783 | on a node that pruned nothing, restoring its own snapshot reproduces events, clock events, tips, tails, neighbours and routes; timed routes come back empty |
| Overlay.PlacedSorted | src/core/node.cpp:69-72 | adding a neighbour keeps the table in id order, the order it is iterated in |
| Snapshot.RunKeepsOrder | src/core/node.cpp:647-653 | in every run every neighbour table stays in id order, one record per id |
| Snapshot.LoadedNeighbors | src/core/node.cpp:730-736 | loading a table that is in id order reproduces it |
| Snapshot.LoadedClocks | src/core/node.cpp:748-758 | loading numbers the clock events densely in order |
| Snapshot.RoutesReproduced | src/core/node.cpp:738-743 | loading a listing of the route table gives the table |
| Objects.ReachableFitsObject | src/core/node.cpp:23-56 | in every reachable world each node state meets the invariant the node object puts on its value state |
| Objects.StoresReadTheSame | src/adapters/os/lmdb_store.cpp:489-493 | on every log a node of the network can reach the two stores read back the same event for every hash |
| Objects.EnabledTickIsNovel | src/core/node.cpp:632-661 | every tick the network allows meets the precondition of the object's tick |

## Left out

- Queries.QueryTables.ChainCompleted: the three query tables are iterated in the order the queries were made, not in hash order; only the order of callbacks differs.
- Queries.QueryTables.TellCompleted: a client callback is recorded, not run, so a client that asks again from inside its callback is not modelled.
- Nodes.Node.Tick: requires the new clock event's hash to be novel to the store, the hash-freshness assumption of the network model.
- Nodes.Node.InsertClockEvent: requires the same.
- MemoryStore.InMemoryStore.AddClockEvent: requires that no live clock event carries the hash; with two of them, pruning one removes the other from the hash index.
- MemoryStore.InMemoryStore.UpdateClockEvent: requires that only the learned reverse edges changed, which is what the store interface allows an update to be.
- MemoryStore.InMemoryStore.ClockEventAt: the out-of-range exception is an absent result.
- DiskStore.LmdbStore.Open: takes the sub-databases as already consistent with each other; a corrupted file is not modelled. Records are stored as values; that encoding them loses nothing is the codec's round trip.
- DiskStore.OpenStore: takes the sub-databases as consistent, like `DiskStore.LmdbStore.Open`.
- DiskStore.Session: takes the file as consistent and the clock event's hash as new, like the operations it is made of.
- DiskStore.LmdbStore.AddClockEvent: requires that no live clock event carries the hash, as in the in-memory store.
- DiskStore.Batch.AddClockEvent: requires the same of the transaction.
- DiskStore.Batch.UpdateClockEvent: requires that only the learned reverse edges changed.
- DiskStore.LmdbStore.PruneChain: an exception in the middle of the transaction is one failing outcome, since an aborted transaction leaves no trace.
- Tamper.EventHashCovers: for contents of the same length, because the length of the content is not part of what is hashed.
- Standing.EveryAnswerStands: for runs in which nothing expires; after an expiry the chain queries an answer came from may be gone.
- Sha256.Hasher.AddToLength: words are 64 bits wide and a chunk is shorter than 2^63 bytes; where the source's word type has 32 bits a single chunk of 4 GiB or more would be miscounted.
- Sha256.HashChunks: the compression rounds and the digest's byte order are not modelled; the block function is a parameter.
- Snapshot.RestoreReproduces: needs each chain complete, field widths respected and a listing of the route table; on a pruned node only the suffix relation of `Hydrate.RestartRecoversTail` holds for tails.
- Bounds.OwnEventsStayBounded: covers events asked about at their creator; multi-hop completeness is not claimed because on the return leg a hop extends toward the node the response came from.
- Limits.BoundsAnswersOverRuns: an upper bound, not a count; the exact surplus is stated for each aborted chain (`Limits.AbortSurplus`).
- Nodes.Restart: the queries of the old process die with it; nothing is said about their clients.
- The Network steps carry payloads rather than bytes; `Nodes.Node.ReceiveBytes` and `Packets.PacketRoundTrip` connect the two.
- Timers, telemetry, the scheduler and the transport: inputs, or framework calls.
- The command line, the daemon, the control socket, JSON output and the OMNeT++ simulation adapters.
- Key storage and Ed25519: an abstract sign and verify pair.
- LMDB itself: page management, fsync policy and map growth; a commit is atomic.
- Writing neighbours, routes and timed routes to the durable store: each is one put in a transaction of its own, which changes nothing the rest of the model reads.
