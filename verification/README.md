# Verified model of the node distributor

This project models, in Dafny, the resource distributor: the service that keeps the nodes of many
regions in a sharded store on a hash ring, hands disjoint parts of the ring to clients, and serves
each client a list of its nodes followed by a watch of their changes. It also models three smaller
parts: the client SDK's indexed store, the batched persistence of processed events, and the
latency report.

`dafny verify dfyconfig.toml` checks everything.

## How it is organised

| file | content |
|---|---|
| Types, NewestWins | events and nodes; newest-wins maps, the common reference meaning of a stream of events |
| Ring, Placement, RingTheorems | arcs, virtual stores and routing in exact arithmetic; the other theorems on the concrete ring |
| EventLog, EventQueue | the circular log of one location and the queue of one client, against the history of everything enqueued |
| World | the distributor's state as a value, one event and one registration, and runs of both |
| StoreTheorems, Ownership, QueueTheorems, Isolation, Listing | what events, registrations and runs keep |
| VirtualNodeStore, NodeStore, Distributor | the classes that update fields in place, proved against World |
| ListWatch, ListWatchTheorems, ListWatchOrigin, WatchSession | list-then-watch as interleaved steps, what it guarantees, where it starts, and the watch session after it |
| ListWatchCoverage | how long a list can be watched from |
| Persistence | batching, retries and the wait counter, in sequence and interleaved |
| IndexedStore, Latency | the indexed store and the percentile report |

Theorems about stores and queues take the placement of nodes as a parameter (`Router`). Ring.dfy
gives the placement of the hash ring and RingTheorems.dfy instantiates the theorems with it.
Classes carry a ghost value of type `World` or a part of it; their methods state the new value
outright, and the lemmas about runs are about that value.

## What the code does not meet

* Ids whose 64-bit hash is 0 or the maximum get ring value 1 and are routed one block too far. For
  the last location that index does not exist, and the source panics. `Ring.RoutingStaysHome` and
  `Ring.RoutingOnRing` state both exactly, and `Ring.ZeroHashLeavesTheRing` gives an input. The comment at nodestore.go:357 has the interval open
  below and closed above, while floor division needs it the other way round.
* A read over several locations returns nothing as soon as one of them has nothing newer.
  `ListWatchTheorems.AnswerIsEnoughExactly` gives the exact condition under which nothing is lost,
  `ListWatchTheorems.EndOfOneLocationHidesAnother` shows that every client of several locations that is up to date loses
  the next event this way, and `ListWatchOrigin.RegisteredClientIsLeftBehind` the runs that get there.
* Reading an id compares hashes and not ids: an id that is not stored finds the node of that
  location whose id has the same hash (`RingTheorems.ReadFindsTheHash`).
* Live events are handed to the watcher by one sender each and may overtake each other. A client
  that overwrites blindly is right exactly when no node was told two different events
  (`WatchSession.BlindClientIsRightExactly`); a client that compares versions is not affected.
* Overwriting a nil object in the indexed store leaves its index entries behind
  (`IndexedStore.PutAgreesUnlessStale`, `IndexedStore.NilOverwriteLeavesStale`); a later `Replace` repairs them. The interface comment
  calls adding indexers after data undefined, while the code refuses it, and the model follows the code.
* An Added event for another node at an occupied position overwrites it and counts a host more
  (`Ownership.ProcessCounts`, `RingTheorems.AddedMayCollide`).
* The empty client name can register, gets a list, and holds no store (`Ownership.EmptyNameHoldsNothing`).
* In a batch of incoming events everything after the first nil is dropped
  (`Distributor.ResourceDistributor.ProcessEvents`).

## Assumptions that theorems state

* Versions come in order at each location. Sortedness needs non-decreasing versions; list-then-watch
  is complete for strictly increasing ones, and for others exactly when no newest version at the
  version listed for its location was left out of the list (`ListWatchTheorems.ListThenWatchExactly`,
  `ListWatchTheorems.EqualVersionIsLost`). Versions of one node strictly increase in both cases.
* The string hash is an arbitrary function. Where a theorem needs it, it is injective on the ids in
  use and none of them has a boundary hash.
* One producer per location (resource-management/pkg/aggregrator/aggregator.go:89-147).

## Model

| member | source | states |
|---|---|---|
| `EventLog.NoSilentGap` | resource-management/pkg/distributor/cache/eventqueue.go:85-109 | On a sorted history, from a position at which versions turn newer than the request, what follows is exactly what the whole history, evicted events included, holds beyond the request |
| `EventLog.NewerMembers` | resource-management/pkg/distributor/cache/eventqueue.go:99-108 | "Newer than the request" selects every event of greater version and no other |
| `EventLog.WindowHolds` | resource-management/pkg/distributor/cache/eventqueue.go:55-66 | What is held of a history is all of it up to 10000 events and its last 10000 beyond |
| `EventLog.NodeEventQueueByLoc.EnqueueEvent` | resource-management/pkg/distributor/cache/eventqueue.go:55-66 | The circular array goes on to hold the last 10000 events of the history, which grows by the new one, oldest evicted first |
| `EventLog.NodeEventQueueByLoc.GetEventsFromIndex` | resource-management/pkg/distributor/cache/eventqueue.go:68-83 | Returns the history from a position that is still held, and reports every other position and the empty log |
| `EventLog.NodeEventQueueByLoc.GetEventIndexSinceResourceVersion` | resource-management/pkg/distributor/cache/eventqueue.go:85-109 | "Empty" and "too old" exactly when they apply, on any history; on a sorted one a position found starts exactly the newer events and "end" means there are none |
| `EventQueue.NodeEventQueue.EnqueueEvent` | resource-management/pkg/distributor/cache/eventqueue.go:140-157 | Appends to the history of the event's location alone, and starts one sender exactly when a watch is installed |
| `EventQueue.NodeEventQueue.GetAllEventsSinceResourceVersion` | resource-management/pkg/distributor/cache/eventqueue.go:205-242 | On sorted histories: fails only where a request is too old; returns nothing only when some requested location is at its end; otherwise, location by location and in order, exactly what is newer in the whole history of a location that the request names, and all that is held, up to the last 10000 events, of one that it does not |
| `EventQueue.AnswerMeans` | resource-management/pkg/distributor/cache/eventqueue.go:205-242 | Each answer of the read in terms of the histories: a failure names a location whose oldest held event is newer than requested; nothing means that the whole history of some location named has nothing newer; events come only if neither is so at any location named |
| `EventQueue.NodeEventQueue.Watch` | resource-management/pkg/distributor/cache/eventqueue.go:159-172 | Refused as a second watch exactly when the channel is installed already; otherwise installs it, with no sender waiting, and starts with the backlog of the read, or leaves channel and senders alone when the read fails |
| `EventQueue.StartMeans` | resource-management/pkg/distributor/cache/eventqueue.go:205-242 | What a started watch sends first: everything held when the request names no location with a queue; for a backlog that is not empty, the newer events of the locations named and everything held of the others; an empty backlog means that some location named has nothing newer |
| `NewestWins.MergeAllIsNewest` | resource-management/pkg/distributor/storage/nodestore.go:401-407 | Merging a list of events leaves, for every node, a version on offer that no other exceeds, and nothing for other nodes |
| `NewestWins.MergeAllPermutes` | resource-management/pkg/distributor/storage/nodestore.go:401-407 | With distinct versions per node the merge does not depend on the order of events |
| `NewestWins.UpsertIsMergeInOrder` | resource-management/pkg/distributor/storage/nodestore.go:401-407 | On events in version order per node, unconditional overwriting equals newest-wins merging |
| `StoreTheorems.ProcessRefinesMerge` | resource-management/pkg/distributor/storage/nodestore.go:367-428 | One Added or Modified event on the sharded ring refines one newest-wins merge on the flat map of all nodes, for every collision-free placement |
| `StoreTheorems.StoreIsFlatMap` | resource-management/pkg/distributor/storage/nodestore.go:314-428 | Over any event sequence the ring holds exactly the flat map that merging the Added and Modified events gives, each entry at its own store and position, and counts as many hosts as the map has nodes |
| `StoreTheorems.GetNodeIsNewest` | resource-management/pkg/distributor/storage/nodestore.go:265-278 | From an empty store, a node is found exactly when an update named it, and with the greatest version among all of them |
| `StoreTheorems.BatchOrderIsIrrelevant` | resource-management/pkg/distributor/storage/nodestore.go:280-338 | Every permutation of a batch with distinct versions per node leaves the same store contents, version counters and host count |
| `StoreTheorems.ReplayChangesNothing` | resource-management/pkg/distributor/storage/nodestore.go:280-338 | Processing a batch a second time changes no store content, version counter or host count |
| `StoreTheorems.VersionsAreMaxima` | resource-management/pkg/distributor/storage/nodestore.go:327-335 | A location's version counter is the maximum of its old value and the versions delivered there |
| `StoreTheorems.PlaceAfterUpdate` | resource-management/pkg/distributor/storage/nodestore.go:367-428 | One update at its place, branch by branch: an empty place takes the node, the same node is replaced by a greater version only, another node by an Added event alone; counts, counters and all other stores accordingly |
| `StoreTheorems.CopiesTold` | resource-management/pkg/distributor/storage/nodestore.go:367-428 | An event is told twice when an Added one names a node that is there or a Modified one finds the place empty, and once otherwise |
| `StoreTheorems.ToldAfterUpdate` | resource-management/pkg/distributor/storage/nodestore.go:367-403 | These copies go to queue and channel of the client that holds the store, at the event's location, and to nobody else |
| `World.BatchIsRun` | resource-management/pkg/distributor/storage/nodestore.go:280-295 | Delivering a batch is a run of single deliveries, so every theorem over runs covers batches |
| `NodeStores.NodeStore.constructor` | resource-management/pkg/distributor/storage/nodestore.go:151-175 | Builds a store that tiles the ring, empty and unassigned, with all counters 0 |
| `NodeStores.NodeStore.GenerateVirtualNodeStores` | resource-management/pkg/distributor/storage/nodestore.go:216-248 | The loops with a running bound give store k the arc from k times the granularity to one granularity further, in its location's block; the end corrections change nothing |
| `NodeStores.NodeStore.GetVirtualNodeStore` | resource-management/pkg/distributor/storage/nodestore.go:342-365 | Position and store of a node as the ring placement gives them, for locations on the ring and off it |
| `NodeStores.NodeStore.AddNodeToRing` | resource-management/pkg/distributor/storage/nodestore.go:367-394 | Enqueues first; an add of a node already there leaves the ring alone, any other overwrites the position and counts a host |
| `NodeStores.NodeStore.UpdateNodeInRing` | resource-management/pkg/distributor/storage/nodestore.go:396-428 | Enqueues first; replaces the same node by a newer version only, ignores another node at the position, and turns into an add where the position is empty |
| `NodeStores.NodeStore.ProcessNodeEvent` | resource-management/pkg/distributor/storage/nodestore.go:314-338 | Ring, version counters, every client queue and every watch channel become what the delivery of the event on values gives; any kind but Added and Modified is refused and changes nothing |
| `NodeStores.NodeStore.ProcessNodeEvents` | resource-management/pkg/distributor/storage/nodestore.go:280-312 | Delivers the non-nil events one by one in order, hands their nodes over in batches of exactly 100, the last one perhaps shorter, that concatenate to them, and then the store status; leaves the wait counter raised by exactly their number, and returns the versions above 0 |
| `NodeStores.PresentDropsNils` | resource-management/pkg/distributor/storage/nodestore.go:283-287 | The events delivered are those of the batch that are not nil, in their order |
| `NodeStores.NodeStore.GetNodeStoreStatus` | resource-management/pkg/distributor/storage/nodestore.go:430-437 | The configured regions, partitions and stores per partition, and the versions above 0 |
| `NodeStores.NodeStore.GetNode` | resource-management/pkg/distributor/storage/nodestore.go:265-278 | Reads the position of the node on the ring |
| `NodeStores.NodeStore.CheckFreeCapacity` | resource-management/pkg/distributor/storage/nodestore.go:198-210 | True exactly when the request is at most the hosts of all stores, assigned or not |
| `NodeStores.NodeStore.GetCurrentResourceVersions` | resource-management/pkg/distributor/storage/nodestore.go:178-190 | Names exactly the locations whose counter is above 0, each with its counter |
| `RingTheorems.VersionsReported` | resource-management/pkg/distributor/storage/nodestore.go:178-190 | After any run from the start a location is named exactly when an update of positive version was delivered there, and with the greatest version delivered there |
| `NodeStores.NodeStore.WatchQueue` | resource-management/pkg/distributor/cache/eventqueue.go:159-172 | Starting a watch changes the channel of that client alone, and only if it starts |
| `VirtualStore.VirtualNodeStore.AssignToClient` | resource-management/pkg/distributor/storage/nodestore.go:65-77 | Succeeds exactly for an unassigned store, a non-empty name and a queue, and changes nothing otherwise |
| `VirtualStore.VirtualNodeStore.SnapShot` | resource-management/pkg/distributor/storage/nodestore.go:88-109 | Every node once, with the greatest version at each location that occurs |
| `VirtualStore.VirtualNodeStore.GenerateBookmarkEvent` | resource-management/pkg/distributor/storage/nodestore.go:111-121 | A bookmark of some node of the store, or nothing exactly when it is empty |
| `Ring.RoutingStaysHome` | resource-management/pkg/distributor/storage/nodestore.go:342-365 | For every number of regions, partitions and stores, an inner hash is routed into its own location's block; the two boundary hashes go to the first store of the next block |
| `Placement.RouterFromHash` | resource-management/pkg/distributor/storage/nodestore.go:342-365 | The placement from the 64-bit hash alone: the store is the first of the location's block plus floor(hash * stores / MaxUint64) of its stores, and the position is at that share of the location's arc in degrees; hash 0 counts as the greatest |
| `Ring.ArcInDegrees` | resource-management/pkg/common-lib/types/location/location.go:178-223 | With n locations, the one numbered b has the arc from 360*b/n to 360*(b+1)/n |
| `Ring.RoutingOnRing` | resource-management/pkg/distributor/storage/nodestore.go:361-365 | Routing stays on the ring if and only if the hash is inner or the location is not the last one |
| `Ring.BoundaryHashLeavesTheRing` | resource-management/pkg/distributor/storage/nodestore.go:361-365 | A node of the last location with a boundary hash is routed to the index behind the last store |
| `Ring.ZeroHashLeavesTheRing` | resource-management/pkg/distributor/storage/nodestore.go:348-350 | An input that does: hash 0 on a ring of one store |
| `Ring.HashWithinStore` | resource-management/pkg/distributor/storage/nodestore.go:361-365 | The ring position lies within the bounds of the store it is routed to |
| `Ring.NodeHashInjective` | resource-management/pkg/distributor/storage/nodestore.go:342-359 | Distinct inner hashes keep distinct ring positions, within and across locations |
| `Ring.BuildArcs` | resource-management/pkg/common-lib/types/location/location.go:178-223 | The nested loops with running bounds give every location its arc in closed form, and none besides |
| `Ring.RunningBounds` | resource-management/pkg/common-lib/types/location/location.go:188-222 | The running bounds equal the closed form, so the corrections at the end of a region and of the ring change nothing |
| `Ring.ArcIsWholeStores` | resource-management/pkg/distributor/storage/nodestore.go:216-231 | An arc is exactly as wide as the stores of its partition |
| `Placement.RoutedHome` | resource-management/pkg/distributor/storage/nodestore.go:361-365 | A node goes to a store of its own location if and only if its hash is inner |
| `Placement.RingIsCollisionFree` | resource-management/pkg/distributor/storage/nodestore.go:342-365 | Distinct inner hashes of the ids in use are enough for a collision-free placement |
| `RingTheorems.NodeStoreTilesTheRing` | resource-management/pkg/distributor/storage/nodestore.go:216-248 | In every valid node store the stores start at 0, end at 360, adjoin, have positive width, and cut each location's arc exactly: store k of n goes from 360*k/n to 360*(k+1)/n and belongs to the location that k over the stores per partition numbers |
| `RingTheorems.HashRingReadsNewest` | resource-management/pkg/distributor/storage/nodestore.go:265-278 | On the hash ring a read finds the newest update of a node in use and nothing else, over any events |
| `RingTheorems.ReadFindsTheHash` | resource-management/pkg/distributor/storage/nodestore.go:265-278 | Reading any id at a known location finds the stored node of that location whose id has the same hash, and none exactly when there is no such node; it has the id asked for exactly when that id is stored |
| `RingTheorems.RunIsFlatMap` | resource-management/pkg/distributor/storage/nodestore.go:314-428 | Through any mix of deliveries and registrations the ring holds the newest-wins merge of all updates |
| `RingTheorems.HostCountIsExact` | resource-management/pkg/distributor/storage/nodestore.go:379-391 | On collision-free placements no event of a run collides, and the host count is the number of nodes in the stores |
| `RingTheorems.HashRingRunsKeepInv` | resource-management/pkg/distributor/distributor.go:96-173 | On the hash ring, every run of registrations under any name and of in-order events keeps queues sorted and every client's bookmark covered |
| `RingTheorems.EveryRegistrationStartsProtocol` | resource-management/pkg/distributor/distributor.go:96-173 | After every such run, a registration leaves a named client in the invariants of the list-then-watch protocol, with nothing under way, and with the newest version of each of its nodes to learn |
| `Ownership.AdmissionIsExact` | resource-management/pkg/distributor/distributor.go:96-133 | With a host count that covers the stores, a fresh client is admitted if and only if it asks for more than 50 and at most what the unassigned stores hold |
| `Ownership.RefusalExactly` | resource-management/pkg/distributor/distributor.go:96-133 | Each of the six errors of a registration, and success, if and only if its conditions on request, host count, stores and names hold |
| `Ownership.GrantMeans` | resource-management/pkg/distributor/distributor.go:117-139 | A grant is a list of distinct unassigned stores with hosts, enough for the request, and too few without the last |
| `Ownership.GrantInAnyOrder` | resource-management/pkg/distributor/distributor.go:121-139 | Whatever order the map yields the free stores in, one prefix of it is a grant: enough for the request, too few without its last store |
| `Ownership.GrantIsUnique` | resource-management/pkg/distributor/distributor.go:121-139 | No two prefixes of one order are grants |
| `Ownership.ProcessCounts` | resource-management/pkg/distributor/storage/nodestore.go:379-391 | The host count gains on the stores' sizes by 1 exactly when an Added event overwrites another node, and never otherwise |
| `Ownership.RunCounts` | resource-management/pkg/distributor/storage/nodestore.go:379-391 | Over every run the host count gains on the stores' sizes by exactly the number of such events |
| `RingTheorems.EqualHashesCollide` | resource-management/pkg/distributor/storage/nodestore.go:379-391 | On every ring, an Added event at the place of another node of its location collides when the hashes of their ids are equal |
| `RingTheorems.AddedMayCollide` | resource-management/pkg/distributor/storage/nodestore.go:379-391 | From the start of every ring, two such nodes leave two hosts counted and one held |
| `Ownership.OwnershipOverRuns` | resource-management/pkg/distributor/distributor.go:117-154 | In every reachable state a store's client is the named client c exactly when it is in c's list, no list has duplicates and those of different named clients are disjoint, the host count is the hosts in all stores plus the collisions so far, and the hosts of named clients plus those in unassigned stores are all hosts |
| `Ownership.EmptyNameHoldsNothing` | resource-management/pkg/distributor/storage/nodestore.go:65-77 | The empty name gets a list, but no store records it and the stores stay free |
| `Distributor.ResourceDistributor.SelectForClient` | resource-management/pkg/distributor/distributor.go:96-139 | The checks in order: the first that fails gives the error, and otherwise the selection is a grant |
| `Distributor.ResourceDistributor.AllocateNodesToClient` | resource-management/pkg/distributor/distributor.go:96-160 | Each of the six errors exactly when it applies, in the order of the checks, and then nothing changes; otherwise one admission step: distinct unassigned stores with hosts go to the client, enough for the request and too few without the last, and nothing else about stores, lists and channels changes |
| `Distributor.ResourceDistributor.AddBookmarkEvent` | resource-management/pkg/distributor/distributor.go:162-173 | The new queue holds one bookmark for each location of the selection, of a node of the first store selected there |
| `Distributor.ResourceDistributor.ListNodesForClient` | resource-management/pkg/distributor/distributor.go:192-243 | The error cases exactly; otherwise every node of the client's stores once, and for each location that occurs the greatest version listed |
| `Distributor.ResourceDistributor.Watch` | resource-management/pkg/distributor/distributor.go:245-264 | Refuses unknown clients, nil versions and nil channels, in this order, and a client that is watched already exactly then; otherwise serves the watch from the client's own history and installs its channel, with no sender waiting, unless the request is too old; no other channel, queue or store changes |
| `Distributor.ResourceDistributor.ProcessEvents` | resource-management/pkg/distributor/distributor.go:266-286 | Delivers the events before the first nil, in order, to ring and queues, drops the rest, hands the nodes over in batches and the status after them, and returns when every batch has reported, whatever the store answered |
| `Distributor.BeforeNilIs` | resource-management/pkg/distributor/distributor.go:266-286 | The events delivered are those before the first nil, in their order |
| `Distributor.ResourceDistributor.GetNodeStatus` | resource-management/pkg/distributor/distributor.go:308-310 | The node as the ring holds it, and for a location that does not exist whatever lies at position 0 |
| `QueueTheorems.StepKeepsInv` | resource-management/pkg/distributor/distributor.go:141-173 | One delivery or registration keeps the joint invariant: nodes at home and no newer than the counter, histories sorted up to it, bookmarks first and covered |
| `QueueTheorems.RunKeepsInv` | resource-management/pkg/distributor/distributor.go:141-173 | Over every in-order run from the start whole queue histories, bookmarks included, are sorted |
| `QueueTheorems.RegistrationQueue` | resource-management/pkg/distributor/distributor.go:162-173 | A registration builds one single-bookmark queue at each location granted and at no other |
| `QueueTheorems.MarksMean` | resource-management/pkg/distributor/distributor.go:162-173 | The bookmarks made are of nodes in those stores that come first in the selection among the stores of their location, one for each such store |
| `QueueTheorems.BookmarkMeans` | resource-management/pkg/distributor/storage/nodestore.go:111-121 | A bookmark carries location, id and version of a node that the store holds |
| `Listing.WatchFromListIsNotTooOld` | resource-management/pkg/distributor/distributor.go:162-240 | In every reachable state a list names each location of every store the client holds, each has a non-empty queue, and a watch from the list is too old at none of them while the bookmark is held, however the queue grew |
| `Listing.ListIsExact` | resource-management/pkg/distributor/distributor.go:207-226 | A list holds a node exactly when it is in a store of the client, at its newest version, exactly once |
| `Listing.NodesOfListing` | resource-management/pkg/distributor/distributor.go:207-226 | Every node in a store of the client is listed, and every node listed is at a place of its own in one of these stores |
| `Listing.VersionsOfListing` | resource-management/pkg/distributor/distributor.go:228-240 | The versions returned are the greatest of the nodes listed at each location, for the locations that occur and no others |
| `Listing.RvMapIsUnique` | resource-management/pkg/distributor/distributor.go:228-240 | The versions returned are determined by the stores listed |
| `Isolation.QueueHoldsOwnEvents` | resource-management/pkg/distributor/storage/nodestore.go:367-403 | Over every run a client's history grows by exactly the updates that route to its own stores, in order, each once or twice |
| `Isolation.NoEventInTwoQueues` | resource-management/pkg/distributor/storage/nodestore.go:367-403 | No event enters the queues of two clients |
| `Isolation.WatchedClientIsHandedAll` | resource-management/pkg/distributor/cache/eventqueue.go:140-157 | Over every run, the senders of a watched client are handed exactly what its queue takes in, every occurrence of it, and its channel stays installed |
| `ListWatch.StepKeepsInv` | resource-management/pkg/distributor/storage/nodestore.go:367-428 | Every enqueue, apply and snapshot step, in any interleaving, keeps the joint invariant of stores, queue, pending events and snapshots |
| `ListWatch.RunKeepsInv` | resource-management/pkg/distributor/distributor.go:207-215 | Every interleaving of producers with lists that snapshot store by store under the enqueue lock keeps the invariant |
| `ListWatchOrigin.RegistrationStartsProtocol` | resource-management/pkg/distributor/distributor.go:96-173 | The invariant holds right after every registration in a reachable state |
| `ListWatchOrigin.ProducerAloneDelivers` | resource-management/pkg/distributor/storage/nodestore.go:367-428 | A producer that nobody interrupts does to stores and queue exactly what the delivery of its event does |
| `ListWatchOrigin.ListedAloneIsTheList` | resource-management/pkg/distributor/distributor.go:207-240 | The versions of an uninterrupted list of the protocol are those the distributor's list returns |
| `ListWatchTheorems.LatestIsNewest` | resource-management/pkg/distributor/storage/nodestore.go:367-428 | The record of what there is to learn is the newest-wins merge of all events taken up |
| `ListWatchTheorems.MirrorCatchesUp` | resource-management/pkg/distributor/distributor.go:207-240 | After a complete list, the listed nodes merged with any events of the queue, none missing that is newer than the list, are the newest version of every node of the client |
| `ListWatchTheorems.ListThenWatchExactly` | resource-management/pkg/distributor/cache/eventqueue.go:205-242 | Over every interleaving, whether or not versions repeat, and whenever the read returns events: the listed nodes overwritten in order by the watch's backlog are the newest version of every node of the client, for any number of locations, if and only if no newest version is at the version listed for its location without having been listed |
| `ListWatchTheorems.ListThenWatchLosesNothing` | resource-management/pkg/distributor/cache/eventqueue.go:205-242 | Where versions strictly increase at each location they always are |
| `ListWatchTheorems.AnswerIsEnoughExactly` | resource-management/pkg/distributor/cache/eventqueue.go:205-242 | For every answer that is no error, the listed nodes overwritten by it are up to date if and only if no location is at its end or none has a newer update, and no newest version at the version listed was left out of the list |
| `ListWatchTheorems.MirrorIsCurrentExactly` | resource-management/pkg/distributor/distributor.go:207-240 | The listed nodes merged with any events of the queue are up to date if and only if the newest version of every node is among the two |
| `ListWatchTheorems.StrictVersionsAreListed` | resource-management/pkg/distributor/distributor.go:228-240 | Where versions strictly increase, no newest version at the version listed was left out of the list |
| `ListWatchTheorems.OneLocationExactly` | resource-management/pkg/distributor/cache/eventqueue.go:205-242 | A client held in one location is up to date whatever its watch is answered, errors apart, if and only if its list was complete in that sense |
| `ListWatchTheorems.OneLocationLosesNothing` | resource-management/pkg/distributor/cache/eventqueue.go:205-242 | Where versions strictly increase it always is |
| `ListWatchTheorems.OneLocationStartsGood` | resource-management/pkg/distributor/cache/eventqueue.go:211-215 | Where versions strictly increase, every watch of a client held in one location that is no error starts complete, even from an empty answer |
| `ListWatchTheorems.NotTooOldBeforeEviction` | resource-management/pkg/distributor/cache/eventqueue.go:91-96 | For lists that snapshot store by store among pending applies: the version listed at a location is not too old while the first event ever queued there is held |
| `ListWatchTheorems.NoRefusalBeforeEviction` | resource-management/pkg/distributor/cache/eventqueue.go:205-220 | So a watch from any such list is answered without error until some location has had more than 10000 events |
| `ListWatchCoverage.RunKeepsTail` | resource-management/pkg/distributor/storage/nodestore.go:367-428 | Over every interleaving the stores cover all of every queue, except for the at most two copies of the event under way, and a second try never fails |
| `ListWatchCoverage.ListEndsCovered` | resource-management/pkg/distributor/distributor.go:207-240 | When a list ends, all but the last two events of every queue are no newer than the version returned for its location |
| `ListWatchCoverage.RecentListIsServed` | resource-management/pkg/distributor/cache/eventqueue.go:91-96 | However old the queue: from the end of a list on, a watch from its versions is not too old at a location while fewer than 9998 events were told there |
| `ListWatchCoverage.RecentListIsNotRefused` | resource-management/pkg/distributor/cache/eventqueue.go:205-220 | So the watch is answered without error while that holds at every location |
| `ListWatchTheorems.EndOfOneLocationHidesAnother` | resource-management/pkg/distributor/cache/eventqueue.go:211-215 | From every state in which a client that listed is up to date, a new event of its stores at one location leaves it behind: the watch is answered with nothing, because another location, whose queue has lost nothing yet, has nothing newer |
| `ListWatchOrigin.RegisteredListIsComplete` | resource-management/pkg/distributor/distributor.go:96-243 | From every registration, a list that nobody interrupts gives the client the newest version of every node |
| `ListWatchOrigin.RegisteredClientIsLeftBehind` | resource-management/pkg/distributor/cache/eventqueue.go:211-215 | So from every registration in several locations, listing and then taking up one event leads to a client that is left behind by an empty answer |
| `ListWatchOrigin.ListedRvsExist` | resource-management/pkg/distributor/distributor.go:228-240 | Every list has greatest versions to return |
| `ListWatchTheorems.EqualVersionIsLost` | resource-management/pkg/distributor/cache/eventqueue.go:99-108 | Where versions may repeat: from every state in which a client listed, a new event at the very version listed for its location leaves the client behind, whatever the answer |
| `WatchSession.SessionConserves` | resource-management/pkg/distributor/cache/eventqueue.go:172-203 | Until the stop, every occurrence in the backlog or enqueued since is in exactly one place: backlog, sender, hand, delivered |
| `WatchSession.BacklogComesFirst` | resource-management/pkg/distributor/cache/eventqueue.go:178-197 | The whole backlog is delivered in order before any live event |
| `WatchSession.DrainedDeliversAll` | resource-management/pkg/distributor/cache/eventqueue.go:172-203 | A drained session delivered the backlog and then each live event exactly once |
| `WatchSession.SessionMakesProgress` | resource-management/pkg/distributor/cache/eventqueue.go:178-200 | As long as events are left and nobody stops it, a session can go on |
| `WatchSession.StoppedIsSilent` | resource-management/pkg/distributor/cache/eventqueue.go:184-189 | A session that stopped sent its whole backlog, has no event in hand and sends nothing more, whatever is enqueued |
| `WatchSession.ChannelFeedsSession` | resource-management/pkg/distributor/cache/eventqueue.go:140-172 | After a watch has started, over every run of the distributor, the senders at the client's channel are those of a session that was told exactly what the client's queue took in |
| `WatchSession.DrainedExactly` | resource-management/pkg/distributor/cache/eventqueue.go:140-203 | For any number of locations and any answer that is no error, with producers going on in any interleaving and live events in any order: when the session is drained, the listed nodes merged with all that was sent are the newest version of every node, if and only if every node whose newest version was missed at the start was told an event since |
| `WatchSession.WatchKeepsMirrorCurrent` | resource-management/pkg/distributor/cache/eventqueue.go:140-203 | From a start that missed nothing they always are |
| `WatchSession.OneLocationLearnsEverything` | resource-management/pkg/distributor/cache/eventqueue.go:140-203 | The same for a client held in one location where versions strictly increase, whatever its watch was answered, errors apart |
| `WatchSession.ClientLearnsEverything` | resource-management/pkg/distributor/cache/eventqueue.go:140-203 | From registration on: what the client ends with is the newest-wins merge of the versions at registration and of every event of its stores since |
| `WatchSession.AnyOrderHappens` | resource-management/pkg/distributor/cache/eventqueue.go:143-147 | Every order of the live events is the outcome of some session |
| `WatchSession.BlindClientIsRightExactly` | resource-management/pkg/distributor/cache/eventqueue.go:143-147 | A client that overwrites without comparing versions ends with the newest version of every node in every session, if and only if no node was told two different events since the watch started |
| `WatchSession.LiveEventsMayOvertake` | resource-management/pkg/distributor/cache/eventqueue.go:143-147 | Two live events of one node delivered in the wrong order, after which such a client keeps the older one |
| `IndexedStore.PutAgreesUnlessStale` | resource-management/pkg/clientSdk/tools/cache/thread_safe_store.go:69-83 | Add and Update keep the indices in agreement with a scan if and only if they do not overwrite a nil object that has an index value the new object lacks |
| `IndexedStore.NilOverwriteLeavesStale` | resource-management/pkg/clientSdk/tools/cache/thread_safe_store.go:252-257 | An input that does: the key stays in the index of nil, and the indices disagree with a scan |
| `IndexedStore.IndexAgreesWithScan` | resource-management/pkg/clientSdk/tools/cache/thread_safe_store.go:69-133 | Over any sequence of operations none of which is such an overwrite, each index set holds exactly the keys whose current object yields the value |
| `IndexedStore.NonNilRunsAgree` | resource-management/pkg/clientSdk/tools/cache/thread_safe_store.go:69-133 | In particular over any sequence of operations on non-nil objects |
| `IndexedStore.ByIndexIsFilter` | resource-management/pkg/clientSdk/tools/cache/thread_safe_store.go:176-194 | Under agreement a list by index is the filter of all items: none missing, none twice, none that does not match |
| `IndexedStore.IndexIsFilter` | resource-management/pkg/clientSdk/tools/cache/thread_safe_store.go:137-173 | The same for all values the index yields for an object |
| `IndexedStore.ThreadSafeMap.Add` | resource-management/pkg/clientSdk/tools/cache/thread_safe_store.go:69-75 | Panics exactly when an index function fails on the new or the non-nil old object; otherwise the indices lose the old object and gain the new one, and no other entry changes |
| `IndexedStore.ThreadSafeMap.Update` | resource-management/pkg/clientSdk/tools/cache/thread_safe_store.go:77-83 | As Add |
| `IndexedStore.ThreadSafeMap.Get` | resource-management/pkg/clientSdk/tools/cache/thread_safe_store.go:94-99 | The item under a key, and whether there is one, nil items included |
| `IndexedStore.ThreadSafeMap.Delete` | resource-management/pkg/clientSdk/tools/cache/thread_safe_store.go:85-92 | A present key leaves items and indices; an absent one changes nothing; a failing index function leaves the items alone |
| `IndexedStore.ThreadSafeMap.Replace` | resource-management/pkg/clientSdk/tools/cache/thread_safe_store.go:123-133 | Whatever the state before, the new items and indices agree, unless an index function fails |
| `IndexedStore.ThreadSafeMap.AddIndexers` | resource-management/pkg/clientSdk/tools/cache/thread_safe_store.go:229-248 | Succeeds exactly on an empty store without name conflicts, and then adds the new indexers to the old ones; changes nothing otherwise |
| `IndexedStore.ThreadSafeMap.UpdateIndices` | resource-management/pkg/clientSdk/tools/cache/thread_safe_store.go:252-277 | Takes a non-nil old object out and puts the new one in, entry by entry |
| `IndexedStore.ThreadSafeMap.DeleteFromIndices` | resource-management/pkg/clientSdk/tools/cache/thread_safe_store.go:281-299 | Takes the key out of exactly the sets of the object's values |
| `IndexedStore.ThreadSafeMap.Index` | resource-management/pkg/clientSdk/tools/cache/thread_safe_store.go:137-173 | Fails exactly on an unknown index or a failing index function; lists the items under any of the values, each once |
| `IndexedStore.ThreadSafeMap.ByIndex` | resource-management/pkg/clientSdk/tools/cache/thread_safe_store.go:176-194 | Fails exactly on an unknown index; lists the items under the value, each once |
| `IndexedStore.ThreadSafeMap.IndexKeys` | resource-management/pkg/clientSdk/tools/cache/thread_safe_store.go:198-211 | Fails exactly on an unknown index; the keys under the value, each once and sorted |
| `IndexedStore.LexLessIsFirstDifference` | resource-management/pkg/clientSdk/tools/cache/thread_safe_store.go:198-211 | Sorted means: before one another by the first character that differs, and a proper prefix first |
| `Persistence.BatchCount` | resource-management/pkg/distributor/storage/nodestore.go:280-302 | The number of batches is the number of nodes divided by 100, rounded up |
| `Persistence.DistributorPersistHelper.Save` | resource-management/pkg/distributor/storage/memorycache.go:47-70 | At most six attempts, stopping at the first success, and the counter drops by the batch size for every outcome |
| `Persistence.DistributorPersistHelper.WaitForAllNodesSaved` | resource-management/pkg/distributor/storage/memorycache.go:72-75 | Whatever the store answers to each attempt, every launched batch is tried until the first success or six failures, reports, and the counter ends at 0 |
| `Persistence.SavingStepKeepsInv` | resource-management/pkg/distributor/storage/memorycache.go:43-75 | The wait counter is always the number of events unread, unsent or due from a saving goroutine |
| `Persistence.WaitEndsAfterAllSaved` | resource-management/pkg/distributor/storage/memorycache.go:43-75 | Over every interleaving and outcome the counter is never negative, is 0 only when every batch was accepted or tried six times, and is 0 whenever no step is left |
| `Persistence.SavingStepMakesProgress` | resource-management/pkg/distributor/storage/memorycache.go:47-70 | Every step leaves less work, so every run ends |
| `Latency.RankIsNearest` | resource-management/pkg/common-lib/metrics/latency.go:71-76 | In ascending samples the index ceil(p*n/100)-1 is in range and holds the nearest-rank percentile: at least that many samples are at most it and fewer are below it |
| `Latency.NearestRankInPercent` | resource-management/pkg/common-lib/metrics/latency.go:71-76 | The nearest-rank percentile p is a sample such that at least p percent of all samples are at most it and fewer than p percent are below it |
| `Latency.NearestRankPermutes` | resource-management/pkg/common-lib/metrics/latency.go:60-62 | The nearest rank depends on the samples and not on their order |
| `Latency.PercentilesAreOrdered` | resource-management/pkg/common-lib/metrics/latency.go:71-76 | A greater rank gives no smaller percentile |
| `Latency.ReportIsUnique` | resource-management/pkg/common-lib/metrics/latency.go:60-78 | The samples determine the report |
| `Latency.LatencyMetrics.AddLatencyMetrics` | resource-management/pkg/common-lib/metrics/latency.go:44-46 | One more sample, after the others |
| `Latency.LatencyMetrics.Sort` | resource-management/pkg/common-lib/metrics/latency.go:48-62 | Through swaps alone the samples become ascending and stay the same multiset |
| `Latency.LatencyMetrics.GetSummary` | resource-management/pkg/common-lib/metrics/latency.go:60-78 | For the samples as they came: their number and the nearest-rank P50, P90 and P99, or zeros for none, and P50 <= P90 <= P99 |

## Left out

- HTTP handlers, REST encoding, Redis, JSON and the aggregator's pull loop: input and output.
- `Release`, `DeleteNode`, unregistering a client and `Resync`: empty, unused or unimplemented in the source.
- Checkpoint timestamps, logging, latency printing: no effect on the modelled state.
- The string hash itself, and rounding of floating-point numbers: the ring is modelled in exact reals.
- Parsing of version strings: versions are natural numbers below 2^64. An event that is itself nil is modelled, a non-nil event without a node is not.
- What happens after a batch or a status could not be saved, and the persistence calls inside registration: the source ignores their results.
- `Distributor.ResourceDistributor.ProcessEvents`: the saving goroutines are run one after the other when the call waits for them; their interleavings are the subject of `Persistence.WaitEndsAfterAllSaved`.
- Locks are not objects of the model. The classes run one operation at a time; ListWatch and WatchSession model the interleavings the locks allow, and Persistence those of its goroutines. Registration is one step, so a registration that races an event already under way is not modelled.
- The order of writes inside a registration: the source writes `nodeEventQueueMap` before it enqueues the bookmarks, the model after; both are part of one step.
- Reading the backlog and installing the watch channel is one step, as is sending one backlog event; a sender looks its channel up when it is started. A second watch after a stop, and senders that a stop leaves waiting, are not modelled further.
- Starting a watch is no step of a run: it changes one channel and nothing else (`Distributor.ResourceDistributor.Watch`), and `Isolation.WatchedClientIsHandedAll` and `WatchSession.ChannelFeedsSession` are about the runs after it. Stopping one is modelled in WatchSession only.
- `EventLog.NodeEventQueueByLoc.GetEventsFromIndex`: the result is built as a sequence instead of a slice of computed length.
- `EventLog.NodeEventQueueByLoc.Search`: the library's binary search, written out.
- `Distributor.ResourceDistributor.GetSortedVirtualStores`: stores are named by their position on the ring; despite its name the source does not sort, and the model yields any order.
- `NodeStores.NodeStore.GetNode`: required of callers is only that the index is on the ring, where the source would panic; a location that does not exist reads position 0 of the first store, as in the source.
- `Listing.WatchFromListIsNotTooOld`: covers the time until the bookmark is evicted, that is, 10000 events at the location, and lists taken in one step; `ListWatchTheorems.NotTooOldBeforeEviction` and `ListWatchCoverage.RecentListIsServed` cover lists taken store by store.
- `ListWatch.StepKeepsInv`: follows one client; events of stores it does not hold only matter as steps that leave it alone.
- `WatchSession.WatchKeepsMirrorCurrent`: needs a start that missed nothing; `WatchSession.DrainedExactly` gives the exact condition without it.
- `WatchSession.ClientLearnsEverything`: the same; `WatchSession.OneLocationLearnsEverything` is the form without the assumption.
- `IndexedStore.ThreadSafeMap.Add`: after a panic inside an index function only items and indexers are described, not the half-updated indices. Items are values: a caller that keeps changing the map it passed to `Replace`, or an object it stored, is outside the model.
- The indexed store's `List`, `ListKeys`, `ListIndexFuncValues` and `GetIndexers`: they only copy fields.
- `Latency.LatencyMetrics.Sort`: the library's sort is replaced by a simple one with the same swaps interface; the result is determined by the samples.
- The generated set types, the region simulator, the end-to-end client, the rate limiter and the stream watcher: wrappers and tools around the modelled core.
