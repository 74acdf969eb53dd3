# Exanodes: a verified model of the clustering core

Exanodes turns the disks of a cluster of nodes into shared storage. This project
models the protocols and data structures that its daemons rely on, and proves
what they promise over every run, every input or every reachable state.

- **Supervision** (`Clique`, `SupView`, `SupCluster`, `Supervision`,
  `SupervisionDaemon`, `SupervisorPaths`, `Agreement`, `AgreementSteps`,
  `MemberSchedules`, `AgreementProgress`, `AgreementReached`, `StrandedMember`,
  `RestartWitness`): nodes ping each other, compute cliques and agree on
  memberships, although pings are lost, duplicated and reordered.
- **Recovery** (`Recovery`, `RecoveryRuns`, `RecoveryHistory`,
  `RecoveryConvergence`, `RecoveryInterrupts`, `RecoveryEngine`): the leader brings a hierarchy of
  services up and down on nodes, one recovery after another, any of which may be
  interrupted.
- **Reliable multicast** (`SequenceNumbers`, `ReceiveStream`, `ResendRing`,
  `RetransmitSchedule`): 16-bit sequence numbers, in-order delivery, the ring of
  sent messages and the scheduling of retransmissions between two threads.
- **Requests to daemons** (`RequestQueue`, `RequestProtocol`): a client thread
  that may interrupt its request, a pusher thread and a worker thread.
- **Barriers** (`BarrierVerdict`, `Barrier`): any number of members and two
  alternating mailboxes.
- **Data structures** (`CacheWindow`, `StreamCache`, `NbdList`, `Checksum`, `Bits`,
  `Nodeset`): a write-back cache against a flat file, lists threaded through one
  array, the incremental checksum, and sets of nodes in two 64-bit cells.

Each protocol is a state machine over values, with an invariant that every step
keeps, theorems about whole runs, and a class whose methods do what the state
machine says. Methods of these classes that only repeat a step of the state
machine in place, without a loop of their own, are not listed below. `Common`
holds shared types.

Where the code differs from its own documentation, the model follows the code:

- The comment at `csupd/src/sup_clique.c:150` says that nodes are sorted by
  decreasing membership size. The comparison sorts them by increasing size
  (`Clique.Order`), and so it is the node that sees the fewest others that is
  placed first (`Clique.FewestSeenIsPlaced`).
- The comment at `admind/src/instance.c:861` says that a service is never
  committed up on a node where the service below is not. A recovery down removes
  the node from the lower service first, so this fails
  (`RecoveryRuns.CommittedAloneIsNotHierarchical`). It does hold for the nodes
  that are not pending down (`RecoveryRuns.HierarchyHolds`,
  `RecoveryRuns.CommittedIsIncludedIff`).
- `common/include/checksum.h:32` demands an even size. Odd sizes work too, and a
  stored checksum checks even when the 32-bit sum wraps around
  (`Checksum.StoredChecksumChecks`).
- When the only retransmission request under way is taken while the network is
  down, the note of it stays behind (`RetransmitSchedule.MarkCanOutliveRequests`).
  Later requests are then dropped until one older than the note comes
  (`RetransmitSchedule.MatchedIff`, `RetransmitSchedule.MarkDropsRequests`).
- A check-down that is pending on a service that is up nowhere is not wanted
  before the service is up. The test for blockable events answers yes because of
  it, also in the recovery that would bring the service up
  (`RecoveryConvergence.CheckCanBeStranded`). A query asks the test only after a
  second without an answer (`admind/src/daemon_api_client.c:122-132`). If queries
  go unanswered, recoveries can then be interrupted without end; with no such
  check they cannot (`RecoveryInterrupts.RunEndsIff`).
- A stream cannot read an uncached sector when the cache, placed there, would
  pass the end of the device, even if the bytes asked for would not
  (`StreamCache.TailIsOutOfReach`). Which calls succeed is a function of where
  the cache stands (`CacheWindow.WalkSucceedsIff`, `StreamCache.Calls`), and only
  a cache of one sector serves all (`CacheWindow.OneSectorServesAll`).
- A member that has taken over a new clique and then hears of the commit of the
  old one goes to state COMMIT (`csupd/src/exa_csupd.c:388-402`), in which it
  accepts nothing. If nothing else changes, the new clique is never agreed on,
  although all members see each other and know each other's views
  (`StrandedMember.MemberIsStranded`). Agreement is reached if and only if every
  member is in state CHANGE, is marked, or is to hear of another coordinator
  (`AgreementReached.AgreementIsReachedIff`).
- A coordinator that finds a member restarted may commit without it
  (`RestartWitness.RestartedMemberIsSkipped`): its tests stop at num_seen, which
  shrinks when the highest node goes out of sight, and so say nothing of members
  at or past it (`Agreement.CommitIsFullIff`).

## Model

| member | source | states |
|---|---|---|
| `Clique.Order` | csupd/src/sup_clique.c:85-164 | The sorted nodes are all known nodes, each once, by increasing number of nodes seen and then by increasing id. |
| `Clique.OrderIsUnique` | csupd/src/sup_clique.c:85-102 | The comparison leaves a single order, whatever the sorting algorithm. |
| `Clique.PassIsMaximal` | csupd/src/sup_clique.c:184-235 | A remaining node that a pass leaves out and some node of the result do not see each other. |
| `Clique.ComputePass` | csupd/src/sup_clique.c:184-235 | The loop gives the pass of which `Clique.PassIsMaximal` and `Clique.CliquesPartition` speak. |
| `Clique.ComputeClique` | csupd/src/sup_clique.c:138-253 | The computation finds the clique of the local node; the final assertion is out of reach. |
| `Clique.CliqueIsMaximal` | csupd/src/sup_clique.c:174-248 | Members of a result see each other, and no node left over by earlier passes could be added. |
| `Clique.FewestSeenIsPlaced` | csupd/src/sup_clique.c:85-248 | Of the nodes left over by earlier passes, the one that sees the fewest nodes, the lowest id first, is in the result. |
| `Clique.CliquesAreGreedy` | csupd/src/sup_clique.c:85-248 | A node whose clique is not led by an earlier node is in a clique if and only if it and every member before it, by number of nodes seen and id, see each other. |
| `Clique.CliqueIsSeen` | csupd/src/sup_clique.c:138-253 | A node sees every member of its own clique. |
| `Clique.CliquesPartition` | csupd/src/sup_clique.c:174-248 | With equal tables two nodes compute equal or disjoint cliques, and equal exactly when one is in the clique of the other. |
| `Clique.CliquesAreApart` | csupd/src/sup_clique.c:174-248 | Of two nodes in different cliques, one cannot join the clique of the other. |
| `Clique.CleanSplitGivesSides` | csupd/src/sup_clique.c:138-253 | In a cleanly split cluster the clique of a node is its whole side. |
| `Clique.Ids` | common/include/exa_nodeset.h:128-133 | Iteration gives exactly the members, in ascending order. |
| `SupView.AddNode` | csupd/src/sup_view.c:66-74 | The node is added and num_seen stays one past the highest node seen. |
| `SupView.DelNode` | csupd/src/sup_view.c:82-98 | The node is removed and num_seen shrinks to one past the highest node left. |
| `SupView.TightIsUnique` | csupd/src/sup_view.c:66-98 | num_seen is a function of the nodes seen. |
| `SupCluster.Cluster.constructor` | csupd/src/sup_cluster.c:59-74 | All slots are free and no node is known. |
| `SupCluster.Cluster.Find` | csupd/src/sup_cluster.c:42-52 | A node is found exactly when it is known. |
| `SupCluster.Cluster.AddNode` | csupd/src/sup_cluster.c:87-112 | Each error is given exactly in its case; the slot, the set and the count agree, and other slots are untouched. |
| `SupCluster.Cluster.DelNode` | csupd/src/sup_cluster.c:122-144 | The slot is freed, the node is no longer known, and the error is given exactly for an unknown node. |
| `Supervision.StartedKeepsInv` | csupd/src/exa_csupd.c:794-851 | A supervisor starts in the invariant. |
| `Supervision.SendKeepsInv` | csupd/src/exa_csupd.c:646-700 | Sending keeps the invariant, and the ping sent passes the check that both sides assert. |
| `Supervision.ReceiveKeepsInv` | csupd/src/exa_csupd.c:513-641 | Receiving any ping keeps the invariant, also from a node that has restarted; a member of the clique that goes out of sight leaves a mark of change. |
| `Supervision.AgedIsSound` | csupd/src/exa_csupd.c:193-211 | Ageing forgets no node of the table, and leaves a table on which cliques can be computed; `SupervisorPaths.SeenIff` says whom it drops. |
| `Supervision.NextGenIsNew` | csupd/src/exa_csupd.c:285-300 | A new generation is above all that any seen node accepted or committed, as far as the proposer knows. |
| `Supervision.AcceptKeepsInv` | csupd/src/exa_csupd.c:307-314 | Accepting a clique keeps the invariant. |
| `Supervision.CommitKeepsInv` | csupd/src/exa_csupd.c:319-335 | Committing keeps the invariant. |
| `Supervision.ReactKeepsInv` | csupd/src/exa_csupd.c:342-503 | The reactions of all three states keep the invariant. |
| `SupervisionDaemon.Daemon.UpdateLastSeen` | csupd/src/exa_csupd.c:193-211 | Although its bound shrinks as it runs, the loop does the ageing of which `SupervisorPaths.SeenIff` speaks. |
| `SupervisionDaemon.Daemon.CliqueSeesSelf` | csupd/src/exa_csupd.c:219-244 | The loop decides whether every member is seen, has the same clique and has the same coordinator. |
| `SupervisionDaemon.Daemon.CliqueAccepted` | csupd/src/exa_csupd.c:254-277 | The loop decides whether every member is seen, has the same clique and has accepted the generation. |
| `SupervisionDaemon.Daemon.ComputeNextGen` | csupd/src/exa_csupd.c:285-300 | The loop computes one more than the highest generation known. |
| `SupervisionDaemon.Daemon.Process` | csupd/src/exa_csupd.c:598-641 | A ping is noted, unless it is the own one, before the state reacts to it as `AgreementSteps.AcceptsIff` and `AgreementSteps.DeliversIff` say; the invariant is kept in all three states, so no asserted case is reached. |
| `SupervisionDaemon.Daemon.BeforePing` | csupd/src/exa_csupd.c:646-690 | Nodes age before the clique is recomputed, and what is then sent keeps the invariant. |
| `SupervisorPaths.PathKeepsInv` | csupd/src/exa_csupd.c:738-784 | Whatever pings one supervisor sends and gets, restarts of other nodes included, it keeps the invariant. |
| `SupervisorPaths.SeenIsWatched` | csupd/src/exa_csupd.c:148-211 | Over all that a supervisor sends and gets, it sees exactly the nodes that have pinged, have not been silent for the timeout since, and have not come back restarted while seen. |
| `SupervisorPaths.SeenIff` | csupd/src/exa_csupd.c:148-211 | A node that does not restart is seen if and only if it has been heard and the periods since its last ping add up to less than the timeout. |
| `SupervisorPaths.SentAnnounces` | csupd/src/exa_csupd.c:646-700 | A ping goes out in state CHANGE if and only if that was the state, there is a mark of change, or a node goes out of sight with it; the marks are then gone. |
| `SupervisorPaths.GotMarks` | csupd/src/exa_csupd.c:513-543 | A ping leaves a mark if and only if the nodes seen change, or its sender is new, has restarted, sees other nodes or has another coordinator. |
| `SupervisorPaths.CliqueIsCurrent` | csupd/src/exa_csupd.c:646-690 | After every ping sent, the clique is the one that the table of that moment gives, although it is computed again only on a mark. |
| `Agreement.RunKeepsInv` | csupd/src/exa_csupd.c:738-784 | Every state of every run, with any loss, duplication and reordering of pings, satisfies the cluster invariant. |
| `Agreement.DeliveriesAgree` | csupd/src/exa_csupd.c:285-467 | Two nodes that deliver the same generation for cliques with the same lowest member deliver the same clique. |
| `Agreement.DeliveriesAreSound` | csupd/src/exa_csupd.c:319-467 | Delivered generations rise; a node is in what it delivers, accepted it before, its lowest member proposed it, and a coordinator delivered that generation. |
| `Agreement.CommitHasEvidence` | csupd/src/exa_csupd.c:254-467 | When a coordinator delivers a membership, every other member had accepted that generation. |
| `AgreementSteps.AcceptsIff` | csupd/src/exa_csupd.c:285-386 | In every run, exactly which ping makes a supervisor accept, and which membership: a coordinator when all members hold its clique and coordinator, with the generation after the highest it knows; another when its coordinator, in ACCEPT, has its clique and a generation above both of its own. |
| `AgreementSteps.DeliversIff` | csupd/src/exa_csupd.c:254-467 | In every run, exactly which ping makes a supervisor deliver, and that it is what it accepted last: a coordinator when all members have accepted its generation; another when a node in COMMIT has committed that membership and it has not itself. |
| `AgreementProgress.MovableAgree` | csupd/src/exa_csupd.c:342-467 | When all members of a clique can move and the coordinator knows their generations, a schedule after which all have delivered the same membership, which none had accepted before. |
| `AgreementReached.AgreementIsReachedIff` | csupd/src/exa_csupd.c:342-503 | In every state of every run in which the members of a clique hold equal tables and each other's views, and as long as no table changes, some schedule lets all of them deliver the same new membership if and only if each is in state CHANGE, is marked, or is to hear of another coordinator. |
| `AgreementReached.AgreementIsReached` | csupd/src/exa_csupd.c:342-503 | The run can then be extended to one in which all members have delivered it. |
| `StrandedMember.MemberIsStranded` | csupd/src/exa_csupd.c:388-402 | A run after which three nodes see each other, know each other's views and hold the same clique, and yet cannot agree on it. |
| `Agreement.CommitIsFullIff` | csupd/src/exa_csupd.c:254-277 | Restarts included: a coordinator that commits has the acceptance of all other members if and only if those at or past num_seen, which its loop does not visit, have accepted. |
| `Agreement.SeenCommitIsFull` | csupd/src/exa_csupd.c:254-277 | A coordinator that commits and still sees all members has the acceptance of all. |
| `RestartWitness.RestartedMemberIsSkipped` | csupd/src/exa_csupd.c:513-543 | From the start of a supervisor, the pings after which it has delivered a clique of three, one of which has restarted and has not accepted. |
| `Recovery.NodeDownIsKept` | admind/src/instance.c:237-277 | On the leader no down event is dropped: the node becomes pending in every service that has it or is bringing it up. |
| `Recovery.NodeDownIff` | admind/src/instance.c:237-277 | A node that goes down becomes pending if and only if the service has it or is bringing it up, and has or is bringing up the local node. |
| `Recovery.LowerIsUp` | admind/src/instance.c:861-871 | A service that is up somewhere stands on a service that is up somewhere. |
| `Recovery.SyncBeforeIsIdentity` | admind/src/instance.c:949-981 | On the leader the synchronisation before a recovery changes nothing. |
| `Recovery.NewcomersSeeAll` | admind/src/instance.c:949-981 | During a recovery up, what a node has and what is coming up for it is all that will have the service, on old nodes and newcomers. |
| `Recovery.FollowersAgree` | admind/src/instance.c:949-1112 | A finished recovery leaves every node that took part with the committed nodes of the leader. |
| `RecoveryRuns.RunKeepsInv` | admind/src/instance.c:204-520 | Every state reached by node events, check events, interrupted and completed recoveries satisfies the invariant. |
| `RecoveryRuns.HierarchyHolds` | admind/src/instance.c:861-871 | In every run, the nodes where a service is up and not pending down are among those of every lower service. |
| `RecoveryRuns.MissingBelowIsPending` | admind/src/instance.c:861-871 | In every run, a node that has a service but not one below it is pending down. |
| `RecoveryRuns.CommittedIsIncludedIff` | admind/src/instance.c:861-871 | In every run, the committed nodes of a service are among those of a lower one if and only if its nodes pending down are. |
| `RecoveryRuns.FinishIsEnabled` | admind/src/instance.c:1050-1112 | The assertion on the number of checks handled holds whenever a service is finished. |
| `RecoveryHistory.ChecksAreConserved` | admind/src/instance.c:1071-1096 | In every run, the checks pending for a service are those that came less those that finished check recoveries had read: one that comes after the reading stays. |
| `RecoveryHistory.NodesAreAccountedFor` | admind/src/instance.c:204-277 | In every step of every run, exactly when a node becomes or stops being wanted up, committed and pending down. |
| `RecoveryHistory.ResourcesAreAccountedFor` | admind/src/instance.c:1050-1112 | In every step of every run, exactly when changed resources are noted and when the note is cleared. |
| `RecoveryHistory.OnlyUpStarts` | admind/src/instance.c:346-390 | In every run, a service that is up nowhere takes part in recoveries up only. |
| `RecoveryRuns.CommittedAloneIsNotHierarchical` | admind/src/instance.c:861-871 | A run in which a service is committed up on a node where the service below is not. |
| `RecoveryConvergence.NothingIsSettled` | admind/src/instance.c:417-438 | The answer is NOTHING if and only if every service is committed up on exactly the nodes that are up and nothing is pending. |
| `RecoveryConvergence.RecoveryCompletes` | admind/src/instance.c:1256-1345 | A recovery that is computed and not interrupted leads, by steps of the state machine, to the state in which every service has taken over its result. |
| `RecoveryConvergence.RankDrops` | admind/src/instance.c:1015-1112 | A completed recovery decreases a measure of check-downs, pending downs, missing ups and check-ups. |
| `RecoveryConvergence.RunsConverge` | admind/src/evmgr/evmgr.c:951-965 | From every state of every run, at most seven completed recoveries settle every service, when no more events come. |
| `RecoveryConvergence.StartIsBlockableIff` | admind/src/instance.c:842-892 | At the start of a recovery the test for blockable events answers yes if and only if a check-down is to be handled, or is pending on a service that is up nowhere. |
| `RecoveryConvergence.CheckCanBeStranded` | admind/src/instance.c:842-892 | A run that ends with such a check, a recovery up chosen, and the test answering yes at its start. |
| `RecoveryInterrupts.InterruptedHasNewcomer` | admind/src/instance.c:842-892 | Without a stranded check, only a service that the recovery itself has just brought up can interrupt it. |
| `RecoveryInterrupts.TurnDrops` | admind/src/evmgr/evmgr.c:951-965 | Without a stranded check, every turn of the loop, completed or interrupted wherever the test allows it, lowers a measure. |
| `RecoveryInterrupts.TurnsGoOn` | admind/src/evmgr/evmgr.c:951-965 | With a stranded check the loop can take any number of turns. |
| `RecoveryInterrupts.LoopEndsIff` | admind/src/evmgr/evmgr.c:951-965 | When no event comes, the loop ends within a bound, however unanswered queries interrupt recoveries, if and only if no check is stranded. |
| `RecoveryInterrupts.RunEndsIff` | admind/src/evmgr/evmgr.c:951-965 | The same of every state of every run. |
| `RecoveryEngine.Engine.OnNodeUp` | admind/src/instance.c:204-226 | The node is wanted up in every service; a pending down is cancelled where the service neither has the node nor is bringing it up. |
| `RecoveryEngine.Engine.OnNodeDown` | admind/src/instance.c:237-277 | The node is no longer wanted up in any service, and is pending down where the service has it or is bringing it up, if the local node takes part in the service. |
| `RecoveryEngine.Engine.OpWanted` | admind/src/instance.c:395-407 | The loop decides whether some service wants the operation. |
| `RecoveryEngine.Engine.WhichRecovery` | admind/src/instance.c:417-438 | The first operation wanted, in the order of priority. |
| `RecoveryEngine.Engine.ComputeRecovery` | admind/src/instance.c:491-520 | The operation of the highest priority is chosen, and each service that wants it takes part with the nodes it is pending on. |
| `RecoveryEngine.Engine.SyncAfter` | admind/src/instance.c:1015-1112 | One service takes over the result of its recovery, the others keep their state. |
| `RecoveryEngine.Engine.DoStep` | admind/src/instance.c:1260-1294 | A step gives what its service answers; a service that takes no part gives node-down if it has a resource down, and success otherwise. |
| `RecoveryEngine.Engine.RecoverUpDown` | admind/src/instance.c:1256-1345 | Steps are done in the order of the plan, in which a service is suspended before the one below resumes, up to the first that fails, whose answer is the result; exactly the services that have resumed are then finished. |
| `RecoveryEngine.Engine.RecoverChecks` | admind/src/instance.c:1371-1405 | A check-down finishes every service whatever the checks answer, and gives the last answer; a check-up finishes exactly the services before the first check that fails, and gives its answer. |
| `RecoveryEngine.Engine.RunRecovery` | admind/src/instance.c:1356-1442 | An uninterrupted recovery completes every service. |
| `RecoveryEngine.NoStaleResource` | admind/src/instance.c:1260-1294 | No service that takes no part in a recovery up or down has a resource down, so no step gives up by itself. |
| `RecoveryEngine.Engine.ProcessEvents` | admind/src/evmgr/evmgr.c:951-965 | The loop ends after at most seven recoveries, with every service settled. |
| `SequenceNumbers.OrderAgrees` | examsgd/network.c:49-79 | For numbers at most 32767 apart the 16-bit comparisons and the distance agree with the integers. |
| `SequenceNumbers.ClassesAreRanges` | examsgd/network.c:1213-1257 | The four classes are exactly the ranges meant: next, old, recoverable, fatal. |
| `ReceiveStream.CheckTakesNext` | examsgd/network.c:1208-1262 | A message is taken or filtered exactly when it is the next one, and only then the count moves. |
| `ReceiveStream.RunKeepsInv` | examsgd/network.c:1404-1540 | Every run of packets, fences, incarnations, full mailboxes and cleared requests keeps the invariant. |
| `ReceiveStream.StreamIsInOrder` | examsgd/network.c:1404-1514 | Between two initialisations of the count, what is taken and not undone is a run of the sender's stream without gap, duplicate or reordering. |
| `ReceiveStream.PacketsHaveFates` | examsgd/network.c:1404-1514 | In every run, what becomes of every packet, by its kind and the number behind it; a ping makes the receiver ask for the next message if and only if its number is not that of the last message and no request is out. |
| `ReceiveStream.PingsInitialise` | examsgd/network.c:1404-1470 | In every run, the count starts anew exactly on a ping of an incarnation that is let in, when it is not initialised or the incarnation is new. |
| `ReceiveStream.FenceHolds` | examsgd/network.c:629-645 | In every run, after a node has been fenced nothing that it sends in the same incarnation has an effect. |
| `ReceiveStream.SeenUpHolds` | examsgd/network.c:730-745 | In every run, a node that has been seen up keeps its incarnation until it is fenced. |
| `ReceiveStream.SelfFenceHolds` | examsgd/network.c:629-645 | In every run, a fence of the local node is final. |
| `ReceiveStream.MailboxFullIsEnabled` | examsgd/examsgd.c:511-608 | What a full mailbox undoes is the last message taken. |
| `ReceiveStream.SourceState.Check` | examsgd/network.c:1208-1262 | A message is processed, skipped, asked for again or fatal by the class of its number, and only the next one moves the count. |
| `ReceiveStream.SourceState.Recv` | examsgd/network.c:1404-1540 | The method does what `ReceiveStream.PacketsHaveFates` says of every packet, pings included. |
| `ResendRing.SendKeepsRing` | examsgd/network.c:1006-1045 | After a send the ring holds the newest messages of the stream. |
| `ResendRing.FoundOnce` | examsgd/network.c:1679-1777 | The number of a kept message is at one position only. |
| `ResendRing.KeptIsInOrder` | examsgd/network.c:1679-1777 | From a kept message on, the ring holds the rest of the stream in order. |
| `ResendRing.GoneIsNotFound` | examsgd/network.c:1679-1777 | A message that has left the ring, or is still to come, is not found under its number. |
| `ResendRing.RecoverableIsKept` | examsgd/network.c:1213-1257 | What a receiver judges recoverable is still in the ring of the sender. |
| `ResendRing.Sender.Send` | examsgd/network.c:1006-1045 | The message is appended to the stream and the ring keeps its meaning. |
| `ResendRing.Sender.Find` | examsgd/network.c:1679-1777 | The search finds the first position with the number, or none. |
| `ResendRing.Sender.ResendFrom` | examsgd/network.c:1679-1777 | The slots from a position to the newest are sent again in order, unless an older request comes first. |
| `ResendRing.Sender.Retransmit` | examsgd/network.c:1679-1777 | What is sent again is the stream from the message asked for, each once and in order; nothing when it is not in the ring. |
| `ResendRing.AskedIsKept` | examsgd/network.c:1208-1262 | What a receiver asks for on the newest message is the one after its last, and the sender keeps it. |
| `ResendRing.TakeStretch` | examsgd/network.c:1208-1262 | A receiver that gets the messages after its last in order takes all of them, with their bodies. |
| `ResendRing.RepairGap` | examsgd/network.c:1479-1777 | End to end: a receiver that asks on the newest message, or on a ping that tells its number, takes the bodies of all messages after its last if and only if at most 511 are missing; on a message that is always so. |
| `RetransmitSchedule.ScheduleIsConsistent` | examsgd/network.c:1066-1101 | Under every interleaving the requests under way get older and end at the one noted, so the assertion of retransmit holds. |
| `RetransmitSchedule.StepMatches` | examsgd/network.c:1066-1101 | A note that matches a request under way stops to match if and only if the only request is taken while the network is down, and matches again if and only if an older request comes. |
| `RetransmitSchedule.MatchedIff` | examsgd/examsgd.c:340-349 | In every run a request is noted exactly while one is under way, if and only if each such loss has been followed by a request older than the one noted. |
| `RetransmitSchedule.OldestIsBegun` | examsgd/network.c:1693-1711 | Sending again begins exactly for the oldest request. |
| `RetransmitSchedule.MarkCanOutliveRequests` | examsgd/examsgd.c:340-349 | A run in which a request is noted although none is under way. |
| `RetransmitSchedule.MarkDropsRequests` | examsgd/network.c:1066-1101 | While this is so, a request has an effect if and only if it is older than the one noted. |
| `RequestProtocol.RunKeepsInv` | common/lib/daemon_request_queue.c:110-459 | Every interleaving of client, pusher and worker keeps the invariant. |
| `RequestProtocol.NoAssertionFails` | common/lib/daemon_request_queue.c:110-459 | In every run, no assertion of the queue or of the client fails. |
| `RequestProtocol.OneResponseEach` | admind/src/daemon_api_client.c:98-152 | Responses are one per request, in the order of requests; only the last request may still lack one. |
| `RequestProtocol.ReceivedIsForLast` | admind/src/daemon_api_client.c:44-81 | Whatever the client receives answers the request it waits for, and an acknowledgement comes only after an interrupt. |
| `RequestProtocol.RepliesAreWanted` | common/lib/daemon_request_queue.c:447-459 | A reply is only sent for the outstanding request, which has had no response. |
| `RequestProtocol.WaitingIsServed` | common/lib/daemon_request_queue.c:253-341 | No wake-up is lost: while the client waits for nothing in its mailbox, some thread of the daemon can run. |
| `RequestProtocol.WorkDrops` | common/lib/daemon_request_queue.c:253-341 | Every step of the daemon decreases a measure. |
| `RequestProtocol.DaemonAnswers` | admind/src/daemon_api_client.c:98-152 | Every schedule of the daemon is bounded, and when it can go no further the response to the last request is there. |
| `BarrierVerdict.VerdictIsWorst` | admind/src/rpc.c:565-594 | The class of the result is the worst class among all that arrived. |
| `BarrierVerdict.VerdictIsReceived` | admind/src/rpc.c:531-534 | The result is node-down if and only if a node was found down, here or by a member; otherwise it is success or a code received. |
| `BarrierVerdict.ClassesAreLists` | common/lib/exa_error.c:354-388 | The classes by number: no number is in two of the lists. |
| `BarrierVerdict.LastErrorWins` | admind/src/rpc.c:580-594 | When no node is down, the last error to arrive is the result. |
| `BarrierVerdict.FirstNoteWins` | admind/src/rpc.c:580-594 | Without errors, the first warning or information to arrive is the result. |
| `BarrierVerdict.OrderDoesNotMatter` | admind/src/rpc.c:565-594 | The class of the result does not depend on the order of arrival. |
| `BarrierVerdict.Collect` | admind/src/rpc.c:350-417 | The loop takes arrivals until no node is waited for, and folds exactly those. |
| `Barrier.RunKeepsInv` | admind/src/rpc.c:254-283 | Every run of any number of members keeps the invariant. |
| `Barrier.NobodyLeavesEarly` | admind/src/rpc.c:536-601 | No member leaves a barrier before all have entered it. |
| `Barrier.MailboxesDoNotMix` | admind/src/rpc.c:254-283 | Although two mailboxes alternate, a member only reads messages of its own barrier, one from each member. |
| `Barrier.VerdictsAgree` | admind/src/rpc.c:565-594 | All members leave a barrier with the same class of verdict: the worst of what the members entered with. |
| `Barrier.BarrierIsLeft` | admind/src/rpc.c:350-417 | When all have entered, a member inside can receive from whomever it waits for, and leave when it waits for nobody. |
| `Barrier.StepsAreBounded` | admind/src/rpc.c:350-417 | However members are scheduled, inside a barrier each makes exactly one step per member it waits for, and one to leave. |
| `Barrier.EveryoneLeaves` | admind/src/rpc.c:350-417 | When all have entered a barrier, a member that can make no step has left it. |
| `StreamCache.SeekIsExact` | blockdevice/src/blockdevice_stream.c:199-229 | For every device size, which targets the tests in 64-bit arithmetic accept, and where the offset then is. |
| `StreamCache.SeekIsFlatIff` | blockdevice/src/blockdevice_stream.c:199-229 | A seek is the one of a flat file if and only if its target is below 2^63, or past the end but below 2^64; below 2^63 bytes all are. |
| `CacheWindow.WalkSucceedsIff` | blockdevice/src/blockdevice_stream.c:44-48 | A read or write loop gets to its end if and only if the windows after the cached one are on the device. |
| `CacheWindow.CoveredIff` | blockdevice/src/blockdevice_stream.c:85-112 | With a cache of whole sectors: the request, from the start of its first sector and rounded up to whole windows, is on the device. |
| `CacheWindow.OneSectorServesAll` | blockdevice/src/blockdevice_stream.c:85-112 | Every request inside the device is served, wherever the cache stands, if and only if the cache holds one sector. |
| `CacheWindow.TailDependsOnCache` | blockdevice/src/blockdevice_stream.c:85-112 | The last sector of three is out of reach of an empty cache of two, and within reach of one that holds the last two. |
| `CacheWindow.CacheNeedsOneSector` | blockdevice/src/blockdevice_stream.c:114-115 | The assertion of both loops holds at every offset if and only if the cache holds at least a sector. |
| `StreamCache.Stream.constructor` | blockdevice/src/blockdevice_stream.c:259-302 | A new stream shows the device, at offset zero. |
| `StreamCache.Stream.FlushCache` | blockdevice/src/blockdevice_stream.c:50-68 | What the stream shows never changes, even when the device fails; after success the device holds it. |
| `StreamCache.Stream.Load` | blockdevice/src/blockdevice_stream.c:85-112 | What the stream shows never changes; without failures of the device it succeeds exactly when the sector is cached or its window is on the device. |
| `StreamCache.Stream.ReadStream` | blockdevice/src/blockdevice_stream.c:70-134 | A read is a read of a flat file, cut at its end; on failure the bytes moved are still right and the rest of the buffer is untouched. Without failures of the device it succeeds, and leaves the cache, exactly as the windows foretell. |
| `StreamCache.Stream.WriteStream` | blockdevice/src/blockdevice_stream.c:136-197 | A write is a write to a flat file, refused whole when it does not fit; on failure exactly the first bytes moved are written. Without failures of the device it succeeds exactly as the windows foretell. |
| `StreamCache.Stream.SeekStream` | blockdevice/src/blockdevice_stream.c:199-229 | A seek is a seek in a flat file. |
| `StreamCache.Calls` | blockdevice/src/blockdevice_stream.c:44-229 | Every sequence of calls is a sequence of calls on a flat file; a final flush that succeeds leaves its bytes on the device; and without failures of the device, which calls succeed is known beforehand. |
| `StreamCache.TailIsOutOfReach` | blockdevice/src/blockdevice_stream.c:70-134 | A stream on a device that fails nothing, at an offset inside the file, whose read of one byte fails. |
| `StreamCache.OffsetStaysInside` | blockdevice/src/blockdevice_stream.c:70-229 | The offset never passes the size, which never changes. |
| `StreamCache.WrittenIsReadBack` | blockdevice/src/blockdevice_stream.c:70-229 | What was written is read back later, through any reads, seeks and flushes in between. |
| `NbdList.ChainHasNoRepeats` | common/lib/exa_nbd_list.c:238-294 | A chain of next indices that ends is acyclic. |
| `NbdList.ElementsAreConserved` | common/lib/exa_nbd_list.c:238-465 | The elements in lists and those checked out are all elements, each counted once. |
| `NbdList.Root.Conserved` | common/lib/exa_nbd_list.c:238-465 | In every valid state the elements in lists and those checked out are all elements, each counted once. |
| `NbdList.Calls` | common/lib/exa_nbd_list.c:29-545 | Every sequence of calls, up to the first that the program asserts against, is one of queues with tags, and after each call the count holds. |
| `NbdList.FirstInFirstOut` | common/lib/exa_nbd_list.c:29-362 | Over any calls, what was in a list followed by what is added to it is what is taken from it followed by what is left; closing a list moves its elements, in order, to the free list. |
| `NbdList.TagsAreOfThisUse` | common/lib/exa_nbd_list.c:501-545 | Over any calls, an element has the tag set last since it was last put into a list or taken out of one, and none when there was none. |
| `NbdList.Root.constructor` | common/lib/exa_nbd_list.c:433-465 | All elements are in the free list, in order. |
| `NbdList.Root.InitList` | common/lib/exa_nbd_list.c:373-397 | A new empty list, the others unchanged. |
| `NbdList.Root.Post` | common/lib/exa_nbd_list.c:238-294 | The element goes to the end of the list and loses its tag; every list stays a chain, and lists stay disjoint. |
| `NbdList.Root.Remove` | common/lib/exa_nbd_list.c:29-62 | The element at the front is checked out, without a tag; none if and only if the list is empty. |
| `NbdList.Root.Close` | common/lib/exa_nbd_list.c:311-362 | The elements of the list go to the end of the free list in their order and lose their tags; the free list itself cannot be closed. |
| `NbdList.Root.NextByTag` | common/lib/exa_nbd_list.c:525-545 | The lowest element that is checked out and has the tag, or none. |
| `NbdList.Root.SetTag` | common/lib/exa_nbd_list.c:501-514 | The tag of the element is set, all others stay. |
| `Checksum.FoldIsRemainder` | common/lib/checksum.c:106-107 | Adding the carries back gives the remainder by 65535, with zero only for zero. |
| `Checksum.ZeroMeansMultiple` | common/lib/checksum.c:90-112 | The checksum is zero if and only if the sum is a multiple of 65535 other than zero. |
| `Checksum.StoredChecksumChecks` | common/include/checksum.h:29-36 | A buffer that holds its own checksum in an aligned field, zero before, has checksum zero; for every size. |
| `Checksum.WordChangeIsUnseenIff` | common/include/checksum.h:29-36 | Up to 131074 bytes, a change of one aligned word in a buffer that checks goes unnoticed if and only if it is from 0 to 65535, or back while other words are not zero. |
| `Checksum.Context.AddArray` | common/lib/checksum.c:36-48 | The loop adds the complete words in 32 bits. |
| `Checksum.Context.Feed` | common/lib/checksum.c:50-88 | The context stands for what it was fed, with the new bytes at the end, odd sizes included. |
| `Checksum.Context.GetValue` | common/lib/checksum.c:90-112 | The value is the checksum of all that was fed. |
| `Checksum.ChecksumOfPieces` | common/lib/checksum.c:12-20 | However a buffer is cut into pieces, feeding them gives the checksum of the whole. |
| `Bits.NotIsComplement` | common/lib/exa_nodeset.c:99-104 | The complement bit by bit is the one of unsigned arithmetic. |
| `Bits.BitsDetermine` | common/lib/exa_nodeset.c:124-133 | A cell is determined by its bits. |
| `Nodeset.SetDetermines` | common/lib/exa_nodeset.c:124-133 | Two pairs of cells that stand for the same set are equal. |
| `Nodeset.PrintedIsParsed` | common/lib/exa_nodeset.c:290-321 | Parsing the hexadecimal text of a set gives the set. |
| `Nodeset.ParsedIsPrinted` | common/lib/exa_nodeset.c:290-321 | Printing a parsed text gives the text. |
| `Nodeset.ListIsUnique` | common/include/exa_nodeset.h:128-133 | There is one ascending list of the members. |
| `Nodeset.Bitset.Add` | common/lib/exa_nodeset.c:88-93 | The bit operation adds the node to the set. |
| `Nodeset.Bitset.Del` | common/lib/exa_nodeset.c:99-104 | The bit operation removes the node from the set. |
| `Nodeset.Bitset.Contains` | common/lib/exa_nodeset.c:110-119 | Membership; false for the two special ids. |
| `Nodeset.Bitset.IsEmpty` | common/lib/exa_nodeset.c:75-82 | True exactly for the empty set. |
| `Nodeset.Bitset.Equals` | common/lib/exa_nodeset.c:124-133 | True exactly for equal sets. |
| `Nodeset.Bitset.Sum` | common/lib/exa_nodeset.c:138-143 | Union, also when both sets are the same object. |
| `Nodeset.Bitset.Subtract` | common/lib/exa_nodeset.c:148-153 | Difference, also when both sets are the same object. |
| `Nodeset.Bitset.Intersect` | common/lib/exa_nodeset.c:158-163 | Intersection, also when both sets are the same object. |
| `Nodeset.Bitset.Included` | common/lib/exa_nodeset.c:173-182 | Inclusion. |
| `Nodeset.Bitset.Disjoint` | common/lib/exa_nodeset.c:192-200 | Disjointness. |
| `Nodeset.Bitset.Count` | common/lib/exa_nodeset.c:205-213 | The cardinality. |
| `Nodeset.Bitset.FirstAt` | common/lib/exa_nodeset.c:239-245 | The smallest member from a node on, or 128. |
| `Nodeset.Bitset.ForEach` | common/include/exa_nodeset.h:128-133 | Iteration ends and visits the members, each once, in ascending order. |
| `Nodeset.Bitset.Iter` | common/lib/exa_nodeset.c:277-284 | The smallest member is taken out; false exactly for the empty set. |
| `Nodeset.Bitset.Iterate` | common/lib/exa_nodeset.c:277-284 | A loop over the iterator ends and visits the members, each once, in ascending order. |
| `Nodeset.Bitset.ToHex` | common/lib/exa_nodeset.c:316-321 | The text is the digits of both cells, the higher cell first. |
| `Nodeset.Bitset.FromHex` | common/lib/exa_nodeset.c:290-310 | Fails, without effect, exactly when there are not 32 lower-case digits; otherwise the cells are those denoted. |

## Left out

- Sockets, multicast setup, select, kernel modules, XML, licences, logging and error message tables: they have no property of their own.
- Real time, random delays and back-off: a step may happen at any time, and ageing takes any period and timeout.
- Agreement.RunKeepsInv: a node does not restart within a run, and generations do not wrap around 32 bits; what one supervisor does on a restart of another is modelled.
- AgreementReached.AgreementIsReachedIff: schedules in which a table changes, or a ping sent before comes late; no node that a member sees is within five periods of its timeout.
- Supervision: the table of nodes is a map from known ids; `SupCluster` shows that the array behind it behaves like one.
- Clique: the variable that keeps the best clique so far is never read and is not modelled.
- RecoveryRuns: loss of quorum, change of leader and the stop of the hierarchy; they need code that changes the assumptions on the leader.
- RecoveryEngine.Engine.RunRecovery: only recoveries that are not interrupted; interrupted ones are steps of `RecoveryRuns` and turns of `RecoveryInterrupts`.
- RecoveryEngine.Engine.ProcessEvents: no event comes and no recovery is interrupted while the loop runs; `RecoveryInterrupts.LoopEndsIff` says when it ends in spite of interruptions.
- RecoveryInterrupts: events that come while the loop runs, and queries made by check-down callbacks, of which there are none according to the comment at `admind/src/instance.c:878`.
- Recovery.FollowersAgree: a node that goes down and comes back within one recovery.
- ReceiveStream.PacketsHaveFates: the destinations of pings and other special messages; pings that are a whole turn of 65536 numbers or more away.
- ReceiveStream.StreamIsInOrder: a packet that reaches the check of its number is within 32767 numbers of the last one received; the local node as a source of its own messages is not modelled.
- ResendRing.Sender.Send: a send that fails after the counter was advanced.
- RequestProtocol: shutdown of a queue (the broken state), the failure of a send, and more than one client of the same queue.
- Barrier.RunKeepsInv: failures of members during a barrier, and the second local command, which starts again at rank zero; messages of other types are not modelled.
- BarrierVerdict.VerdictIsWorst: the class of the result, not its code, is what members agree on; the code depends on the order of arrival, as `BarrierVerdict.LastErrorWins` tells.
- StreamCache.Stream.ReadStream: overflow of offset plus size in 64 bits, and of the result in an int; buffers are smaller than that.
- StreamCache.Stream.constructor: caches smaller than a sector, with which the program fails its own assertion (`CacheWindow.CacheNeedsOneSector`); for caches that are no multiple of 512 bytes, a device that rounds transfers up to whole blocks.
- StreamCache.SeekIsExact: signed sums that overflow, which C leaves undefined, wrap around here.
- StreamCache.Stream.FlushCache: the volatile cache of the device itself, whose flush errors the program ignores.
- NbdList.Root.Post: posting to a closed list, where the program marks the element and then fails its own assertion on that mark; waiting and the semaphores of select; and the pointers of payloads, which are indices here.
- NbdList.Root.Close: the removal of the list from the chain of lists of its root.
- Checksum.StoredChecksumChecks: machines that store 16-bit words with the high byte first.
- Checksum.Context.Feed: total sizes that overflow size_t, and arrays too long for the int index of the loop.
- Nodeset: printing in binary, the number of significant bits and conversions of single node ids are not modelled.
