# Sorock: piece placement, verified

Sorock stores each object as N erasure-coded pieces (8 in the program), any K of which (4) give the object back.
Raft hands every node a versioned cluster map; from the map each node computes which node holds which piece, and a
stabilizer on every node moves pieces to their holders and asks holders to rebuild what is missing. This project
models that system and the data-loss calculator that comes with it, and proves what they do and do not guarantee.
N and K are parameters throughout, with 1 <= K <= N.

`dafny verify dfyconfig.toml` checks everything.

## How it is organised

Modules in the form of the program, a class where the program changes state in place and a method with a loop where
it loops:

- `Stabilizer`, `PeerIn`, `RebuildQueue`, `ClusterIn`: the services of a node. Every method states the new state of
  the queues, the store and what was sent. The order in which moves finish, what fails, how far moves come that
  another one cuts short, and what others queue in the meantime are all arbitrary.
- `Rebuild`, `IoFront`: collecting pieces, writing and reading a value.
- `RaftService`, `ClusterMap`: the membership every node derives from the log, and the holders of a key.
- `PieceStore`: the store in memory and the store in a table.
- `FailureDetector`: the queue of suspects.
- `Binomial`, `LossPatterns`, `LossCalculator`: the calculator, over reals.

State machines and the theorems about them:

- `Protocol` is the placement protocol of all nodes. A step is one atomic action of one node, and the steps of all
  nodes interleave freely: components learn a map; a stabilizer that has, reads the keys it stores, which may fail,
  and later replaces its queue by them; it drains its queue, then reads its map, then reads a piece; the receiver
  checks the version and stores; the call that queues the stored key comes later; the sender deletes after the ack,
  which may fail. Any reply can be lost at any time. `Conservation`, `NoCycle`, `NoKeyForgotten`, `Integrity` and
  `Writes` are about all its runs, and `Moves` about those in which nobody creates or rebuilds the piece in question.
- `SelfHealing` is the fleet at a fixed map with all calls succeeding. `FleetRefinement` runs flushes of the service
  objects of all nodes, `Stabilizer.FlushQueue` with every message delivered through `PeerIn.SavePiece`, and
  `RebuildQueue.FlushQueue`, and proves of the state they leave that it is the fleet's after its steps.

- `Simulation`, `Healing` and `Rebuilding` go the other way and show what runs the protocol has: a whole flush, and a
  rebuild, leave exactly the fleet's next state, so the protocol can heal a key by itself, from the empty cluster on.

Parameters of the model: the erasure code, with the contract "systematic, and any K genuine shards determine all N"
(`Codec.Codec`); the ASURA table, with the contract "distinct ids in use, as many as asked for or as there are, none
from an empty table" (`ClusterMap.Asura`). Both contracts are shown to be satisfiable.

## What was found

- A piece can be lost although every copy is deleted only after its receiver has acknowledged it: the receiver may
  give the piece back under a newer map while the first ack is still on its way, and the late delete then removes the
  last copy.
  - While nobody creates or rebuilds the piece, this needs two moves: one cluster change conserves it, whatever the
    interleaving, and from a settled state it can be lost if and only if the maps move it at least twice
    (`Moves.CanLoseIffMovesTwice`).
  - With creates and rebuilds of the piece one move is enough. A create under the new map, or a rebuild that was asked
    for, puts the piece on the new holder while its stabilizer still hands it to the old one, which then hands it
    back. From a settled state it can be lost if and only if the maps move it at least once
    (`Writes.CanLoseWritingIffMovesOnce`); and from the empty cluster a piece can be stored and later be nowhere if and
    only if two maps place it on different nodes (`Writes.CanLoseWrittenIff`).
  - No client need even have written the piece: it is rebuilt from K others, and then lost again by one move, in runs in
    which nobody creates it (`Rebuilding.RebuiltUnwritten`, `Rebuilding.LostUnwritten`).
  - `Conservation.NeverLost` names the guard that would prevent all of it, over any number of changes and with any
    writes, and `Conservation.GuardBrokenOnlyByOlderMap` the one way in which the version check lets it be broken.
- Self-healing needs one node other than the holder to take part: a stabilizer never asks its own node. The fleet is
  repaired if and only if it starts `Alive`, and with two different holders it always does. `Healing.CanHeal` carries
  this over to the protocol.
- Accepted hand-offs that are still to be deleted at their senders can form a cycle, from a node to another and back,
  as soon as two maps place the piece on different nodes (`NoCycle.CanChaseIff`). What cannot happen is a cycle in
  which every sender had read its map before the previous hand-off arrived (`NoCycle.NoHandoffCycle`).
- A node can forget a misplaced piece in four ways, all of them recorded in the state machine
  (`NoKeyForgotten.NoKeyForgotten`):
  - A rejected send drops the whole flush, keys and all (`sorock-core/src/stabilizer.rs:108-110`). This is harmless
    only because some node then has a newer map, for which all stored keys will be queued again.
  - A delete that fails after the hand-over is ignored (`sorock-core/src/stabilizer.rs:201`), and its key is not
    queued again. `Stabilizer.FlushForgetsIff` says exactly when, and `Stabilizer.FlushForgetsOne` shows one.
  - `set_new_cluster` of the stabilizer reads the stored keys and overwrites the queue later
    (`sorock-core/src/stabilizer.rs:128-133`). A key first stored in between is queued and then forgotten:
    `Stabilizer.ReplacingKeepsWatchIff`, `Stabilizer.ReplacingForgetsOne`.
  - If the stored keys cannot be read, the new map is already in force and the old queue stays
    (`sorock-core/src/stabilizer.rs:125-128`): `Stabilizer.UnreadKeepsWatchIff`, `Stabilizer.UnreadForgetsOne`.
- A failure to pass a new map on leaves the Raft state ahead of the services after a command
  (`sorock-core/src/raft_service.rs:88-96`) and behind them after a snapshot
  (`sorock-core/src/raft_service.rs:129-135`); `RaftService.State.ProcessWrite` and `InstallSnapshot`.
- Creating a value of fewer than K bytes panics: its shards are empty, which the erasure-code library refuses. So does
  a rebuild task whose index is N or more, if enough pieces are heard of, and the panic drops the rest of its flush.
- Reading returns the whole value if and only if K divides its length; the bytes past the last whole shard are in no
  shard (`sorock-core/src/io_front.rs:47-53`).
- A replayed snapshot agrees with the whole log except in the last change, which is reset to "set";
  `RaftService.SnapshotReplays` says exactly when that shows.
- With no other member to act as proxy, one unanswered ping accuses a node; `FailureDetector.NeverAccusedIff`.
- The calculator's table leaves the range of `i64` exactly from n = 67 on, where the program panics (or, built without
  overflow checks, wraps); the model returns "no table" there.

## Model

| member | source | states |
|---|---|---|
| Moves.CanLoseIffMovesTwice | sorock-core/src/stabilizer.rs:152-238 | From any settled state, some interleaving of the changes up to map `w`, without creates or rebuilds of the piece, loses it if and only if those maps move it at least twice |
| Writes.CanLoseWritingIffMovesOnce | sorock-core/src/peer_in.rs:59-79 | The same with any creates and rebuilds: if and only if those maps move it at least once |
| Writes.CanLoseWrittenIff | sorock-core/src/peer_in.rs:59-79 | From the empty cluster a piece can be stored and later be on no node if and only if two maps place it on different nodes |
| Writes.RebuildLoses | sorock-core/src/rebuild_queue.rs:151-164 | A rebuild that is about to be stored on the new holder is enough for one move to lose the piece |
| Rebuilding.RebuiltUnwritten | sorock-core/src/stabilizer.rs:207-221 | With any K other pieces of the key created and two holders, some run from the empty cluster without any create of the piece stores it on its holder, and heals the key |
| Rebuilding.LostUnwritten | sorock-core/src/peer_in.rs:80-84 | From there one move loses it, still without a create: a third node asks the new holder for it under the new map, and the rebuild there does the rest |
| Rebuilding.RequestIsAttended | sorock-core/src/peer_in.rs:80-84 | In every run, once a request without data is accepted the piece is queued to be rebuilt there, being rebuilt, or stored, at least until the node hands it on |
| Simulation.FlushRun | sorock-core/src/stabilizer.rs:81-123 | Some run of the protocol is a whole flush: every piece that was there is with its holder and queued there, every other one was asked for, the keys that failed are queued again, and nothing is left under way |
| Simulation.MoveOne | sorock-core/src/stabilizer.rs:185-203 | One send with data, accepted and acknowledged, changes exactly the two stores and the receiver's queue |
| Simulation.AskOne | sorock-core/src/stabilizer.rs:207-221 | One send without data, accepted, changes exactly the receiver's rebuild queue |
| Simulation.RejectedOne | sorock-core/src/stabilizer.rs:106-110 | A rejected send stores nothing, ends its flush and queues nothing again |
| Simulation.UndeletedOne | sorock-core/src/stabilizer.rs:190-203 | With a failed delete both nodes store the piece and the flush goes on |
| Simulation.UnansweredMove | sorock-core/src/stabilizer.rs:227-236 | A send whose answer is lost changes nothing and keeps its flush from ending until the key is failed |
| Simulation.UnansweredAsk | sorock-core/src/stabilizer.rs:227-236 | So does a request |
| Healing.FlushedIsStabilize | sorock-core/src/stabilizer.rs:81-123 | The state after such a flush, seen for one key, is the fleet's next step, or as it was if the key was not queued |
| Healing.RebuiltIsRebuild | sorock-core/src/rebuild_queue.rs:131-170 | The same of a rebuild that hears from all members, or finds the piece, or is queued again |
| Healing.CanHeal | sorock-core/src/stabilizer.rs:81-123 | From any steady state in which a key is queued wherever it is stored, has K distinct pieces on members and is alive, the protocol runs, with no client writing, to a state in which each of its pieces is on its holder and nowhere else |
| Writes.SettledIsReached | sorock-core/src/io_front.rs:74-110 | Whatever map `v` says, a run from the empty cluster settles the piece on the holder it names |
| Moves.OneChangeConserves | sorock-core/src/stabilizer.rs:152-238 | While nodes switch from `v` to `v + 1` in any order, every step interleaves and nobody creates or rebuilds the piece, it is always on its old or its new holder, and nowhere else |
| Moves.OneMoveConserves | sorock-core/src/peer_in.rs:59-71 | The same, again without creates or rebuilds of the piece, over any number of versions that move it at most once |
| Moves.TwoMovesLose | sorock-core/src/stabilizer.rs:190-201 | Two moves can lose it: builds the run in which the delete owed for the first move removes the last copy |
| Moves.StoreMovesForward | sorock-core/src/peer_in.rs:59-71 | In one move only a hand-off from the old holder to the new one is ever accepted; a send back is rejected by the version check |
| Conservation.NeverLost | sorock-core/src/stabilizer.rs:190-201 | Over any number of versions, with creates and rebuilds in between, a copy that no pending ack will delete always remains, as long as no node takes a piece it is itself still handing on |
| Conservation.GuardBrokenOnlyByOlderMap | sorock-core/src/peer_in.rs:59-64 | A node that accepts a piece it is still handing on does so with a strictly newer map than that hand-off's |
| Conservation.AcksCanLoseIff | sorock-core/src/stabilizer.rs:190-201 | Deletes that are already owed can remove the last copy if and only if every copy is owed one |
| NoCycle.NoHandoffCycle | sorock-core/src/stabilizer.rs:88-97 | In every reachable state, over any number of versions, accepted but undeleted hand-offs of one piece never form a cycle in which each sender read its map before the previous hand-off arrived |
| NoCycle.CanChaseIff | sorock-core/src/peer_in.rs:59-71 | Without that condition a cycle can be reached if and only if two maps place the piece on different nodes |
| NoCycle.ChaseHappens | sorock-core/src/stabilizer.rs:190-201 | A run from the empty cluster to such a cycle: created under the later map, handed over under the earlier one and back |
| NoKeyForgotten.NoKeyForgotten | sorock-core/src/stabilizer.rs:78-136 | In every reachable state the key of a misplaced piece is queued, about to be queued, or in a flush under the node's map, unless, under that map and since the key was last queued, a rejection dropped a flush that worked on the key, the piece's delete failed, the keys could not be read when it was stored and not queued, or the task of its stored key was overwritten; after a rejection some node has a newer map |
| NoKeyForgotten.OnlyRejectionsForget | sorock-core/src/stabilizer.rs:106-133 | In runs where the last three happen to no stored piece, a misplaced piece is forgotten only while some node has a newer map |
| NoKeyForgotten.OneGoForgetsNothing | sorock-core/src/stabilizer.rs:124-136 | So it is in all runs in which deletes and key reads work and queues are replaced right after the keys are read |
| Integrity.RunsStoreOnlyGenuinePieces | sorock-core/src/rebuild_queue.rs:151-160 | In every reachable state each piece stored, in flight or collected by a rebuild is the shard of its key's one value that its index names |
| Integrity.RebuiltIsGenuine | sorock-core/src/rebuild_queue.rs:145-160 | Any K genuine pieces rebuild the genuine piece that was asked for |
| Protocol.OrderedRun | sorock-core/src/cluster_in.rs:49-57 | In every run the stabilizer's map is never newer than the receiver's, no send carries a newer map than its node's, and each goes to the holder its map names, never to its sender |
| SelfHealing.RunFlushes | sorock-core/src/stabilizer.rs:81-123 | Executions of any keys on any nodes in any order come to an end, and then, for every key, each piece is on its holder with no other copy if and only if the key started alive |
| SelfHealing.StabilizeProgresses | sorock-core/src/stabilizer.rs:152-238 | Each stabilizer execution lowers the measure: stale rebuild tasks, missing pieces, misplaced copies, pending tasks |
| SelfHealing.RebuildProgresses | sorock-core/src/rebuild_queue.rs:131-170 | Each rebuild execution lowers the same measure |
| SelfHealing.TwoMembersAreAlive | sorock-core/src/cluster_map.rs:63-90 | Two members and two pieces give two different holders |
| SelfHealing.TooFewStayTooFew | sorock-core/src/rebuild.rs:86-123 | With fewer than K distinct pieces left no execution brings another one back |
| SelfHealing.SanityCountsMissing | sorock-core/src/io_front.rs:141-184 | The sanity check counts exactly the pieces missing from their holders, none once repaired |
| FleetRefinement.StabilizeStep | sorock-core/src/stabilizer.rs:81-123 | Running a stabilizer's flush and delivering what it sends leaves, for every key at once, the fleet after one step, or as it was if the key was not queued |
| FleetRefinement.FlushIsStabilize | sorock-core/src/stabilizer.rs:152-238 | The pieces, queues and rebuild tasks of all nodes after such a flush, for one key, are those of that step |
| FleetRefinement.Deliver | sorock-core/src/peer_in.rs:59-86 | A node that accepts messages in any order ends with exactly their pieces, keys and tasks added |
| FleetRefinement.RebuildStep | sorock-core/src/rebuild_queue.rs:72-109 | Running a rebuild queue's flush, when all members answer with what they store, leaves for every key at once the fleet after a rebuild of each of the key's tasks |
| FleetRefinement.AnyOrderRebuilds | sorock-core/src/rebuild_queue.rs:78-102 | Those rebuilds come to the same in any order |
| Stabilizer.Stabilizer.MovePiece | sorock-core/src/stabilizer.rs:180-222 | One move sends the piece, or a request without data, under the map's version, and deletes only after an accept |
| Stabilizer.Stabilizer.Actions | sorock-core/src/stabilizer.rs:153-172 | The moves of a key are exactly the indices whose holder is another node |
| Stabilizer.Stabilizer.CutShort | sorock-core/src/stabilizer.rs:227-237 | Moves that are not waited for have sent and deleted as far as they came, and a delete only after an accept |
| Stabilizer.Stabilizer.Exec | sorock-core/src/stabilizer.rs:152-238 | In any order of completion: success means all moves were accepted; the first other answer is reported and cuts the rest short; what is gone and what was sent, exactly |
| Stabilizer.Stabilizer.FlushQueue | sorock-core/src/stabilizer.rs:81-123 | A rejection leaves only what others queued; otherwise exactly the failed keys are queued again and every other key is fully moved |
| Stabilizer.Stabilizer.SetNewCluster | sorock-core/src/stabilizer.rs:124-136 | The map is replaced at once; the queue becomes the keys read, overwriting what came in between; if they cannot be read it stays |
| Stabilizer.GoesIffAccepted | sorock-core/src/stabilizer.rs:190-201 | A flush removes a piece if and only if it sent it with its data to its holder, another node, which accepted, and the delete was come to and worked |
| Stabilizer.MayBeRejectedIff | sorock-core/src/stabilizer.rs:106-116 | A flush may end in a rejection if and only if one of its moves is read and its receiver rejects it |
| Stabilizer.QueuedAgainIff | sorock-core/src/stabilizer.rs:231-235 | When no receiver rejects, a key is queued again if and only if one of its moves cannot be read or its send fails |
| Stabilizer.SentIff | sorock-core/src/stabilizer.rs:156-171 | A message leaves if and only if the piece is of a queued key, belongs elsewhere, can be read, and is not cut short before it is sent |
| Stabilizer.FlushForgetsIff | sorock-core/src/stabilizer.rs:190-203 | A flush that is not rejected stops watching a misplaced piece if and only if every move of its key is accepted, its own deletion fails and nobody queues the key meanwhile |
| Stabilizer.FlushForgetsOne | sorock-core/src/stabilizer.rs:201 | One such input |
| Stabilizer.FlushKeepsWatchIff | sorock-core/src/stabilizer.rs:101-122 | It keeps every misplaced piece watched if and only if each can be deleted, shares its key with a move that is not accepted, or is queued meanwhile |
| Stabilizer.ReplacingKeepsWatchIff | sorock-core/src/stabilizer.rs:127-133 | Under the new map, replacing the queue by the keys read keeps the watch if and only if every piece that came in between and belongs elsewhere is of a key that was read |
| Stabilizer.ReplacingForgetsOne | sorock-core/src/stabilizer.rs:127-133 | One input that is forgotten |
| Stabilizer.UnreadKeepsWatchIff | sorock-core/src/stabilizer.rs:125-128 | If the keys cannot be read, the watch survives the new map if and only if every piece that only this map moves away is already queued |
| Stabilizer.UnreadForgetsOne | sorock-core/src/stabilizer.rs:125-128 | One input that is forgotten |
| PeerIn.PeerIn.SavePiece | sorock-core/src/peer_in.rs:59-86 | Rejected if and only if the message's map is older, and then nothing changes; data is stored and its key queued, no data becomes a rebuild task; misplaced pieces stay watched |
| RebuildQueue.RebuildQueue.Exec | sorock-core/src/rebuild_queue.rs:131-170 | A missing piece is stored, genuine, with its key queued, if and only if enough distinct pieces were heard of and the store did not fail; an index past the last shard panics |
| RebuildQueue.RebuildQueue.CutShort | sorock-core/src/rebuild_queue.rs:97-110 | Executions that are not waited for have stored and queued as far as they came |
| RebuildQueue.RebuildQueue.FlushQueue | sorock-core/src/rebuild_queue.rs:72-109 | In any order: exactly the failing tasks are queued again, exactly the others' pieces are added, and their keys queued; a panic queues nothing again and cuts the rest short |
| RebuildQueue.RestoreOneMore | sorock-core/src/rebuild_queue.rs:78-87 | Executions on different pieces do not affect each other |
| RebuildQueue.StaysQueuedIff | sorock-core/src/rebuild_queue.rs:131-170 | A task stays if and only if the store cannot say whether the piece is here, or it is not and cannot be put or the nodes that answer store fewer than K distinct pieces of its key in each round; otherwise the genuine piece is here afterwards |
| RebuildQueue.PanicsIff | sorock-core/src/rebuild_queue.rs:145-160 | A task panics if and only if its index is N or more, the store answers that it is not here, and enough pieces are heard of |
| RebuildQueue.CutLeaves | sorock-core/src/rebuild_queue.rs:97-110 | What is stored, and what is queued, of an execution that a panic cuts short |
| RebuildQueue.RestoringKeepsWatch | sorock-core/src/rebuild_queue.rs:157-164 | Rebuilt pieces are watched by the stabilizer |
| ClusterIn.ClusterIn.SetNewCluster | sorock-core/src/cluster_in.rs:40-61 | All services end with the new map; the receiver is never behind the rebuild queue, nor that behind the stabilizer; then the keys that were read are flushed, whatever arrived in between; what an error leaves undone |
| Rebuild.Rebuild | sorock-core/src/rebuild.rs:11-124 | Holders first, then all members: the one true shard list, or which of the two errors |
| Rebuild.Collect | sorock-core/src/rebuild.rs:30-65 | One round succeeds if and only if the replies supply K distinct indices, and gives the true shards |
| Rebuild.AddPieces | sorock-core/src/rebuild.rs:38-48 | The count found is the number of filled slots, and these are the indices supplied |
| Rebuild.Restore | sorock-core/src/rebuild.rs:49-64 | Gives the data shards, or all shards if parity is wanted |
| Rebuild.OrderDoesNotMatter | sorock-core/src/rebuild.rs:30-65 | Reply order and repeated replies do not change the outcome |
| Rebuild.RepliesSupply | sorock-core/src/rebuild.rs:72-121 | The replies supply exactly the distinct indices on the nodes that answer |
| Rebuild.LostIffTooFew | sorock-core/src/rebuild.rs:86-123 | With broadcast, loss is reported if and only if neither round supplies K distinct indices |
| Rebuild.WithoutBroadcast | sorock-core/src/rebuild.rs:68-70 | Without broadcast only the holders count, and failing is reported as such and not as a loss |
| Rebuild.RepliesExist | sorock-core/src/rebuild.rs:72-84 | Such replies can come from any nodes |
| IoFront.Cut | sorock-core/src/io_front.rs:47-55 | The data shards are equal consecutive slices |
| IoFront.PieceStack | sorock-core/src/io_front.rs:47-72 | Through encoding and the double reversal the pieces pop in index order |
| IoFront.Create | sorock-core/src/io_front.rs:44-123 | Panics if and only if the value has fewer than K bytes; otherwise piece `i` goes to holder `i`, and it succeeds if and only if at least K sends came back |
| IoFront.CreatePlaces | sorock-core/src/io_front.rs:82-110 | Every acknowledged piece is on the holder of its index with its genuine shard, and no node stores anything else |
| IoFront.SaneAfterCreate | sorock-core/src/io_front.rs:141-184 | With all sends acknowledged, a sanity check that every holder answers finds nothing lost |
| IoFront.Read | sorock-core/src/io_front.rs:124-140 | Returns the first K * (len / K) bytes of the value, or that it is lost |
| IoFront.WholeIffDivides | sorock-core/src/io_front.rs:47-53 | The covered bytes are the value without its last len % K bytes, so all of it if and only if K divides its length |
| IoFront.CreateThenRead | sorock-core/src/io_front.rs:44-140 | After a successful create at least K distinct pieces are stored, and whichever nodes answer in either round, a read gets the covered bytes if and only if the nodes of one round hold K pieces between them |
| IoFront.SanityCheck | sorock-core/src/io_front.rs:141-184 | Counts the indices with a holder that did not report the piece |
| Codec.ConcatSplit | sorock-core/src/io_front.rs:124-140 | Joining the data shards gives back the value up to the last whole shard |
| Codec.SplitConcat | sorock-core/src/io_front.rs:47-55 | Cutting joined shards gives back the shards |
| Codec.ContractCanBeMet | sorock-core/src/lib.rs:36-39 | The contract of the erasure code can be met for every 1 <= K <= N |
| ClusterMap.ComputeHolders | sorock-core/src/cluster_map.rs:63-90 | Index `i` goes to candidate `i` modulo their number; no holders in an empty cluster |
| ClusterMap.Members | sorock-core/src/cluster_map.rs:56-62 | All addresses in the map |
| ClusterMap.HoldersWrap | sorock-core/src/cluster_map.rs:71-81 | With members, every index has a holder, and the holders are the distinct addresses of the candidates for the key, wrapped around |
| ClusterMap.HeldCount | sorock-core/src/cluster_map.rs:71-81 | How many indices any set of candidates holds, exactly |
| ClusterMap.TolerancesIff | sorock-core/src/cluster_map.rs:71-81 | Losing any `f` holders leaves K pieces if and only if the heaviest `f` hold at most N - K |
| ClusterMap.CeilingSuffices | sorock-core/src/cluster_map.rs:71-81 | In particular whenever f * ceil(N / m) <= N - K |
| ClusterMap.RebuildAfterLoss | sorock-core/src/rebuild.rs:72-123 | After the loss a rebuild succeeds if and only if K pieces survive |
| ClusterMap.ContractCanBeMet | sorock-core/src/cluster_map.rs:63-70 | The contract of the placement table can be met |
| RaftService.State.AddNode | sorock-core/src/raft_service.rs:43-52 | A new address is a member afterwards, the table is told its id and its capacity, and it is the last change; a known one changes nothing |
| RaftService.State.RemoveNode | sorock-core/src/raft_service.rs:53-61 | A known address is a member no more, the table is told its id, and it is the last change; an unknown one changes nothing |
| RaftService.State.MakeClusterMap | sorock-core/src/raft_service.rs:62-69 | The map has the state's version, table and last change, and its id map is the inverse of the address map |
| RaftService.State.ProcessWrite | sorock-core/src/raft_service.rs:86-111 | Applies the command, keeps the membership invariant, and passes on a map in which every holder resolves; if that fails the command stays applied |
| RaftService.State.InstallSnapshot | sorock-core/src/raft_service.rs:112-137 | Passes the snapshot's map on first; the state becomes the snapshot's, with the last change reset, unless that fails |
| RaftService.EveryLogKeepsTheBook | sorock-core/src/raft_service.rs:43-69 | After any log: addresses have distinct ids below the next one, the table has exactly these ids, and each resolves |
| RaftService.VersionCounts | sorock-core/src/raft_service.rs:43-61 | The version counts the commands that changed something |
| RaftService.SameVersionSameBook | sorock-core/src/raft_service.rs:86-111 | Two prefixes of a log with one version have the same table, addresses and next id |
| RaftService.MapFollowsCommand | sorock-core/src/raft_service.rs:43-69 | A command that changes the members raises the version of the map that is passed on by one and is named as its last change; any other passes the same map on again |
| RaftService.MapVersionCounts | sorock-core/src/raft_service.rs:62-69 | The version of the map is how often the members have changed |
| RaftService.MapsOfOneVersionAgree | sorock-core/src/raft_service.rs:62-137 | Two maps of one version, from any parts of the log and any snapshots, give every key the same holders |
| RaftService.IdsAreNotReused | sorock-core/src/raft_service.rs:43-52 | An id once given out never belongs to another address |
| RaftService.RemovedOnce | sorock-core/src/raft_service.rs:53-61 | Any number of removals of one node count once |
| RaftService.SnapshotReplays | sorock-core/src/raft_service.rs:112-137 | A snapshot and the rest of the log agree with the whole log, in the last change too exactly under the stated condition |
| RaftService.EveryNodeSharesThePlacement | sorock-core/src/raft_service.rs:62-137 | Every node, caught up directly or from a snapshot, computes for its version one and the same holder of every piece |
| PieceStore.MemStore.constructor | sorock-core/src/piece_store/mem.rs:23-32 | An empty store |
| PieceStore.MemStore.Put | sorock-core/src/piece_store/mem.rs:76-80 | The map gains the piece; no bucket is empty |
| PieceStore.MemStore.Delete | sorock-core/src/piece_store/mem.rs:81-96 | The map loses the piece, with its bucket if that was the last one |
| PieceStore.MemStore.Get | sorock-core/src/piece_store/mem.rs:68-75 | The map's piece |
| PieceStore.MemStore.Exists | sorock-core/src/piece_store/mem.rs:43-50 | Whether the map has the piece |
| PieceStore.MemStore.GetPieces | sorock-core/src/piece_store/mem.rs:51-67 | Exactly the key's pieces below the bound, in index order |
| PieceStore.MemStore.Keys | sorock-core/src/piece_store/mem.rs:97-104 | Exactly the keys with a piece |
| PieceStore.SqliteStore.Put | sorock-core/src/piece_store/sqlite/mod.rs:101-110 | Adds a row, also where there is one |
| PieceStore.SqliteStore.Delete | sorock-core/src/piece_store/sqlite/mod.rs:111-119 | Removes all rows of the location |
| PieceStore.SqliteStore.Get | sorock-core/src/piece_store/sqlite/mod.rs:80-91 | Any of the location's rows, none if there is none |
| PieceStore.SqliteStore.Exists | sorock-core/src/piece_store/sqlite/mod.rs:92-100 | Whether the location has a row |
| PieceStore.SqliteStore.GetPieces | sorock-core/src/piece_store/sqlite/mod.rs:68-79 | Exactly the key's rows, whatever the bound |
| PieceStore.SqliteStore.Keys | sorock-core/src/piece_store/sqlite/mod.rs:120-131 | Exactly the keys with a row |
| PieceStore.RunBoth | sorock-core/src/piece_store/mem.rs:43-104 | After any operations both stores hold what the specification says |
| PieceStore.StoresAgreeIff | sorock-core/src/piece_store/sqlite/mod.rs:68-131 | The table is bound to answer what the map holds if and only if all that was written there since the last delete is the same |
| PieceStore.StoresAreOneMap | book/src/api.md:5-9 | As keys are not reused for other values, both stores are one map: presence, data and key set |
| PieceStore.PiecesFromBoth | sorock-core/src/piece_store/sqlite/mod.rs:68-79 | Then both give the same pieces of a key |
| FailureDetector.ChooseUniqueK | failure-detector/src/queue.rs:108-123 | min(k, available) distinct members |
| FailureDetector.Probe | failure-detector/src/queue.rs:76-103 | Accuses if and only if the direct ping and every chosen proxy ping fail |
| FailureDetector.Queue.RunOnce | failure-detector/src/queue.rs:58-106 | Empties the queue, probes every suspect once with its own proxies, never the suspect itself, and accuses exactly those not reached |
| FailureDetector.NeverAccusedIff | failure-detector/src/queue.rs:58-123 | A suspect is safe whichever proxies are drawn if and only if it answers directly or fewer members are cut off from it than are asked |
| Binomial.TailFalls | data-loss-calculator/src/main.rs:38-44 | The sum is non-increasing on [0, 1] for all n and k, strictly where it is not constant; the program samples this |
| Binomial.TailBounds | data-loss-calculator/src/main.rs:30-36 | The sum lies between 0 and 1 |
| Binomial.TailEnds | data-loss-calculator/src/main.rs:46-47 | It is 1 at 0 and 0 at 1 |
| Binomial.TailSplits | data-loss-calculator/src/main.rs:78-90 | One more piece mixes the sums for one piece less; from the table's recurrence alone |
| LossPatterns.SumIsChanceOfRebuild | data-loss-calculator/src/main.rs:30-36 | Over every loss pattern, each listed once, the chances of those after which a rebuild succeeds add up to the sum |
| LossPatterns.RebuildSurvives | sorock-core/src/rebuild.rs:42-65 | A rebuild after a loss succeeds if and only if K pieces survive |
| LossPatterns.PatternsComplete | data-loss-calculator/src/main.rs:30-36 | Every way to lose some of the pieces is listed |
| LossPatterns.CombCountsPatterns | data-loss-calculator/src/main.rs:78-90 | A table entry counts the patterns that lose that many pieces |
| LossCalculator.CombTable | data-loss-calculator/src/main.rs:78-90 | The table is the binomial coefficients, and can be filled in `i64` if and only if n <= 66 |
| LossCalculator.FitsIff | data-loss-calculator/src/main.rs:78-90 | No entry up to row n exceeds `i64` if and only if n <= 66 |
| LossCalculator.RowSumIs | data-loss-calculator/src/main.rs:78-90 | Row n sums to 2^n |
| LossCalculator.SumUp | data-loss-calculator/src/main.rs:30-36 | The loop computes the chance of losing at most n - k pieces |
| LossCalculator.Bisect | data-loss-calculator/src/main.rs:46-57 | Keeps the left end within the agreement and the right end outside it; each turn halves the bracket, and it stops at the first width within the tolerance |
| LossCalculator.BracketIsSound | data-loss-calculator/src/main.rs:46-59 | Every chance up to the left end meets the agreement, every one from the right end on misses it |
| LossCalculator.ThresholdIsUnique | data-loss-calculator/src/main.rs:46-59 | No two chances give the same value, so the bracket closes in on one threshold |
| LossCalculator.Solve | data-loss-calculator/src/main.rs:24-59 | The chance found meets the agreement with every smaller one, and anything larger by the tolerance misses it |
| LossCalculator.NinesAre | data-loss-calculator/src/main.rs:24 | No nines ask for nothing, and each further one leaves a tenth of what may be lost |
| LossCalculator.KeepsIsChanceOfRebuild | data-loss-calculator/src/main.rs:30-36 | What is solved for is the total chance of the loss patterns after which a rebuild succeeds |

## Left out

- gRPC, connection caches, service spawning and ticks: a call is a request, an answer or a loss.
- Timeouts and the degree of parallelism: any order of answers and any failure may happen instead.
- Galois-field arithmetic, and the library's error on empty shards (a value shorter than K bytes, where the program panics): the code is its contract.
- ASURA and the hashing of keys: a parameter with a contract.
- The Raft library: one agreed log, and each node is given maps of rising version.
- Serialisation of commands and snapshots: taken as inverse functions.
- SQL and the connection pool: a table is a sequence of rows.
- Rounding of doubles and double-doubles in the calculator: reals, and bisection stops at a tolerance instead of at width 0.
- Prompts, printing, and the final product with the mean time between failures.
- Crashes, restarts and disks that lose data: no step of the state machine removes a piece except a delete.
- `delete`, `process_read` and `fold_snapshot`: unimplemented in the program.
- Overflow of the 64-bit version and id counters: unbounded numbers.
- Piece indices of N or more in the store in memory, where every operation on them panics: `PieceStore.MemStore` requires less, `PeerIn` and `RebuildQueue` do not.
- RebuildQueue.RebuildQueue.FlushQueue: the map only determines which nodes reply, and the replies are arbitrary.
- FailureDetector.Queue.RunOnce: the probes, which the program starts in the background, are finished one after the other.
- SelfHealing.RunFlushes: each execution of a key is one step; `FleetRefinement.StabilizeStep` and `FleetRefinement.RebuildStep` derive these steps from whole flushes of one node at a time.
- Healing.CanHeal: some run heals; that executions heal in whatever order is proved of the fleet (`SelfHealing.RunFlushes`).
- NoKeyForgotten.NoKeyForgotten: a new map is not given to a stabilizer that is still replacing its queue for the last one, as Raft applies commands one after the other.
- Protocol.WriteAfter: a create writes one piece per step, on a node that some map up to the writer's names as its holder and whose own map is no newer than the writer's; the read of a value changes nothing and is not a step.
- Moves.CanLoseIffMovesTwice: creates and rebuilds of the same piece are excluded from its runs; `Writes.CanLoseWritingIffMovesOnce` is the result with them.
- Moves.OneChangeConserves: likewise; with them one change can lose the piece.
- Moves.OneMoveConserves: likewise.
