/** What a node does with a piece that another node sends. */
module PeerIn {
  import opened Types
  import PieceStore
  import S = Stabilizer
  import Q = RebuildQueue

  class PeerIn {
    const store: PieceStore.PieceMap
    const stabilizer: S.Stabilizer
    const rebuildQueue: Q.RebuildQueue
    var cluster: S.View

    constructor (store: PieceStore.PieceMap, stabilizer: S.Stabilizer, rebuildQueue: Q.RebuildQueue, cluster: S.View)
      ensures this.store == store && this.stabilizer == stabilizer
      ensures this.rebuildQueue == rebuildQueue && this.cluster == cluster
    {
      this.store, this.stabilizer, this.rebuildQueue, this.cluster := store, stabilizer, rebuildQueue, cluster;
    }

    method SetNewCluster(cluster: S.View)
      modifies this`cluster
      ensures this.cluster == cluster
    {
      this.cluster := cluster;
    }

    /** A message made under an older map is refused and changes nothing. Data is stored first and its key queued
        next, so whatever is watched stays watched; a message without data becomes a task to rebuild. */
    method SavePiece(message: SendPiece, putFails: bool) returns (r: SendReply)
      requires stabilizer.store == store
      modifies store, stabilizer`queue, rebuildQueue`queue
      ensures r == Rejected <==> cluster.version > message.version
      ensures r == Failed <==> cluster.version <= message.version && message.data.Some? && putFails
      ensures store.pieces ==
              if r == Accepted && message.data.Some? then old(store.pieces)[message.loc := message.data.value]
              else old(store.pieces)
      ensures stabilizer.queue ==
              old(stabilizer.queue) + if r == Accepted && message.data.Some? then {message.loc.key} else {}
      ensures rebuildQueue.queue ==
              old(rebuildQueue.queue) + if r == Accepted && message.data.None? then {message.loc} else {}
      ensures old(S.Watched(stabilizer.cluster, stabilizer.uri, store.pieces, stabilizer.queue)) ==>
                S.Watched(stabilizer.cluster, stabilizer.uri, store.pieces, stabilizer.queue)
    {
      var version := cluster.version;
      if version > message.version {
        return Rejected;
      }
      match message.data
      case Some(data) =>
        store.Put(message.loc, data, putFails);
        if putFails {
          return Failed;
        }
        stabilizer.QueueTask(message.loc.key);
        r := Accepted;
      case None =>
        rebuildQueue.QueueTask(message.loc);
        r := Accepted;
    }
  }
}
