/** How the services of a node learn of a new cluster map. */
module ClusterIn {
  import opened Types
  import PieceStore
  import F = FailureDetector
  import S = Stabilizer
  import Q = RebuildQueue
  import P = PeerIn

  /** The front end, of which only its map matters here. */
  class Front {
    var cluster: S.View

    constructor (cluster: S.View)
      ensures this.cluster == cluster
    {
      this.cluster := cluster;
    }

    method SetNewCluster(cluster: S.View)
      modifies this`cluster
      ensures this.cluster == cluster
    {
      this.cluster := cluster;
    }
  }

  class ClusterIn {
    const detector: F.Queue
    const front: Front
    const peerIn: P.PeerIn
    const rebuildQueue: Q.RebuildQueue
    const stabilizer: S.Stabilizer

    constructor (
      detector: F.Queue, front: Front, peerIn: P.PeerIn, rebuildQueue: Q.RebuildQueue, stabilizer: S.Stabilizer)
      ensures this.detector == detector && this.front == front && this.peerIn == peerIn
      ensures this.rebuildQueue == rebuildQueue && this.stabilizer == stabilizer
    {
      this.detector, this.front, this.peerIn := detector, front, peerIn;
      this.rebuildQueue, this.stabilizer := rebuildQueue, stabilizer;
    }

    /** No sender goes by a newer map than what the same node asks of others. */
    ghost predicate InStep()
      reads peerIn, rebuildQueue, stabilizer
    {
      stabilizer.cluster.version <= rebuildQueue.cluster.version <= peerIn.cluster.version
    }

    /** The services learn in turn: the detector, the front end, the receiver of pieces, the rebuild queue, and
        last the stabilizer, which takes every stored key as a task and is flushed at once. An error of the
        detector stops this at the start, and one of the store before the queue is replaced. `between` says that the
        services were in step at every moment in between as well; `stored` is what arrives between the reading of
        the stored keys and the replacement of the queue, and `meanwhile` is queued during the flush. */
    method SetNewCluster(
      view: S.View, detectorFails: bool, keysFail: bool, stored: PieceStore.Contents, world: S.World,
      meanwhile: set<Key>)
      returns (ok: bool, rejected: bool, ghost done: set<Loc>, ghost cut: set<Loc>, ghost between: bool)
      requires InStep() && peerIn.cluster.version <= view.version
      modifies detector`cluster, front, peerIn`cluster, rebuildQueue`cluster, stabilizer`cluster, stabilizer`queue
      modifies stabilizer.store
      ensures InStep() && between
      ensures ok == (!detectorFails && !keysFail)
      ensures detectorFails ==>
                && detector.cluster == old(detector.cluster) && front.cluster == old(front.cluster)
                && peerIn.cluster == old(peerIn.cluster) && rebuildQueue.cluster == old(rebuildQueue.cluster)
                && stabilizer.cluster == old(stabilizer.cluster)
      ensures !detectorFails ==>
                && detector.cluster == view.members && front.cluster == view && peerIn.cluster == view
                && rebuildQueue.cluster == view && stabilizer.cluster == view
      ensures !ok ==>
                && stabilizer.queue == old(stabilizer.queue)
                && stabilizer.store.pieces == old(stabilizer.store.pieces)
      ensures ok ==>
                var queue := PieceStore.KeysOf(old(stabilizer.store.pieces));
                && S.WorkedThrough(view, stabilizer.uri, stabilizer.n, world, queue, done, cut, rejected)
                && stabilizer.store.pieces == S.Left(old(stabilizer.store.pieces) + stored, world, done, cut)
                && stabilizer.queue == meanwhile + if rejected then {} else S.FailedKeys(world, done)
    {
      hide S.WorkedThrough, S.Left, S.FailedKeys, PieceStore.KeysOf, S.SentFor;
      done, cut, rejected, between := {}, {}, false, true;
      if detectorFails {
        return false, rejected, done, cut, between;
      }
      detector.SetNewCluster(view.members);
      front.SetNewCluster(view);
      peerIn.SetNewCluster(view);
      between := between && InStep();
      rebuildQueue.SetNewCluster(view);
      between := between && InStep();
      ok := stabilizer.SetNewCluster(view, keysFail, stored);
      if !ok {
        return;
      }
      var sent;
      rejected, sent, done, cut := stabilizer.FlushQueue(world, meanwhile);
    }
  }
}
