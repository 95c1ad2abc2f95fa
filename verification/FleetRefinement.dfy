/** The services' flushes, run on the services themselves and seen for one key, are steps of the self-healing fleet. */
module FleetRefinement {
  import opened Types
  import opened Codec
  import PieceStore
  import R = Rebuild
  import S = Stabilizer
  import Q = RebuildQueue
  import P = PeerIn
  import H = SelfHealing

  /** What the services of one node hold. */
  datatype Node = Node(pieces: PieceStore.Contents, queue: set<Key>, tasks: set<Loc>)

  type Nodes = map<Uri, Node>

  function CopiesOf(key: Key, nodes: Nodes): set<H.Copy> {
    set u, loc | u in nodes && loc in nodes[u].pieces && loc.key == key :: H.Copy(u, loc.index)
  }

  function AskedOf(key: Key, nodes: Nodes): set<H.Copy> {
    set u, loc | u in nodes && loc in nodes[u].tasks && loc.key == key :: H.Copy(u, loc.index)
  }

  function QueuedOf(key: Key, nodes: Nodes): set<Uri> {
    set u | u in nodes && key in nodes[u].queue
  }

  function FleetOf(key: Key, nodes: Nodes): H.Fleet {
    H.Fleet(CopiesOf(key, nodes), QueuedOf(key, nodes), AskedOf(key, nodes))
  }

  lemma InCopies(key: Key, nodes: Nodes, p: H.Copy)
    ensures p in CopiesOf(key, nodes) <==> p.node in nodes && Loc(key, p.index) in nodes[p.node].pieces
    ensures p in AskedOf(key, nodes) <==> p.node in nodes && Loc(key, p.index) in nodes[p.node].tasks
  {
    assert forall loc: Loc | loc.key == key && loc.index == p.index :: loc == Loc(key, p.index);
    assert p == H.Copy(p.node, p.index);
  }

  /** The view is the fleet's cluster, and its holders are up. */
  ghost predicate Matches(c: H.Cluster, view: S.View, key: Key, nodes: Nodes) {
    && c.Valid()
    && (forall i | 0 <= i < c.n :: view.holder(Loc(key, i)) == Some(c.holders[i]) && c.holders[i] in nodes)
  }

  // ----- the services of all nodes -----

  type Net = map<Uri, P.PeerIn>

  /** Every node has services of its own, put together as the program does. */
  ghost predicate Wired(net: Net) {
    && (forall u | u in net ::
          && net[u].stabilizer.uri == u
          && net[u].stabilizer.store == net[u].store == net[u].rebuildQueue.store
          && net[u].rebuildQueue.stabilizer == net[u].stabilizer)
    && (forall u, v | u in net && v in net && u != v ::
          && net[u].store != net[v].store && net[u].stabilizer != net[v].stabilizer
          && net[u].rebuildQueue != net[v].rebuildQueue)
  }

  lemma WiredAt(net: Net, u: Uri)
    requires Wired(net) && u in net
    ensures net[u].stabilizer.uri == u && net[u].rebuildQueue.stabilizer == net[u].stabilizer
    ensures net[u].stabilizer.store == net[u].store == net[u].rebuildQueue.store
    ensures forall v | v in net && v != u ::
              && net[u].store != net[v].store && net[u].stabilizer != net[v].stabilizer
              && net[u].rebuildQueue != net[v].rebuildQueue
  {
  }

  lemma InFootprint(net: Net, nodes: set<Uri>, u: Uri)
    requires u in nodes && u in net
    ensures net[u].store in Footprint(net, nodes) && net[u].stabilizer in Footprint(net, nodes)
    ensures net[u].rebuildQueue in Footprint(net, nodes)
  {
  }

  lemma NotInFootprint(net: Net, nodes: set<Uri>, u: Uri)
    requires Wired(net) && u !in nodes && u in net
    ensures net[u].store !in Footprint(net, nodes) && net[u].stabilizer !in Footprint(net, nodes)
    ensures net[u].rebuildQueue !in Footprint(net, nodes)
  {
    hide Wired;
    WiredAt(net, u);
  }

  lemma FootprintApart(net: Net, others: set<Uri>)
    requires Wired(net) && others <= net.Keys
    ensures forall v | v in others :: Footprint(net, others - {v}) <= Footprint(net, others)
    ensures forall v | v in others ::
              net[v].store in Footprint(net, others) && net[v].stabilizer in Footprint(net, others)
              && net[v].rebuildQueue in Footprint(net, others)
    ensures forall v | v in net.Keys - others ::
              net[v].store !in Footprint(net, others) && net[v].stabilizer !in Footprint(net, others)
              && net[v].rebuildQueue !in Footprint(net, others)
  {
    assert forall v | v in others :: Footprint(net, others - {v}) <= Footprint(net, others);
    hide Wired, Footprint;
    forall v | v in others {
      InFootprint(net, others, v);
    }
    forall v | v in net.Keys - others {
      NotInFootprint(net, others, v);
    }
  }

  ghost function NodeOf(p: P.PeerIn): Node
    reads p.store, p.stabilizer, p.rebuildQueue
  {
    Node(p.store.pieces, p.stabilizer.queue, p.rebuildQueue.queue)
  }

  /** What the services of the given nodes change. */
  ghost function Footprint(net: Net, nodes: set<Uri>): set<object> {
    (set u | u in nodes && u in net :: net[u].store as object)
    + (set u | u in nodes && u in net :: net[u].stabilizer as object)
    + (set u | u in nodes && u in net :: net[u].rebuildQueue as object)
  }

  ghost function NodesOf(net: Net): Nodes
    reads Footprint(net, net.Keys)
  {
    map u | u in net :: NodeOf(net[u])
  }

  // ----- a flush of a stabilizer -----

  /** A node that has accepted everything of `sent` that was meant for it. */
  ghost predicate Received(v: Uri, before: Node, after: Node, sent: set<S.Sent>) {
    && (forall loc :: loc in after.pieces <==>
          loc in before.pieces || exists s :: s in sent && s.to == v && s.message.data.Some? && s.message.loc == loc)
    && (forall loc :: loc in after.tasks <==>
          loc in before.tasks || exists s :: s in sent && s.to == v && s.message.data.None? && s.message.loc == loc)
    && (forall key :: key in after.queue <==>
          key in before.queue || exists s :: s in sent && s.to == v && s.message.data.Some? && s.message.loc.key == key)
  }

  lemma ReceivedNothing(v: Uri, node: Node)
    ensures Received(v, node, node, {})
  {
  }

  lemma ReceivedMore(v: Uri, before: Node, now: Node, after: Node, sent: set<S.Sent>, s: S.Sent)
    requires Received(v, before, now, sent)
    requires after.pieces.Keys == now.pieces.Keys + if s.to == v && s.message.data.Some? then {s.message.loc} else {}
    requires after.tasks == now.tasks + if s.to == v && s.message.data.None? then {s.message.loc} else {}
    requires after.queue == now.queue + if s.to == v && s.message.data.Some? then {s.message.loc.key} else {}
    ensures Received(v, before, after, sent + {s})
  {
  }

  /** Delivers to one node what was sent to it, message by message, in any order. */
  method Deliver(p: P.PeerIn, sent: set<S.Sent>)
    requires p.stabilizer.store == p.store
    requires forall s | s in sent && s.to == p.stabilizer.uri :: p.cluster.version <= s.message.version
    modifies p.store, p.stabilizer`queue, p.rebuildQueue`queue
    ensures Received(p.stabilizer.uri, old(NodeOf(p)), NodeOf(p), sent)
  {
    hide Received;
    ghost var before := NodeOf(p);
    var left := sent;
    ghost var over: set<S.Sent> := {};
    ReceivedNothing(p.stabilizer.uri, before);
    while left != {}
      invariant left <= sent && over == sent - left
      invariant Received(p.stabilizer.uri, before, NodeOf(p), over)
    {
      var s :| s in left;
      left := left - {s};
      ghost var now := NodeOf(p);
      if s.to == p.stabilizer.uri {
        var r := p.SavePiece(s.message, false);
        assert r == Accepted;
      }
      ReceivedMore(p.stabilizer.uri, before, now, NodeOf(p), over, s);
      over := over + {s};
    }
    assert over == sent;
  }

  /** Nothing goes wrong. */
  ghost predicate AllWorks(world: S.World) {
    forall loc :: !world(loc).getFails && world(loc).reply == Accepted && !world(loc).deleteFails
  }

  /** A flush of the stabilizer of `u` and the deliveries it makes. */
  ghost predicate Flushed(view: S.View, n: nat, world: S.World, nodes: Nodes, after: Nodes, u: Uri)
    requires u in nodes
  {
    var moves := S.Outgoing(view, u, nodes[u].queue, n);
    && after.Keys == nodes.Keys
    && (forall v | v in nodes && v != u ::
          Received(v, nodes[v], after[v], S.SentFor(view, nodes[u].pieces, world, moves)))
    && after[u] == Node(nodes[u].pieces - S.Gone(nodes[u].pieces, world, moves), {}, nodes[u].tasks)
  }

  /** When nothing goes wrong no move is cut short and no key is queued again. */
  lemma NothingIsCut(
    view: S.View, me: Uri, n: nat, world: S.World, pieces: PieceStore.Contents,
    queue: set<Key>, done: set<Loc>, cut: set<Loc>, rejected: bool)
    requires AllWorks(world) && S.WorkedThrough(view, me, n, world, queue, done, cut, rejected)
    ensures !rejected && S.FailedKeys(world, done) == {} && {} + S.FailedKeys(world, done) == {}
    ensures done + S.Sending(world, cut) == S.Outgoing(view, me, queue, n)
    ensures S.Left(pieces, world, done, cut) == pieces - S.Gone(pieces, world, S.Outgoing(view, me, queue, n))
  {
    hide S.Outgoing;
    assert cut == {};
    S.NoneCut(world, done);
  }

  lemma SentUnderTheView(view: S.View, pieces: PieceStore.Contents, world: S.World, moves: set<Loc>)
    ensures forall s | s in S.SentFor(view, pieces, world, moves) :: s.message.version == view.version
  {
  }

  /** Delivers messages to several nodes, one node after the other in any order. */
  method DeliverTo(net: Net, others: set<Uri>, sent: set<S.Sent>)
    requires Wired(net) && others <= net.Keys
    requires forall v, s | v in others && s in sent :: net[v].cluster.version <= s.message.version
    modifies Footprint(net, others)
    ensures forall v | v in others :: Received(v, old(NodeOf(net[v])), NodeOf(net[v]), sent)
    decreases others
  {
    hide Received, Wired, Footprint;
    FootprintApart(net, others);
    if others != {} {
      var v :| v in others;
      WiredAt(net, v);
      FootprintApart(net, others - {v});
      Deliver(net[v], sent);
      assert forall w | w in others && w != v :: NodeOf(net[w]) == old(NodeOf(net[w]));
      DeliverTo(net, others - {v}, sent);
    }
  }

  /** Flushes a stabilizer when nothing goes wrong. */
  method FlushAlone(st: S.Stabilizer, world: S.World) returns (sent: set<S.Sent>)
    requires AllWorks(world)
    modifies st`queue, st.store
    ensures var moves := S.Outgoing(st.cluster, st.uri, old(st.queue), st.n);
            && st.queue == {}
            && st.store.pieces == old(st.store.pieces) - S.Gone(old(st.store.pieces), world, moves)
            && sent == S.SentFor(st.cluster, old(st.store.pieces), world, moves)
    ensures forall s | s in sent :: s.message.version == st.cluster.version
  {
    hide AllWorks, S.Outgoing, S.SentFor, S.WorkedThrough, S.Gone, S.Left, S.Sending, S.FailedKeys;
    ghost var pieces, queue := st.store.pieces, st.queue;
    var rejected, out, done, cut := st.FlushQueue(world, {});
    sent := out;
    NothingIsCut(st.cluster, st.uri, st.n, world, pieces, queue, done, cut, rejected);
    SentUnderTheView(st.cluster, pieces, world, S.Outgoing(st.cluster, st.uri, queue, st.n));
  }

  /** Flushes the stabilizer of `u` and delivers what it sends to all other nodes, none of which has a newer map. */
  method FlushAndDeliver(net: Net, u: Uri, world: S.World)
    requires Wired(net) && u in net && AllWorks(world)
    requires forall v | v in net :: net[v].cluster.version <= net[u].stabilizer.cluster.version
    modifies Footprint(net, net.Keys)
    ensures Flushed(old(net[u].stabilizer.cluster), net[u].stabilizer.n, world, old(NodesOf(net)), NodesOf(net), u)
  {
    hide Wired, Received, AllWorks, S.Outgoing, S.SentFor, S.Gone, Footprint;
    WiredAt(net, u);
    FootprintApart(net, net.Keys);
    FootprintApart(net, net.Keys - {u});
    var sent := FlushAlone(net[u].stabilizer, world);
    assert forall v | v in net && v != u :: NodeOf(net[v]) == old(NodeOf(net[v]));
    DeliverTo(net, net.Keys - {u}, sent);
  }

  /** What is sent to `v`: the pieces of the key that `v` holds and the sender has, with their data, and the
      others without; of keys that are not queued, nothing. */
  lemma WhatIsSent(
    c: H.Cluster, view: S.View, world: S.World, nodes: Nodes, u: Uri, v: Uri, loc: Loc, full: bool)
    requires Matches(c, view, loc.key, nodes) && u in nodes && v != u && !world(loc).getFails
    ensures var sent := S.SentFor(view, nodes[u].pieces, world, S.Outgoing(view, u, nodes[u].queue, c.n));
            (exists s :: s in sent && s.to == v && s.message.data.Some? == full && s.message.loc == loc) <==>
            && loc.key in nodes[u].queue && loc.index < c.n && c.holders[loc.index] == v
            && full == (loc in nodes[u].pieces)
  {
    var moves := S.Outgoing(view, u, nodes[u].queue, c.n);
    assert loc == Loc(loc.key, loc.index);
    if loc.key in nodes[u].queue && loc.index < c.n && c.holders[loc.index] == v {
      assert loc in moves;
      assert S.Sent(v, S.MessageFor(view, nodes[u].pieces, loc)) in S.SentFor(view, nodes[u].pieces, world, moves);
    }
  }

  lemma CopiesAfter(
    c: H.Cluster, view: S.View, key: Key, world: S.World, nodes: Nodes, after: Nodes, u: Uri, p: H.Copy)
    requires Matches(c, view, key, nodes) && u in nodes && AllWorks(world)
    requires Flushed(view, c.n, world, nodes, after, u) && key in nodes[u].queue && p.node in nodes
    ensures var loc := Loc(key, p.index);
            var home := p.index < c.n && c.holders[p.index] == p.node && p.node != u;
            && (loc in after[p.node].pieces <==>
                if p.node == u then loc in nodes[u].pieces && !(p.index < c.n && c.holders[p.index] != u)
                else loc in nodes[p.node].pieces || (home && loc in nodes[u].pieces))
            && (loc in after[p.node].tasks <==>
                loc in nodes[p.node].tasks || (home && loc !in nodes[u].pieces))
  {
    var loc := Loc(key, p.index);
    if p.node == u {
      assert loc in S.Outgoing(view, u, nodes[u].queue, c.n) <==> p.index < c.n && c.holders[p.index] != u;
    } else {
      hide S.SentFor, S.Outgoing, S.Gone;
      WhatIsSent(c, view, world, nodes, u, p.node, loc, true);
      WhatIsSent(c, view, world, nodes, u, p.node, loc, false);
    }
  }

  lemma QueuedAfter(
    c: H.Cluster, view: S.View, key: Key, world: S.World, nodes: Nodes, after: Nodes, u: Uri, v: Uri)
    requires Matches(c, view, key, nodes) && u in nodes && AllWorks(world)
    requires Flushed(view, c.n, world, nodes, after, u) && key in nodes[u].queue && v in nodes
    ensures key in after[v].queue <==>
            v != u && (key in nodes[v].queue ||
                       exists i :: 0 <= i < c.n && c.holders[i] == v && Loc(key, i) in nodes[u].pieces)
  {
    hide S.SentFor, S.Outgoing, S.Gone;
    if v != u {
      var sent := S.SentFor(view, nodes[u].pieces, world, S.Outgoing(view, u, nodes[u].queue, c.n));
      if s :| s in sent && s.to == v && s.message.data.Some? && s.message.loc.key == key {
        WhatIsSent(c, view, world, nodes, u, v, s.message.loc, true);
        assert s.message.loc == Loc(key, s.message.loc.index);
      }
      if i :| 0 <= i < c.n && c.holders[i] == v && Loc(key, i) in nodes[u].pieces {
        WhatIsSent(c, view, world, nodes, u, v, Loc(key, i), true);
      }
    }
  }

  lemma InStabilized(c: H.Cluster, f: H.Fleet, u: Uri, p: H.Copy)
    requires c.Valid()
    ensures var home := p.index < c.n && c.holders[p.index] == p.node && p.node != u;
            && (p in H.Stabilize(c, f, u).has <==>
                if p.node == u then p in f.has && !(p.index < c.n && c.holders[p.index] != u)
                else p in f.has || (home && H.Copy(u, p.index) in f.has))
            && (p in H.Stabilize(c, f, u).asked <==> p in f.asked || (home && H.Copy(u, p.index) !in f.has))
  {
    assert p == H.Copy(p.node, p.index);
    if p.index < c.n && c.holders[p.index] == p.node && p.node != u {
      assert H.Home(c, p.index) == p && p.index in H.Elsewhere(c, u);
      assert p.index in H.Elsewhere(c, u) - H.Moved(c, f, u) <==> H.Copy(u, p.index) !in f.has;
    }
  }

  lemma FleetCopy(
    c: H.Cluster, view: S.View, key: Key, world: S.World, nodes: Nodes, after: Nodes, u: Uri, p: H.Copy)
    requires Matches(c, view, key, nodes) && u in nodes && AllWorks(world)
    requires Flushed(view, c.n, world, nodes, after, u) && key in nodes[u].queue
    ensures p in FleetOf(key, after).has <==> p in H.Stabilize(c, FleetOf(key, nodes), u).has
    ensures p in FleetOf(key, after).asked <==> p in H.Stabilize(c, FleetOf(key, nodes), u).asked
  {
    hide CopiesOf, AskedOf, QueuedOf, H.Stabilize, AllWorks, S.SentFor, S.Outgoing, S.Gone, Received;
    InStabilized(c, FleetOf(key, nodes), u, p);
    InCopies(key, nodes, p);
    InCopies(key, after, p);
    InCopies(key, nodes, H.Copy(u, p.index));
    if p.node in nodes {
      CopiesAfter(c, view, key, world, nodes, after, u, p);
    }
  }

  lemma FleetQueue(
    c: H.Cluster, view: S.View, key: Key, world: S.World, nodes: Nodes, after: Nodes, u: Uri, v: Uri)
    requires Matches(c, view, key, nodes) && u in nodes && AllWorks(world)
    requires Flushed(view, c.n, world, nodes, after, u) && key in nodes[u].queue
    ensures v in FleetOf(key, after).queued <==> v in H.Stabilize(c, FleetOf(key, nodes), u).queued
  {
    hide CopiesOf, AskedOf, S.SentFor, S.Outgoing, S.Gone, Received, AllWorks;
    var f := FleetOf(key, nodes);
    forall i | 0 <= i < c.n ensures H.Copy(u, i) in f.has <==> Loc(key, i) in nodes[u].pieces {
      InCopies(key, nodes, H.Copy(u, i));
    }
    if v in nodes {
      QueuedAfter(c, view, key, world, nodes, after, u, v);
    }
  }

  /** For a key that was queued on `u`, the flush is one `Stabilize` of the fleet. */
  lemma FlushIsStabilize(
    c: H.Cluster, view: S.View, key: Key, world: S.World, nodes: Nodes, after: Nodes, u: Uri)
    requires Matches(c, view, key, nodes) && u in nodes && AllWorks(world)
    requires Flushed(view, c.n, world, nodes, after, u) && key in nodes[u].queue
    ensures FleetOf(key, after) == H.Stabilize(c, FleetOf(key, nodes), u)
  {
    hide CopiesOf, AskedOf, QueuedOf, H.Stabilize, Flushed, Matches, AllWorks;
    var g, h := FleetOf(key, after), H.Stabilize(c, FleetOf(key, nodes), u);
    forall p: H.Copy ensures (p in g.has <==> p in h.has) && (p in g.asked <==> p in h.asked) {
      FleetCopy(c, view, key, world, nodes, after, u, p);
    }
    forall v ensures v in g.queued <==> v in h.queued {
      FleetQueue(c, view, key, world, nodes, after, u, v);
    }
  }

  /** What a flush does not send it does not change. */
  lemma UnsentStays(
    c: H.Cluster, view: S.View, key: Key, world: S.World, nodes: Nodes, after: Nodes, u: Uri, v: Uri, i: nat)
    requires Matches(c, view, key, nodes) && u in nodes && AllWorks(world)
    requires Flushed(view, c.n, world, nodes, after, u) && key !in nodes[u].queue && v in nodes
    ensures Loc(key, i) in after[v].pieces <==> Loc(key, i) in nodes[v].pieces
    ensures Loc(key, i) in after[v].tasks <==> Loc(key, i) in nodes[v].tasks
    ensures key in after[v].queue <==> key in nodes[v].queue
  {
    if v == u {
      assert Loc(key, i) !in S.Outgoing(view, u, nodes[u].queue, c.n);
    } else {
      var sent := S.SentFor(view, nodes[u].pieces, world, S.Outgoing(view, u, nodes[u].queue, c.n));
      assert forall s | s in sent :: s.message.loc.key in nodes[u].queue;
    }
  }

  /** For any other key it is nothing. */
  lemma FlushLeavesOthers(
    c: H.Cluster, view: S.View, key: Key, world: S.World, nodes: Nodes, after: Nodes, u: Uri)
    requires Matches(c, view, key, nodes) && u in nodes && AllWorks(world)
    requires Flushed(view, c.n, world, nodes, after, u) && key !in nodes[u].queue
    ensures FleetOf(key, after) == FleetOf(key, nodes)
  {
    hide CopiesOf, AskedOf, S.SentFor, S.Outgoing, S.Gone, Received, AllWorks, Matches;
    var f, g := FleetOf(key, nodes), FleetOf(key, after);
    forall p: H.Copy ensures (p in g.has <==> p in f.has) && (p in g.asked <==> p in f.asked) {
      InCopies(key, nodes, p);
      InCopies(key, after, p);
      if p.node in nodes {
        UnsentStays(c, view, key, world, nodes, after, u, p.node, p.index);
      }
    }
    forall v ensures v in g.queued <==> v in f.queued {
      if v in nodes {
        UnsentStays(c, view, key, world, nodes, after, u, v, 0);
      }
    }
  }

  /** Flushing a stabilizer and delivering what it sends is, for every key at once, a step of the fleet. */
  method StabilizeStep(net: Net, u: Uri, world: S.World, ghost c: Key -> H.Cluster)
    requires Wired(net) && u in net && AllWorks(world)
    requires forall v | v in net :: net[v].cluster.version <= net[u].stabilizer.cluster.version
    requires forall key ::
               c(key).n == net[u].stabilizer.n && Matches(c(key), net[u].stabilizer.cluster, key, NodesOf(net))
    modifies Footprint(net, net.Keys)
    ensures forall key :: FleetOf(key, NodesOf(net)) ==
              var f := FleetOf(key, old(NodesOf(net)));
              if u in f.queued then H.Stabilize(c(key), f, u) else f
  {
    hide Matches, Flushed, AllWorks, H.Stabilize, CopiesOf, AskedOf;
    ghost var nodes := NodesOf(net);
    ghost var view := net[u].stabilizer.cluster;
    FlushAndDeliver(net, u, world);
    forall key
      ensures FleetOf(key, NodesOf(net)) ==
              var f := FleetOf(key, nodes);
              if u in f.queued then H.Stabilize(c(key), f, u) else f
    {
      if key in nodes[u].queue {
        FlushIsStabilize(c(key), view, key, world, nodes, NodesOf(net), u);
      } else {
        FlushLeavesOthers(c(key), view, key, world, nodes, NodesOf(net), u);
      }
    }
  }

  // ----- a flush of a rebuild queue -----

  /** The lists of pieces that the nodes answer with. */
  ghost predicate Lists(stores: R.Stores, key: Key, nodes: Nodes) {
    && stores.Keys == nodes.Keys
    && forall u, i: nat | u in nodes ::
         (exists p :: p in stores[u] && p.0 == i) <==> Loc(key, i) in nodes[u].pieces
  }

  /** Some holders answer, and then every member does. */
  ghost predicate HearsAll(c: H.Cluster, luck: Q.Luck, key: Key, nodes: Nodes) {
    exists stores, first: set<Uri> ::
      && Lists(stores, key, nodes) && first <= c.members
      && R.RepliesFrom(stores, first, luck.fromHolders) && R.RepliesFrom(stores, c.members, luck.fromMembers)
  }

  lemma SuppliedIsAvailable(c: H.Cluster, stores: R.Stores, key: Key, nodes: Nodes)
    requires Lists(stores, key, nodes)
    ensures R.Supplied(stores, c.members) == H.Available(c, FleetOf(key, nodes))
  {
    hide CopiesOf;
    forall i | i in R.Supplied(stores, c.members) ensures i in H.Available(c, FleetOf(key, nodes)) {
      var u, p :| u in c.members && u in stores && p in stores[u] && p.0 == i;
      InCopies(key, nodes, H.Copy(u, i));
      assert H.Copy(u, i).index == i;
    }
    forall i | i in H.Available(c, FleetOf(key, nodes)) ensures i in R.Supplied(stores, c.members) {
      var at :| at in FleetOf(key, nodes).has && at.node in c.members && at.index == i;
      InCopies(key, nodes, at);
      var p :| p in stores[at.node] && p.0 == i;
    }
  }

  lemma EnoughIsAvailable(c: H.Cluster, codec: Codec, luck: Q.Luck, key: Key, nodes: Nodes)
    requires HearsAll(c, luck, key, nodes) && c.k == codec.k
    ensures Q.Enough(codec, luck) <==> c.k <= |H.Available(c, FleetOf(key, nodes))|
  {
    hide R.IndicesOf, H.Available, R.RepliesFrom;
    var stores, first: set<Uri> :|
      && Lists(stores, key, nodes) && first <= c.members
      && R.RepliesFrom(stores, first, luck.fromHolders) && R.RepliesFrom(stores, c.members, luck.fromMembers);
    SuppliedIsAvailable(c, stores, key, nodes);
    R.RepliesSupply(stores, first, luck.fromHolders);
    R.RepliesSupply(stores, c.members, luck.fromMembers);
    SubsetSize(R.Supplied(stores, first), R.Supplied(stores, c.members));
  }

  /** Rebuild executions of the fleet one after the other. */
  function RebuildEach(c: H.Cluster, f: H.Fleet, ps: seq<H.Copy>): H.Fleet {
    if ps == [] then f else H.Rebuild(c, RebuildEach(c, f, ps[..|ps| - 1]), ps[|ps| - 1])
  }

  /** What they come to. */
  function Rebuilt(c: H.Cluster, f: H.Fleet, ps: set<H.Copy>): H.Fleet {
    if c.k <= |H.Available(c, f)| then
      H.Fleet(f.has + ps, f.queued + (set p | p in ps - f.has :: p.node), f.asked - ps)
    else H.Fleet(f.has, f.queued, f.asked - ps * f.has)
  }

  lemma MoreAvailable(c: H.Cluster, f: H.Fleet, g: H.Fleet)
    requires f.has <= g.has
    ensures |H.Available(c, f)| <= |H.Available(c, g)|
  {
    forall i | i in H.Available(c, f) ensures i in H.Available(c, g) {
      var p :| p in f.has && p.node in c.members && p.index == i;
      assert p in g.has;
    }
    SubsetSize(H.Available(c, f), H.Available(c, g));
  }

  lemma RebuiltOneMore(c: H.Cluster, f: H.Fleet, ps: set<H.Copy>, p: H.Copy)
    requires p !in ps && p in f.asked
    ensures H.Rebuild(c, Rebuilt(c, f, ps), p) == Rebuilt(c, f, ps + {p})
  {
    hide H.Available;
    var g := Rebuilt(c, f, ps);
    MoreAvailable(c, f, g);
    if c.k <= |H.Available(c, f)| {
      assert (ps + {p}) - f.has == (ps - f.has) + ({p} - f.has);
      assert f.has + (ps + {p}) == f.has + ps + {p};
    } else {
      assert H.Available(c, g) == H.Available(c, f) by {
        assert g.has == f.has;
        SameAvailable(c, f, g);
      }
      assert p in f.has ==> (ps + {p}) * f.has == ps * f.has + {p};
      assert p !in f.has ==> (ps + {p}) * f.has == ps * f.has;
    }
  }

  lemma SameAvailable(c: H.Cluster, f: H.Fleet, g: H.Fleet)
    requires f.has == g.has
    ensures H.Available(c, f) == H.Available(c, g)
  {
  }

  /** In whatever order. */
  lemma {:induction false} AnyOrderRebuilds(c: H.Cluster, f: H.Fleet, ps: seq<H.Copy>)
    requires Distinct(ps) && forall p | p in ps :: p in f.asked
    ensures RebuildEach(c, f, ps) == Rebuilt(c, f, (set p | p in ps))
  {
    if ps == [] {
      assert (set p | p in ps) == {};
    } else {
      var init, p := ps[..|ps| - 1], ps[|ps| - 1];
      assert ps == init + [p];
      AnyOrderRebuilds(c, f, init);
      RebuiltOneMore(c, f, (set q | q in init), p);
      assert (set q | q in init) + {p} == (set q | q in ps);
    }
  }

  function TasksOf(u: Uri, key: Key, tasks: set<Loc>): set<H.Copy> {
    set loc | loc in tasks && loc.key == key :: H.Copy(u, loc.index)
  }

  /** What a flush of the rebuild queue does to its node, told without the services' own terms. */
  ghost predicate Worked(nodes: Nodes, after: Nodes, u: Uri, key: Key, enough: bool)
    requires u in nodes
  {
    && after.Keys == nodes.Keys
    && (forall v | v in nodes && v != u :: after[v] == nodes[v])
    && (forall i: nat :: Loc(key, i) in after[u].pieces <==>
          Loc(key, i) in nodes[u].pieces || (enough && Loc(key, i) in nodes[u].tasks))
    && (forall i: nat :: Loc(key, i) in after[u].tasks <==>
          Loc(key, i) in nodes[u].tasks && Loc(key, i) !in nodes[u].pieces && !enough)
    && (key in after[u].queue <==>
        key in nodes[u].queue ||
        (enough && exists i: nat :: Loc(key, i) in nodes[u].tasks && Loc(key, i) !in nodes[u].pieces))
  }

  lemma InTasks(u: Uri, key: Key, tasks: set<Loc>, p: H.Copy)
    ensures p in TasksOf(u, key, tasks) <==> p.node == u && Loc(key, p.index) in tasks
  {
    assert Loc(key, p.index).key == key;
  }

  lemma WorkedCopy(c: H.Cluster, nodes: Nodes, after: Nodes, u: Uri, key: Key, enough: bool, p: H.Copy)
    requires u in nodes && Worked(nodes, after, u, key, enough)
    requires enough <==> c.k <= |H.Available(c, FleetOf(key, nodes))|
    ensures var h := Rebuilt(c, FleetOf(key, nodes), TasksOf(u, key, nodes[u].tasks));
            && (p in CopiesOf(key, after) <==> p in h.has)
            && (p in AskedOf(key, after) <==> p in h.asked)
  {
    hide CopiesOf, AskedOf, QueuedOf, H.Available, TasksOf;
    InCopies(key, nodes, p);
    InCopies(key, after, p);
    InTasks(u, key, nodes[u].tasks, p);
  }

  lemma WorkedQueue(c: H.Cluster, nodes: Nodes, after: Nodes, u: Uri, key: Key, enough: bool, v: Uri)
    requires u in nodes && Worked(nodes, after, u, key, enough)
    requires enough <==> c.k <= |H.Available(c, FleetOf(key, nodes))|
    ensures v in QueuedOf(key, after) <==>
            v in Rebuilt(c, FleetOf(key, nodes), TasksOf(u, key, nodes[u].tasks)).queued
  {
    hide CopiesOf, AskedOf, H.Available, TasksOf;
    var f, ps := FleetOf(key, nodes), TasksOf(u, key, nodes[u].tasks);
    forall p: H.Copy
      ensures p in ps - f.has <==> p.node == u && Loc(key, p.index) in nodes[u].tasks - nodes[u].pieces.Keys
    {
      InTasks(u, key, nodes[u].tasks, p);
      InCopies(key, nodes, p);
    }
    if i: nat :| Loc(key, i) in nodes[u].tasks && Loc(key, i) !in nodes[u].pieces {
      assert H.Copy(u, i) in ps - f.has;
    }
  }

  lemma FlushIsRebuild(c: H.Cluster, nodes: Nodes, after: Nodes, u: Uri, key: Key, enough: bool)
    requires u in nodes && Worked(nodes, after, u, key, enough)
    requires enough <==> c.k <= |H.Available(c, FleetOf(key, nodes))|
    ensures FleetOf(key, after) == Rebuilt(c, FleetOf(key, nodes), TasksOf(u, key, nodes[u].tasks))
  {
    hide CopiesOf, AskedOf, QueuedOf, Rebuilt, Worked, H.Available, TasksOf;
    var g, h := FleetOf(key, after), Rebuilt(c, FleetOf(key, nodes), TasksOf(u, key, nodes[u].tasks));
    forall p: H.Copy ensures (p in g.has <==> p in h.has) && (p in g.asked <==> p in h.asked) {
      WorkedCopy(c, nodes, after, u, key, enough, p);
    }
    forall v ensures v in g.queued <==> v in h.queued {
      WorkedQueue(c, nodes, after, u, key, enough, v);
    }
  }

  /** Every task is of one of the code's pieces, the store works, and all members answer. */
  ghost predicate Undisturbed(c: Key -> H.Cluster, codec: Codec, world: Q.World, nodes: Nodes, u: Uri)
    requires u in nodes
  {
    && (forall key :: c(key).k == codec.k)
    && forall loc | loc in nodes[u].tasks ::
      && loc.index < codec.n && !world(loc).existsFails && !world(loc).putFails
      && HearsAll(c(loc.key), world(loc), loc.key, nodes)
  }

  lemma UndisturbedEnding(
    c: Key -> H.Cluster, codec: Codec, world: Q.World, nodes: Nodes, u: Uri, loc: Loc)
    requires u in nodes && Undisturbed(c, codec, world, nodes, u) && loc in nodes[u].tasks
    ensures Q.EndingOf(codec, world, nodes[u].pieces, loc) ==
            if loc in nodes[u].pieces || c(loc.key).k <= |H.Available(c(loc.key), FleetOf(loc.key, nodes))|
            then Q.Fine else Q.Retry
  {
    hide HearsAll, Q.Enough, H.Available;
    EnoughIsAvailable(c(loc.key), codec, world(loc), loc.key, nodes);
  }

  lemma FlushWorked(
    c: Key -> H.Cluster, codec: Codec, data: Key -> seq<Bytes>, world: Q.World, nodes: Nodes, after: Nodes, u: Uri,
    key: Key)
    requires u in nodes && Undisturbed(c, codec, world, nodes, u) && Q.Honest(codec, data, world)
    requires after.Keys == nodes.Keys && forall v | v in nodes && v != u :: after[v] == nodes[v]
    requires var added := Q.Restored(codec, data, world, nodes[u].pieces, nodes[u].tasks);
             after[u] == Node(nodes[u].pieces + added, nodes[u].queue + PieceStore.KeysOf(added),
                              Q.Failing(codec, world, nodes[u].pieces, nodes[u].tasks))
    ensures Worked(nodes, after, u, key, c(key).k <= |H.Available(c(key), FleetOf(key, nodes))|)
  {
    hide Undisturbed, Q.EndingOf, H.Available, CopiesOf, AskedOf, QueuedOf, Q.Restored;
    var added := Q.Restored(codec, data, world, nodes[u].pieces, nodes[u].tasks);
    forall loc | loc in nodes[u].tasks
      ensures loc in added <==> loc !in nodes[u].pieces && Q.EndingOf(codec, world, nodes[u].pieces, loc) == Q.Fine
    {
      HasShard(c, codec, data, world, nodes, u, loc);
      Q.RestoredIn(codec, data, world, nodes[u].pieces, nodes[u].tasks, loc);
    }
    forall loc ensures loc in added ==> loc in nodes[u].tasks {
      Q.RestoredIn(codec, data, world, nodes[u].pieces, nodes[u].tasks, loc);
    }
    forall i: nat | Loc(key, i) in nodes[u].tasks
      ensures Q.EndingOf(codec, world, nodes[u].pieces, Loc(key, i)) ==
              if Loc(key, i) in nodes[u].pieces || c(key).k <= |H.Available(c(key), FleetOf(key, nodes))|
              then Q.Fine else Q.Retry
    {
      UndisturbedEnding(c, codec, world, nodes, u, Loc(key, i));
    }
    KeyAdded(key, added);
  }

  lemma HasShard(
    c: Key -> H.Cluster, codec: Codec, data: Key -> seq<Bytes>, world: Q.World, nodes: Nodes, u: Uri, loc: Loc)
    requires u in nodes && Undisturbed(c, codec, world, nodes, u) && Q.Honest(codec, data, world)
    requires loc in nodes[u].tasks
    ensures loc.index < |codec.encode(data(loc.key))|
  {
    hide HearsAll;
  }

  lemma KeyAdded(key: Key, added: PieceStore.Contents)
    ensures key in PieceStore.KeysOf(added) <==> exists i: nat :: Loc(key, i) in added
  {
    if loc :| loc in added && loc.key == key {
      assert loc == Loc(key, loc.index);
    }
  }

  /** Flushing a rebuild queue is, for every key at once, a rebuild of the fleet for each of the key's tasks, in
      any order. */
  method RebuildStep(net: Net, u: Uri, world: Q.World, ghost data: Key -> seq<Bytes>, ghost c: Key -> H.Cluster)
    requires Wired(net) && u in net && Q.Honest(net[u].rebuildQueue.codec, data, world)
    requires Undisturbed(c, net[u].rebuildQueue.codec, world, NodesOf(net), u)
    modifies net[u].store, net[u].stabilizer`queue, net[u].rebuildQueue`queue
    ensures forall key :: FleetOf(key, NodesOf(net)) ==
              Rebuilt(c(key), FleetOf(key, old(NodesOf(net))), TasksOf(u, key, old(NodesOf(net)[u].tasks)))
  {
    hide Wired, Q.Honest, Undisturbed, Q.Restored, Q.Failing, Q.EndingOf, Q.Putting, Q.Queueing, PieceStore.KeysOf,
      CopiesOf, AskedOf, QueuedOf, Rebuilt, TasksOf, Worked, H.Available;
    ghost var nodes := NodesOf(net);
    WiredAt(net, u);
    var rq := net[u].rebuildQueue;
    ghost var tasks := rq.queue;
    forall loc | loc in tasks ensures Q.EndingOf(rq.codec, world, nodes[u].pieces, loc) != Q.Panicked {
      UndisturbedEnding(c, rq.codec, world, nodes, u, loc);
    }
    var panicked, done, cut := rq.FlushQueue(world, {}, data);
    assert cut == {} && done == tasks;
    Q.NoneCut(world, tasks);
    ghost var after := NodesOf(net);
    ghost var again := Q.Failing(rq.codec, world, nodes[u].pieces, tasks);
    assert {} + again == again;
    forall key
      ensures FleetOf(key, after) == Rebuilt(c(key), FleetOf(key, nodes), TasksOf(u, key, nodes[u].tasks))
    {
      FlushWorked(c, rq.codec, data, world, nodes, after, u, key);
      FlushIsRebuild(c(key), nodes, after, u, key, c(key).k <= |H.Available(c(key), FleetOf(key, nodes))|);
    }
  }
}
