/**
 * At a fixed map with all calls succeeding, the stabilizers and rebuild queues repair every key.
 *
 * Different keys touch different pieces and different tasks. For one key a fleet is where its pieces
 * are and who has it queued, and a flush is a run of the two executions below; `FleetRefinement` proves
 * that of the services. Executions may happen in any order, of any keys, on any nodes.
 */
module SelfHealing {
  import opened Types
  import IoFront
  import M = ClusterMap

  /** The map at hand: the `n` holders, the members, and how many pieces rebuild the others. */
  datatype Cluster = Cluster(n: nat, k: nat, holders: seq<Uri>, members: set<Uri>)
  {
    predicate Valid() {
      1 <= k <= n == |holders| && forall i | 0 <= i < n :: holders[i] in members
    }
  }

  /** Piece `index` of the key, on `node`. */
  datatype Copy = Copy(node: Uri, index: nat)

  /** Where the key's pieces are, which stabilizers have it queued, and which rebuilds are queued. */
  datatype Fleet = Fleet(has: set<Copy>, queued: set<Uri>, asked: set<Copy>)
  {
    predicate Fits(c: Cluster) {
      && (forall p | p in has :: p.index < c.n)
      && (forall p | p in asked :: p.index < c.n)
    }
  }

  predicate AtHome(c: Cluster, p: Copy) {
    p.index < |c.holders| && c.holders[p.index] == p.node
  }

  function Home(c: Cluster, i: nat): Copy
    requires i < |c.holders|
  {
    Copy(c.holders[i], i)
  }

  /** The homes of all indices not meant for `u`. */
  function Elsewhere(c: Cluster, u: Uri): set<nat> {
    set i: nat | i < |c.holders| && c.holders[i] != u
  }

  function Moved(c: Cluster, f: Fleet, u: Uri): set<nat> {
    set i | i in Elsewhere(c, u) && Copy(u, i) in f.has
  }

  /** One stabilizer execution of the key on `u`: every misplaced piece moves to its holder, which queues
      the key; every holder of a piece that `u` lacks is asked to rebuild it. */
  function Stabilize(c: Cluster, f: Fleet, u: Uri): Fleet {
    Fleet(
      f.has - (set i | i in Moved(c, f, u) :: Copy(u, i)) + (set i | i in Moved(c, f, u) :: Home(c, i)),
      f.queued - {u} + (set i | i in Moved(c, f, u) :: c.holders[i]),
      f.asked + (set i | i in Elsewhere(c, u) - Moved(c, f, u) :: Home(c, i)))
  }

  /** The distinct indices a rebuild finds when it asks all members. */
  function Available(c: Cluster, f: Fleet): set<nat> {
    set p | p in f.has && p.node in c.members :: p.index
  }

  /** One rebuild execution: nothing to do, a rebuilt piece whose key is queued, or a retry. */
  function Rebuild(c: Cluster, f: Fleet, p: Copy): Fleet {
    if p in f.has then f.(asked := f.asked - {p})
    else if |Available(c, f)| < c.k then f
    else Fleet(f.has + {p}, f.queued + {p.node}, f.asked - {p})
  }

  /** Every piece is on its holder and there is no other copy. */
  predicate Healed(c: Cluster, f: Fleet) {
    && (forall i | 0 <= i < |c.holders| :: Home(c, i) in f.has)
    && (forall p | p in f.has :: AtHome(c, p))
  }

  function Missing(c: Cluster, f: Fleet): set<nat> {
    set i: nat | i < |c.holders| && Home(c, i) !in f.has
  }

  // ----- every execution makes progress -----

  function Stale(c: Cluster, f: Fleet): set<Copy> {
    set p | p in f.asked && !AtHome(c, p)
  }

  function Misplaced(c: Cluster, f: Fleet): set<Copy> {
    set p | p in f.has && !AtHome(c, p)
  }

  /** A queued key may turn into `n` rebuild tasks, so it weighs more than all of them. */
  function Pending(c: Cluster, f: Fleet): nat {
    |f.queued| * (c.n + 1) + |f.asked|
  }

  /** Rebuilds left over from an older map, missing pieces, misplaced copies, pending tasks. */
  predicate Less(c: Cluster, g: Fleet, f: Fleet) {
    || |Stale(c, g)| < |Stale(c, f)|
    || (|Stale(c, g)| == |Stale(c, f)| &&
        (|Missing(c, g)| < |Missing(c, f)|
         || (|Missing(c, g)| == |Missing(c, f)| &&
             (|Misplaced(c, g)| < |Misplaced(c, f)|
              || (|Misplaced(c, g)| == |Misplaced(c, f)| && Pending(c, g) < Pending(c, f))))))
  }

  lemma {:induction false} HomesSize(c: Cluster, s: set<nat>)
    requires forall i | i in s :: i < |c.holders|
    ensures |set i | i in s :: Home(c, i)| <= |s|
  {
    if s == {} {
      assert (set i | i in s :: Home(c, i)) == {};
    } else {
      var x :| x in s;
      HomesSize(c, s - {x});
      assert (set i | i in s :: Home(c, i)) == (set i | i in s - {x} :: Home(c, i)) + {Home(c, x)};
    }
  }

  lemma StabilizeKeepsStale(c: Cluster, f: Fleet, u: Uri)
    requires c.Valid()
    ensures Stale(c, Stabilize(c, f, u)) == Stale(c, f)
  {
  }

  lemma StabilizeKeepsHomes(c: Cluster, f: Fleet, u: Uri)
    requires c.Valid()
    ensures Missing(c, Stabilize(c, f, u)) <= Missing(c, f)
  {
  }

  lemma StabilizeMovesHome(c: Cluster, f: Fleet, u: Uri)
    requires c.Valid() && f.Fits(c)
    ensures Misplaced(c, Stabilize(c, f, u)) == Misplaced(c, f) - (set i | i in Moved(c, f, u) :: Copy(u, i))
    ensures Moved(c, f, u) != {} ==> |Misplaced(c, Stabilize(c, f, u))| < |Misplaced(c, f)|
  {
    var g := Stabilize(c, f, u);
    SubsetSize(Misplaced(c, g), Misplaced(c, f));
    if i :| i in Moved(c, f, u) {
      assert Copy(u, i) in Misplaced(c, f);
    }
  }

  lemma AsksAtMostAll(c: Cluster, f: Fleet, u: Uri)
    requires c.Valid()
    ensures |Stabilize(c, f, u).asked| <= |f.asked| + c.n
  {
    var lacking := Elsewhere(c, u) - Moved(c, f, u);
    var homes := set i | i in lacking :: Home(c, i);
    HomesSize(c, lacking);
    BelowSize(lacking, c.n);
    assert Stabilize(c, f, u).asked == f.asked + homes;
  }

  lemma QueueShrinks(c: Cluster, f: Fleet, u: Uri)
    requires u in f.queued && Moved(c, f, u) == {}
    ensures |Stabilize(c, f, u).queued| == |f.queued| - 1
  {
    assert Stabilize(c, f, u).queued == f.queued - {u};
  }

  lemma StabilizeSpendsTask(c: Cluster, f: Fleet, u: Uri)
    requires c.Valid() && u in f.queued && Moved(c, f, u) == {}
    ensures Pending(c, Stabilize(c, f, u)) < Pending(c, f)
  {
    AsksAtMostAll(c, f, u);
    QueueShrinks(c, f, u);
    Weigh(|f.queued|, c.n, |f.asked|, |Stabilize(c, f, u).asked|);
  }

  lemma Weigh(q: nat, n: nat, a: nat, b: nat)
    requires 0 < q && b <= a + n
    ensures (q - 1) * (n + 1) + b < q * (n + 1) + a
  {
    assert q * (n + 1) == (q - 1) * (n + 1) + (n + 1);
  }

  lemma StabilizeProgresses(c: Cluster, f: Fleet, u: Uri)
    requires c.Valid() && f.Fits(c) && u in f.queued
    ensures Less(c, Stabilize(c, f, u), f)
  {
    StabilizeKeepsStale(c, f, u);
    StabilizeKeepsHomes(c, f, u);
    SubsetSize(Missing(c, Stabilize(c, f, u)), Missing(c, f));
    StabilizeMovesHome(c, f, u);
    if Moved(c, f, u) == {} {
      StabilizeSpendsTask(c, f, u);
      assert (set i | i in Moved(c, f, u) :: Copy(u, i)) == {};
    }
  }

  lemma RebuildProgresses(c: Cluster, f: Fleet, p: Copy)
    requires c.Valid() && f.Fits(c) && p in f.asked && c.k <= |Available(c, f)|
    ensures Less(c, Rebuild(c, f, p), f)
  {
    var g := Rebuild(c, f, p);
    SubsetSize(Stale(c, g), Stale(c, f));
    if !AtHome(c, p) {
      assert p in Stale(c, f) && p !in Stale(c, g);
    } else {
      assert Stale(c, g) == Stale(c, f);
      if p in f.has {
        assert g.has == f.has;
        assert Missing(c, g) == Missing(c, f) && Misplaced(c, g) == Misplaced(c, f);
      } else {
        SubsetSize(Missing(c, g), Missing(c, f));
        assert p.index in Missing(c, f) && p.index !in Missing(c, g);
      }
    }
  }

  // ----- what every execution keeps -----

  /** `u` has asked for, or knows stored, every piece that belongs elsewhere, and holds none of them. */
  ghost predicate Done(c: Cluster, f: Fleet, u: Uri) {
    forall i | i in Elsewhere(c, u) :: Copy(u, i) !in f.has && (Home(c, i) in f.has || Home(c, i) in f.asked)
  }

  /** A node with any piece of the key has it queued or is done with it. */
  ghost predicate Tended(c: Cluster, f: Fleet) {
    forall p | p in f.has :: p.node in f.queued || Done(c, f, p.node)
  }

  lemma DoneAfter(c: Cluster, f: Fleet, u: Uri)
    requires c.Valid()
    ensures Done(c, Stabilize(c, f, u), u)
  {
  }

  lemma DoneStays(c: Cluster, f: Fleet, u: Uri, v: Uri)
    requires c.Valid() && Done(c, f, v) && v !in Stabilize(c, f, u).queued
    ensures Done(c, Stabilize(c, f, u), v)
  {
  }

  lemma StabilizeTends(c: Cluster, f: Fleet, u: Uri)
    requires c.Valid() && f.Fits(c) && Tended(c, f)
    ensures Stabilize(c, f, u).Fits(c) && Tended(c, Stabilize(c, f, u))
  {
    var g := Stabilize(c, f, u);
    forall p | p in g.has ensures p.node in g.queued || Done(c, g, p.node) {
      if p.node == u {
        DoneAfter(c, f, u);
      } else if p in f.has && p.node !in g.queued {
        DoneStays(c, f, u, p.node);
      }
    }
  }

  lemma RebuildTends(c: Cluster, f: Fleet, p: Copy)
    requires c.Valid() && f.Fits(c) && Tended(c, f) && p in f.asked
    ensures Rebuild(c, f, p).Fits(c) && Tended(c, Rebuild(c, f, p))
  {
    var g := Rebuild(c, f, p);
    forall q | q in g.has ensures q.node in g.queued || Done(c, g, q.node) {
      if q != p || p in f.has {
        assert q.node in f.queued || Done(c, f, q.node);
      }
    }
  }

  lemma StabilizeKeepsAvailable(c: Cluster, f: Fleet, u: Uri)
    requires c.Valid() && f.Fits(c)
    ensures Available(c, f) <= Available(c, Stabilize(c, f, u))
    ensures |Available(c, f)| <= |Available(c, Stabilize(c, f, u))|
  {
    var g := Stabilize(c, f, u);
    forall i | i in Available(c, f) ensures i in Available(c, g) {
      var p :| p in f.has && p.node in c.members && p.index == i;
      if p !in g.has {
        assert Home(c, i) in g.has;
      }
    }
    SubsetSize(Available(c, f), Available(c, g));
  }

  lemma RebuildKeepsAvailable(c: Cluster, f: Fleet, p: Copy)
    ensures |Available(c, f)| <= |Available(c, Rebuild(c, f, p))|
  {
    var g := Rebuild(c, f, p);
    forall i | i in Available(c, f) ensures i in Available(c, g) {
      var q :| q in f.has && q.node in c.members && q.index == i;
      assert q in g.has;
    }
    SubsetSize(Available(c, f), Available(c, g));
  }

  // ----- exactly when the key is repaired -----

  /** A stabilizer never asks its own node, so someone else must be left to ask the holder `h`. */
  ghost predicate Alive(c: Cluster, f: Fleet)
    requires c.Valid()
  {
    var h := c.holders[0];
    || (exists i :: 0 <= i < c.n && c.holders[i] != h)
    || (exists u :: u in f.queued && u != h)
    || (exists p :: p in f.asked && p.node != h)
    || (forall i | 0 <= i < c.n :: Home(c, i) in f.has || Home(c, i) in f.asked)
  }

  /** A node that is done has asked for everything it does not hold a place for. */
  lemma AllAsked(c: Cluster, f: Fleet, u: Uri)
    requires c.Valid() && Done(c, f, u) && forall i | 0 <= i < c.n :: c.holders[i] != u
    ensures forall i | 0 <= i < c.n :: Home(c, i) in f.has || Home(c, i) in f.asked
  {
    forall i | 0 <= i < c.n ensures Home(c, i) in f.has || Home(c, i) in f.asked {
      assert i in Elsewhere(c, u);
    }
  }

  lemma StabilizeAlive(c: Cluster, f: Fleet, u: Uri)
    requires c.Valid() && f.Fits(c) && Tended(c, f) && u in f.queued
    ensures Alive(c, Stabilize(c, f, u)) <==> Alive(c, f)
  {
    var g := Stabilize(c, f, u);
    var h := c.holders[0];
    if forall i | 0 <= i < c.n :: c.holders[i] == h {
      if u == h {
        assert Elsewhere(c, u) == {};
        assert Moved(c, f, u) == {};
        assert g.has == f.has && g.asked == f.asked && g.queued == f.queued - {h};
        assert forall x | x != h :: x in g.queued <==> x in f.queued;
        assert forall i | 0 <= i < c.n :: Home(c, i) in g.has <==> Home(c, i) in f.has;
      } else {
        DoneAfter(c, f, u);
        AllAsked(c, g, u);
      }
    }
  }

  lemma RebuildAlive(c: Cluster, f: Fleet, p: Copy)
    requires c.Valid() && f.Fits(c) && Tended(c, f) && p in f.asked && c.k <= |Available(c, f)|
    ensures Alive(c, Rebuild(c, f, p)) <==> Alive(c, f)
  {
    var g := Rebuild(c, f, p);
    var h := c.holders[0];
    if p.node != h && p in f.has && p.node !in f.queued {
      assert Done(c, f, p.node);
      if forall i | 0 <= i < c.n :: c.holders[i] == h {
        AllAsked(c, f, p.node);
      }
    } else if p.node != h {
      assert p.node in g.queued;
    }
    assert forall i | 0 <= i < c.n :: (Home(c, i) in g.has || Home(c, i) in g.asked) <==>
                                      (Home(c, i) in f.has || Home(c, i) in f.asked);
  }

  lemma QuietIsHealed(c: Cluster, f: Fleet)
    requires c.Valid() && f.Fits(c) && Tended(c, f) && c.k <= |Available(c, f)|
    requires f.queued == {} && f.asked == {}
    ensures Healed(c, f) <==> Alive(c, f)
  {
    var h := c.holders[0];
    forall p | p in f.has ensures AtHome(c, p) {
      assert Done(c, f, p.node);
      assert p == Copy(p.node, p.index);
      assert p.index in Elsewhere(c, p.node) || AtHome(c, p);
    }
    if j :| 0 <= j < c.n && c.holders[j] != h {
      assert Available(c, f) != {};
      var i0 :| i0 in Available(c, f);
      var p :| p in f.has && p.index == i0;
      forall i | 0 <= i < c.n ensures Home(c, i) in f.has {
        AllHome(c, f, p, if p.node == h then j else 0, i);
      }
    }
  }

  /** Once the queues are empty, a node with a piece vouches for every piece of the other nodes, and one
      of those for its own. */
  lemma AllHome(c: Cluster, f: Fleet, p: Copy, j: nat, i: nat)
    requires c.Valid() && Tended(c, f) && f.queued == {} && f.asked == {}
    requires p in f.has && i < c.n && j < c.n && c.holders[j] != p.node
    ensures Home(c, i) in f.has
  {
    assert Done(c, f, p.node);
    if c.holders[i] == p.node {
      assert j in Elsewhere(c, p.node);
      assert Home(c, j) in f.has;
      assert Done(c, f, c.holders[j]);
      assert i in Elsewhere(c, c.holders[j]);
    } else {
      assert i in Elsewhere(c, p.node);
    }
  }

  // ----- all keys at once -----

  type Fleets = map<Key, Fleet>

  ghost function Sum(m: map<Key, nat>): nat {
    if m == map[] then 0
    else
      var key :| key in m;
      m[key] + Sum(m - {key})
  }

  lemma {:induction false} SumPick(m: map<Key, nat>, key: Key)
    requires key in m
    ensures Sum(m) == m[key] + Sum(m - {key})
  {
    var first :| first in m && Sum(m) == m[first] + Sum(m - {first});
    if first != key {
      SumPick(m - {first}, key);
      SumPick(m - {key}, first);
      assert m - {first} - {key} == m - {key} - {first};
    }
  }

  lemma SumChange(before: map<Key, nat>, after: map<Key, nat>, key: Key)
    requires key in before && key in after && after - {key} == before - {key}
    ensures Sum(after) - Sum(before) == after[key] as int - before[key]
  {
    SumPick(before, key);
    SumPick(after, key);
  }

  ghost function StaleSum(c: Key -> Cluster, fs: Fleets): nat {
    Sum(map key | key in fs :: |Stale(c(key), fs[key])|)
  }

  ghost function MissingSum(c: Key -> Cluster, fs: Fleets): nat {
    Sum(map key | key in fs :: |Missing(c(key), fs[key])|)
  }

  ghost function MisplacedSum(c: Key -> Cluster, fs: Fleets): nat {
    Sum(map key | key in fs :: |Misplaced(c(key), fs[key])|)
  }

  ghost function PendingSum(c: Key -> Cluster, fs: Fleets): nat {
    Sum(map key | key in fs :: Pending(c(key), fs[key]))
  }

  lemma StaleFollows(c: Key -> Cluster, fs: Fleets, key: Key, g: Fleet)
    requires key in fs
    ensures StaleSum(c, fs[key := g]) - StaleSum(c, fs) == |Stale(c(key), g)| - |Stale(c(key), fs[key])|
  {
    hide Sum, Stale;
    var before := map k | k in fs :: |Stale(c(k), fs[k])|;
    var after := map k | k in fs[key := g] :: |Stale(c(k), fs[key := g][k])|;
    assert after - {key} == before - {key};
    SumChange(before, after, key);
  }

  lemma MissingFollows(c: Key -> Cluster, fs: Fleets, key: Key, g: Fleet)
    requires key in fs
    ensures MissingSum(c, fs[key := g]) - MissingSum(c, fs) == |Missing(c(key), g)| - |Missing(c(key), fs[key])|
  {
    hide Sum, Missing;
    var before := map k | k in fs :: |Missing(c(k), fs[k])|;
    var after := map k | k in fs[key := g] :: |Missing(c(k), fs[key := g][k])|;
    assert after - {key} == before - {key};
    SumChange(before, after, key);
  }

  lemma MisplacedFollows(c: Key -> Cluster, fs: Fleets, key: Key, g: Fleet)
    requires key in fs
    ensures MisplacedSum(c, fs[key := g]) - MisplacedSum(c, fs) ==
            |Misplaced(c(key), g)| - |Misplaced(c(key), fs[key])|
  {
    hide Sum, Misplaced;
    var before := map k | k in fs :: |Misplaced(c(k), fs[k])|;
    var after := map k | k in fs[key := g] :: |Misplaced(c(k), fs[key := g][k])|;
    assert after - {key} == before - {key};
    SumChange(before, after, key);
  }

  lemma PendingFollows(c: Key -> Cluster, fs: Fleets, key: Key, g: Fleet)
    requires key in fs
    ensures PendingSum(c, fs[key := g]) - PendingSum(c, fs) == Pending(c(key), g) as int - Pending(c(key), fs[key])
  {
    hide Sum, Pending;
    var before := map k | k in fs :: Pending(c(k), fs[k]);
    var after := map k | k in fs[key := g] :: Pending(c(k), fs[key := g][k]);
    assert after - {key} == before - {key};
    SumChange(before, after, key);
  }

  /** The measure of one key, added up over all keys. */
  ghost predicate LessInAll(c: Key -> Cluster, gs: Fleets, fs: Fleets) {
    || StaleSum(c, gs) < StaleSum(c, fs)
    || (StaleSum(c, gs) == StaleSum(c, fs) &&
        (MissingSum(c, gs) < MissingSum(c, fs)
         || (MissingSum(c, gs) == MissingSum(c, fs) &&
             (MisplacedSum(c, gs) < MisplacedSum(c, fs)
              || (MisplacedSum(c, gs) == MisplacedSum(c, fs) && PendingSum(c, gs) < PendingSum(c, fs))))))
  }

  lemma SumsFollow(c: Key -> Cluster, fs: Fleets, key: Key, g: Fleet)
    requires key in fs && Less(c(key), g, fs[key])
    ensures LessInAll(c, fs[key := g], fs)
  {
    hide Stale, Missing, Misplaced, Pending, StaleSum, MissingSum, MisplacedSum, PendingSum;
    StaleFollows(c, fs, key, g);
    MissingFollows(c, fs, key, g);
    MisplacedFollows(c, fs, key, g);
    PendingFollows(c, fs, key, g);
  }

  /** What holds of each key from start to end. */
  ghost predicate Repairing(c: Cluster, start: Fleet, f: Fleet) {
    && c.Valid() && f.Fits(c) && Tended(c, f) && c.k <= |Available(c, f)|
    && (Alive(c, f) <==> Alive(c, start))
  }

  lemma StabilizeRepairs(c: Cluster, start: Fleet, f: Fleet, u: Uri)
    requires Repairing(c, start, f) && u in f.queued
    ensures Repairing(c, start, Stabilize(c, f, u)) && Less(c, Stabilize(c, f, u), f)
  {
    hide Alive, Tended, Available, Stabilize, Less;
    StabilizeProgresses(c, f, u);
    StabilizeTends(c, f, u);
    StabilizeKeepsAvailable(c, f, u);
    StabilizeAlive(c, f, u);
  }

  lemma RebuildRepairs(c: Cluster, start: Fleet, f: Fleet, p: Copy)
    requires Repairing(c, start, f) && p in f.asked
    ensures Repairing(c, start, Rebuild(c, f, p)) && Less(c, Rebuild(c, f, p), f)
  {
    hide Alive, Tended, Available, Rebuild, Less;
    RebuildProgresses(c, f, p);
    RebuildTends(c, f, p);
    RebuildKeepsAvailable(c, f, p);
    RebuildAlive(c, f, p);
  }

  predicate Busy(f: Fleet) {
    f.queued != {} || f.asked != {}
  }

  /** Some execution of a key on some node. */
  method Execute(c: Cluster, ghost start: Fleet, f: Fleet) returns (g: Fleet)
    requires Repairing(c, start, f) && Busy(f)
    ensures Repairing(c, start, g) && Less(c, g, f)
  {
    hide Repairing, Less;
    if
    case f.queued != {} =>
      var u :| u in f.queued;
      StabilizeRepairs(c, start, f, u);
      g := Stabilize(c, f, u);
    case f.asked != {} =>
      var p :| p in f.asked;
      RebuildRepairs(c, start, f, p);
      g := Rebuild(c, f, p);
  }

  /**
   * Executions of any keys on any nodes in any order, until nothing is queued. Started with every key
   * queued wherever it is stored and at least `k` distinct pieces of each on members, they always come
   * to an end, and for every key they end with every piece on its holder and no other copy if and only
   * if the key started `Alive`.
   */
  method RunFlushes(c: Key -> Cluster, start: Fleets) returns (fs: Fleets)
    requires forall key | key in start :: MayStart(c(key), start[key])
    ensures fs.Keys == start.Keys
    ensures forall key | key in fs :: c(key).Valid() && !Busy(fs[key])
    ensures forall key | key in fs :: Healed(c(key), fs[key]) <==> Alive(c(key), start[key])
  {
    hide Repairing, Alive, Healed, Less, StaleSum, MissingSum, MisplacedSum, PendingSum;
    fs := start;
    AllRepairing(c, start);
    while exists key :: key in fs && Busy(fs[key])
      invariant fs.Keys == start.Keys
      invariant forall key | key in fs :: Repairing(c(key), start[key], fs[key])
      decreases StaleSum(c, fs), MissingSum(c, fs), MisplacedSum(c, fs), PendingSum(c, fs)
    {
      var key :| key in fs && Busy(fs[key]);
      var g := Execute(c(key), start[key], fs[key]);
      SumsFollow(c, fs, key, g);
      fs := fs[key := g];
    }
    AllHealed(c, start, fs);
  }

  ghost predicate MayStart(c: Cluster, start: Fleet) {
    && c.Valid() && start.Fits(c) && c.k <= |Available(c, start)|
    && forall p | p in start.has :: p.node in start.queued
  }

  lemma AllRepairing(c: Key -> Cluster, start: Fleets)
    requires forall key | key in start :: MayStart(c(key), start[key])
    ensures forall key | key in start :: Repairing(c(key), start[key], start[key])
  {
    hide Alive, Available;
  }

  lemma AllHealed(c: Key -> Cluster, start: Fleets, fs: Fleets)
    requires fs.Keys == start.Keys
    requires forall key | key in fs :: Repairing(c(key), start[key], fs[key]) && !Busy(fs[key])
    ensures forall key | key in fs :: c(key).Valid() && (Healed(c(key), fs[key]) <==> Alive(c(key), start[key]))
  {
    hide Alive, Available, Healed, Tended;
    forall key | key in fs
      ensures c(key).Valid() && (Healed(c(key), fs[key]) <==> Alive(c(key), start[key]))
    {
      QuietIsHealed(c(key), fs[key]);
    }
  }

  /** With two different holders the start is always alive. */
  lemma TwoHoldersAreAlive(c: Cluster, f: Fleet, i: nat, j: nat)
    requires c.Valid() && i < c.n && j < c.n && c.holders[i] != c.holders[j]
    ensures Alive(c, f)
  {
  }

  /** Any two members and any two pieces give two different holders. */
  lemma TwoMembersAreAlive<T(!new)>(a: M.Asura<T>, m: M.ClusterMap<T>, key: Key, c: Cluster, f: Fleet)
    requires a.Valid() && M.Resolves(a, m) && 2 <= |a.ids(m.table)|
    requires forall x, y | x in m.idmap && y in m.idmap && m.idmap[x] == m.idmap[y] :: x == y
    requires c.Valid() && 2 <= c.n
    requires forall i | 0 <= i < c.n ::
               i < |M.Holders(a, m, key, c.n)| && M.Holders(a, m, key, c.n)[i] == Some(c.holders[i])
    ensures Alive(c, f)
  {
    hide M.Holders, Alive;
    var uris := M.HoldersWrap(a, m, key, c.n);
    assert M.Holders(a, m, key, c.n)[0] == Some(uris[0]) && M.Holders(a, m, key, c.n)[1] == Some(uris[1]);
    TwoHoldersAreAlive(c, f, 0, 1);
  }

  /** All distinct indices anywhere, on members or not. */
  function Indices(f: Fleet): set<nat> {
    set p | p in f.has :: p.index
  }

  /** With fewer than `k` distinct pieces left anywhere nothing brings another one back. */
  lemma TooFewStayTooFew(c: Cluster, f: Fleet, u: Uri, p: Copy)
    requires c.Valid() && f.Fits(c) && |Indices(f)| < c.k
    ensures Indices(Stabilize(c, f, u)) == Indices(f)
    ensures Indices(Rebuild(c, f, p)) == Indices(f)
    ensures !Healed(c, f)
  {
    var g := Stabilize(c, f, u);
    forall i | i in Indices(f) ensures i in Indices(g) {
      var q :| q in f.has && q.index == i;
      assert q in g.has || Home(c, i) in g.has;
    }
    SubsetSize(Available(c, f), Indices(f));
    if Healed(c, f) {
      forall i: nat | i < c.n ensures i in Indices(f) {
        assert Home(c, i) in f.has;
      }
      AllBelow(Indices(f), c.n);
    }
  }

  lemma {:induction false} AllBelow(s: set<nat>, n: nat)
    requires forall i: nat | i < n :: i in s
    ensures n <= |s|
  {
    if n > 0 {
      AllBelow(s - {n - 1}, n - 1);
    }
  }

  /** The sanity check counts the pieces that are not on their holders, so none in a healed fleet. */
  lemma SanityCountsMissing(c: Cluster, f: Fleet, holders: seq<Option<Uri>>, answers: seq<IoFront.Found>)
    requires c.Valid() && |holders| == |answers| == c.n
    requires forall i | 0 <= i < c.n :: holders[i] == Some(c.holders[i])
    requires forall i | 0 <= i < c.n :: answers[i] == IoFront.Present <==> Home(c, i) in f.has
    ensures |IoFront.Lost(holders, answers)| == |Missing(c, f)|
    ensures Healed(c, f) ==> |IoFront.Lost(holders, answers)| == 0
  {
    assert IoFront.Lost(holders, answers) == Missing(c, f);
    assert Healed(c, f) ==> Missing(c, f) == {};
  }
}
