/** The membership state that every node builds from the same log of commands. */
module RaftService {
  import opened Types
  import opened ClusterMap

  datatype Command = AddNode(uri: Uri, cap: real) | RemoveNode(uri: Uri)

  /** The abstract value of the state. */
  datatype Book<T> = Book(
    table: T,
    uriMap: map<Uri, nat>,
    nextId: nat,
    version: nat,
    lastChange: Change)

  datatype Snapshot<T> = Snapshot(table: T, uriMap: map<Uri, nat>, nextId: nat, version: nat)

  function EmptyBook<T(!new)>(a: Asura<T>): Book<T> {
    Book(a.empty, map[], 0, 0, Set)
  }

  predicate Effective<T>(b: Book<T>, cmd: Command) {
    match cmd
    case AddNode(uri, _) => uri !in b.uriMap
    case RemoveNode(uri) => uri in b.uriMap
  }

  function Applied<T(!new)>(a: Asura<T>, b: Book<T>, cmd: Command): Book<T> {
    if !Effective(b, cmd) then b
    else
      match cmd
      case AddNode(uri, cap) =>
        Book(a.add(b.table, b.nextId, cap), b.uriMap[uri := b.nextId], b.nextId + 1, b.version + 1, Add(uri))
      case RemoveNode(uri) =>
        Book(a.remove(b.table, b.uriMap[uri]), b.uriMap - {uri}, b.nextId, b.version + 1, Remove(uri))
  }

  function AppliedAll<T(!new)>(a: Asura<T>, b: Book<T>, log: seq<Command>): Book<T> {
    if log == [] then b else Applied(a, AppliedAll(a, b, log[..|log| - 1]), log[|log| - 1])
  }

  function Inverse(m: map<Uri, nat>): map<nat, Uri>
    requires Injective(m)
  {
    map u | u in m :: m[u] := u
  }

  predicate Injective(m: map<Uri, nat>) {
    forall x, y | x in m && y in m && m[x] == m[y] :: x == y
  }

  function MapOf<T>(b: Book<T>): ClusterMap<T>
    requires Injective(b.uriMap)
  {
    ClusterMap(b.version, b.lastChange, b.table, Inverse(b.uriMap))
  }

  function SnapshotOf<T>(b: Book<T>): Snapshot<T> {
    Snapshot(b.table, b.uriMap, b.nextId, b.version)
  }

  function Installed<T>(s: Snapshot<T>): Book<T> {
    Book(s.table, s.uriMap, s.nextId, s.version, Set)
  }

  // ----- the state as the service keeps it -----

  class State<T(!new)> {
    const asura: Asura<T>
    var table: T
    var uriMap: map<Uri, nat>
    var nextId: nat
    var version: nat
    var lastChange: Change

    function Value(): Book<T>
      reads this
    {
      Book(table, uriMap, nextId, version, lastChange)
    }

    constructor (a: Asura<T>)
      ensures asura == a && Value() == EmptyBook(a)
    {
      asura := a;
      table, uriMap, nextId, version, lastChange := a.empty, map[], 0, 0, Set;
    }

    method AddNode(uri: Uri, cap: real)
      modifies this
      ensures Value() == Applied(asura, old(Value()), Command.AddNode(uri, cap))
      ensures uri in uriMap
      ensures uri !in old(uriMap) ==> lastChange == Add(uri) && table == asura.add(old(table), uriMap[uri], cap)
    {
      if uri !in uriMap {
        var nodeId := nextId;
        uriMap := uriMap[uri := nodeId];
        table := asura.add(table, nodeId, cap);
        nextId := nextId + 1;
        version := version + 1;
        lastChange := Add(uri);
      }
    }

    method RemoveNode(uri: Uri)
      modifies this
      ensures Value() == Applied(asura, old(Value()), Command.RemoveNode(uri))
      ensures uri !in uriMap
      ensures uri in old(uriMap) ==> lastChange == Remove(uri) && table == asura.remove(old(table), old(uriMap)[uri])
    {
      if uri in uriMap {
        var nodeId := uriMap[uri];
        uriMap := uriMap - {uri};
        table := asura.remove(table, nodeId);
        version := version + 1;
        lastChange := Remove(uri);
      }
    }

    method MakeClusterMap() returns (m: ClusterMap<T>)
      requires Injective(uriMap)
      ensures m == MapOf(Value())
      ensures m.version == version && m.table == table && m.lastChange == lastChange
      ensures forall u, id :: id in m.idmap && m.idmap[id] == u <==> u in uriMap && uriMap[u] == id
    {
      var idmap := map[];
      var left := uriMap.Keys;
      while left != {}
        invariant left <= uriMap.Keys
        invariant forall id :: id in idmap <==> exists u :: u in uriMap.Keys - left && uriMap[u] == id
        invariant forall u | u in uriMap.Keys - left :: uriMap[u] in idmap && idmap[uriMap[u]] == u
      {
        var u :| u in left;
        idmap := idmap[uriMap[u] := u];
        left := left - {u};
      }
      assert idmap == Inverse(uriMap);
      m := ClusterMap(version, lastChange, table, idmap);
    }

    /** Applies a command, passes the new map on to the other services, and yields the snapshot for the log. When
        passing on fails there is no snapshot, but the command stays applied. */
    method ProcessWrite(cmd: Command, passFails: bool) returns (m: ClusterMap<T>, s: Option<Snapshot<T>>)
      requires Invariant(asura, Value()) && asura.Valid()
      modifies this
      ensures Value() == Applied(asura, old(Value()), cmd)
      ensures Invariant(asura, Value())
      ensures m == MapOf(Value()) && Resolves(asura, m)
      ensures s == if passFails then None else Some(SnapshotOf(Value()))
    {
      AppliedKeeps(asura, Value(), cmd);
      match cmd {
        case AddNode(uri, cap) => AddNode(uri, cap);
        case RemoveNode(uri) => RemoveNode(uri);
      }
      m := MakeClusterMap();
      MapResolves(asura, Value());
      s := if passFails then None else Some(Snapshot(table, uriMap, nextId, version));
    }

    /** Passes the snapshot's map on and only then takes its state over; when passing on fails the old state stays. */
    method InstallSnapshot(snapshot: Option<Snapshot<T>>, passFails: bool) returns (m: ClusterMap<T>)
      requires snapshot.Some? ==> Injective(snapshot.value.uriMap)
      modifies this
      ensures m == MapOf(if snapshot.Some? then Installed(snapshot.value) else EmptyBook(asura))
      ensures Value() ==
              if passFails then old(Value())
              else if snapshot.Some? then Installed(snapshot.value) else EmptyBook(asura)
    {
      var init := new State(asura);
      match snapshot {
        case None =>
        case Some(s) =>
          init.table, init.uriMap, init.nextId, init.version := s.table, s.uriMap, s.nextId, s.version;
          init.lastChange := Set;
      }
      m := init.MakeClusterMap();
      if passFails {
        return;
      }
      table, uriMap, nextId := init.table, init.uriMap, init.nextId;
      version, lastChange := init.version, init.lastChange;
    }
  }

  // ----- what every log keeps -----

  /** No two addresses share an id, ids in use are old, the table has exactly the ids in use, and the
      version counts every addition and every removal. */
  ghost predicate Invariant<T(!new)>(a: Asura<T>, b: Book<T>) {
    && Injective(b.uriMap)
    && (forall u | u in b.uriMap :: b.uriMap[u] < b.nextId)
    && a.ids(b.table) == b.uriMap.Values
    && b.version == b.nextId + (b.nextId - |b.uriMap|)
  }

  lemma AddedValues(m: map<Uri, nat>, uri: Uri, id: nat)
    requires uri !in m
    ensures m[uri := id].Values == m.Values + {id} && |m[uri := id]| == |m| + 1
  {
    assert m[uri := id].Keys == m.Keys + {uri};
    assert m[uri := id][uri] == id;
    forall v | v in m.Values ensures v in m[uri := id].Values {
      var u :| u in m && m[u] == v;
      assert m[uri := id][u] == v;
    }
  }

  lemma RemovedValues(m: map<Uri, nat>, uri: Uri)
    requires uri in m && Injective(m)
    ensures (m - {uri}).Values == m.Values - {m[uri]} && |m - {uri}| == |m| - 1
  {
    assert (m - {uri}).Keys == m.Keys - {uri};
    forall v | v in m.Values && v != m[uri] ensures v in (m - {uri}).Values {
      var u :| u in m && m[u] == v;
      assert u in (m - {uri}) && (m - {uri})[u] == v;
    }
  }

  lemma AddKeeps<T(!new)>(a: Asura<T>, b: Book<T>, uri: Uri, cap: real)
    requires a.Valid() && Invariant(a, b) && uri !in b.uriMap
    ensures Invariant(a, Applied(a, b, Command.AddNode(uri, cap)))
  {
    var t := Applied(a, b, Command.AddNode(uri, cap));
    assert a.ids(t.table) == a.ids(b.table) + {b.nextId};
    AddedValues(b.uriMap, uri, b.nextId);
    assert Injective(t.uriMap) by {
      assert forall u | u in b.uriMap :: b.uriMap[u] != b.nextId;
    }
  }

  lemma RemoveKeeps<T(!new)>(a: Asura<T>, b: Book<T>, uri: Uri)
    requires a.Valid() && Invariant(a, b) && uri in b.uriMap
    ensures Invariant(a, Applied(a, b, Command.RemoveNode(uri)))
  {
    RemovedValues(b.uriMap, uri);
  }

  lemma AppliedKeeps<T(!new)>(a: Asura<T>, b: Book<T>, cmd: Command)
    requires a.Valid() && Invariant(a, b)
    ensures Invariant(a, Applied(a, b, cmd))
  {
    if Effective(b, cmd) {
      match cmd
      case AddNode(uri, cap) => AddKeeps(a, b, uri, cap);
      case RemoveNode(uri) => RemoveKeeps(a, b, uri);
    }
  }

  lemma {:induction false} LogKeeps<T(!new)>(a: Asura<T>, b: Book<T>, log: seq<Command>)
    requires a.Valid() && Invariant(a, b)
    ensures Invariant(a, AppliedAll(a, b, log))
  {
    if log != [] {
      LogKeeps(a, b, log[..|log| - 1]);
      AppliedKeeps(a, AppliedAll(a, b, log[..|log| - 1]), log[|log| - 1]);
    }
  }

  lemma MapResolves<T(!new)>(a: Asura<T>, b: Book<T>)
    requires Invariant(a, b)
    ensures Resolves(a, MapOf(b))
    ensures forall id | id in MapOf(b).idmap :: MapOf(b).idmap[id] in b.uriMap && b.uriMap[MapOf(b).idmap[id]] == id
  {
  }

  /** After any log: ids are unique and in use exactly as the table says, every id a holder computation
      can meet resolves to its address, and the version is twice the ids given out minus the members. */
  lemma EveryLogKeepsTheBook<T(!new)>(a: Asura<T>, log: seq<Command>)
    requires a.Valid()
    ensures Invariant(a, AppliedAll(a, EmptyBook(a), log))
    ensures Resolves(a, MapOf(AppliedAll(a, EmptyBook(a), log)))
  {
    LogKeeps(a, EmptyBook(a), log);
    MapResolves(a, AppliedAll(a, EmptyBook(a), log));
  }

  lemma {:induction false} AppendLog<T(!new)>(a: Asura<T>, b: Book<T>, p: seq<Command>, q: seq<Command>)
    ensures AppliedAll(a, b, p + q) == AppliedAll(a, AppliedAll(a, b, p), q)
  {
    if q == [] {
      assert p + q == p;
    } else {
      AppendLog(a, b, p, q[..|q| - 1]);
      assert (p + q)[..|p + q| - 1] == p + q[..|q| - 1];
    }
  }

  function Effects<T(!new)>(a: Asura<T>, b: Book<T>, log: seq<Command>): nat {
    if log == [] then 0
    else
      Effects(a, b, log[..|log| - 1])
      + if Effective(AppliedAll(a, b, log[..|log| - 1]), log[|log| - 1]) then 1 else 0
  }

  /** The version counts the commands that changed something, and without one nothing changes at all. */
  lemma {:induction false} VersionCounts<T(!new)>(a: Asura<T>, b: Book<T>, log: seq<Command>)
    ensures AppliedAll(a, b, log).version == b.version + Effects(a, b, log)
    ensures Effects(a, b, log) == 0 ==> AppliedAll(a, b, log) == b
  {
    if log != [] {
      VersionCounts(a, b, log[..|log| - 1]);
    }
  }

  /** Same version, same map: two nodes that have applied different prefixes of the log but report one
      version have the same book, and so the same holders for every key. */
  lemma SameVersionSameBook<T(!new)>(a: Asura<T>, log: seq<Command>, i: nat, j: nat)
    requires i <= |log| && j <= |log|
    requires AppliedAll(a, EmptyBook(a), log[..i]).version == AppliedAll(a, EmptyBook(a), log[..j]).version
    ensures AppliedAll(a, EmptyBook(a), log[..i]) == AppliedAll(a, EmptyBook(a), log[..j])
  {
    if i <= j {
      SameVersionUpTo(a, log, i, j);
    } else {
      SameVersionUpTo(a, log, j, i);
    }
  }

  lemma SameVersionUpTo<T(!new)>(a: Asura<T>, log: seq<Command>, i: nat, j: nat)
    requires i <= j <= |log|
    requires AppliedAll(a, EmptyBook(a), log[..i]).version == AppliedAll(a, EmptyBook(a), log[..j]).version
    ensures AppliedAll(a, EmptyBook(a), log[..i]) == AppliedAll(a, EmptyBook(a), log[..j])
  {
    assert log[..j] == log[..i] + log[i..j];
    AppendLog(a, EmptyBook(a), log[..i], log[i..j]);
    VersionCounts(a, AppliedAll(a, EmptyBook(a), log[..i]), log[i..j]);
  }

  /** An id, once given out, belongs to one address for good. */
  lemma IdsAreNotReused<T(!new)>(a: Asura<T>, b: Book<T>, log: seq<Command>, x: Uri, y: Uri)
    requires a.Valid() && Invariant(a, b)
    requires x in b.uriMap && y in AppliedAll(a, b, log).uriMap
    requires AppliedAll(a, b, log).uriMap[y] == b.uriMap[x]
    ensures x == y
  {
    OldIdsStay(a, b, log);
  }

  lemma {:induction false} OldIdsStay<T(!new)>(a: Asura<T>, b: Book<T>, log: seq<Command>)
    requires a.Valid() && Invariant(a, b)
    ensures b.nextId <= AppliedAll(a, b, log).nextId
    ensures forall u | u in AppliedAll(a, b, log).uriMap && AppliedAll(a, b, log).uriMap[u] < b.nextId ::
              u in b.uriMap && b.uriMap[u] == AppliedAll(a, b, log).uriMap[u]
  {
    if log != [] {
      OldIdsStay(a, b, log[..|log| - 1]);
    }
  }

  /** However often several nodes report one culprit, the version rises once. */
  lemma {:induction false} RemovedOnce<T(!new)>(a: Asura<T>, b: Book<T>, uri: Uri, times: nat)
    requires 1 <= times
    ensures AppliedAll(a, b, seq(times, _ => RemoveNode(uri))) == Applied(a, b, RemoveNode(uri))
  {
    var log := seq(times, _ => RemoveNode(uri));
    var init := log[..times - 1];
    if times > 1 {
      assert init == seq(times - 1, _ => RemoveNode(uri));
      RemovedOnce(a, b, uri, times - 1);
    } else {
      assert init == [];
    }
  }

  // ----- the maps that are passed on -----

  /** The members that a map names. */
  function MembersOf<T>(m: ClusterMap<T>): set<Uri> {
    m.idmap.Values
  }

  lemma MembersAre<T>(b: Book<T>)
    requires Injective(b.uriMap)
    ensures MembersOf(MapOf(b)) == b.uriMap.Keys
  {
    forall u | u in b.uriMap ensures u in MembersOf(MapOf(b)) {
      assert Inverse(b.uriMap)[b.uriMap[u]] == u;
    }
  }

  /** A command that changes the members raises the version of the map by one and is its last change; any other
      passes on the very same map again. */
  lemma MapFollowsCommand<T(!new)>(a: Asura<T>, b: Book<T>, cmd: Command)
    requires a.Valid() && Invariant(a, b)
    ensures Invariant(a, Applied(a, b, cmd))
    ensures var before, after := MapOf(b), MapOf(Applied(a, b, cmd));
            if MembersOf(after) == MembersOf(before) then after == before
            else
              && after.version == before.version + 1
              && match after.lastChange
                 case Add(u) => cmd.AddNode? && u == cmd.uri && MembersOf(after) == MembersOf(before) + {u}
                 case Remove(u) => cmd.RemoveNode? && u == cmd.uri && MembersOf(after) == MembersOf(before) - {u}
                 case Set => false
  {
    hide Applied, Inverse, MembersOf;
    AppliedKeeps(a, b, cmd);
    MembersAre(b);
    MembersAre(Applied(a, b, cmd));
    AppliedMembers(a, b, cmd);
  }

  lemma AppliedMembers<T(!new)>(a: Asura<T>, b: Book<T>, cmd: Command)
    ensures var t := Applied(a, b, cmd);
            if cmd.AddNode? && cmd.uri !in b.uriMap then
              && t.uriMap.Keys == b.uriMap.Keys + {cmd.uri}
              && t.version == b.version + 1 && t.lastChange == Add(cmd.uri)
            else if cmd.RemoveNode? && cmd.uri in b.uriMap then
              && t.uriMap.Keys == b.uriMap.Keys - {cmd.uri}
              && t.version == b.version + 1 && t.lastChange == Remove(cmd.uri)
            else t == b
  {
  }

  /** How often the members have changed along a log. */
  ghost function Changes<T(!new)>(a: Asura<T>, log: seq<Command>): nat
    requires a.Valid()
  {
    if log == [] then 0
    else
      var init := log[..|log| - 1];
      EveryLogKeepsTheBook(a, init);
      EveryLogKeepsTheBook(a, log);
      Changes(a, init)
      + if MembersOf(MapOf(AppliedAll(a, EmptyBook(a), log))) == MembersOf(MapOf(AppliedAll(a, EmptyBook(a), init)))
        then 0 else 1
  }

  /** That is the version of the map. */
  lemma {:induction false} MapVersionCounts<T(!new)>(a: Asura<T>, log: seq<Command>)
    requires a.Valid()
    ensures Invariant(a, AppliedAll(a, EmptyBook(a), log))
    ensures MapOf(AppliedAll(a, EmptyBook(a), log)).version == Changes(a, log)
  {
    EveryLogKeepsTheBook(a, log);
    if log != [] {
      var init := log[..|log| - 1];
      MapVersionCounts(a, init);
      MapFollowsCommand(a, AppliedAll(a, EmptyBook(a), init), log[|log| - 1]);
    }
  }

  // ----- snapshots -----

  predicate Agree<T(==)>(x: Book<T>, y: Book<T>) {
    x.table == y.table && x.uriMap == y.uriMap && x.nextId == y.nextId && x.version == y.version
  }

  lemma {:induction false} AgreeAfter<T(!new)>(a: Asura<T>, x: Book<T>, y: Book<T>, log: seq<Command>)
    requires Agree(x, y)
    ensures Agree(AppliedAll(a, x, log), AppliedAll(a, y, log))
    ensures Effects(a, x, log) == Effects(a, y, log)
    ensures AppliedAll(a, x, log).lastChange == AppliedAll(a, y, log).lastChange <==>
            Effects(a, y, log) > 0 || x.lastChange == y.lastChange
  {
    if log != [] {
      AgreeAfter(a, x, y, log[..|log| - 1]);
    }
  }

  lemma {:induction false} LastChangeSet<T(!new)>(a: Asura<T>, log: seq<Command>)
    ensures AppliedAll(a, EmptyBook(a), log).lastChange == Set <==> Effects(a, EmptyBook(a), log) == 0
  {
    if log != [] {
      LastChangeSet(a, log[..|log| - 1]);
    }
  }

  /**
   * Installing the snapshot taken after `p` and applying the rest `q` agrees with applying the whole
   * log, in everything but the last change; and in that too exactly if something changed in `q`, or
   * nothing at all before it.
   */
  lemma SnapshotReplays<T(!new)>(a: Asura<T>, p: seq<Command>, q: seq<Command>)
    ensures Agree(AppliedAll(a, Installed(SnapshotOf(AppliedAll(a, EmptyBook(a), p))), q),
                  AppliedAll(a, EmptyBook(a), p + q))
    ensures AppliedAll(a, Installed(SnapshotOf(AppliedAll(a, EmptyBook(a), p))), q) ==
            AppliedAll(a, EmptyBook(a), p + q) <==>
            Effects(a, AppliedAll(a, EmptyBook(a), p), q) > 0 || Effects(a, EmptyBook(a), p) == 0
  {
    var b := AppliedAll(a, EmptyBook(a), p);
    AppendLog(a, EmptyBook(a), p, q);
    AgreeAfter(a, Installed(SnapshotOf(b)), b, q);
    LastChangeSet(a, p);
  }

  /** The holders of a key follow from the table and the addresses alone. */
  lemma AgreeingBooksPlaceAlike<T(!new)>(a: Asura<T>, x: Book<T>, y: Book<T>, key: Key, n: nat)
    requires a.Valid() && Invariant(a, x) && Agree(x, y) && 1 <= n
    ensures Invariant(a, y) && Resolves(a, MapOf(x)) && Resolves(a, MapOf(y))
    ensures Holders(a, MapOf(x), key, n) == Holders(a, MapOf(y), key, n)
    ensures MapOf(x).idmap.Values == MapOf(y).idmap.Values
  {
    MapResolves(a, x);
    MapResolves(a, y);
  }

  // ----- the placement that all nodes share -----

  /** The holder of a piece on a node that has applied the first `i` commands. */
  ghost function PlacedAfter<T(!new)>(a: Asura<T>, log: seq<Command>, n: nat, i: nat, loc: Loc): Option<Uri>
    requires a.Valid() && 1 <= n && loc.index < n && i <= |log|
  {
    EveryLogKeepsTheBook(a, log[..i]);
    Holders(a, MapOf(AppliedAll(a, EmptyBook(a), log[..i])), loc.key, n)[loc.index]
  }

  ghost predicate Reaches<T(!new)>(a: Asura<T>, log: seq<Command>, i: nat, v: nat) {
    i <= |log| && AppliedAll(a, EmptyBook(a), log[..i]).version == v
  }

  /** The holder of a piece under version `v` of the map, if the log ever reaches `v`. */
  ghost function HolderAt<T(!new)>(a: Asura<T>, log: seq<Command>, n: nat, v: nat, loc: Loc): (h: Option<Uri>)
    requires a.Valid() && 1 <= n && loc.index < n
    ensures forall i: nat | Reaches(a, log, i, v) :: h == PlacedAfter(a, log, n, i, loc)
  {
    if exists i: nat :: Reaches(a, log, i, v) then
      var i: nat :| Reaches(a, log, i, v);
      SameVersionSamePlace(a, log, n, i, loc);
      PlacedAfter(a, log, n, i, loc)
    else None
  }

  lemma SameVersionSamePlace<T(!new)>(a: Asura<T>, log: seq<Command>, n: nat, i: nat, loc: Loc)
    requires a.Valid() && 1 <= n && loc.index < n && i <= |log|
    ensures forall j: nat | Reaches(a, log, j, AppliedAll(a, EmptyBook(a), log[..i]).version) ::
              PlacedAfter(a, log, n, j, loc) == PlacedAfter(a, log, n, i, loc)
  {
    forall j: nat | Reaches(a, log, j, AppliedAll(a, EmptyBook(a), log[..i]).version)
      ensures PlacedAfter(a, log, n, j, loc) == PlacedAfter(a, log, n, i, loc)
    {
      SameVersionSameBook(a, log, i, j);
    }
  }

  /** What a node knows that installed the snapshot taken after `i` commands and applied up to `j`. */
  function CaughtUp<T(!new)>(a: Asura<T>, log: seq<Command>, i: nat, j: nat): Book<T>
    requires i <= j <= |log|
  {
    AppliedAll(a, Installed(SnapshotOf(AppliedAll(a, EmptyBook(a), log[..i]))), log[i..j])
  }

  /** Every node that has applied any part of the log, directly or from a snapshot of any earlier part,
      computes for its version the holders that `HolderAt` names. */
  lemma EveryNodeSharesThePlacement<T(!new)>(
    a: Asura<T>, log: seq<Command>, i: nat, j: nat, n: nat, loc: Loc)
    requires a.Valid() && 1 <= n && loc.index < n && i <= j <= |log|
    ensures Invariant(a, CaughtUp(a, log, i, j)) && Resolves(a, MapOf(CaughtUp(a, log, i, j)))
    ensures Holders(a, MapOf(CaughtUp(a, log, i, j)), loc.key, n)[loc.index] ==
            HolderAt(a, log, n, MapOf(CaughtUp(a, log, i, j)).version, loc)
    ensures MapOf(CaughtUp(a, log, i, j)).version == Changes(a, log[..j])
  {
    var b := CaughtUp(a, log, i, j);
    var whole := AppliedAll(a, EmptyBook(a), log[..j]);
    assert log[..i] + log[i..j] == log[..j];
    SnapshotReplays(a, log[..i], log[i..j]);
    EveryLogKeepsTheBook(a, log[..j]);
    AgreeingBooksPlaceAlike(a, whole, b, loc.key, n);
    assert Reaches(a, log, j, b.version);
    MapVersionCounts(a, log[..j]);
  }

  /** Two maps of one version, from any parts of the log and any snapshots, give every key the same holders. */
  lemma MapsOfOneVersionAgree<T(!new)>(
    a: Asura<T>, log: seq<Command>, i: nat, j: nat, i': nat, j': nat, key: Key, n: nat)
    requires a.Valid() && 1 <= n && i <= j <= |log| && i' <= j' <= |log|
    ensures Invariant(a, CaughtUp(a, log, i, j)) && Invariant(a, CaughtUp(a, log, i', j'))
    ensures Resolves(a, MapOf(CaughtUp(a, log, i, j))) && Resolves(a, MapOf(CaughtUp(a, log, i', j')))
    ensures MapOf(CaughtUp(a, log, i, j)).version == MapOf(CaughtUp(a, log, i', j')).version ==>
              Holders(a, MapOf(CaughtUp(a, log, i, j)), key, n) == Holders(a, MapOf(CaughtUp(a, log, i', j')), key, n)
  {
    hide Holders, MapOf, HolderAt, CaughtUp, Invariant, Resolves, Changes;
    EveryNodeSharesThePlacement(a, log, i, j, n, Loc(key, 0));
    EveryNodeSharesThePlacement(a, log, i', j', n, Loc(key, 0));
    HoldersSize(a, MapOf(CaughtUp(a, log, i, j)), key, n);
    HoldersSize(a, MapOf(CaughtUp(a, log, i', j')), key, n);
    forall x: nat | x < n
      ensures Holders(a, MapOf(CaughtUp(a, log, i, j)), key, n)[x] ==
              HolderAt(a, log, n, MapOf(CaughtUp(a, log, i, j)).version, Loc(key, x))
      ensures Holders(a, MapOf(CaughtUp(a, log, i', j')), key, n)[x] ==
              HolderAt(a, log, n, MapOf(CaughtUp(a, log, i', j')).version, Loc(key, x))
    {
      EveryNodeSharesThePlacement(a, log, i, j, n, Loc(key, x));
      EveryNodeSharesThePlacement(a, log, i', j', n, Loc(key, x));
    }
  }

  lemma HoldersSize<T(!new)>(a: Asura<T>, m: ClusterMap<T>, key: Key, n: nat)
    requires a.Valid() && Resolves(a, m) && 1 <= n
    ensures |Holders(a, m, key, n)| == n
  {
  }
}
