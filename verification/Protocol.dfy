/**
 * The piece placement protocol as a state machine.
 *
 * A step is one atomic action of one node: a component learns a map, a stabilizer reads the keys it
 * stores or replaces its queue by them, drains its queue, reads its map or reads a piece, a receiver
 * checks the version and stores (one step, because it holds its map's read lock across the put), a
 * sender deletes after the ack, and so on. The steps of all nodes interleave freely; a reply can be lost
 * and a future dropped at any time. The clock, and the ids drawn from it, only record history.
 */
module Protocol {
  import opened Types
  import opened Codec

  /** What all nodes agree on: the holder of every piece under every version of the map, the code,
      and the one value ever written under each key. */
  datatype Config = Config(
    n: nat,
    holder: (nat, Loc) -> Option<Uri>,
    codec: Codec,
    value: Key -> Bytes)
  {
    ghost predicate Valid() {
      codec.Valid() && codec.n == n
    }

    /** Under map `v` the piece belongs on another node than `node`. */
    predicate Misplaced(v: nat, node: Uri, loc: Loc) {
      loc.index < n && holder(v, loc).Some? && holder(v, loc).value != node
    }

    /** Some map up to `v` makes the node the holder of the piece. A create reads the holders first and the
        version after them, so the map of the holders may be an older one; and a front end learns a map
        before the receivers do, so no receiver need have learned it yet. */
    predicate Names(node: Uri, loc: Loc, v: nat) {
      exists u: nat :: u <= v && holder(u, loc) == Some(node)
    }

    /** Piece `loc` of the one value written under its key. */
    function Genuine(loc: Loc): Bytes {
      var all := if 0 < codec.k then Pieces(codec, value(loc.key)) else [];
      if loc.index < |all| then all[loc.index] else []
    }
  }

  /** A piece on a node, and a key in a node's stabilizer queue. */
  datatype Place = Place(node: Uri, loc: Loc)

  datatype Task = Task(node: Uri, key: Key)

  /** The map a flush works with, read only after its tasks were drained. */
  datatype Snapshot = Unread | Taken(version: nat, at: nat)

  /** One run of the stabilizer's flush: sends still to start, sends awaiting an ack (with and
      without a piece), and the keys that will be queued again. */
  datatype Flush = Flush(
    node: Uri,
    keys: set<Key>,
    snapshot: Snapshot,
    todo: set<Loc>,
    moving: set<Loc>,
    asking: set<Loc>,
    failed: set<Key>)

  datatype Phase = Sent | Stored(at: nat)

  /** A send from a stabilizer to the holder its snapshot names; without data, a request to rebuild. */
  datatype Handoff = Handoff(
    flush: nat,
    from: Uri,
    to: Uri,
    loc: Loc,
    version: nat,
    snapAt: nat,
    data: Option<Bytes>,
    phase: Phase)

  /** A rebuild in progress on a node, with the pieces collected so far. */
  datatype RebuildExec = RebuildExec(node: Uri, loc: Loc, slots: seq<Option<Bytes>>)

  /** A stabilizer's queue is about to be replaced by the keys its node stores. */
  datatype Reset = KeysUnread | KeysRead(keys: set<Key>)

  /** What let go of work under map `version`: a flush that still had to work on a key was dropped because a
      receiver rejected one of its sends, a piece that was handed over could not be deleted, the stored keys
      could not be read when a stored piece was not queued, or the task of a stored key was overwritten by
      keys read before the key was stored. */
  datatype Lapse =
    | Refused(task: Task, version: nat)
    | Undeleted(place: Place, version: nat)
    | NoKeys(place: Place, version: nat)
    | Overwritten(task: Task, version: nat)
  {
    /** The task that was let go of. */
    function Of(): Task {
      match this
      case Refused(task, _) => task
      case Undeleted(place, _) => Task(place.node, place.loc.key)
      case NoKeys(place, _) => Task(place.node, place.loc.key)
      case Overwritten(task, _) => task
    }
  }

  /** `peer` and `stab` are the versions a node's `peer_in` and stabilizer have learned; a node that
      has learned none is on version 0. `calls` are puts whose `queue_task` call is still to come.
      `resets` are queues about to be replaced. `lapses`, like the clock, only records history: what was let
      go of and not queued since. */
  datatype State = State(
    peer: map<Uri, nat>,
    stab: map<Uri, nat>,
    store: map<Place, Bytes>,
    queue: set<Task>,
    rebuildQueue: set<Place>,
    flushes: map<nat, Flush>,
    handoffs: map<nat, Handoff>,
    rebuilds: map<nat, RebuildExec>,
    calls: multiset<Task>,
    resets: map<Uri, Reset>,
    lapses: set<Lapse>,
    clock: nat)

  function At(versions: map<Uri, nat>, node: Uri): nat {
    if node in versions then versions[node] else 0
  }

  /** The tasks of a fresh queue of `node`: one for every key it stores. */
  function StoredTasks(store: map<Place, Bytes>, node: Uri): set<Task> {
    set p | p in store && p.node == node :: Task(node, p.loc.key)
  }

  function TasksOf(queue: set<Task>, node: Uri): set<Task> {
    set t | t in queue && t.node == node
  }

  function KeysOf(tasks: set<Task>): set<Key> {
    set t | t in tasks :: t.key
  }

  function AsTasks(node: Uri, keys: set<Key>): set<Task> {
    set key | key in keys :: Task(node, key)
  }

  /** The sends of a flush that works with map `v`: every index whose holder is another node. */
  function Sends(c: Config, v: nat, node: Uri, keys: set<Key>): set<Loc> {
    set key, i | key in keys && 0 <= i < c.n && c.Misplaced(v, node, Loc(key, i)) :: Loc(key, i)
  }

  function WithoutKey(locs: set<Loc>, key: Key): set<Loc> {
    set loc | loc in locs && loc.key != key
  }

  // ----- learning a new map -----

  datatype MapStep =
    | LearnPeer(node: Uri, version: nat)
    | SwitchStab(node: Uri, version: nat)
    | ReadKeys(node: Uri)
    | LoseKeys(node: Uri)
    | ReplaceQueue(node: Uri)

  predicate CanMap(s: State, step: MapStep) {
    match step
    case LearnPeer(node, v) => At(s.peer, node) <= v
    case SwitchStab(node, v) => At(s.stab, node) <= v <= At(s.peer, node) && node !in s.resets
    case ReadKeys(node) => node in s.resets && s.resets[node].KeysUnread?
    case LoseKeys(node) => node in s.resets && s.resets[node].KeysUnread?
    case ReplaceQueue(node) => node in s.resets && s.resets[node].KeysRead?
  }

  /** `peer_in` only replaces its map; the stabilizer then reads the stored keys, which may fail, and later
      replaces its queue by them. */
  function MapAfter(s: State, step: MapStep): (t: State)
    requires CanMap(s, step)
    ensures t.store == s.store && t.handoffs == s.handoffs && t.flushes == s.flushes
    ensures t.rebuilds == s.rebuilds && t.calls == s.calls && t.clock == s.clock + 1
  {
    match step
    case LearnPeer(node, v) =>
      s.(clock := s.clock + 1, peer := s.peer[node := v])
    case SwitchStab(node, v) =>
      s.(clock := s.clock + 1, stab := s.stab[node := v], resets := s.resets[node := KeysUnread])
    case ReadKeys(node) =>
      s.(clock := s.clock + 1, resets := s.resets[node := KeysRead(KeysOf(StoredTasks(s.store, node)))])
    case LoseKeys(node) =>
      s.(clock := s.clock + 1, resets := s.resets - {node}, lapses := s.lapses + AsUnread(s, node))
    case ReplaceQueue(node) =>
      var tasks := AsTasks(node, s.resets[node].keys);
      s.(clock := s.clock + 1, resets := s.resets - {node},
         queue := s.queue - TasksOf(s.queue, node) + tasks,
         lapses := Without(s.lapses, tasks) + AsOverwritten(Overwrites(s, node), At(s.stab, node)))
  }

  /** The lapses that remain when the given tasks have been queued. */
  function Without(lapses: set<Lapse>, tasks: set<Task>): set<Lapse> {
    set d | d in lapses && d.Of() !in tasks
  }

  /** The queued tasks of stored keys that a replacement of the queue drops. */
  function Overwrites(s: State, node: Uri): set<Task>
    requires node in s.resets && s.resets[node].KeysRead?
  {
    TasksOf(s.queue, node) * StoredTasks(s.store, node) - AsTasks(node, s.resets[node].keys)
  }

  function AsOverwritten(tasks: set<Task>, version: nat): set<Lapse> {
    set task | task in tasks :: Overwritten(task, version)
  }

  /** The stored pieces that are not queued, of which a failed read of the keys leaves no trace. */
  function AsUnread(s: State, node: Uri): set<Lapse> {
    set p | p in s.store && p.node == node && Task(node, p.loc.key) !in s.queue ::
      NoKeys(p, At(s.stab, node))
  }

  // ----- the stabilizer's queue -----

  datatype FlushStep =
    | QueueCall(task: Task)
    | Drain(node: Uri)
    | ReadMap(flush: nat)
    | FailKey(flush: nat, loc: Loc)
    | EndFlush(flush: nat)

  predicate CanFlush(s: State, step: FlushStep) {
    match step
    case QueueCall(task) => task in s.calls
    case Drain(node) => true
    case ReadMap(f) => f in s.flushes && s.flushes[f].snapshot.Unread?
    case FailKey(f, loc) =>
      f in s.flushes &&
      (loc in s.flushes[f].todo || loc in s.flushes[f].moving || loc in s.flushes[f].asking)
    case EndFlush(f) =>
      f in s.flushes && s.flushes[f].snapshot.Taken? &&
      s.flushes[f].todo == {} && s.flushes[f].moving == {} && s.flushes[f].asking == {}
  }

  function FlushAfter(c: Config, s: State, step: FlushStep): (t: State)
    requires CanFlush(s, step)
    ensures t.peer == s.peer && t.stab == s.stab && t.store == s.store
    ensures t.handoffs == s.handoffs && t.rebuilds == s.rebuilds
    ensures t.resets == s.resets && t.lapses <= s.lapses && t.clock == s.clock + 1
  {
    match step
    case QueueCall(task) =>
      s.(clock := s.clock + 1, queue := s.queue + {task}, calls := s.calls - multiset{task},
         lapses := Without(s.lapses, {task}))
    case Drain(node) =>
      s.(clock := s.clock + 1,
         queue := s.queue - TasksOf(s.queue, node),
         flushes := s.flushes[s.clock :=
           Flush(node, KeysOf(TasksOf(s.queue, node)), Unread, {}, {}, {}, {})])
    case ReadMap(f) =>
      s.(clock := s.clock + 1, flushes := s.flushes[f := WithMap(c, s, s.flushes[f])])
    case FailKey(f, loc) =>
      s.(clock := s.clock + 1, flushes := s.flushes[f := WithFailure(s.flushes[f], loc.key)])
    case EndFlush(f) =>
      s.(clock := s.clock + 1,
         queue := s.queue + AsTasks(s.flushes[f].node, s.flushes[f].failed),
         flushes := s.flushes - {f},
         lapses := Without(s.lapses, AsTasks(s.flushes[f].node, s.flushes[f].failed)))
  }

  function WithMap(c: Config, s: State, fl: Flush): Flush {
    var v := At(s.stab, fl.node);
    fl.(snapshot := Taken(v, s.clock), todo := Sends(c, v, fl.node, fl.keys))
  }

  /** The first error of a key's sends drops its other sends and marks the key to be queued again. */
  function WithFailure(fl: Flush, key: Key): Flush {
    fl.(todo := WithoutKey(fl.todo, key), moving := WithoutKey(fl.moving, key),
        asking := WithoutKey(fl.asking, key), failed := fl.failed + {key})
  }

  // ----- sends between nodes -----

  datatype SendStep =
    | Offer(flush: nat, loc: Loc)
    | Ask(flush: nat, loc: Loc)
    | StorePiece(handoff: nat)
    | QueueRebuild(handoff: nat)
    | Reject(handoff: nat)
    | Delete(handoff: nat)
    | FailDelete(handoff: nat)
    | Settle(handoff: nat)
    | Lose(handoff: nat)

  predicate CanSend(c: Config, s: State, step: SendStep) {
    match step
    case Offer(f, loc) =>
      f in s.flushes && Ready(c, s.flushes[f], loc) && Place(s.flushes[f].node, loc) in s.store
    case Ask(f, loc) =>
      f in s.flushes && Ready(c, s.flushes[f], loc) && Place(s.flushes[f].node, loc) !in s.store
    case StorePiece(h) =>
      h in s.handoffs && s.handoffs[h].data.Some? && Fresh(s, s.handoffs[h])
    case QueueRebuild(h) =>
      h in s.handoffs && s.handoffs[h].data.None? && Fresh(s, s.handoffs[h])
    case Reject(h) =>
      h in s.handoffs && s.handoffs[h].phase.Sent? && s.handoffs[h].version < At(s.peer, s.handoffs[h].to)
    case Delete(h) =>
      h in s.handoffs && s.handoffs[h].data.Some? && s.handoffs[h].phase.Stored?
    case FailDelete(h) =>
      h in s.handoffs && s.handoffs[h].data.Some? && s.handoffs[h].phase.Stored?
    case Settle(h) =>
      h in s.handoffs && s.handoffs[h].data.None? && s.handoffs[h].phase.Stored?
    case Lose(h) => h in s.handoffs
  }

  predicate Ready(c: Config, fl: Flush, loc: Loc) {
    fl.snapshot.Taken? && loc in fl.todo && c.Misplaced(fl.snapshot.version, fl.node, loc)
  }

  /** The receiver's check: its own map is not newer than the sender's. */
  predicate Fresh(s: State, h: Handoff) {
    h.phase.Sent? && At(s.peer, h.to) <= h.version
  }

  function SendAfter(c: Config, s: State, step: SendStep): (t: State)
    requires CanSend(c, s, step)
    ensures t.peer == s.peer && t.stab == s.stab && t.queue == s.queue && t.rebuilds == s.rebuilds
    ensures t.resets == s.resets && s.lapses <= t.lapses && t.clock == s.clock + 1
  {
    match step
    case Offer(f, loc) => OfferAfter(c, s, f, loc)
    case Ask(f, loc) => AskAfter(c, s, f, loc)
    case StorePiece(h) => StoreAfter(s, h)
    case QueueRebuild(h) =>
      s.(clock := s.clock + 1,
         handoffs := s.handoffs[h := s.handoffs[h].(phase := Stored(s.clock))],
         rebuildQueue := s.rebuildQueue + {Place(s.handoffs[h].to, s.handoffs[h].loc)})
    case Reject(h) =>
      s.(clock := s.clock + 1, handoffs := s.handoffs - {h},
         flushes := s.flushes - {s.handoffs[h].flush},
         lapses := s.lapses + AsRefused(s.flushes, s.handoffs[h]))
    case Delete(h) => DeleteAfter(s, h)
    case FailDelete(h) =>
      s.(clock := s.clock + 1, handoffs := s.handoffs - {h},
         flushes := Answered(s.flushes, s.handoffs[h]),
         lapses := s.lapses + {Undeleted(Place(s.handoffs[h].from, s.handoffs[h].loc), s.handoffs[h].version)})
    case Settle(h) =>
      s.(clock := s.clock + 1, handoffs := s.handoffs - {h},
         flushes := Answered(s.flushes, s.handoffs[h]))
    case Lose(h) =>
      s.(clock := s.clock + 1, handoffs := s.handoffs - {h})
  }

  function SendOf(c: Config, f: nat, fl: Flush, loc: Loc, data: Option<Bytes>): Handoff
    requires Ready(c, fl, loc)
  {
    var v := fl.snapshot.version;
    Handoff(f, fl.node, c.holder(v, loc).value, loc, v, fl.snapshot.at, data, Sent)
  }

  function OfferAfter(c: Config, s: State, f: nat, loc: Loc): State
    requires CanSend(c, s, Offer(f, loc))
  {
    var fl := s.flushes[f];
    s.(clock := s.clock + 1,
       handoffs := s.handoffs[s.clock := SendOf(c, f, fl, loc, Some(s.store[Place(fl.node, loc)]))],
       flushes := s.flushes[f := fl.(todo := fl.todo - {loc}, moving := fl.moving + {loc})])
  }

  function AskAfter(c: Config, s: State, f: nat, loc: Loc): State
    requires CanSend(c, s, Ask(f, loc))
  {
    var fl := s.flushes[f];
    s.(clock := s.clock + 1,
       handoffs := s.handoffs[s.clock := SendOf(c, f, fl, loc, None)],
       flushes := s.flushes[f := fl.(todo := fl.todo - {loc}, asking := fl.asking + {loc})])
  }

  /** The receiver stores the piece; the call that queues its key for the stabilizer follows later. */
  function StoreAfter(s: State, h: nat): State
    requires h in s.handoffs && s.handoffs[h].data.Some?
  {
    var ho := s.handoffs[h];
    s.(clock := s.clock + 1,
       handoffs := s.handoffs[h := ho.(phase := Stored(s.clock))],
       store := s.store[Place(ho.to, ho.loc) := ho.data.value],
       calls := s.calls + multiset{Task(ho.to, ho.loc.key)})
  }

  /** The sender has its ack and deletes its own copy. */
  function DeleteAfter(s: State, h: nat): State
    requires h in s.handoffs
  {
    var ho := s.handoffs[h];
    s.(clock := s.clock + 1,
       handoffs := s.handoffs - {h},
       flushes := Answered(s.flushes, ho),
       store := s.store - {Place(ho.from, ho.loc)})
  }

  /** The keys a flush drops with itself: of pieces it has yet to move, and those it would queue again. */
  function AsRefused(flushes: map<nat, Flush>, ho: Handoff): set<Lapse> {
    if ho.flush !in flushes then {}
    else
      var fl := flushes[ho.flush];
      set key | key in fl.failed + KeysIn(fl.todo + fl.moving) :: Refused(Task(fl.node, key), ho.version)
  }

  function KeysIn(locs: set<Loc>): set<Key> {
    set loc | loc in locs :: loc.key
  }

  /** What a flush still awaits after one of its sends was acknowledged. */
  function Answered(flushes: map<nat, Flush>, ho: Handoff): map<nat, Flush> {
    if ho.flush !in flushes then flushes
    else
      var fl := flushes[ho.flush];
      flushes[ho.flush :=
        if ho.data.Some? then fl.(moving := fl.moving - {ho.loc})
        else fl.(asking := fl.asking - {ho.loc})]
  }

  // ----- writes by clients and by rebuilds -----

  datatype WriteStep =
    | Create(node: Uri, loc: Loc, version: nat)
    | StartRebuild(node: Uri, loc: Loc)
    | SkipRebuild(rebuild: nat)
    | Collect(rebuild: nat, from: Uri)
    | FinishRebuild(rebuild: nat)
    | RetryRebuild(rebuild: nat)

  predicate CanWrite(c: Config, s: State, step: WriteStep) {
    match step
    case Create(node, loc, v) => loc.index < c.n && c.Names(node, loc, v) && At(s.peer, node) <= v
    case StartRebuild(node, loc) => Place(node, loc) in s.rebuildQueue
    case SkipRebuild(r) => r in s.rebuilds && Place(s.rebuilds[r].node, s.rebuilds[r].loc) in s.store
    case Collect(r, from) => r in s.rebuilds
    case FinishRebuild(r) =>
      r in s.rebuilds && s.rebuilds[r].loc.index < c.n && c.codec.k <= Filled(s.rebuilds[r].slots)
    case RetryRebuild(r) => r in s.rebuilds
  }

  function WriteAfter(c: Config, s: State, step: WriteStep): (t: State)
    requires CanWrite(c, s, step)
    ensures t.peer == s.peer && t.stab == s.stab && t.queue == s.queue
    ensures t.handoffs == s.handoffs && t.flushes == s.flushes
    ensures t.resets == s.resets && t.lapses == s.lapses && t.clock == s.clock + 1
  {
    match step
    case Create(node, loc, v) => Put(s, node, loc, c.Genuine(loc))
    case StartRebuild(node, loc) =>
      s.(clock := s.clock + 1,
         rebuildQueue := s.rebuildQueue - {Place(node, loc)},
         rebuilds := s.rebuilds[s.clock := RebuildExec(node, loc, seq(c.n, _ => None))])
    case SkipRebuild(r) =>
      s.(clock := s.clock + 1, rebuilds := s.rebuilds - {r})
    case Collect(r, from) =>
      var re := s.rebuilds[r];
      s.(clock := s.clock + 1,
         rebuilds := s.rebuilds[r := re.(slots := Collected(re.slots, s.store, from, re.loc.key))])
    case FinishRebuild(r) =>
      var re := s.rebuilds[r];
      Put(s.(rebuilds := s.rebuilds - {r}), re.node, re.loc, Rebuilt(c, re))
    case RetryRebuild(r) =>
      var re := s.rebuilds[r];
      s.(clock := s.clock + 1,
         rebuildQueue := s.rebuildQueue + {Place(re.node, re.loc)}, rebuilds := s.rebuilds - {r})
  }

  function Put(s: State, node: Uri, loc: Loc, data: Bytes): State {
    s.(clock := s.clock + 1,
       store := s.store[Place(node, loc) := data],
       calls := s.calls + multiset{Task(node, loc.key)})
  }

  /** Adds the pieces stored on a node, keeping a slot that is already filled. */
  function Collected(slots: seq<Option<Bytes>>, store: map<Place, Bytes>, node: Uri, key: Key)
    : seq<Option<Bytes>>
  {
    seq(|slots|, i requires 0 <= i < |slots| =>
      if slots[i].Some? then slots[i]
      else if Place(node, Loc(key, i)) in store then Some(store[Place(node, Loc(key, i))])
      else None)
  }

  function Rebuilt(c: Config, re: RebuildExec): Bytes {
    var all := c.codec.reconstruct(re.slots);
    if re.loc.index < |all| then all[re.loc.index] else []
  }

  // ----- runs -----

  datatype Step = Map(m: MapStep) | Flushing(f: FlushStep) | Sending(s: SendStep) | Writing(w: WriteStep)

  predicate Enabled(c: Config, s: State, step: Step) {
    match step
    case Map(m) => CanMap(s, m)
    case Flushing(f) => CanFlush(s, f)
    case Sending(d) => CanSend(c, s, d)
    case Writing(w) => CanWrite(c, s, w)
  }

  function After(c: Config, s: State, step: Step): State
    requires Enabled(c, s, step)
  {
    match step
    case Map(m) => MapAfter(s, m)
    case Flushing(f) => FlushAfter(c, s, f)
    case Sending(d) => SendAfter(c, s, d)
    case Writing(w) => WriteAfter(c, s, w)
  }

  predicate IsRun(c: Config, s: State, run: seq<Step>)
    decreases |run|
  {
    run == [] || (Enabled(c, s, run[0]) && IsRun(c, After(c, s, run[0]), run[1..]))
  }

  function Final(c: Config, s: State, run: seq<Step>): State
    requires IsRun(c, s, run)
    decreases |run|
  {
    if run == [] then s else Final(c, After(c, s, run[0]), run[1..])
  }

  /** A cluster before its first command: nothing learned, stored, queued or in flight. */
  const START := State(map[], map[], map[], {}, {}, map[], map[], map[], multiset{}, map[], {}, 0)

  // ----- what every run keeps about versions and ids -----

  /** Versions only travel forwards: a flush, and a send, never carry a map newer than the one its
      node's `peer_in` already has, and a send goes to the holder its map names, never to its sender. */
  ghost predicate Ordered(c: Config, s: State) {
    && VersionsOrdered(s.peer, s.stab)
    && FlushesOrdered(c, s.flushes, s.stab, s.clock)
    && HandoffsOrdered(c, s.handoffs, s.stab, s.clock)
  }

  ghost predicate VersionsOrdered(peer: map<Uri, nat>, stab: map<Uri, nat>) {
    forall u {:trigger At(stab, u)} {:trigger At(peer, u)} :: At(stab, u) <= At(peer, u)
  }

  ghost predicate FlushesOrdered(c: Config, flushes: map<nat, Flush>, stab: map<Uri, nat>, clock: nat) {
    forall f | f in flushes :: f < clock && FlushOrdered(c, stab, clock, flushes[f])
  }

  ghost predicate FlushOrdered(c: Config, stab: map<Uri, nat>, clock: nat, fl: Flush) {
    match fl.snapshot
    case Unread => fl.todo == {} && fl.moving == {} && fl.asking == {} && fl.failed == {}
    case Taken(v, at) =>
      && v <= At(stab, fl.node)
      && at < clock
      && forall loc | loc in fl.todo :: c.Misplaced(v, fl.node, loc)
  }

  ghost predicate HandoffsOrdered(c: Config, handoffs: map<nat, Handoff>, stab: map<Uri, nat>, clock: nat) {
    forall h | h in handoffs :: h < clock && HandoffOrdered(c, stab, clock, handoffs[h])
  }

  ghost predicate HandoffOrdered(c: Config, stab: map<Uri, nat>, clock: nat, h: Handoff) {
    && h.flush < clock
    && h.version <= At(stab, h.from)
    && c.Misplaced(h.version, h.from, h.loc)
    && c.holder(h.version, h.loc) == Some(h.to)
    && h.snapAt < clock
    && (h.phase.Stored? ==> h.phase.at < clock)
  }

  lemma VersionsGrow(s: State, step: MapStep)
    requires CanMap(s, step) && VersionsOrdered(s.peer, s.stab)
    ensures VersionsOrdered(MapAfter(s, step).peer, MapAfter(s, step).stab)
    ensures forall u :: At(s.stab, u) <= At(MapAfter(s, step).stab, u)
    ensures MapAfter(s, step).clock == s.clock + 1
  {
  }

  lemma OrderedMap(c: Config, s: State, step: MapStep)
    requires CanMap(s, step) && Ordered(c, s)
    ensures Ordered(c, MapAfter(s, step))
  {
    hide MapAfter, CanMap;
    VersionsGrow(s, step);
  }

  lemma OrderedFlush(c: Config, s: State, step: FlushStep)
    requires CanFlush(s, step) && Ordered(c, s)
    ensures Ordered(c, FlushAfter(c, s, step))
  {
  }

  /** A hand-off was there before, or was there and has now been accepted, or was just made by a flush. */
  ghost predicate HandoffFrom(c: Config, s: State, h: nat, g: Handoff) {
    || (h in s.handoffs && g == s.handoffs[h])
    || (h in s.handoffs && Fresh(s, s.handoffs[h]) && g == s.handoffs[h].(phase := Stored(s.clock)))
    || (&& h == s.clock && g.flush in s.flushes && Ready(c, s.flushes[g.flush], g.loc)
        && g == SendOf(c, g.flush, s.flushes[g.flush], g.loc, g.data))
  }

  /** A flush was there before, with the same map and no fewer sends to make. */
  ghost predicate FlushFrom(s: State, f: nat, fl: Flush) {
    && f in s.flushes && fl.node == s.flushes[f].node && fl.snapshot == s.flushes[f].snapshot
    && fl.todo <= s.flushes[f].todo
    && (fl.snapshot.Unread? ==> s.flushes[f].moving == {} == s.flushes[f].asking ==> fl.moving == {} == fl.asking)
    && fl.failed == s.flushes[f].failed
  }

  lemma HandoffsFrom(c: Config, s: State, step: SendStep, h: nat)
    requires CanSend(c, s, step) && h in SendAfter(c, s, step).handoffs
    ensures HandoffFrom(c, s, h, SendAfter(c, s, step).handoffs[h])
  {
  }

  lemma FlushesFrom(c: Config, s: State, step: SendStep, f: nat)
    requires CanSend(c, s, step) && f in SendAfter(c, s, step).flushes
    ensures FlushFrom(s, f, SendAfter(c, s, step).flushes[f])
  {
  }

  lemma HandoffStaysOrdered(c: Config, s: State, h: nat, g: Handoff)
    requires Ordered(c, s) && HandoffFrom(c, s, h, g)
    ensures h < s.clock + 1 && HandoffOrdered(c, s.stab, s.clock + 1, g)
  {
  }

  lemma FlushStaysOrdered(c: Config, s: State, f: nat, fl: Flush)
    requires Ordered(c, s) && FlushFrom(s, f, fl)
    ensures f < s.clock + 1 && FlushOrdered(c, s.stab, s.clock + 1, fl)
  {
    assert FlushOrdered(c, s.stab, s.clock, s.flushes[f]);
  }

  lemma OrderedSend(c: Config, s: State, step: SendStep)
    requires CanSend(c, s, step) && Ordered(c, s)
    ensures Ordered(c, SendAfter(c, s, step))
  {
    hide CanSend, HandoffOrdered, FlushOrdered, HandoffFrom, FlushFrom;
    var t := SendAfter(c, s, step);
    assert t.clock == s.clock + 1;
    hide SendAfter;
    forall f | f in t.flushes ensures f < t.clock && FlushOrdered(c, t.stab, t.clock, t.flushes[f]) {
      FlushesFrom(c, s, step, f);
      FlushStaysOrdered(c, s, f, t.flushes[f]);
    }
    forall h | h in t.handoffs ensures h < t.clock && HandoffOrdered(c, t.stab, t.clock, t.handoffs[h]) {
      HandoffsFrom(c, s, step, h);
      HandoffStaysOrdered(c, s, h, t.handoffs[h]);
    }
  }

  lemma OrderedWrite(c: Config, s: State, step: WriteStep)
    requires CanWrite(c, s, step) && Ordered(c, s)
    ensures Ordered(c, WriteAfter(c, s, step))
  {
  }

  lemma OrderedStep(c: Config, s: State, step: Step)
    requires Enabled(c, s, step) && Ordered(c, s)
    ensures Ordered(c, After(c, s, step))
  {
    match step
    case Map(m) => OrderedMap(c, s, m);
    case Flushing(f) => OrderedFlush(c, s, f);
    case Sending(d) => OrderedSend(c, s, d);
    case Writing(w) => OrderedWrite(c, s, w);
  }

  lemma {:induction false} OrderedRun(c: Config, s: State, run: seq<Step>)
    requires IsRun(c, s, run) && Ordered(c, s)
    ensures Ordered(c, Final(c, s, run))
    decreases |run|
  {
    if run != [] {
      OrderedStep(c, s, run[0]);
      OrderedRun(c, After(c, s, run[0]), run[1..]);
    }
  }
}
