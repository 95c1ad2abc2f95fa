/** A node that stores a piece which belongs elsewhere still has work for it, or why it has none is on record. */
module NoKeyForgotten {
  import opened Types
  import opened Protocol

  /** A flush will still look at the piece, is moving it, or will queue its key again. */
  ghost predicate WorksOn(stab: map<Uri, nat>, fl: Flush, node: Uri, loc: Loc) {
    fl.node == node &&
    match fl.snapshot
    case Unread => loc.key in fl.keys
    case Taken(v, _) => v == At(stab, node) && (loc in fl.todo || loc in fl.moving || loc.key in fl.failed)
  }

  ghost predicate InFlush(s: State, node: Uri, loc: Loc) {
    exists f :: f in s.flushes && WorksOn(s.stab, s.flushes[f], node, loc)
  }

  /** Some node already has a newer map than `version`. */
  ghost predicate Outdated(peer: map<Uri, nat>, version: nat) {
    exists u :: version < At(peer, u)
  }

  /** The stabilizer is about to read the keys it stores, or has read this one and will queue it. */
  ghost predicate InReset(s: State, node: Uri, key: Key) {
    node in s.resets && (s.resets[node].KeysUnread? || key in s.resets[node].keys)
  }

  /** Under the node's current map something let go of work for the piece, whose key has not been queued since. */
  ghost predicate Lapsed(s: State, node: Uri, loc: Loc) {
    var v := At(s.stab, node);
    || Refused(Task(node, loc.key), v) in s.lapses
    || Undeleted(Place(node, loc), v) in s.lapses
    || NoKeys(Place(node, loc), v) in s.lapses
    || Overwritten(Task(node, loc.key), v) in s.lapses
  }

  ghost predicate Remembered(s: State, node: Uri, loc: Loc) {
    || Task(node, loc.key) in s.queue
    || Task(node, loc.key) in s.calls
    || InReset(s, node, loc.key)
    || InFlush(s, node, loc)
  }

  ghost predicate NoneForgotten(c: Config, s: State) {
    forall p | p in s.store && c.Misplaced(At(s.stab, p.node), p.node, p.loc) ::
      Remembered(s, p.node, p.loc) || Lapsed(s, p.node, p.loc)
  }

  ghost predicate RefusalsOutdated(s: State) {
    forall d | d in s.lapses && d.Refused? :: Outdated(s.peer, d.version)
  }

  /** A send belongs to the flush it names, with that flush's node and map. */
  ghost predicate Linked(s: State) {
    forall h | h in s.handoffs && s.handoffs[h].flush in s.flushes ::
      LinkedTo(s.handoffs[h], s.flushes[s.handoffs[h].flush])
  }

  ghost predicate LinkedTo(h: Handoff, fl: Flush) {
    h.from == fl.node && fl.snapshot.Taken? && fl.snapshot.version == h.version
  }

  lemma LinkedSend(c: Config, s: State, step: SendStep)
    requires CanSend(c, s, step) && Ordered(c, s) && Linked(s)
    ensures Linked(SendAfter(c, s, step))
  {
    hide CanSend, HandoffFrom, FlushFrom, Ordered, LinkedTo;
    var t := SendAfter(c, s, step);
    hide SendAfter;
    forall h | h in t.handoffs && t.handoffs[h].flush in t.flushes
      ensures LinkedTo(t.handoffs[h], t.flushes[t.handoffs[h].flush])
    {
      HandoffsFrom(c, s, step, h);
      FlushesFrom(c, s, step, t.handoffs[h].flush);
      LinkStays(c, s, h, t.handoffs[h], t.flushes[t.handoffs[h].flush]);
    }
  }

  lemma LinkStays(c: Config, s: State, h: nat, ho: Handoff, fl: Flush)
    requires Linked(s) && HandoffFrom(c, s, h, ho) && FlushFrom(s, ho.flush, fl)
    ensures LinkedTo(ho, fl)
  {
  }

  lemma LinkedFlush(c: Config, s: State, step: FlushStep)
    requires CanFlush(s, step) && Ordered(c, s) && Linked(s)
    ensures Linked(FlushAfter(c, s, step))
  {
  }

  /** Whichever of the four steps it is, the stabilizer's own node keeps its work or records what it let go. */
  lemma ResetKeeps(c: Config, s: State, step: MapStep, p: Place)
    requires CanMap(s, step) && p in s.store && !step.LearnPeer? && step.node == p.node
    requires step.SwitchStab? || Remembered(s, p.node, p.loc) || Lapsed(s, p.node, p.loc)
    ensures Remembered(MapAfter(s, step), p.node, p.loc) || Lapsed(MapAfter(s, step), p.node, p.loc)
  {
    var t := MapAfter(s, step);
    match step
    case LearnPeer(_, _) =>
    case SwitchStab(_, _) => assert InReset(t, p.node, p.loc.key);
    case ReadKeys(node) =>
      assert Task(p.node, p.loc.key) in StoredTasks(s.store, node);
      assert InReset(t, p.node, p.loc.key);
    case LoseKeys(node) =>
      assert p == Place(p.node, p.loc);
      assert Task(p.node, p.loc.key) in t.queue || Lapsed(t, p.node, p.loc);
    case ReplaceQueue(node) => ReplacedKeeps(s, p);
  }

  lemma ReplacedKeeps(s: State, p: Place)
    requires CanMap(s, ReplaceQueue(p.node)) && p in s.store
    requires Remembered(s, p.node, p.loc) || Lapsed(s, p.node, p.loc)
    ensures Remembered(MapAfter(s, ReplaceQueue(p.node)), p.node, p.loc)
            || Lapsed(MapAfter(s, ReplaceQueue(p.node)), p.node, p.loc)
  {
    var t := MapAfter(s, ReplaceQueue(p.node));
    var task := Task(p.node, p.loc.key);
    if InFlush(s, p.node, p.loc) {
      FlushesSurvive(s, t, p);
    } else if task in s.queue && task !in t.queue {
      assert task in StoredTasks(s.store, p.node);
      assert Overwritten(task, At(s.stab, p.node)) in t.lapses;
    }
  }

  lemma FlushesSurvive(s: State, t: State, p: Place)
    requires InFlush(s, p.node, p.loc) && t.flushes == s.flushes && At(t.stab, p.node) == At(s.stab, p.node)
    ensures InFlush(t, p.node, p.loc)
  {
    var f :| f in s.flushes && WorksOn(s.stab, s.flushes[f], p.node, p.loc);
    assert WorksOn(t.stab, t.flushes[f], p.node, p.loc);
  }

  /** What other nodes' stabilizers do, and what receivers learn, makes no difference. */
  lemma OtherKeeps(c: Config, s: State, step: MapStep, p: Place)
    requires CanMap(s, step) && (step.LearnPeer? || step.node != p.node)
    requires Remembered(s, p.node, p.loc) || Lapsed(s, p.node, p.loc)
    ensures Remembered(MapAfter(s, step), p.node, p.loc) || Lapsed(MapAfter(s, step), p.node, p.loc)
  {
    var t := MapAfter(s, step);
    assert At(t.stab, p.node) == At(s.stab, p.node);
    if InFlush(s, p.node, p.loc) {
      FlushesSurvive(s, t, p);
    }
  }

  lemma StabElsewhere(s: State, step: MapStep, node: Uri)
    requires CanMap(s, step) && (!step.SwitchStab? || step.node != node)
    ensures At(MapAfter(s, step).stab, node) == At(s.stab, node)
  {
  }

  lemma AfterMap(c: Config, s: State, step: MapStep)
    requires CanMap(s, step) && Ordered(c, s) && NoneForgotten(c, s)
    ensures NoneForgotten(c, MapAfter(s, step))
  {
    hide Remembered, Lapsed, Ordered;
    var t := MapAfter(s, step);
    hide MapAfter, CanMap;
    forall p | p in t.store && c.Misplaced(At(t.stab, p.node), p.node, p.loc)
      ensures Remembered(t, p.node, p.loc) || Lapsed(t, p.node, p.loc)
    {
      if !step.SwitchStab? || step.node != p.node {
        StabElsewhere(s, step, p.node);
      }
      if !step.LearnPeer? && step.node == p.node {
        ResetKeeps(c, s, step, p);
      } else {
        OtherKeeps(c, s, step, p);
      }
    }
  }

  lemma RefusalsStayOutdated(c: Config, s: State, step: Step)
    requires Enabled(c, s, step) && RefusalsOutdated(s)
    ensures RefusalsOutdated(After(c, s, step))
  {
    var t := After(c, s, step);
    PeersGrow(c, s, step);
    forall d | d in t.lapses && d.Refused? ensures Outdated(t.peer, d.version) {
      if d in s.lapses {
        var u :| d.version < At(s.peer, u);
        assert At(s.peer, u) <= At(t.peer, u);
      } else {
        RejectedByNewer(c, s, step, d);
      }
    }
  }

  lemma MapLapses(s: State, step: MapStep, d: Lapse)
    requires CanMap(s, step) && d in MapAfter(s, step).lapses && d !in s.lapses
    ensures (step.LoseKeys? && AsUnread(s, step.node) != {}) || (step.ReplaceQueue? && Overwrites(s, step.node) != {})
    ensures d.NoKeys? || d.Overwritten?
  {
  }

  lemma SendLapses(c: Config, s: State, step: SendStep, d: Lapse)
    requires CanSend(c, s, step) && d in SendAfter(c, s, step).lapses && d !in s.lapses
    ensures step.Reject? || step.FailDelete?
    ensures step.Reject? ==> d.Refused? && d.version == s.handoffs[step.handoff].version
    ensures step.FailDelete? ==> d.Undeleted?
  {
  }

  lemma RejectedByNewer(c: Config, s: State, step: Step, d: Lapse)
    requires Enabled(c, s, step) && d.Refused? && d in After(c, s, step).lapses && d !in s.lapses
    ensures Outdated(s.peer, d.version) && After(c, s, step).peer == s.peer
  {
    hide MapAfter, FlushAfter, SendAfter, WriteAfter, CanMap, CanFlush, CanWrite;
    match step
    case Map(m) => MapLapses(s, m, d);
    case Flushing(_) => assert false;
    case Writing(_) => assert false;
    case Sending(x) =>
      SendLapses(c, s, x, d);
      assert d.version < At(s.peer, s.handoffs[x.handoff].to);
  }

  lemma PeersGrow(c: Config, s: State, step: Step)
    requires Enabled(c, s, step)
    ensures forall u :: At(s.peer, u) <= At(After(c, s, step).peer, u)
  {
  }

  lemma FlushStays(c: Config, s: State, step: FlushStep, p: Place)
    requires CanFlush(s, step) && Ordered(c, s)
    requires InFlush(s, p.node, p.loc) && c.Misplaced(At(s.stab, p.node), p.node, p.loc)
    ensures Remembered(FlushAfter(c, s, step), p.node, p.loc)
  {
    var t := FlushAfter(c, s, step);
    var f :| f in s.flushes && WorksOn(s.stab, s.flushes[f], p.node, p.loc);
    if step.EndFlush? && step.flush == f {
      assert p.loc.key in s.flushes[f].failed;
    } else {
      assert p.loc == Loc(p.loc.key, p.loc.index);
      assert f in t.flushes && WorksOn(t.stab, t.flushes[f], p.node, p.loc);
    }
  }

  lemma DrainedStays(c: Config, s: State, node: Uri, p: Place)
    requires p.node == node && Task(node, p.loc.key) in s.queue
    ensures InFlush(FlushAfter(c, s, Drain(node)), p.node, p.loc)
  {
    var t := FlushAfter(c, s, Drain(node));
    assert Task(node, p.loc.key) in TasksOf(s.queue, node);
    assert WorksOn(t.stab, t.flushes[s.clock], p.node, p.loc);
  }

  /** A lapse goes only when the task is queued. */
  lemma LapseGoes(c: Config, s: State, step: FlushStep, p: Place)
    requires CanFlush(s, step) && Lapsed(s, p.node, p.loc)
    ensures Remembered(FlushAfter(c, s, step), p.node, p.loc) || Lapsed(FlushAfter(c, s, step), p.node, p.loc)
  {
    var t := FlushAfter(c, s, step);
    assert forall d | d in s.lapses && d.Of() == Task(p.node, p.loc.key) :: d in t.lapses || d.Of() in t.queue;
  }

  lemma WaitingStays(c: Config, s: State, step: FlushStep, p: Place)
    requires CanFlush(s, step)
    requires Task(p.node, p.loc.key) in s.queue || Task(p.node, p.loc.key) in s.calls || InReset(s, p.node, p.loc.key)
    ensures Remembered(FlushAfter(c, s, step), p.node, p.loc)
  {
    if step.Drain? && step.node == p.node && Task(p.node, p.loc.key) in s.queue {
      DrainedStays(c, s, p.node, p);
    }
  }

  lemma AfterFlush(c: Config, s: State, step: FlushStep)
    requires CanFlush(s, step) && Ordered(c, s) && NoneForgotten(c, s)
    ensures NoneForgotten(c, FlushAfter(c, s, step))
  {
    var t := FlushAfter(c, s, step);
    hide FlushAfter, CanFlush, Ordered, InFlush, InReset, Lapsed;
    forall p | p in t.store && c.Misplaced(At(t.stab, p.node), p.node, p.loc)
      ensures Remembered(t, p.node, p.loc) || Lapsed(t, p.node, p.loc)
    {
      if Lapsed(s, p.node, p.loc) {
        LapseGoes(c, s, step, p);
      } else if InFlush(s, p.node, p.loc) {
        FlushStays(c, s, step, p);
      } else {
        WaitingStays(c, s, step, p);
      }
    }
  }

  /** A rejection drops a whole flush with all its keys, and a failed deletion one piece. */
  lemma SendStays(c: Config, s: State, step: SendStep, p: Place)
    requires CanSend(c, s, step) && Linked(s) && p in SendAfter(c, s, step).store
    requires p in s.store && InFlush(s, p.node, p.loc)
    ensures Remembered(SendAfter(c, s, step), p.node, p.loc) || Lapsed(SendAfter(c, s, step), p.node, p.loc)
  {
    var f :| f in s.flushes && WorksOn(s.stab, s.flushes[f], p.node, p.loc);
    if (step.Reject? || step.FailDelete?) && s.handoffs[step.handoff].flush == f {
      LapseStays(c, s, step, p, f);
    } else {
      SendKeepsWork(c, s, step, p, f);
    }
  }

  lemma LapseStays(c: Config, s: State, step: SendStep, p: Place, f: nat)
    requires CanSend(c, s, step) && Linked(s) && p in s.store
    requires f in s.flushes && WorksOn(s.stab, s.flushes[f], p.node, p.loc)
    requires (step.Reject? || step.FailDelete?) && s.handoffs[step.handoff].flush == f
    ensures Remembered(SendAfter(c, s, step), p.node, p.loc) || Lapsed(SendAfter(c, s, step), p.node, p.loc)
  {
    var t := SendAfter(c, s, step);
    var h := s.handoffs[step.handoff];
    assert LinkedTo(h, s.flushes[f]);
    if step.FailDelete? && h.loc != p.loc {
      assert WorksOn(t.stab, t.flushes[f], p.node, p.loc);
    } else {
      assert Lapsed(t, p.node, p.loc);
    }
  }

  lemma SendKeepsWork(c: Config, s: State, step: SendStep, p: Place, f: nat)
    requires CanSend(c, s, step) && Linked(s) && p in SendAfter(c, s, step).store && p in s.store
    requires f in s.flushes && WorksOn(s.stab, s.flushes[f], p.node, p.loc)
    requires !((step.Reject? || step.FailDelete?) && s.handoffs[step.handoff].flush == f)
    ensures InFlush(SendAfter(c, s, step), p.node, p.loc)
  {
    var t := SendAfter(c, s, step);
    if (step.Delete? || step.Settle?) && s.handoffs[step.handoff].flush == f {
      assert LinkedTo(s.handoffs[step.handoff], s.flushes[f]);
    }
    assert f in t.flushes && WorksOn(t.stab, t.flushes[f], p.node, p.loc);
  }

  lemma AfterSend(c: Config, s: State, step: SendStep)
    requires CanSend(c, s, step) && Linked(s) && NoneForgotten(c, s)
    ensures NoneForgotten(c, SendAfter(c, s, step))
  {
    var t := SendAfter(c, s, step);
    forall p | p in t.store && c.Misplaced(At(t.stab, p.node), p.node, p.loc)
      ensures Remembered(t, p.node, p.loc) || Lapsed(t, p.node, p.loc)
    {
      if p !in s.store {
        assert Task(p.node, p.loc.key) in t.calls;
      } else if InFlush(s, p.node, p.loc) {
        SendStays(c, s, step, p);
      }
    }
  }

  lemma AfterWrite(c: Config, s: State, step: WriteStep)
    requires CanWrite(c, s, step) && NoneForgotten(c, s)
    ensures NoneForgotten(c, WriteAfter(c, s, step))
  {
    var t := WriteAfter(c, s, step);
    forall p | p in t.store && c.Misplaced(At(t.stab, p.node), p.node, p.loc)
      ensures Remembered(t, p.node, p.loc) || Lapsed(t, p.node, p.loc)
    {
      if p in s.store && InFlush(s, p.node, p.loc) {
        var f :| f in s.flushes && WorksOn(s.stab, s.flushes[f], p.node, p.loc);
        assert WorksOn(t.stab, t.flushes[f], p.node, p.loc);
      }
    }
  }

  lemma StepForgetsNone(c: Config, s: State, step: Step)
    requires Enabled(c, s, step) && Ordered(c, s) && Linked(s) && NoneForgotten(c, s)
    ensures Linked(After(c, s, step)) && NoneForgotten(c, After(c, s, step))
  {
    match step
    case Map(m) => AfterMap(c, s, m); assert Linked(MapAfter(s, m));
    case Flushing(f) => AfterFlush(c, s, f); LinkedFlush(c, s, f);
    case Sending(d) => AfterSend(c, s, d); LinkedSend(c, s, d);
    case Writing(w) => AfterWrite(c, s, w); assert Linked(WriteAfter(c, s, w));
  }

  lemma {:induction false} RunForgetsNone(c: Config, s: State, run: seq<Step>)
    requires IsRun(c, s, run) && Ordered(c, s) && Linked(s)
    requires NoneForgotten(c, s) && RefusalsOutdated(s)
    ensures NoneForgotten(c, Final(c, s, run)) && RefusalsOutdated(Final(c, s, run))
    decreases |run|
  {
    if run != [] {
      OrderedStep(c, s, run[0]);
      StepForgetsNone(c, s, run[0]);
      RefusalsStayOutdated(c, s, run[0]);
      RunForgetsNone(c, After(c, s, run[0]), run[1..]);
    }
  }

  /**
   * In every reachable state a piece on a node that its own map places elsewhere is queued, about to be
   * queued, or in a flush under that map, unless, under that map and since its key was last queued, a
   * rejection dropped a flush that worked on the key, its own deletion failed after a hand-over, the stored
   * keys could not be read, or the key's task was overwritten. After a rejection some node has a newer map,
   * for which this node's stabilizer will queue what it stores.
   */
  lemma NoKeyForgotten(c: Config, run: seq<Step>, p: Place)
    requires IsRun(c, START, run)
    requires p in Final(c, START, run).store
    requires c.Misplaced(At(Final(c, START, run).stab, p.node), p.node, p.loc)
    ensures Remembered(Final(c, START, run), p.node, p.loc) || Lapsed(Final(c, START, run), p.node, p.loc)
    ensures Refused(Task(p.node, p.loc.key), At(Final(c, START, run).stab, p.node)) in Final(c, START, run).lapses ==>
              Outdated(Final(c, START, run).peer, At(Final(c, START, run).stab, p.node))
  {
    RunForgetsNone(c, START, run);
  }

  /** No delete fails, no failing key read finds a stored piece that is not queued, and no replacement of the
      queue drops the task of a key that is stored. */
  ghost predicate Calm(s: State, step: Step) {
    match step
    case Map(LoseKeys(node)) => AsUnread(s, node) == {}
    case Map(ReplaceQueue(node)) => node in s.resets && s.resets[node].KeysRead? ==> Overwrites(s, node) == {}
    case Sending(FailDelete(_)) => false
    case _ => true
  }

  ghost predicate CalmRun(c: Config, s: State, run: seq<Step>)
    requires IsRun(c, s, run)
    decreases |run|
  {
    run == [] || (Calm(s, run[0]) && CalmRun(c, After(c, s, run[0]), run[1..]))
  }

  lemma CalmStep(c: Config, s: State, step: Step)
    requires Enabled(c, s, step) && Calm(s, step) && forall d | d in s.lapses :: d.Refused?
    ensures forall d | d in After(c, s, step).lapses :: d.Refused?
  {
    hide MapAfter, FlushAfter, SendAfter, WriteAfter, CanFlush, CanWrite;
    var t := After(c, s, step);
    forall d | d in t.lapses ensures d.Refused? {
      if d !in s.lapses {
        match step
        case Map(m) => MapLapses(s, m, d);
        case Flushing(_) => assert false;
        case Writing(_) => assert false;
        case Sending(x) => SendLapses(c, s, x, d);
      }
    }
  }

  lemma {:induction false} CalmLapses(c: Config, s: State, run: seq<Step>)
    requires IsRun(c, s, run) && CalmRun(c, s, run) && forall d | d in s.lapses :: d.Refused?
    ensures forall d | d in Final(c, s, run).lapses :: d.Refused?
    decreases |run|
  {
    if run != [] {
      CalmStep(c, s, run[0]);
      CalmLapses(c, After(c, s, run[0]), run[1..]);
    }
  }

  /** Then only a rejection makes a node forget, and only while some node has a newer map. */
  lemma OnlyRejectionsForget(c: Config, run: seq<Step>, p: Place)
    requires IsRun(c, START, run) && CalmRun(c, START, run)
    requires p in Final(c, START, run).store
    requires c.Misplaced(At(Final(c, START, run).stab, p.node), p.node, p.loc)
    ensures Remembered(Final(c, START, run), p.node, p.loc)
            || Outdated(Final(c, START, run).peer, At(Final(c, START, run).stab, p.node))
  {
    NoKeyForgotten(c, run, p);
    CalmLapses(c, START, run);
  }

  // ----- a new map learned in one go -----

  /** The queue of the node is about to be replaced by exactly the keys it stores now. */
  ghost predicate JustRead(s: State, node: Uri) {
    node in s.resets && s.resets[node] == KeysRead(KeysOf(StoredTasks(s.store, node)))
  }

  lemma ReadIsJustRead(s: State, node: Uri)
    requires CanMap(s, ReadKeys(node))
    ensures JustRead(MapAfter(s, ReadKeys(node)), node)
  {
  }

  lemma JustReadIsCalm(s: State, node: Uri)
    requires JustRead(s, node)
    ensures Calm(s, Map(ReplaceQueue(node)))
  {
    forall task | task in StoredTasks(s.store, node) ensures task in AsTasks(node, s.resets[node].keys) {
      assert task.key in KeysOf(StoredTasks(s.store, node));
    }
  }

  /** No delete and no key read fails, and queues are replaced right after the keys are read. `read` is the node
      that read its keys in the step before. */
  predicate InOneGo(run: seq<Step>, read: Option<Uri>) {
    run == [] ||
    (match run[0]
     case Map(ReadKeys(node)) => InOneGo(run[1..], Some(node))
     case Map(ReplaceQueue(node)) => read == Some(node) && InOneGo(run[1..], None)
     case Map(LoseKeys(_)) => false
     case Sending(FailDelete(_)) => false
     case _ => InOneGo(run[1..], None))
  }

  lemma {:induction false} InOneGoIsCalm(c: Config, s: State, run: seq<Step>, read: Option<Uri>)
    requires IsRun(c, s, run) && InOneGo(run, read) && (read.Some? ==> JustRead(s, read.value))
    ensures CalmRun(c, s, run)
    decreases |run|
  {
    hide MapAfter, FlushAfter, SendAfter, WriteAfter, CanFlush, CanSend, CanWrite, JustRead;
    if run != [] {
      var t := After(c, s, run[0]);
      match run[0]
      case Map(ReadKeys(node)) =>
        ReadIsJustRead(s, node);
        InOneGoIsCalm(c, t, run[1..], Some(node));
      case Map(ReplaceQueue(node)) =>
        JustReadIsCalm(s, node);
        InOneGoIsCalm(c, t, run[1..], None);
      case _ => InOneGoIsCalm(c, t, run[1..], None);
    }
  }

  /** When stabilizers learn maps in one go, whatever else is interleaved, a misplaced piece is remembered, or
      some node has a newer map than this node's stabilizer. */
  lemma OneGoForgetsNothing(c: Config, run: seq<Step>, p: Place)
    requires IsRun(c, START, run) && InOneGo(run, None)
    requires p in Final(c, START, run).store
    requires c.Misplaced(At(Final(c, START, run).stab, p.node), p.node, p.loc)
    ensures Remembered(Final(c, START, run), p.node, p.loc)
            || Outdated(Final(c, START, run).peer, At(Final(c, START, run).stab, p.node))
  {
    InOneGoIsCalm(c, START, run, None);
    OnlyRejectionsForget(c, run, p);
  }
}
