/** No run ever stores or sends a wrong piece. */
module Integrity {
  import opened Types
  import opened Codec
  import opened Protocol

  ghost predicate IsGenuine(c: Config, loc: Loc, data: Bytes) {
    loc.index < c.n && data == c.Genuine(loc)
  }

  ghost predicate SlotsGenuine(c: Config, key: Key, slots: seq<Option<Bytes>>) {
    |slots| == c.n && forall i | 0 <= i < |slots| && slots[i].Some? :: slots[i].value == c.Genuine(Loc(key, i))
  }

  /** Every stored piece, every piece in flight and every piece a rebuild has collected is the shard of
      the one value written under its key that its index names. */
  ghost predicate AllGenuine(c: Config, s: State) {
    && StoreGenuine(c, s.store)
    && SendsGenuine(c, s.handoffs)
    && (forall r | r in s.rebuilds :: SlotsGenuine(c, s.rebuilds[r].loc.key, s.rebuilds[r].slots))
  }

  ghost predicate StoreGenuine(c: Config, store: map<Place, Bytes>) {
    forall p | p in store :: IsGenuine(c, p.loc, store[p])
  }

  ghost predicate SendsGenuine(c: Config, handoffs: map<nat, Handoff>) {
    forall h | h in handoffs && handoffs[h].data.Some? :: IsGenuine(c, handoffs[h].loc, handoffs[h].data.value)
  }

  lemma EncodedIsGenuine(c: Config, key: Key)
    requires c.Valid()
    ensures |Pieces(c.codec, c.value(key))| == c.n
    ensures forall i | 0 <= i < c.n :: Pieces(c.codec, c.value(key))[i] == c.Genuine(Loc(key, i))
  {
    SplitIsData(c.codec, c.value(key));
  }

  /** Any `k` genuine pieces rebuild the genuine piece that was asked for. */
  lemma RebuiltIsGenuine(c: Config, re: RebuildExec)
    requires c.Valid() && re.loc.index < c.n && c.codec.k <= Filled(re.slots)
    requires SlotsGenuine(c, re.loc.key, re.slots)
    ensures Rebuilt(c, re) == c.Genuine(re.loc)
  {
    EncodedIsGenuine(c, re.loc.key);
    SplitIsData(c.codec, c.value(re.loc.key));
    assert c.codec.Genuine(re.slots, Split(c.value(re.loc.key), c.codec.k));
    assert re.loc == Loc(re.loc.key, re.loc.index);
  }

  lemma GenuineSend(c: Config, s: State, step: SendStep)
    requires CanSend(c, s, step) && AllGenuine(c, s)
    ensures AllGenuine(c, SendAfter(c, s, step))
  {
    var t := SendAfter(c, s, step);
    assert StoreGenuine(c, t.store);
    assert SendsGenuine(c, t.handoffs);
  }

  lemma GenuineWrite(c: Config, s: State, step: WriteStep)
    requires c.Valid() && CanWrite(c, s, step) && AllGenuine(c, s)
    ensures AllGenuine(c, WriteAfter(c, s, step))
  {
    if step.FinishRebuild? {
      RebuiltIsGenuine(c, s.rebuilds[step.rebuild]);
    }
    var t := WriteAfter(c, s, step);
    assert StoreGenuine(c, t.store);
    assert SendsGenuine(c, t.handoffs);
  }

  lemma {:induction false} GenuineRun(c: Config, s: State, run: seq<Step>)
    requires c.Valid() && IsRun(c, s, run) && AllGenuine(c, s)
    ensures AllGenuine(c, Final(c, s, run))
    decreases |run|
  {
    if run != [] {
      var t := After(c, s, run[0]);
      match run[0] {
        case Map(m) => assert AllGenuine(c, MapAfter(s, m));
        case Flushing(f) => assert AllGenuine(c, FlushAfter(c, s, f));
        case Sending(d) => GenuineSend(c, s, d);
        case Writing(w) => GenuineWrite(c, s, w);
      }
      GenuineRun(c, t, run[1..]);
    }
  }

  /** In every reachable state, whatever was created, moved, lost and rebuilt: what is stored, what is in
      flight, and what a rebuild has collected. */
  lemma RunsStoreOnlyGenuinePieces(c: Config, run: seq<Step>)
    requires c.Valid() && IsRun(c, START, run)
    ensures var s := Final(c, START, run);
            && (forall p | p in s.store :: IsShard(c, p.loc, s.store[p]))
            && (forall h | h in s.handoffs && s.handoffs[h].data.Some? ::
                  IsShard(c, s.handoffs[h].loc, s.handoffs[h].data.value))
            && (forall r, i: nat | r in s.rebuilds && i < |s.rebuilds[r].slots| && s.rebuilds[r].slots[i].Some? ::
                  IsShard(c, Loc(s.rebuilds[r].loc.key, i), s.rebuilds[r].slots[i].value))
  {
    GenuineRun(c, START, run);
    hide IsShard;
    forall loc, data | IsGenuine(c, loc, data) ensures IsShard(c, loc, data) {
      GenuineIsShard(c, loc, data);
    }
  }

  /** The bytes are the shard of the value under the key that the index names. */
  ghost predicate IsShard(c: Config, loc: Loc, data: Bytes)
    requires c.Valid()
  {
    var all := Pieces(c.codec, c.value(loc.key));
    loc.index < c.n == |all| && data == all[loc.index]
  }

  lemma GenuineIsShard(c: Config, loc: Loc, data: Bytes)
    requires c.Valid() && IsGenuine(c, loc, data)
    ensures IsShard(c, loc, data)
  {
    EncodedIsGenuine(c, loc.key);
    assert loc == Loc(loc.key, loc.index);
  }
}
