/** The cluster map: which nodes hold the pieces of a key, and what losing some of them costs. */
module ClusterMap {
  import opened Types
  import opened Codec
  import R = Rebuild

  datatype Change = Add(uri: Uri) | Remove(uri: Uri) | Set

  /**
   * Asura is a parameter of the model: a table of weighted node ids, and for a key a choice of
   * distinct ids, as many as asked for or as there are, and none from an empty table.
   */
  datatype Asura<!T(!new)> = Asura(
    empty: T,
    add: (T, nat, real) -> T,
    remove: (T, nat) -> T,
    ids: T -> set<nat>,
    candidates: (T, Key, nat) -> Option<seq<nat>>)
  {
    ghost predicate Valid() {
      && ids(empty) == {}
      && (forall t, id, cap :: ids(add(t, id, cap)) == ids(t) + {id})
      && (forall t, id :: ids(remove(t, id)) == ids(t) - {id})
      && (forall t, key, n | 1 <= n :: Chooses(t, candidates(t, key, n), n))
    }

    ghost predicate Chooses(t: T, chosen: Option<seq<nat>>, n: nat) {
      match chosen
      case None => ids(t) == {}
      case Some(s) =>
        && ids(t) != {}
        && Distinct(s)
        && (forall i | 0 <= i < |s| :: s[i] in ids(t))
        && |s| == if n <= |ids(t)| then n else |ids(t)|
    }
  }

  // ----- the contract can be met: choose the smallest ids -----

  lemma {:induction false} Least(s: set<nat>) returns (m: nat)
    requires s != {}
    ensures m in s && forall y | y in s :: m <= y
  {
    m :| m in s;
    var rest := s - {m};
    assert forall y | y in s :: y == m || y in rest;
    if rest != {} {
      var z := Least(rest);
      m := if m <= z then m else z;
    }
  }

  lemma HasLeast(s: set<nat>)
    requires s != {}
    ensures exists x :: x in s && forall y | y in s :: x <= y
  {
    var m := Least(s);
  }

  ghost function Smallest(s: set<nat>, n: nat): (r: seq<nat>)
    ensures Distinct(r) && (forall x | x in r :: x in s) && |r| == if n <= |s| then n else |s|
  {
    if s == {} || n == 0 then []
    else
      HasLeast(s);
      var x :| x in s && forall y | y in s :: x <= y;
      assert |s - {x}| == |s| - 1;
      [x] + Smallest(s - {x}, n - 1)
  }

  lemma ContractCanBeMet() returns (a: Asura<set<nat>>)
    ensures a.Valid()
  {
    a := Asura({}, (t: set<nat>, id: nat, cap: real) => t + {id}, (t: set<nat>, id: nat) => t - {id},
               (t: set<nat>) => t,
               (t: set<nat>, key: Key, n: nat) => if t == {} then None else Some(Smallest(t, n)));
  }

  datatype ClusterMap<T> = ClusterMap(version: nat, lastChange: Change, table: T, idmap: map<nat, Uri>)

  /** The addresses of all members, gathered one id at a time. */
  method Members<T>(m: ClusterMap<T>) returns (out: set<Uri>)
    ensures out == m.idmap.Values
  {
    out := {};
    var left := m.idmap.Keys;
    while left != {}
      invariant left <= m.idmap.Keys
      invariant out == set id | id in m.idmap.Keys - left :: m.idmap[id]
    {
      var id :| id in left;
      out := out + {m.idmap[id]};
      left := left - {id};
    }
  }

  /** Every id the table can yield has an address. */
  ghost predicate Resolves<T(!new)>(a: Asura<T>, m: ClusterMap<T>) {
    a.ids(m.table) <= m.idmap.Keys
  }

  /** Index `i` goes to candidate `i` modulo their number. */
  ghost function Holders<T(!new)>(a: Asura<T>, m: ClusterMap<T>, key: Key, n: nat): seq<Option<Uri>>
    requires a.Valid() && Resolves(a, m) && 1 <= n
  {
    var chosen := a.candidates(m.table, key, n);
    assert a.Chooses(m.table, chosen, n);
    if chosen.None? then seq(n, _ => None)
    else
      NotEmpty(a.ids(m.table));
      seq(n, i requires 0 <= i < n => Some(m.idmap[chosen.value[i % |chosen.value|]]))
  }

  lemma NotEmpty(s: set<nat>)
    ensures s != {} ==> 1 <= |s|
  {
  }

  method ComputeHolders<T(!new)>(a: Asura<T>, m: ClusterMap<T>, key: Key, n: nat)
    returns (out: seq<Option<Uri>>)
    requires a.Valid() && Resolves(a, m) && 1 <= n
    ensures out == Holders(a, m, key, n) && |out| == n
    ensures match a.candidates(m.table, key, n)
      case None => forall i | 0 <= i < n :: out[i] == None
      case Some(ids) => 0 < |ids| && forall i | 0 <= i < n :: out[i] == Some(m.idmap[ids[i % |ids|]])
  {
    out := [];
    var chosen := a.candidates(m.table, key, n);
    assert a.Chooses(m.table, chosen, n);
    match chosen
    case Some(ids) =>
      var size := |ids|;
      NotEmpty(a.ids(m.table));
      for i := 0 to n
        invariant |out| == i
        invariant forall j | 0 <= j < i :: out[j] == Some(m.idmap[ids[j % size]])
      {
        out := out + [Some(m.idmap[ids[i % size]])];
      }
    case None =>
      for i := 0 to n
        invariant out == seq(i, _ => None)
      {
        out := out + [None];
      }
  }

  // ----- losing holders -----

  /** Index `i` is held by address `i` modulo their number. */
  ghost predicate Wraps(uris: seq<Uri>, holders: seq<Option<Uri>>) {
    |uris| > 0 && forall i | 0 <= i < |holders| :: holders[i] == Some(uris[i % |uris|])
  }

  /** The holders of a key are distinct addresses, wrapped around. */
  lemma HoldersWrap<T(!new)>(a: Asura<T>, m: ClusterMap<T>, key: Key, n: nat) returns (uris: seq<Uri>)
    requires a.Valid() && Resolves(a, m) && 1 <= n && a.ids(m.table) != {}
    requires forall x, y | x in m.idmap && y in m.idmap && m.idmap[x] == m.idmap[y] :: x == y
    ensures Distinct(uris) && |uris| == if n <= |a.ids(m.table)| then n else |a.ids(m.table)|
    ensures |Holders(a, m, key, n)| == n && Wraps(uris, Holders(a, m, key, n))
    ensures var chosen := a.candidates(m.table, key, n);
            && chosen.Some? && |chosen.value| == |uris|
            && forall i | 0 <= i < |uris| :: m.idmap[chosen.value[i]] == uris[i]
  {
    var chosen := a.candidates(m.table, key, n);
    assert a.Chooses(m.table, chosen, n);
    NotEmpty(a.ids(m.table));
    var ids := chosen.value;
    uris := seq(|ids|, i requires 0 <= i < |ids| => m.idmap[ids[i]]);
  }

  /** The indices below `n` whose place among `m` candidates is in `places`. */
  function At(n: nat, m: nat, places: set<nat>): set<nat>
    requires 0 < m
  {
    set i: nat | i < n && i % m in places
  }

  function Below(places: set<nat>, r: nat): set<nat> {
    set j | j in places && j < r
  }

  lemma NextDivMod(n: nat, m: nat)
    requires 0 < m
    ensures n % m + 1 < m ==> (n + 1) / m == n / m && (n + 1) % m == n % m + 1
    ensures n % m + 1 == m ==> (n + 1) / m == n / m + 1 && (n + 1) % m == 0
  {
    var q, r := n / m, n % m;
    assert n == q * m + r;
    if r + 1 < m {
      DivModIs(n + 1, m, q, r + 1);
    } else {
      assert n + 1 == (q + 1) * m;
      DivModIs(n + 1, m, q + 1, 0);
    }
  }

  /** Candidates in `places` hold `n / m` indices each, and one more if among the first `n % m`. */
  lemma {:induction false} HeldCount(n: nat, m: nat, places: set<nat>)
    requires 0 < m && forall j | j in places :: j < m
    ensures |At(n, m, places)| == (n / m) * |places| + |Below(places, n % m)|
  {
    if n == 0 {
      assert At(0, m, places) == {} && Below(places, 0) == {};
      DivModIs(0, m, 0, 0);
    } else {
      var p := n - 1;
      HeldCount(p, m, places);
      NextDivMod(p, m);
      OneMoreIndex(p, m, places);
      OneMoreBelow(places, p % m);
      if p % m + 1 == m {
        assert Below(places, m) == places;
        assert Below(places, 0) == {};
        assert (p / m + 1) * |places| == (p / m) * |places| + |places|;
      }
    }
  }

  lemma OneMoreIndex(p: nat, m: nat, places: set<nat>)
    requires 0 < m
    ensures |At(p + 1, m, places)| == |At(p, m, places)| + (if p % m in places then 1 else 0)
  {
    assert At(p + 1, m, places) == At(p, m, places) + (if p % m in places then {p} else {});
  }

  lemma OneMoreBelow(places: set<nat>, r: nat)
    ensures |Below(places, r + 1)| == |Below(places, r)| + (if r in places then 1 else 0)
  {
    assert Below(places, r + 1) == Below(places, r) + (if r in places then {r} else {});
  }

  /** The most indices that `f` of `m` candidates can hold between them. */
  function WorstLoss(n: nat, m: nat, f: nat): nat
    requires 0 < m
  {
    (n / m) * f + if f <= n % m then f else n % m
  }

  lemma {:induction false} BelowAtMost(places: set<nat>, r: nat)
    ensures |Below(places, r)| <= |places| && |Below(places, r)| <= r
  {
    assert places == Below(places, r) + (places - Below(places, r));
    if r > 0 {
      BelowAtMost(places, r - 1);
      OneMoreBelow(places, r - 1);
    } else {
      assert Below(places, 0) == {};
    }
  }

  function FirstPlaces(f: nat): (s: set<nat>)
    ensures |s| == f && forall j: nat :: j in s <==> j < f
  {
    if f == 0 then {} else FirstPlaces(f - 1) + {f - 1}
  }

  lemma FirstPlacesLoseMost(n: nat, m: nat, f: nat)
    requires 0 < m && f <= m
    ensures |At(n, m, FirstPlaces(f))| == WorstLoss(n, m, f)
  {
    HeldCount(n, m, FirstPlaces(f));
    assert Below(FirstPlaces(f), n % m) == FirstPlaces(if f <= n % m then f else n % m);
  }

  /** The indices still held when the candidates at `places` are lost. */
  function Surviving(n: nat, m: nat, places: set<nat>): set<nat>
    requires 0 < m
  {
    set i: nat | i < n && i % m !in places
  }

  function Upto(n: nat): (s: set<nat>)
    ensures |s| == n && forall j: nat :: j in s <==> j < n
  {
    FirstPlaces(n)
  }

  lemma SurvivingCount(n: nat, m: nat, places: set<nat>)
    requires 0 < m
    ensures |Surviving(n, m, places)| == n - |At(n, m, places)|
  {
    assert Surviving(n, m, places) + At(n, m, places) == Upto(n);
    assert Surviving(n, m, places) * At(n, m, places) == {};
  }

  ghost predicate AnyLossLeaves(n: nat, k: nat, m: nat, f: nat)
    requires 0 < m
  {
    forall places: set<nat> | |places| == f && (forall j | j in places :: j < m) ::
      k <= |Surviving(n, m, places)|
  }

  /** Whichever `f` of the `m` distinct holders are lost, at least `k` of the `n` pieces survive, if and
      only if the heaviest `f` hold at most `n - k`. */
  lemma TolerancesIff(n: nat, k: nat, m: nat, f: nat)
    requires 0 < m && f <= m && k <= n
    ensures AnyLossLeaves(n, k, m, f) <==> WorstLoss(n, m, f) <= n - k
  {
    FirstPlacesLoseMost(n, m, f);
    SurvivingCount(n, m, FirstPlaces(f));
    forall places: set<nat> | |places| == f && (forall j | j in places :: j < m)
      ensures n - WorstLoss(n, m, f) <= |Surviving(n, m, places)|
    {
      HeldCount(n, m, places);
      BelowAtMost(places, n % m);
      SurvivingCount(n, m, places);
    }
  }

  lemma CeilingOf(n: nat, m: nat)
    requires 0 < m
    ensures (n + m - 1) / m == n / m + (if n % m == 0 then 0 else 1)
  {
    var q, r := n / m, n % m;
    assert n == q * m + r;
    if r == 0 {
      DivModIs(n + m - 1, m, q, m - 1);
    } else {
      assert (q + 1) * m == q * m + m;
      DivModIs(n + m - 1, m, q + 1, r - 1);
    }
  }

  lemma LossBelowCeiling(n: nat, m: nat, f: nat)
    requires 0 < m
    ensures WorstLoss(n, m, f) <= f * ((n + m - 1) / m)
  {
    CeilingOf(n, m);
    var q := n / m;
    assert f * (q + 1) == q * f + f;
  }

  /** In particular, with at most `ceil(n / m)` pieces on each holder. */
  lemma CeilingSuffices(n: nat, k: nat, m: nat, f: nat)
    requires 0 < m && f <= m && k <= n && f * ((n + m - 1) / m) <= n - k
    ensures AnyLossLeaves(n, k, m, f)
  {
    LossBelowCeiling(n, m, f);
    TolerancesIff(n, k, m, f);
  }

  /** What the nodes that are left store, when every holder had stored its own pieces. */
  ghost predicate StoresAfterLoss(
    stores: R.Stores, uris: seq<Uri>, places: set<nat>, n: nat, all: seq<Bytes>)
  {
    && 0 < |uris| && |all| == n
    && (forall u | u in stores :: exists j :: 0 <= j < |uris| && j !in places && uris[j] == u)
    && (forall j | 0 <= j < |uris| && j !in places :: uris[j] in stores)
    && (forall u, p | u in stores && p in stores[u] :: p.0 < n && uris[p.0 % |uris|] == u && p.1 == all[p.0])
    && (forall i: nat | i < n && i % |uris| !in places :: (i, all[i]) in stores[uris[i % |uris|]])
  }

  lemma SuppliedAfterLoss(stores: R.Stores, uris: seq<Uri>, places: set<nat>, n: nat, all: seq<Bytes>)
    requires Distinct(uris) && StoresAfterLoss(stores, uris, places, n, all)
    ensures R.Supplied(stores, stores.Keys) == Surviving(n, |uris|, places)
  {
    forall i | i in R.Supplied(stores, stores.Keys) ensures i in Surviving(n, |uris|, places) {
      var u, p :| u in stores && p in stores[u] && p.0 == i;
      var j :| 0 <= j < |uris| && j !in places && uris[j] == u;
      assert uris[i % |uris|] == u;
    }
    forall i | i in Surviving(n, |uris|, places) ensures i in R.Supplied(stores, stores.Keys) {
      var u := uris[i % |uris|];
      assert u in stores && (i, all[i]) in stores[u];
    }
  }

  /** After the loss a rebuild that reaches the other holders succeeds exactly if `k` pieces survive. */
  lemma RebuildAfterLoss(
    c: Codec, d: seq<Bytes>, stores: R.Stores, uris: seq<Uri>, places: set<nat>,
    replies: seq<R.Reply>, withParity: bool)
    requires Distinct(uris) && StoresAfterLoss(stores, uris, places, c.n, c.encode(d))
    requires R.RepliesFrom(stores, stores.Keys, replies)
    ensures R.Outcome(c, d, replies, replies, withParity, true).Ok? <==>
            c.k <= |Surviving(c.n, |uris|, places)|
  {
    R.RepliesSupply(stores, stores.Keys, replies);
    SuppliedAfterLoss(stores, uris, places, c.n, c.encode(d));
  }
}
