/** The failure detector: who is probed by whom, and when a suspect is accused. */
module FailureDetector {
  import opened Types

  const K: nat := 3

  function Min(a: nat, b: nat): nat {
    if a <= b then a else b
  }

  /** `Min(|s|, k)` members of a set. The order in which they are lined up is arbitrary. */
  method ChooseUniqueK<T(==)>(s: set<T>, k: nat) returns (out: set<T>)
    ensures out <= s && |out| == Min(|s|, k) == if |s| <= k then |s| else k
  {
    out := {};
    var m := Min(|s|, k);
    var v: seq<T>, left := [], s;
    while left != {}
      invariant left <= s && |v| + |left| == |s|
      invariant forall i | 0 <= i < |v| :: v[i] in s - left
      invariant forall i, j | 0 <= i < j < |v| :: v[i] != v[j]
    {
      var x :| x in left;
      left := left - {x};
      v := v + [x];
    }
    for t := 0 to m
      invariant |v| == |s| - t && |out| == t && out <= s
      invariant forall i | 0 <= i < |v| :: v[i] in s - out
      invariant forall i, j | 0 <= i < j < |v| :: v[i] != v[j]
    {
      var x := v[|v| - 1];
      v := v[..|v| - 1];
      out := out + {x};
    }
  }

  /** Which pings get through: to the suspect itself, and to the suspect by way of a proxy. */
  datatype Network = Network(direct: Uri -> bool, via: (Uri, Uri) -> bool)

  predicate Accused(net: Network, suspect: Uri, proxies: set<Uri>) {
    !net.direct(suspect) && forall p | p in proxies :: !net.via(p, suspect)
  }

  /** Pings the suspect, and then, if need be, has the proxies ping it until one gets through. */
  method Probe(net: Network, suspect: Uri, proxies: set<Uri>) returns (accused: bool)
    ensures accused <==> Accused(net, suspect, proxies)
  {
    accused := false;
    var ok1 := net.direct(suspect);
    if !ok1 {
      var ok2, left := false, proxies;
      while left != {}
        invariant left <= proxies && !ok2
        invariant forall p | p in proxies - left :: !net.via(p, suspect)
        decreases left
      {
        var proxy :| proxy in left;
        left := left - {proxy};
        if net.via(proxy, suspect) {
          ok2 := true;
          break;
        }
      }
      if !ok2 {
        accused := true;
      }
    }
  }

  /** The proxies of a suspect: as many other members as there are, up to `K`. */
  predicate Drawn(cluster: set<Uri>, suspect: Uri, proxies: set<Uri>) {
    proxies <= cluster - {suspect} && |proxies| == Min(|cluster - {suspect}|, K)
  }

  lemma IsDrawn(cluster: set<Uri>, suspect: Uri, proxies: set<Uri>)
    requires proxies <= cluster - {suspect} && |proxies| == Min(|cluster - {suspect}|, K)
    ensures Drawn(cluster, suspect, proxies)
  {
  }

  function Culprits(net: Network, proxies: map<Uri, set<Uri>>): set<Uri> {
    set s | s in proxies && Accused(net, s, proxies[s])
  }

  lemma DrawnMeans(cluster: set<Uri>, suspect: Uri, proxies: set<Uri>)
    requires Drawn(cluster, suspect, proxies)
    ensures suspect !in proxies && proxies <= cluster && |proxies| <= 3
    ensures |proxies| < 3 ==> proxies == cluster - {suspect}
  {
    SubsetSize(proxies, cluster - {suspect});
  }

  lemma CulpritsMean(net: Network, proxies: map<Uri, set<Uri>>)
    ensures forall s :: s in Culprits(net, proxies) <==>
              s in proxies && !net.direct(s) && forall p | p in proxies[s] :: !net.via(p, s)
  {
  }

  lemma NoCulprits(net: Network)
    ensures Culprits(net, map[]) == {}
  {
  }

  lemma NextCulprit(net: Network, proxies: map<Uri, set<Uri>>, suspect: Uri, chosen: set<Uri>)
    requires suspect !in proxies
    ensures Culprits(net, proxies[suspect := chosen]) ==
            Culprits(net, proxies) + if Accused(net, suspect, chosen) then {suspect} else {}
  {
  }

  class Queue {
    var cluster: set<Uri>
    var queue: set<Uri>

    constructor ()
      ensures cluster == {} && queue == {}
    {
      cluster, queue := {}, {};
    }

    method QueueSuspect(suspect: Uri)
      modifies this`queue
      ensures queue == old(queue) + {suspect}
    {
      queue := queue + {suspect};
    }

    method SetNewCluster(cluster: set<Uri>)
      modifies this`cluster
      ensures this.cluster == cluster
    {
      this.cluster := cluster;
    }

    /** Empties the queue and probes every suspect once, each with proxies of its own. The suspects
        who are not reached either way are accused. */
    method RunOnce(net: Network) returns (accused: set<Uri>, proxies: map<Uri, set<Uri>>)
      modifies this`queue
      ensures queue == {}
      ensures proxies.Keys == old(queue)
      ensures forall s | s in proxies :: Drawn(cluster, s, proxies[s])
      ensures forall s | s in proxies :: s !in proxies[s] && proxies[s] <= cluster && |proxies[s]| <= 3
      ensures forall s | s in proxies :: |proxies[s]| < 3 ==> proxies[s] == cluster - {s}
      ensures forall s :: s in accused <==>
                s in old(queue) && !net.direct(s) && forall p | p in proxies[s] :: !net.via(p, s)
    {
      hide Culprits, Accused, Drawn, Min;
      var left := queue;
      queue := {};
      var all := cluster;
      accused, proxies := {}, map[];
      NoCulprits(net);
      while left != {}
        invariant left <= old(queue) && queue == {} && all == cluster
        invariant proxies.Keys == old(queue) - left
        invariant forall s | s in proxies :: Drawn(cluster, s, proxies[s])
        invariant accused == Culprits(net, proxies)
      {
        var suspect :| suspect in left;
        left := left - {suspect};
        var removed := suspect in all;
        all := all - {suspect};
        assert all == cluster - {suspect};
        var chosen := ChooseUniqueK(all, K);
        IsDrawn(cluster, suspect, chosen);
        if removed {
          all := all + {suspect};
        }
        NextCulprit(net, proxies, suspect, chosen);
        proxies := proxies[suspect := chosen];
        var guilty := Probe(net, suspect, chosen);
        if guilty {
          accused := accused + {suspect};
        }
      }
      forall s | s in proxies
        ensures s !in proxies[s] && proxies[s] <= cluster && |proxies[s]| <= 3
        ensures |proxies[s]| < 3 ==> proxies[s] == cluster - {s}
      {
        DrawnMeans(cluster, s, proxies[s]);
      }
      CulpritsMean(net, proxies);
    }
  }

  // ----- what a probe can and cannot miss -----

  ghost function Subset<T(!new)>(s: set<T>, m: nat): (r: set<T>)
    requires m <= |s|
    ensures r <= s && |r| == m
  {
    if m == 0 then {}
    else
      var x :| x in s;
      Subset(s - {x}, m - 1) + {x}
  }

  /** The other members through which the suspect cannot be reached. */
  function Cut(net: Network, cluster: set<Uri>, suspect: Uri): set<Uri> {
    set p | p in cluster && p != suspect && !net.via(p, suspect)
  }

  /** A suspect is safe from accusation whichever proxies are drawn if and only if it answers directly, or
      fewer of the other members are cut off from it than are asked. With no other member, a single
      unanswered ping accuses. */
  lemma NeverAccusedIff(net: Network, cluster: set<Uri>, suspect: Uri)
    ensures (forall proxies | Drawn(cluster, suspect, proxies) :: !Accused(net, suspect, proxies)) <==>
            || net.direct(suspect)
            || (|Cut(net, cluster, suspect)| < 3 && Cut(net, cluster, suspect) != cluster - {suspect})
  {
    var others, cut := cluster - {suspect}, Cut(net, cluster, suspect);
    var m := Min(|others|, K);
    SubsetSize(cut, others);
    if !net.direct(suspect) && m <= |cut| {
      var proxies := Subset(cut, m);
      assert Drawn(cluster, suspect, proxies) && Accused(net, suspect, proxies);
    }
    forall proxies | Drawn(cluster, suspect, proxies) && Accused(net, suspect, proxies)
      ensures !net.direct(suspect) && m <= |cut|
    {
      SubsetSize(proxies, cut);
    }
  }
}
