/** Topologies made to order: every pair of GPUs wired as a given function says. */
module GpuWiring {
  import opened Wrappers
  import opened Sequences
  import opened Hardware
  import opened GpuScores

  /** How a snapshot spells a relationship. */
  function Text(r: Relationship): (text: string)
    ensures ParseRelationship(text) == r
  {
    match r
    case NVLINK => "NV"
    case PIX => "PIX"
    case PXB => "PXB"
    case PHB => "PHB"
    case NODE => "NODE"
    case SYS => "SYS"
    case NETWORK => "NET"
    case UNKNOWN => "UNKNOWN"
  }

  function Wire(a: int, b: int, link: (int, int) -> Relationship): TopologyEdge {
    TopologyEdge(a, b, Text(link(a, b)), false, None)
  }

  function WiresFrom(a: int, others: seq<int>, link: (int, int) -> Relationship): seq<TopologyEdge> {
    if others == [] then [] else [Wire(a, others[0], link)] + WiresFrom(a, others[1..], link)
  }

  /** One edge for every pair, lower index first. */
  function Wires(ids: seq<int>, link: (int, int) -> Relationship): seq<TopologyEdge> {
    if ids == [] then [] else WiresFrom(ids[0], ids[1..], link) + Wires(ids[1..], link)
  }

  function Wired(gpus: seq<GPUDevice>, ids: seq<int>, link: (int, int) -> Relationship): HardwareSnapshot {
    HardwareSnapshot(gpus, GPUTopology(Wires(ids, link), true))
  }

  lemma {:induction false} FindEdgeConcat(e: seq<TopologyEdge>, f: seq<TopologyEdge>, a: int, b: int)
    ensures FindEdge(e + f, a, b) == if FindEdge(e, a, b).Some? then FindEdge(e, a, b) else FindEdge(f, a, b)
  {
    if e == [] {
      assert e + f == f;
    } else {
      assert (e + f)[1..] == e[1..] + f;
      FindEdgeConcat(e[1..], f, a, b);
    }
  }

  lemma {:induction false} FindInRow(x: int, others: seq<int>, link: (int, int) -> Relationship, a: int, b: int)
    ensures FindEdge(WiresFrom(x, others, link), a, b)
         == if a == x && b in others then Some(Wire(a, b, link)) else None
  {
    if others != [] {
      FindInRow(x, others[1..], link, a, b);
    }
  }

  lemma {:induction false} FindWire(ids: seq<int>, link: (int, int) -> Relationship, a: int, b: int)
    requires Increasing(ids) && a in ids && b in ids && a < b
    ensures FindEdge(Wires(ids, link), a, b) == Some(Wire(a, b, link))
  {
    FindEdgeConcat(WiresFrom(ids[0], ids[1..], link), Wires(ids[1..], link), a, b);
    FindInRow(ids[0], ids[1..], link, a, b);
    if a != ids[0] {
      FindWire(ids[1..], link, a, b);
    }
  }

  /** On one machine a pair scores what its wire is worth. */
  lemma {:induction false} WiredScore(
    gpus: seq<GPUDevice>, ids: seq<int>, link: (int, int) -> Relationship, a: int, b: int)
    requires Increasing(ids) && a in ids && b in ids && a != b
    requires LookupNode(gpus, a) == LookupNode(gpus, b)
    ensures PairScore(Wired(gpus, ids, link), a, b) == RelationshipScore(if a < b then link(a, b) else link(b, a))
  {
    if a < b {
      FindWire(ids, link, a, b);
    } else {
      FindWire(ids, link, b, a);
    }
  }

  lemma {:induction false} RowLinkCounts(a: int, others: seq<int>, link: (int, int) -> Relationship, e: TopologyEdge)
    requires e in WiresFrom(a, others, link)
    ensures e.nvlinkLinkCount == None
  {
    if e != Wire(a, others[0], link) {
      RowLinkCounts(a, others[1..], link, e);
    }
  }

  lemma {:induction false} WireLinkCounts(ids: seq<int>, link: (int, int) -> Relationship, e: TopologyEdge)
    requires e in Wires(ids, link)
    ensures e.nvlinkLinkCount == None
  {
    if e in WiresFrom(ids[0], ids[1..], link) {
      RowLinkCounts(ids[0], ids[1..], link, e);
    } else {
      WireLinkCounts(ids[1..], link, e);
    }
  }

  lemma {:induction false} WiredLinkCounts(gpus: seq<GPUDevice>, ids: seq<int>, link: (int, int) -> Relationship)
    ensures Wired(gpus, ids, link).LinkCountsNonNegative()
  {
    forall e | e in Wires(ids, link)
      ensures e.nvlinkLinkCount == None
    {
      WireLinkCounts(ids, link, e);
    }
  }

  // ------------------------------------------------------------------ a cluster and a bait

  const BASE := 1
  const GAP := 19
  const BAIT := 29

  predicate Baited(a: int, b: int, p: int, q: int) {
    (a == p && b == q) || (a == q && b == p)
  }

  /** The GPUs of `cluster` share a host bridge, `p` and `q` a switch; nothing is known of the rest. */
  function Clustered(cluster: seq<int>, bait: Option<(int, int)>): (int, int) -> Relationship {
    (a, b) =>
      if bait.Some? && Baited(a, b, bait.value.0, bait.value.1) then PXB
      else if a in cluster && b in cluster then PHB
      else UNKNOWN
  }

  /** What a pair scores beyond the least. */
  function Extra(cluster: seq<int>, bait: Option<(int, int)>, a: int, b: int): nat {
    if bait.Some? && Baited(a, b, bait.value.0, bait.value.1) then BAIT
    else if a in cluster && b in cluster then GAP
    else 0
  }

  lemma {:induction false} ClusteredScore(
    gpus: seq<GPUDevice>, ids: seq<int>, cluster: seq<int>, bait: Option<(int, int)>, a: int, b: int)
    requires Increasing(ids) && a in ids && b in ids && a != b
    requires LookupNode(gpus, a) == LookupNode(gpus, b)
    ensures PairScore(Wired(gpus, ids, Clustered(cluster, bait)), a, b) == BASE + Extra(cluster, bait, a, b)
  {
    WiredScore(gpus, ids, Clustered(cluster, bait), a, b);
  }

  /** `len([x for x in s if x in cluster])`. */
  function Overlap(s: seq<int>, cluster: seq<int>): (n: nat)
    ensures n <= |s|
  {
    if s == [] then 0 else (if s[0] in cluster then 1 else 0) + Overlap(s[1..], cluster)
  }

  /** The number of pairs of `n` things. */
  function Pairs(n: nat): nat {
    if n == 0 then 0 else n - 1 + Pairs(n - 1)
  }

  /** The group holds both ends of the bait. */
  predicate Bites(s: seq<int>, bait: Option<(int, int)>) {
    bait.Some? && bait.value.0 in s && bait.value.1 in s
  }

  /** The bait joins a GPU of the cluster with one outside. */
  predicate Tempting(cluster: seq<int>, bait: Option<(int, int)>) {
    bait.Some? ==> bait.value.0 in cluster && bait.value.1 !in cluster
  }

  /** Pairs on one machine score the least plus their extra. */
  ghost predicate Scores(snap: HardwareSnapshot, ids: seq<int>, cluster: seq<int>, bait: Option<(int, int)>) {
    && Tempting(cluster, bait)
    && forall a, b :: a in ids && b in ids && a != b && snap.NodeOf(a) == snap.NodeOf(b) ==>
         PairScore(snap, a, b) == BASE + Extra(cluster, bait, a, b)
  }

  lemma {:induction false} ClusteredScores(
    gpus: seq<GPUDevice>, ids: seq<int>, cluster: seq<int>, bait: Option<(int, int)>)
    requires Increasing(ids) && Tempting(cluster, bait)
    ensures Scores(Wired(gpus, ids, Clustered(cluster, bait)), ids, cluster, bait)
  {
    var snap := Wired(gpus, ids, Clustered(cluster, bait));
    forall a, b | a in ids && b in ids && a != b && snap.NodeOf(a) == snap.NodeOf(b)
      ensures PairScore(snap, a, b) == BASE + Extra(cluster, bait, a, b)
    {
      ClusteredScore(gpus, ids, cluster, bait, a, b);
    }
  }

  predicate SameMachine(snap: HardwareSnapshot, s: seq<int>, c: int) {
    forall x :: x in s ==> snap.NodeOf(x) == snap.NodeOf(c)
  }

  /** The other end of the bait, if `c` is one. */
  predicate Lured(c: int, s: seq<int>, bait: Option<(int, int)>) {
    bait.Some? && ((c == bait.value.0 && bait.value.1 in s) || (c == bait.value.1 && bait.value.0 in s))
  }

  lemma {:induction false} ClusterAffinity(
    snap: HardwareSnapshot, ids: seq<int>, cluster: seq<int>, bait: Option<(int, int)>, c: int, s: seq<int>)
    requires Scores(snap, ids, cluster, bait) && c in ids && Within(s, ids)
    requires Distinct(s) && c !in s && SameMachine(snap, s, c)
    ensures Affinity(snap, c, s)
         == |s| + (if c in cluster then GAP * Overlap(s, cluster) else 0) + (if Lured(c, s, bait) then BAIT else 0)
  {
    if s != [] {
      var x, rest := s[0], s[1..];
      assert s == [x] + rest && x in s && x !in rest;
      ClusterAffinity(snap, ids, cluster, bait, c, rest);
      assert PairScore(snap, c, x) == BASE + Extra(cluster, bait, c, x);
    }
  }

  /** All listed GPUs sit on one machine. */
  predicate OnOneMachine(snap: HardwareSnapshot, ids: seq<int>) {
    forall a, b :: a in ids && b in ids ==> snap.NodeOf(a) == snap.NodeOf(b)
  }

  lemma {:induction false} SameMachineTail(snap: HardwareSnapshot, s: seq<int>)
    requires s != [] && OnOneMachine(snap, s)
    ensures SameMachine(snap, s[1..], s[0]) && OnOneMachine(snap, s[1..])
  {
    var x := s[0];
    assert x in s && forall y :: y in s[1..] ==> y in s;
  }

  lemma {:induction false} ClusterEnds(
    snap: HardwareSnapshot, ids: seq<int>, cluster: seq<int>, bait: Option<(int, int)>)
    requires Scores(snap, ids, cluster, bait)
    ensures Tempting(cluster, bait)
  {
  }

  /** The score of `n` GPUs on one machine, `c` of them of the cluster. */
  function Worth(n: nat, c: nat, bites: bool): nat {
    Pairs(n) + GAP * Pairs(c) + if bites then BAIT else 0
  }

  lemma {:induction false} WorthMore(n: nat, c: nat, bites: bool, member: bool, lured: bool)
    requires !(bites && lured)
    ensures Worth(n + 1, c + if member then 1 else 0, bites || lured)
         == Worth(n, c, bites) + n + (if member then GAP * c else 0) + if lured then BAIT else 0
  {
  }

  lemma {:induction false} BitesFirst(cluster: seq<int>, bait: Option<(int, int)>, x: int, rest: seq<int>)
    requires Tempting(cluster, bait) && x !in rest
    ensures Bites([x] + rest, bait) <==> Bites(rest, bait) || Lured(x, rest, bait)
    ensures !(Bites(rest, bait) && Lured(x, rest, bait))
  {
  }

  lemma {:induction false} ClusterPairSum(
    snap: HardwareSnapshot, ids: seq<int>, cluster: seq<int>, bait: Option<(int, int)>, s: seq<int>)
    requires Scores(snap, ids, cluster, bait) && Within(s, ids) && Distinct(s)
    requires OnOneMachine(snap, s)
    ensures PairSum(snap, s) == Worth(|s|, Overlap(s, cluster), Bites(s, bait))
  {
    if s != [] {
      hide Worth;
      var x, rest := s[0], s[1..];
      assert s == [x] + rest && x in s && x !in rest;
      SameMachineTail(snap, s);
      ClusterEnds(snap, ids, cluster, bait);
      BitesFirst(cluster, bait, x, rest);
      hide Scores, SameMachine, OnOneMachine, Tempting, Bites, Lured, PairScore, Affinity;
      var c := Overlap(rest, cluster);
      assert Overlap(s, cluster) == c + if x in cluster then 1 else 0;
      assert PairSum(snap, s) == Affinity(snap, x, rest) + PairSum(snap, rest);
      hide PairSum, Overlap;
      ClusterAffinity(snap, ids, cluster, bait, x, rest);
      ClusterPairSum(snap, ids, cluster, bait, rest);
      WorthMore(|rest|, c, Bites(rest, bait), x in cluster, Lured(x, rest, bait));
    }
  }
}
