/** Hardware snapshot: GPUs, the machines they sit in, and their pairwise interconnect. */
module Hardware {
  import opened Wrappers

  datatype Relationship = NVLINK | PIX | PXB | PHB | NODE | SYS | NETWORK | UNKNOWN

  /** `TopologyRelationship(text)`; a string outside the vocabulary counts as UNKNOWN. */
  function ParseRelationship(text: string): Relationship {
    if text == "NV" then NVLINK
    else if text == "PIX" then PIX
    else if text == "PXB" then PXB
    else if text == "PHB" then PHB
    else if text == "NODE" then NODE
    else if text == "SYS" then SYS
    else if text == "NET" then NETWORK
    else UNKNOWN
  }

  function RelationshipScore(r: Relationship): nat {
    match r
    case NVLINK => 100
    case PIX => 40
    case PXB => 30
    case PHB => 20
    case NODE => 10
    case SYS => 5
    case UNKNOWN => 1
    case NETWORK => 0
  }

  datatype TopologyEdge = TopologyEdge(
    gpuA: int, gpuB: int, relationship: string, nvlinkDetected: bool, nvlinkLinkCount: Option<int>)
  {
    function Score(): int {
      var base := RelationshipScore(ParseRelationship(relationship));
      if nvlinkDetected then
        (if base < RelationshipScore(NVLINK) then RelationshipScore(NVLINK) else base)
        + (if nvlinkLinkCount.Some? then nvlinkLinkCount.value else 0)
      else
        base
    }
  }

  /** The first edge stored for the unordered pair. */
  function FindEdge(edges: seq<TopologyEdge>, lo: int, hi: int): Option<TopologyEdge> {
    if edges == [] then None
    else if edges[0].gpuA == lo && edges[0].gpuB == hi then Some(edges[0])
    else FindEdge(edges[1..], lo, hi)
  }

  datatype GPUTopology = GPUTopology(edges: seq<TopologyEdge>, available: bool) {
    function Edge(a: int, b: int): Option<TopologyEdge> {
      if a < b then FindEdge(edges, a, b) else FindEdge(edges, b, a)
    }

    function Score(a: int, b: int): int {
      var e := Edge(a, b);
      if e.Some? then e.value.Score() else RelationshipScore(UNKNOWN)
    }
  }

  type NodeId = Option<string>

  datatype GPUDevice = GPUDevice(index: int, nodeId: NodeId)

  /** `{g.index: g.node_id for g in gpus}.get(i)`: the last device with that index wins. */
  function LookupNode(gpus: seq<GPUDevice>, i: int): NodeId {
    if gpus == [] then None
    else if gpus[|gpus| - 1].index == i then gpus[|gpus| - 1].nodeId
    else LookupNode(gpus[..|gpus| - 1], i)
  }

  datatype HardwareSnapshot = HardwareSnapshot(gpus: seq<GPUDevice>, topology: GPUTopology) {
    function NodeOf(i: int): NodeId {
      LookupNode(gpus, i)
    }

    /** NVML never reports a negative number of links; the field itself admits any integer. */
    predicate LinkCountsNonNegative() {
      forall e :: e in topology.edges && e.nvlinkLinkCount.Some? ==> e.nvlinkLinkCount.value >= 0
    }
  }

  /** Interconnect score of a GPU pair: 0 across machines, index distance without topology. */
  function PairScore(snap: HardwareSnapshot, a: int, b: int): int {
    if snap.NodeOf(a) != snap.NodeOf(b) then 0
    else if !snap.topology.available then
      var distance := if a < b then b - a else a - b;
      if 8 - distance > 1 then 8 - distance else 1
    else snap.topology.Score(a, b)
  }

  lemma {:induction false} PairScoreSymmetric(snap: HardwareSnapshot, a: int, b: int)
    ensures PairScore(snap, a, b) == PairScore(snap, b, a)
  {
  }

  lemma {:induction false} FindEdgeFound(edges: seq<TopologyEdge>, lo: int, hi: int)
    ensures FindEdge(edges, lo, hi).Some? ==> FindEdge(edges, lo, hi).value in edges
  {
    if edges != [] && !(edges[0].gpuA == lo && edges[0].gpuB == hi) {
      FindEdgeFound(edges[1..], lo, hi);
    }
  }

  lemma {:induction false} PairScoreNonNegative(snap: HardwareSnapshot, a: int, b: int)
    requires snap.LinkCountsNonNegative()
    ensures PairScore(snap, a, b) >= 0
  {
    FindEdgeFound(snap.topology.edges, a, b);
    FindEdgeFound(snap.topology.edges, b, a);
  }

  /** The links of an NVLink connection that were counted. */
  function Links(e: TopologyEdge): int {
    if e.nvlinkLinkCount.Some? then e.nvlinkLinkCount.value else 0
  }

  /** Between NVLink connections the links decide, whatever else is reported of them. */
  lemma {:induction false} LinksDecide(e: TopologyEdge, f: TopologyEdge)
    requires e.nvlinkDetected && f.nvlinkDetected
    ensures e.Score() < f.Score() <==> Links(e) < Links(f)
    ensures e.Score() == f.Score() <==> Links(e) == Links(f)
  {
  }

  /** NVLink comes first; then the closer the relationship, the higher the score. */
  lemma {:induction false} Closest(e: TopologyEdge, f: TopologyEdge)
    requires !f.nvlinkDetected
    ensures e.nvlinkDetected && Links(e) >= 0 ==> e.Score() >= f.Score()
    ensures e.nvlinkDetected && Links(e) >= 1 ==> e.Score() > f.Score()
    ensures !e.nvlinkDetected ==>
      (e.Score() > f.Score() <==>
         Closeness(ParseRelationship(e.relationship)) > Closeness(ParseRelationship(f.relationship)))
  {
  }

  /** The relationships from the furthest to the closest; an unknown one is better than the network. */
  function Closeness(r: Relationship): nat {
    match r
    case NETWORK => 0
    case UNKNOWN => 1
    case SYS => 2
    case NODE => 3
    case PHB => 4
    case PXB => 5
    case PIX => 6
    case NVLINK => 7
  }

  /** A pair with more links scores higher than one with fewer. */
  lemma {:induction false} MoreLinksScoreHigher(snap: HardwareSnapshot, a: int, b: int, c: int, d: int)
    requires snap.topology.available && snap.NodeOf(a) == snap.NodeOf(b) && snap.NodeOf(c) == snap.NodeOf(d)
    requires var e, f := snap.topology.Edge(a, b), snap.topology.Edge(c, d);
             e.Some? && f.Some? && e.value.nvlinkDetected && f.value.nvlinkDetected && Links(e.value) < Links(f.value)
    ensures PairScore(snap, a, b) < PairScore(snap, c, d)
  {
    LinksDecide(snap.topology.Edge(a, b).value, snap.topology.Edge(c, d).value);
  }

  function Distance(a: int, b: int): nat {
    if a < b then b - a else a - b
  }

  /** Without a topology nearby indices count as better connected, and any pair of a machine beats one across. */
  lemma {:induction false} CloserScoresHigher(snap: HardwareSnapshot, a: int, b: int, c: int, d: int)
    requires !snap.topology.available && snap.NodeOf(a) == snap.NodeOf(b)
    ensures snap.NodeOf(c) != snap.NodeOf(d) ==> PairScore(snap, c, d) == 0 < PairScore(snap, a, b)
    ensures snap.NodeOf(c) == snap.NodeOf(d) && Distance(a, b) < Distance(c, d) ==>
      && PairScore(snap, a, b) >= PairScore(snap, c, d)
      && (Distance(a, b) < 7 ==> PairScore(snap, a, b) > PairScore(snap, c, d))
  {
  }
}
