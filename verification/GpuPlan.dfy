/** `plan`: one pool of GPUs, or one search per machine when groups must not span machines. */
module GpuPlan {
  import opened Wrappers
  import opened Sequences
  import opened Hardware
  import opened GpuScores
  import opened GpuSearch
  import opened GpuOptimality
  import opened GpuGreedy

  datatype PlanError = NoViablePlan

  const EXHAUSTIVE_MAX_GPUS := 8

  /** `plan(..., allow_cross_node=True)`: the GPUs are one pool. */
  function PlanPool(snap: HardwareSnapshot, tp: nat, n: nat, gpuIds: seq<int>): Result<seq<seq<int>>, PlanError>
    requires tp >= 1 && Distinct(gpuIds)
  {
    var ids := Sorted(gpuIds);
    if tp * n > |ids| then Err(NoViablePlan)
    else if tp == 1 then Ok(Singles(ids, n))
    else if |ids| <= EXHAUSTIVE_MAX_GPUS then
      SortedIncreasing(gpuIds);
      ExhaustiveIsOptimal(snap, tp, n, ids);
      match Exhaustive(snap, tp, n, ids)
      case None => Err(NoViablePlan)
      case Some(groups) => Ok(CanonicalForm(groups))
    else
      GreedyNonEmpty(snap, tp, n, ids);
      Ok(CanonicalForm(Greedy(snap, tp, n, ids)))
  }

  /** `[[i] for i in ids[:n]]`. */
  function Singles(ids: seq<int>, n: nat): (r: seq<seq<int>>)
    requires n <= |ids|
    ensures |r| == n
  {
    seq(n, i requires 0 <= i < n => [ids[i]])
  }

  lemma {:induction false} GreedyNonEmpty(snap: HardwareSnapshot, tp: nat, n: nat, ids: seq<int>)
    requires tp >= 1 && tp * n <= |ids|
    ensures NonEmptyGroups(Greedy(snap, tp, n, ids))
    decreases n
  {
    hide FirstGroup, Sorted, AllIn;
    if n > 0 {
      Affordable(tp, n, |ids|);
      GreedyNonEmpty(snap, tp, n - 1, FirstGroup(snap, tp, ids).1);
    }
  }

  // ------------------------------------------------------------------ machines

  /** Keys of `by_node`, in insertion order. */
  function Nodes(snap: HardwareSnapshot, ids: seq<int>): (r: seq<NodeId>)
    ensures forall i :: i in ids ==> snap.NodeOf(i) in r
    ensures forall v :: v in r ==> exists i :: i in ids && snap.NodeOf(i) == v
  {
    if ids == [] then []
    else
      var before, last := Nodes(snap, ids[..|ids| - 1]), ids[|ids| - 1];
      assert forall i :: i in ids <==> i in ids[..|ids| - 1] || i == last;
      if snap.NodeOf(last) in before then before else before + [snap.NodeOf(last)]
  }

  /** `by_node[v]`. */
  function OnNode(snap: HardwareSnapshot, ids: seq<int>, v: NodeId): (r: seq<int>)
    ensures forall i :: i in r <==> i in ids && snap.NodeOf(i) == v
  {
    if ids == [] then []
    else
      var before, last := OnNode(snap, ids[..|ids| - 1], v), ids[|ids| - 1];
      assert forall i :: i in ids <==> i in ids[..|ids| - 1] || i == last;
      if snap.NodeOf(last) == v then before + [last] else before
  }

  lemma {:induction false} OnNodeDistinct(snap: HardwareSnapshot, ids: seq<int>, v: NodeId)
    requires Distinct(ids)
    ensures Distinct(OnNode(snap, ids, v))
  {
    if ids != [] {
      OnNodeDistinct(snap, ids[..|ids| - 1], v);
      var before := OnNode(snap, ids[..|ids| - 1], v);
      forall k | 0 <= k < |before|
        ensures before[k] != ids[|ids| - 1]
      {
        assert before[k] in before;
        assert forall j :: 0 <= j < |ids| - 1 ==> ids[j] != ids[|ids| - 1];
      }
    }
  }

  /** Python's `<` on strings. */
  predicate StringLess(a: string, b: string) {
    if b == "" then false
    else if a == "" then true
    else a[0] < b[0] || (a[0] == b[0] && StringLess(a[1..], b[1..]))
  }

  /** Order of the key `(n is None, str(n))`: named machines first. */
  predicate NodeLess(a: NodeId, b: NodeId) {
    match (a, b)
    case (None, _) => false
    case (Some(_), None) => true
    case (Some(x), Some(y)) => StringLess(x, y)
  }

  function InsertNode(v: NodeId, nodes: seq<NodeId>): (r: seq<NodeId>)
    ensures forall w :: w in r <==> w == v || w in nodes
  {
    if nodes == [] || !NodeLess(nodes[0], v) then [v] + nodes
    else [nodes[0]] + InsertNode(v, nodes[1..])
  }

  function SortNodes(nodes: seq<NodeId>): (r: seq<NodeId>)
    ensures forall w :: w in r <==> w in nodes
  {
    if nodes == [] then [] else InsertNode(nodes[0], SortNodes(nodes[1..]))
  }

  /** Groups of `tp` that fit on one machine: `len(by_node[v]) // tp`. */
  function Share(snap: HardwareSnapshot, tp: nat, ids: seq<int>, v: NodeId): (r: nat)
    requires tp >= 1
    ensures tp * r <= |OnNode(snap, ids, v)| < tp * r + tp
  {
    |OnNode(snap, ids, v)| / tp
  }

  /** `sum(len(by_node[v]) // tp for v in nodes)`. */
  function Capacity(snap: HardwareSnapshot, tp: nat, ids: seq<int>, nodes: seq<NodeId>): nat
    requires tp >= 1
  {
    if nodes == [] then 0
    else Share(snap, tp, ids, nodes[0]) + Capacity(snap, tp, ids, nodes[1..])
  }

  function MaxReplicas(snap: HardwareSnapshot, tp: nat, ids: seq<int>): nat
    requires tp >= 1
  {
    Capacity(snap, tp, ids, Nodes(snap, ids))
  }

  /** All the groups that fit, machine by machine. */
  function FillNodes(
    snap: HardwareSnapshot, tp: nat, ids: seq<int>, nodes: seq<NodeId>): Result<seq<seq<int>>, PlanError>
    requires tp >= 1 && Distinct(ids)
    decreases |nodes|
  {
    if nodes == [] then Ok([])
    else
      OnNodeDistinct(snap, ids, nodes[0]);
      var mine := OnNode(snap, ids, nodes[0]);
      var perNode := Share(snap, tp, ids, nodes[0]);
      if perNode == 0 then FillNodes(snap, tp, ids, nodes[1..])
      else
        var here :- PlanPool(snap, tp, perNode, mine);
        var rest :- FillNodes(snap, tp, ids, nodes[1..]);
        Ok(here + rest)
  }

  function PlanPerNode(snap: HardwareSnapshot, tp: nat, n: nat, ids: seq<int>): Result<seq<seq<int>>, PlanError>
    requires tp >= 1 && Distinct(ids)
  {
    var groups :- FillNodes(snap, tp, ids, SortNodes(Nodes(snap, ids)));
    if |groups| < n then Err(NoViablePlan) else Ok(groups[..n])
  }

  function Plan(snap: HardwareSnapshot, tp: nat, n: nat, gpuIds: seq<int>, allowCrossNode: bool)
    : Result<seq<seq<int>>, PlanError>
    requires tp >= 1 && Distinct(gpuIds)
  {
    SortedIncreasing(gpuIds);
    var ids := Sorted(gpuIds);
    if tp * n <= |ids| && tp != 1 && !allowCrossNode && |Nodes(snap, ids)| > 1 then
      PlanPerNode(snap, tp, n, ids)
    else
      PlanPool(snap, tp, n, gpuIds)
  }
}
