/** The order in which machines are filled, and what a truncated plan takes from them. */
module GpuOrder {
  import opened Wrappers
  import opened Sequences
  import opened Hardware
  import opened GpuScores
  import opened GpuSearch
  import opened GpuPlan
  import opened GpuPlanTheorems
  import opened GpuExactness
  import opened GpuTies

  // ------------------------------------------------------------------ the order of names

  /** Up to position `k` the strings agree; there `a` ends, or has the smaller character. */
  predicate DecidedAt(a: string, b: string, k: nat) {
    k <= |a| && k < |b| && a[..k] == b[..k] && (k == |a| || a[k] < b[k])
  }

  lemma {:induction false} DecidedLater(a: string, b: string, k: nat)
    requires a != "" && b != "" && a[0] == b[0]
    ensures DecidedAt(a[1..], b[1..], k) <==> DecidedAt(a, b, k + 1)
  {
    if k + 1 <= |a| && k + 1 < |b| {
      assert a[..k + 1] == [a[0]] + a[1..][..k];
      assert b[..k + 1] == [b[0]] + b[1..][..k];
    }
  }

  /** Strings compare by the first position at which they differ; a proper prefix comes first. */
  lemma {:induction false} StringLessExactly(a: string, b: string)
    ensures StringLess(a, b) <==> exists k: nat :: DecidedAt(a, b, k)
  {
    if b != "" && a != "" && a[0] == b[0] {
      StringLessExactly(a[1..], b[1..]);
      if k: nat :| DecidedAt(a[1..], b[1..], k) {
        DecidedLater(a, b, k);
      }
      if k: nat :| DecidedAt(a, b, k) {
        assert k > 0;
        DecidedLater(a, b, k - 1);
      }
    } else if b != "" && (a == "" || a[0] < b[0]) {
      assert DecidedAt(a, b, 0);
    } else if b != "" {
      forall k: nat
        ensures !DecidedAt(a, b, k)
      {
        if 0 < k <= |a| && k < |b| {
          assert a[..k][0] == a[0] && b[..k][0] == b[0];
        }
      }
    }
  }

  lemma {:induction false} StringsDiffer(a: string, b: string)
    ensures !(StringLess(a, b) && StringLess(b, a)) && !StringLess(a, a)
    ensures a == b || StringLess(a, b) || StringLess(b, a)
  {
    if a != "" && b != "" {
      StringsDiffer(a[1..], b[1..]);
      assert a == [a[0]] + a[1..] && b == [b[0]] + b[1..];
    } else if a != "" {
      StringsDiffer(a[1..], "");
    }
  }

  lemma {:induction false} StringsChain(a: string, b: string, c: string)
    requires StringLess(a, b) && StringLess(b, c)
    ensures StringLess(a, c)
  {
    if a != "" && a[0] == b[0] == c[0] {
      StringsChain(a[1..], b[1..], c[1..]);
    }
  }

  // ------------------------------------------------------------------ the order of machines

  /** Machines are ordered strictly and totally, by name, those without a name last. */
  lemma {:induction false} NodeOrder(a: NodeId, b: NodeId, c: NodeId)
    ensures !NodeLess(a, a) && !(NodeLess(a, b) && NodeLess(b, a))
    ensures a == b || NodeLess(a, b) || NodeLess(b, a)
    ensures NodeLess(a, b) && NodeLess(b, c) ==> NodeLess(a, c)
    ensures a.None? ==> !NodeLess(a, b)
    ensures a.Some? && b.None? ==> NodeLess(a, b)
    ensures a.Some? && b.Some? ==> (NodeLess(a, b) <==> exists k: nat :: DecidedAt(a.value, b.value, k))
  {
    if a.Some? && b.Some? {
      StringsDiffer(a.value, b.value);
      StringLessExactly(a.value, b.value);
      if c.Some? && StringLess(a.value, b.value) && StringLess(b.value, c.value) {
        StringsChain(a.value, b.value, c.value);
      }
    } else if a.Some? {
      StringsDiffer(a.value, a.value);
    }
  }

  predicate InOrder(nodes: seq<NodeId>) {
    forall i, j :: 0 <= i < j < |nodes| ==> NodeLess(nodes[i], nodes[j])
  }

  lemma {:induction false} InsertNodeInOrder(v: NodeId, nodes: seq<NodeId>)
    requires InOrder(nodes) && v !in nodes
    ensures InOrder(InsertNode(v, nodes))
  {
    hide NodeLess;
    if nodes != [] && NodeLess(nodes[0], v) {
      var tail := InsertNode(v, nodes[1..]);
      InsertNodeInOrder(v, nodes[1..]);
      forall k | 0 <= k < |tail|
        ensures NodeLess(nodes[0], tail[k])
      {
        assert tail[k] in tail;
        assert tail[k] != v ==> tail[k] in nodes[1..];
      }
    } else if nodes != [] {
      assert nodes[0] in nodes;
      NodeOrder(v, nodes[0], v);
      forall k | 0 <= k < |nodes|
        ensures NodeLess(v, nodes[k])
      {
        NodeOrder(v, nodes[0], nodes[k]);
      }
    }
  }

  /** The machines are filled in that order. */
  lemma {:induction false} SortNodesInOrder(nodes: seq<NodeId>)
    requires Distinct(nodes)
    ensures InOrder(SortNodes(nodes)) && |SortNodes(nodes)| == |nodes|
    ensures forall v :: v in SortNodes(nodes) <==> v in nodes
  {
    hide InsertNode, NodeLess;
    if nodes != [] {
      assert nodes[0] !in nodes[1..];
      SortNodesInOrder(nodes[1..]);
      InsertNodeInOrder(nodes[0], SortNodes(nodes[1..]));
      InsertedLength(nodes[0], SortNodes(nodes[1..]));
    }
  }

  lemma {:induction false} InsertedLength(v: NodeId, nodes: seq<NodeId>)
    ensures |InsertNode(v, nodes)| == |nodes| + 1
  {
    if nodes != [] && NodeLess(nodes[0], v) {
      InsertedLength(v, nodes[1..]);
    }
  }

  // ------------------------------------------------------------------ what is taken from which machine

  /** The groups come machine by machine, in the machines' order. */
  predicate ByMachine(snap: HardwareSnapshot, r: seq<seq<int>>)
    requires NonEmptyGroups(r)
  {
    forall i, j :: 0 <= i < j < |r| ==> !NodeLess(snap.NodeOf(r[j][0]), snap.NodeOf(r[i][0]))
  }

  /** Groups of one machine before groups of later machines. */
  lemma {:induction false} FirstThenRest(
    snap: HardwareSnapshot, v: NodeId, here: seq<seq<int>>, rest: seq<seq<int>>, later: seq<NodeId>)
    requires NonEmptyGroups(here) && NonEmptyGroups(rest) && ByMachine(snap, rest) && InOrder([v] + later)
    requires forall g :: g in here ==> snap.NodeOf(g[0]) == v
    requires forall g :: g in rest ==> snap.NodeOf(g[0]) in later
    ensures NonEmptyGroups(here + rest) && ByMachine(snap, here + rest)
  {
    hide NodeLess;
    var r, m := here + rest, |here|;
    assert forall w :: w in later ==> NodeLess(v, w) by {
      forall w | w in later
        ensures NodeLess(v, w)
      {
        var k :| 0 <= k < |later| && later[k] == w;
        assert ([v] + later)[0] == v && ([v] + later)[k + 1] == w;
      }
    }
    forall i, j | 0 <= i < j < |r|
      ensures !NodeLess(snap.NodeOf(r[j][0]), snap.NodeOf(r[i][0]))
    {
      assert i < m ==> r[i] in here;
      assert j < m ==> r[j] in here;
      assert i >= m ==> r[i] == rest[i - m];
      assert j >= m ==> r[j] == rest[j - m] && r[j] in rest;
      NodeOrder(snap.NodeOf(r[i][0]), snap.NodeOf(r[j][0]), v);
    }
  }

  lemma {:induction false} FilledByMachine(snap: HardwareSnapshot, tp: nat, ids: seq<int>, nodes: seq<NodeId>)
    requires tp >= 1 && Distinct(ids) && Distinct(nodes) && InOrder(nodes) && snap.LinkCountsNonNegative()
    ensures var r := FillNodes(snap, tp, ids, nodes); r.Ok? && NonEmptyGroups(r.value) && ByMachine(snap, r.value)
    decreases |nodes|
  {
    hide PlanPool, OnNode, Share, NodeLess, InOrder, Placed, Family, ByMachine;
    FillSound(snap, tp, ids, nodes);
    if nodes == [] {
      NothingByMachine(snap);
    } else {
      var v, later := nodes[0], nodes[1..];
      assert nodes == [v] + later;
      InOrderTail(nodes);
      FilledByMachine(snap, tp, ids, later);
      FillSound(snap, tp, ids, later);
      var rest := FillNodes(snap, tp, ids, later).value;
      if Share(snap, tp, ids, v) > 0 {
        PoolPlaced(snap, tp, Share(snap, tp, ids, v), ids, v, nodes);
        var here := PlanPool(snap, tp, Share(snap, tp, ids, v), OnNode(snap, ids, v)).value;
        AllNonEmpty(here);
        PlacedNodes(snap, rest, later);
        FirstThenRest(snap, v, here, rest, later);
      }
    }
  }

  lemma {:induction false} NothingByMachine(snap: HardwareSnapshot)
    ensures ByMachine(snap, [])
  {
  }

  lemma {:induction false} InOrderTail(nodes: seq<NodeId>)
    requires InOrder(nodes) && nodes != []
    ensures InOrder(nodes[1..])
  {
  }

  lemma {:induction false} PlacedNodes(snap: HardwareSnapshot, f: seq<seq<int>>, nodes: seq<NodeId>)
    requires Placed(snap, f, nodes)
    ensures forall g :: g in f ==> g != [] && snap.NodeOf(g[0]) in nodes
  {
  }

  /** Where the groups of a plan come from: all that was planned for a machine, before anything of a later one. */
  ghost predicate TakenInOrder(snap: HardwareSnapshot, tp: nat, ids: seq<int>, r: seq<seq<int>>)
    requires tp >= 1 && Distinct(ids)
  {
    && NonEmptyGroups(r)
    && ByMachine(snap, r)
    && forall v :: v in Nodes(snap, ids) ==>
         && TakenAt(snap, tp, ids, r, v)
         && ((exists g :: g in r && NodeLess(v, snap.NodeOf(g[0]))) ==> |At(snap, r, v)| == Share(snap, tp, ids, v))
  }

  /** What is taken of a machine are the first groups of its own plan. */
  ghost predicate TakenAt(snap: HardwareSnapshot, tp: nat, ids: seq<int>, r: seq<seq<int>>, v: NodeId)
    requires tp >= 1 && NonEmptyGroups(r)
  {
    && Distinct(OnNode(snap, ids, v))
    && var own := PlanPool(snap, tp, Share(snap, tp, ids, v), OnNode(snap, ids, v));
    && own.Ok? && At(snap, r, v) <= own.value && |own.value| == Share(snap, tp, ids, v)
  }

  /**
   * On several machines `plan` fills the machines in the order of their names, unnamed ones last:
   * a truncated plan holds everything planned for the earlier machines, then the first groups of
   * one machine, and nothing of the later ones.
   */
  lemma {:induction false} EarlierMachinesFirst(snap: HardwareSnapshot, tp: nat, n: nat, gpuIds: seq<int>)
    requires tp >= 2 && Distinct(gpuIds) && snap.LinkCountsNonNegative()
    requires |Nodes(snap, Sorted(gpuIds))| > 1 && n <= MaxReplicas(snap, tp, Sorted(gpuIds))
    ensures Distinct(Sorted(gpuIds))
    ensures var r := Plan(snap, tp, n, gpuIds, false);
            r.Ok? && |r.value| == n && TakenInOrder(snap, tp, Sorted(gpuIds), r.value)
  {
    hide PlanPool, FillNodes, Nodes, SortNodes, Sorted, Plan, MaxReplicas, Share, OnNode, At, ByMachine, Placed, Family;
    var ids, nodes, all := FullFill(snap, tp, gpuIds);
    PrefixPlan(snap, tp, n, gpuIds, all);
    NodesDistinct(snap, ids);
    SortNodesInOrder(Nodes(snap, ids));
    FilledByMachine(snap, tp, ids, nodes);
    var r := all[..n];
    PrefixByMachine(snap, all, n);
    forall v | v in Nodes(snap, ids)
      ensures TakenAt(snap, tp, ids, r, v)
      ensures (exists g :: g in r && NodeLess(v, snap.NodeOf(g[0]))) ==> |At(snap, r, v)| == Share(snap, tp, ids, v)
    {
      var k := SortNodesIndex(Nodes(snap, ids), v);
      TakenOfMachine(snap, tp, ids, nodes, all, n, k);
    }
  }

  lemma {:induction false} PrefixByMachine(snap: HardwareSnapshot, all: seq<seq<int>>, n: nat)
    requires NonEmptyGroups(all) && ByMachine(snap, all) && n <= |all|
    ensures NonEmptyGroups(all[..n]) && NonEmptyGroups(all[n..]) && ByMachine(snap, all[..n])
  {
  }

  lemma {:induction false} TakenOfMachine(
    snap: HardwareSnapshot, tp: nat, ids: seq<int>, nodes: seq<NodeId>, all: seq<seq<int>>, n: nat, k: nat)
    requires tp >= 1 && Distinct(ids) && Distinct(nodes) && k < |nodes| && snap.LinkCountsNonNegative() && n <= |all|
    requires FillNodes(snap, tp, ids, nodes) == Ok(all) && NonEmptyGroups(all) && NonEmptyGroups(all[..n])
    requires ByMachine(snap, all) && Placed(snap, all, nodes) && Family(all, tp, |all|, ids)
    ensures TakenAt(snap, tp, ids, all[..n], nodes[k])
    ensures (exists g :: g in all[..n] && NodeLess(nodes[k], snap.NodeOf(g[0]))) ==>
      |At(snap, all[..n], nodes[k])| == Share(snap, tp, ids, nodes[k])
  {
    hide PlanPool, FillNodes, Share, OnNode, At, ByMachine, Placed, Family, NodeLess, Distinct;
    var v, r, rest := nodes[k], all[..n], all[n..];
    assert all == r + rest;
    OnNodeDistinct(snap, ids, v);
    PrefixByMachine(snap, all, n);
    AtConcat(snap, r, rest, v);
    OwnPlan(snap, tp, ids, nodes, all, k);
    if g :| g in r && NodeLess(v, snap.NodeOf(g[0])) {
      NoneLater(snap, all, n, v, g);
    }
  }

  /** On each machine the full plan is the machine's own. */
  lemma {:induction false} OwnPlan(
    snap: HardwareSnapshot, tp: nat, ids: seq<int>, nodes: seq<NodeId>, all: seq<seq<int>>, k: nat)
    requires tp >= 1 && Distinct(ids) && Distinct(nodes) && k < |nodes| && snap.LinkCountsNonNegative()
    requires FillNodes(snap, tp, ids, nodes) == Ok(all) && NonEmptyGroups(all)
    requires Placed(snap, all, nodes) && Family(all, tp, |all|, ids)
    ensures Distinct(OnNode(snap, ids, nodes[k]))
    ensures var v := nodes[k];
            var own := PlanPool(snap, tp, Share(snap, tp, ids, v), OnNode(snap, ids, v));
            own.Ok? && own.value == At(snap, all, v) && |own.value| == Share(snap, tp, ids, v)
  {
    hide PlanPool, FillNodes, OnNode, At, Placed, Family;
    var v := nodes[k];
    OnNodeDistinct(snap, ids, v);
    PoolSound(snap, tp, Share(snap, tp, ids, v), OnNode(snap, ids, v));
    var own := PlanPool(snap, tp, Share(snap, tp, ids, v), OnNode(snap, ids, v)).value;
    FamilyApart(own, tp, Share(snap, tp, ids, v), OnNode(snap, ids, v));
    if Share(snap, tp, ids, v) > 0 {
      PlannedAt(snap, tp, ids, nodes, all, k);
    } else {
      AtBound(snap, all, tp, ids, nodes, v);
    }
  }

  /** Once a later machine has contributed, nothing more comes of `v`. */
  lemma {:induction false} NoneLater(snap: HardwareSnapshot, all: seq<seq<int>>, n: nat, v: NodeId, g: seq<int>)
    requires n <= |all| && NonEmptyGroups(all) && NonEmptyGroups(all[n..]) && ByMachine(snap, all)
    requires g in all[..n] && NodeLess(v, snap.NodeOf(g[0]))
    ensures At(snap, all[n..], v) == []
  {
    hide At, NodeLess;
    var i :| 0 <= i < n && all[i] == g;
    forall h | h in all[n..]
      ensures snap.NodeOf(h[0]) != v
    {
      var j :| 0 <= j < |all| - n && all[n..][j] == h;
      assert all[n + j] == h;
    }
    AtNone(snap, all[n..], v);
  }
}
