/** Every run of the router: any interleaving of its atomic steps, from an empty table. */
module RouterRuns {
  import opened Wrappers
  import opened Sequences
  import opened Router
  import A = Accounts
  import S = Semaphores

  /** One step of some task; positions that name nothing make the step a no-op. */
  datatype Event =
    | Add(id: ReplicaId)
    | Remove(id: ReplicaId)
    | SetStatus(id: ReplicaId, status: ReplicaStatus)
    | Acquire
    | Resume(waiter: nat)
    | Cancel(waiter: nat)
    | ResumeCancelled(waiter: nat)
    | Reroute(lease: nat)
    | Release(lease: nat, failed: bool)

  /** The leases handed out and not yet released are exactly the listed ones. */
  ghost predicate Holds(router: ReplicaRouter, held: seq<RouteLease>)
    reads router`leases
  {
    && Distinct(held)
    && (forall l :: l in held ==> l in router.leases)
    && (forall l :: l in router.leases ==> l in held)
  }

  function WithoutLease(held: seq<RouteLease>, i: nat): (r: seq<RouteLease>)
    requires i < |held|
  {
    held[..i] + held[i + 1..]
  }

  lemma {:induction false} WithoutLeaseDistinct(held: seq<RouteLease>, i: nat)
    requires i < |held| && Distinct(held)
    ensures Distinct(WithoutLease(held, i))
    ensures forall l :: l in WithoutLease(held, i) <==> l in held && l != held[i]
  {
    var r := WithoutLease(held, i);
    assert forall k :: 0 <= k < i ==> r[k] == held[k];
    assert forall k :: i <= k < |r| ==> r[k] == held[k + 1];
    forall l | l in held && l != held[i]
      ensures l in r
    {
      var k :| 0 <= k < |held| && held[k] == l;
      assert if k < i then r[k] == l else r[k - 1] == l;
    }
  }

  /** Every object the router knows was created during the run. */
  twostate predicate AllNew(new router: ReplicaRouter)
    reads router
  {
    (forall r :: r in router.ledger ==> fresh(r)) && (forall l :: l in router.leases ==> fresh(l))
  }

  /** A new lease joins the list. */
  function WithOutcome(held: seq<RouteLease>, o: AcquireOutcome): seq<RouteLease> {
    if o.Leased? then held + [o.lease] else held
  }

  predicate Waits(router: ReplicaRouter, i: nat, w: S.Waiter)
    reads router
  {
    router.semaphore.Some? && i < |router.semaphore.value.waiters| && router.semaphore.value.waiters[i] == w
  }

  /** Every lease that was placed or moved since went to an entry that was healthy. */
  twostate predicate PlacedOnHealthy(router: ReplicaRouter)
    reads router, router.leases.Keys
  {
    forall l :: l in router.leases ==>
      || (l in old(router.leases) && l.replica == old(l.replica))
      || (l.replica.id in old(router.Table()) && old(router.Table())[l.replica.id].status == HEALTHY)
  }

  /** The steps that hand out leases. */
  method AcquireStep(router: ReplicaRouter, e: Event, held: seq<RouteLease>) returns (left: seq<RouteLease>)
    requires router.Valid() && Holds(router, held)
    requires e.Acquire? || e.Resume?
    modifies router, router.policy, router.ledger.Keys`books
    ensures router.Valid() && Holds(router, left) && router.maxConcurrency == old(router.maxConcurrency)
    ensures held <= left
    ensures router.replicas == old(router.replicas) && PlacedOnHealthy(router)
    ensures forall r :: r in router.ledger ==> r in old(router.ledger)
    ensures forall l :: l in router.leases ==> l in old(router.leases) || fresh(l)
  {
    hide A.Balanced, A.Place, PermitsBalance, HealthyOutside, ReplicaRouter.Valid, ReplicaRouter.Sound;
    hide ReplicaRouter.Candidates, ReplicaRouter.Table;
    router.CandidatesAreHealthy({});
    left := held;
    if e.Acquire? {
      var o := router.Acquire();
      left := WithOutcome(held, o);
    } else if Waits(router, e.waiter, S.Granted) {
      var o := router.Resume(e.waiter);
      left := WithOutcome(held, o);
    }
  }

  /** A task that holds a lease moves it to another replica. */
  method RerouteStep(router: ReplicaRouter, e: Event, held: seq<RouteLease>)
    requires router.Valid() && Holds(router, held) && e.Reroute?
    modifies router, router.policy, router.ledger.Keys`books
    modifies if e.lease < |held| then {held[e.lease]} else {}
    ensures router.Valid() && Holds(router, held) && router.maxConcurrency == old(router.maxConcurrency)
    ensures router.replicas == old(router.replicas) && PlacedOnHealthy(router)
    ensures router.ledger.Keys == old(router.ledger.Keys) && router.leases.Keys == old(router.leases.Keys)
  {
    hide A.Balanced, A.Move, PermitsBalance, HealthyOutside, ReplicaRouter.Valid, ReplicaRouter.Sound;
    hide ReplicaRouter.Candidates, ReplicaRouter.Table;
    if e.lease < |held| {
      var lease := held[e.lease];
      router.CandidatesAreHealthy(lease.excluded);
      var moved := router.Reroute(lease);
    }
  }

  /** Leases that stay with their replicas raise no question. */
  twostate lemma {:induction false} NonePlaced(router: ReplicaRouter)
    requires forall l :: l in router.leases ==> l in old(router.leases) && l.replica == old(l.replica)
    ensures PlacedOnHealthy(router)
  {
  }

  /** A task that holds a lease is done with it. */
  method ReleaseStep(router: ReplicaRouter, e: Event, held: seq<RouteLease>) returns (left: seq<RouteLease>)
    requires router.Valid() && Holds(router, held) && e.Release?
    modifies router, router.ledger.Keys`books
    ensures left == if e.lease < |held| then WithoutLease(held, e.lease) else held
    ensures router.Valid() && Holds(router, left) && router.maxConcurrency == old(router.maxConcurrency)
    ensures router.replicas == old(router.replicas) && PlacedOnHealthy(router)
    ensures router.ledger.Keys == old(router.ledger.Keys) && router.leases.Keys <= old(router.leases.Keys)
  {
    hide A.Balanced, A.Settle, PermitsBalance, ReplicaRouter.Valid, ReplicaRouter.Table, PlacedOnHealthy;
    left := held;
    if e.lease < |held| {
      var lease := held[e.lease];
      LeasedReplicaListed(router, lease);
      router.Release(lease, e.failed);
      WithoutLeaseDistinct(held, e.lease);
      left := WithoutLease(held, e.lease);
    }
    NonePlaced(router);
  }

  lemma {:induction false} LeasedReplicaListed(router: ReplicaRouter, lease: RouteLease)
    requires router.Valid() && lease in router.leases
    ensures lease.replica in router.ledger
  {
  }

  /** The steps of queued tasks that are cancelled. */
  method WaiterStep(router: ReplicaRouter, e: Event, held: seq<RouteLease>)
    requires router.Valid() && Holds(router, held)
    requires e.Cancel? || e.ResumeCancelled?
    modifies router`semaphore, router`waiting
    ensures router.Valid() && Holds(router, held)
  {
    hide A.Balanced, PermitsBalance, HealthyOutside, ReplicaRouter.Valid, ReplicaRouter.Sound;
    if e.Cancel? {
      if Waits(router, e.waiter, S.Pending) {
        router.CancelWaiter(e.waiter);
      }
    } else if Waits(router, e.waiter, S.Granted) || Waits(router, e.waiter, S.Cancelled) {
      router.ResumeCancelled(e.waiter);
    }
  }

  /** This step is taken by the holder of the lease at this position. */
  predicate Names(e: Event, i: nat) {
    (e.Reroute? || e.Release?) && e.lease == i
  }

  twostate predicate SameLease(lease: RouteLease)
    reads lease
  {
    lease.replica == old(lease.replica) && lease.excluded == old(lease.excluded)
  }

  /** A step of a request: it never touches the table, and places leases on healthy entries only. */
  method RequestStep(router: ReplicaRouter, e: Event, held: seq<RouteLease>) returns (left: seq<RouteLease>)
    requires router.Valid() && Holds(router, held) && !e.Add? && !e.Remove? && !e.SetStatus?
    modifies router, router.policy, router.ledger.Keys`books, router.leases.Keys
    ensures held != [] && !Names(e, 0) ==> left != [] && left[0] == held[0] && SameLease(held[0])
    ensures router.Valid() && Holds(router, left) && router.maxConcurrency == old(router.maxConcurrency)
    ensures router.replicas == old(router.replicas) && PlacedOnHealthy(router)
    ensures forall r :: r in router.ledger ==> r in old(router.ledger)
    ensures forall l :: l in router.leases ==> l in old(router.leases) || fresh(l)
  {
    hide ReplicaRouter.Valid, ReplicaRouter.Table, Holds;
    left := held;
    if e.Acquire? || e.Resume? {
      left := AcquireStep(router, e, held);
    } else if e.Reroute? {
      HeldAreLeases(router, held);
      RerouteStep(router, e, held);
    } else if e.Release? {
      left := ReleaseStep(router, e, held);
    } else {
      WaiterStep(router, e, held);
    }
  }

  /** The steps of whoever manages the replicas. */
  method ManageStep(router: ReplicaRouter, e: Event, held: seq<RouteLease>)
    requires router.Valid() && Holds(router, held)
    requires e.Add? || e.Remove? || e.SetStatus?
    modifies router, router.ledger.Keys
    ensures router.Valid() && Holds(router, held) && router.maxConcurrency == old(router.maxConcurrency)
    ensures forall r :: r in router.ledger ==> r in old(router.ledger) || fresh(r)
    ensures router.leases == old(router.leases)
  {
    hide A.Balanced, PermitsBalance, HealthyOutside, ReplicaRouter.Valid, ReplicaRouter.Sound;
    match e {
      case Add(id) => var added := router.AddReplica(id);
      case Remove(id) => router.RemoveReplica(id);
      case SetStatus(id, status) =>
        TableListed(router, id);
        router.SetStatus(id, status);
    }
  }

  lemma {:induction false} TableListed(router: ReplicaRouter, id: ReplicaId)
    requires router.Valid()
    ensures id in router.replicas ==> router.replicas[id] in router.ledger
  {
  }

  /**
   * Any run, from an empty router, of any length: the invariant holds in the final state, so every
   * replica object ever created (removed ones too) has as many requests in flight as there are
   * outstanding leases on it, and permits, requests and failures all add up.
   */
  method EveryRun(maxConcurrency: Option<nat>, maxQueueDepth: nat, events: seq<Event>)
    returns (router: ReplicaRouter, held: seq<RouteLease>)
    ensures fresh(router) && router.Valid() && Holds(router, held)
    ensures forall r :: r in router.ledger ==> r.books.inflight == |A.Holders(router.leases, r)|
    ensures A.Sum(A.Totals(router.ledger)) == router.totalRequests + router.reroutes
    ensures A.Sum(A.Failures(router.ledger)) == router.totalErrors + router.reroutes
    ensures 0 <= router.totalErrors <= router.totalRequests
    ensures maxConcurrency.Some? && maxConcurrency.value > 0 ==>
      && router.semaphore.Some?
      && S.Permits(router.semaphore.value) + |router.leases| == maxConcurrency.value
    ensures router.waiting <= maxQueueDepth
  {
    hide A.Balanced, PermitsBalance, ReplicaRouter.Valid, ReplicaRouter.Sound, Holds;
    var policy := new LeastInflightRoutingPolicy();
    router := new ReplicaRouter(policy, maxConcurrency, maxQueueDepth);
    held := [];
    NothingHeld(router);
    for i := 0 to |events|
      invariant fresh(router) && fresh(router.policy) && AllNew(router)
      invariant router.Valid() && Holds(router, held)
      invariant router.maxConcurrency == maxConcurrency && router.maxQueueDepth == maxQueueDepth
    {
      var e := events[i];
      if e.Add? || e.Remove? || e.SetStatus? {
        ManageStep(router, e, held);
      } else {
        held := RequestStep(router, e, held);
      }
    }
    WhatValidMeans(router);
  }

  /** Every replica or lease object the router did not know before was allocated since. */
  twostate predicate OnlyFreshAdded(router: ReplicaRouter)
    reads router
  {
    && (forall r :: r in router.ledger ==> r in old(router.ledger) || fresh(r))
    && (forall l :: l in router.leases ==> l in old(router.leases) || fresh(l))
  }

  /**
   * Any steps of tasks other than the holder of the first lease: the router stays consistent and
   * that lease stays with its replica.
   */
  method OthersRun(router: ReplicaRouter, held: seq<RouteLease>, events: seq<Event>) returns (left: seq<RouteLease>)
    requires router.Valid() && Holds(router, held) && held != []
    modifies router, router.policy, router.ledger.Keys, router.leases.Keys
    ensures router.Valid() && Holds(router, left) && OnlyFreshAdded(router)
    ensures left != [] && left[0] == held[0] && SameLease(held[0])
  {
    hide ReplicaRouter.Valid, Holds;
    left := held;
    for i := 0 to |events|
      invariant router.Valid() && Holds(router, left) && OnlyFreshAdded(router)
      invariant left != [] && left[0] == held[0] && SameLease(held[0])
    {
      var e := events[i];
      if e.Add? || e.Remove? || e.SetStatus? {
        ManageStep(router, e, left);
      } else if !Names(e, 0) {
        left := RequestStep(router, e, left);
      }
    }
  }

  lemma {:induction false} HeldAreLeases(router: ReplicaRouter, held: seq<RouteLease>)
    requires Holds(router, held)
    ensures Distinct(held) && forall l :: l in held ==> l in router.leases
  {
  }

  lemma {:induction false} NothingHeld(router: ReplicaRouter)
    requires router.leases == map[]
    ensures Holds(router, [])
  {
  }

  lemma {:induction false} WhatValidMeans(router: ReplicaRouter)
    requires router.Valid()
    ensures forall r :: r in router.ledger ==> r.books.inflight == |A.Holders(router.leases, r)|
    ensures A.Sum(A.Totals(router.ledger)) == router.totalRequests + router.reroutes
    ensures A.Sum(A.Failures(router.ledger)) == router.totalErrors + router.reroutes
    ensures 0 <= router.totalErrors <= router.totalRequests
    ensures router.maxConcurrency.Some? && router.maxConcurrency.value > 0 ==>
      && router.semaphore.Some?
      && S.Permits(router.semaphore.value) + |router.leases| == router.maxConcurrency.value
    ensures router.waiting <= router.maxQueueDepth
  {
  }
}
