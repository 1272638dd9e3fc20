/** A production deployment: engines, router and health checker from start to shutdown. */
module Supervisor {
  import opened Wrappers
  import opened Router
  import opened Ports
  import opened Processes
  import opened Replicas
  import opened HealthChecks
  import R = Restarts
  import RouterRuns

  /** One step of some task, or of the world; steps that do not apply change nothing. */
  datatype Event =
    | Request(request: RouterRuns.Event)      // a proxied request's next step
    | Exit(process: nat)                      // an engine dies
    | Scan(now: real)                         // `check_once` up to its probes
    | Probed(oks: seq<bool>)                  // ... and from there on
    | Wake(index: nat)                        // a restart's backoff ends
    | Launched(index: nat, respawn: Respawn)  // its launch returns or raises
    | Decided(index: nat, ready: bool)        // its readiness is known

  /** Requests do not manage replicas. */
  predicate IsStep(e: Event) {
    e.Request? ==> !e.request.Add? && !e.request.Remove? && !e.request.SetStatus?
  }

  class Deployment {
    const router: ReplicaRouter
    const ports: PortAllocator
    const launcher: LocalLauncher
    const replicaSet: ReplicaSet
    const health: HealthChecker
    var held: seq<RouteLease>  // the leases of the requests under way

    /** The parts belong together. */
    ghost predicate Wired() {
      && replicaSet.router == router && replicaSet.ports == ports && replicaSet.launcher == launcher
      && health.replicaSet == replicaSet && health.router == router
    }

    /** The invariant of a deployment that serves. */
    ghost predicate Serving()
      reads this, health, replicaSet, ports, launcher, launcher.launched
      reads router, router.ledger.Keys, router.leases.Keys, router.replicas.Values, Engines(replicaSet.replicas)
    {
      Wired() && health.Valid() && RouterRuns.Holds(router, held)
    }

    constructor (
      ports: PortAllocator, launcher: LocalLauncher, maxConcurrency: Option<nat>, maxQueueDepth: nat,
      replicaCount: nat, unhealthyAfter: int, maxRestarts: nat, window: real, restartEnabled: bool)
      requires ports.Valid() && launcher.Valid() && replicaCount >= 1
      ensures Wired() && this.ports == ports && this.launcher == launcher && fresh(router) && fresh(router.policy)
      ensures fresh(replicaSet) && fresh(health)
      ensures replicaSet.Valid() && replicaSet.replicas == [] && replicaSet.allocatedPorts == []
      ensures replicaSet.replicaCount == replicaCount && replicaSet.foreign == ports.reserved
      ensures health.Idle() && health.unhealthyAfter == unhealthyAfter && health.maxRestarts == maxRestarts
      ensures router.replicas == map[] && router.ledger == map[] && router.leases == map[] && held == []
    {
      hide ReplicaRouter.Valid, ReplicaSet.Valid;
      var policy := new LeastInflightRoutingPolicy();
      var router' := new ReplicaRouter(policy, maxConcurrency, maxQueueDepth);
      var set' := new ReplicaSet(router', ports, launcher, replicaCount);
      var health' := new HealthChecker(set', unhealthyAfter, maxRestarts, window, restartEnabled);
      this.router, this.ports, this.launcher, this.replicaSet, this.health := router', ports, launcher, set', health';
      this.held := [];
    }

    /** Engines first, then probing; a failed start has already taken everything down again. */
    method Start(outcomes: nat -> LaunchOutcome, busy: nat -> set<int>) returns (ok: bool)
      requires Wired() && replicaSet.Valid() && replicaSet.replicas == [] && replicaSet.allocatedPorts == []
      requires replicaSet.replicaCount >= 1 && health.Idle() && health.unhealthyAfter >= 1
      requires router.replicas == map[] && router.leases == map[] && held == []
      modifies replicaSet, ports, launcher, router, router.ledger.Keys
      ensures replicaSet.Valid() && OnlyFreshAdded() && router.leases == old(router.leases)
      ensures ok ==> Serving()
      ensures ok <==> replicaSet.AllComeUp(Attempts(old(ports.reserved), old(ports.cursor), outcomes, busy))
      ensures !ok ==> LeftStopped(Attempts(old(ports.reserved), old(ports.cursor), outcomes, busy))
      ensures !ok ==>
        && Running(launcher.launched) == old(Running(launcher.launched))
        && replicaSet.allocatedPorts == [] && ports.reserved == replicaSet.foreign
    {
      hide ReplicaRouter.Valid, ReplicaSet.Valid, ReplicaSet.SlotsValid, ReplicaSet.AllComeUp, TableUp, EnginesUp, PortsUp;
      EmptyTable(router);
      ok := replicaSet.Start(outcomes, busy);
      if ok {
        assert TableUp(replicaSet.replicas, map[], router.Table());
        health.Begins();
        RouterRuns.NothingHeld(router);
      } else {
        ghost var a := Attempts(old(ports.reserved), old(ports.cursor), outcomes, busy);
        forall i
          ensures StoppedOnly(a, i, router.Table())
        {
          replicaSet.RemainsOfNothing(a, replicaSet.Tried(a), i);
        }
      }
    }

    /** The engine of slot `i` was started and not ready exactly if a stopped entry tells of it. */
    ghost predicate StoppedOnly(a: Attempts, i: int, table: Table) {
      && (i in table <==>
            0 <= i < replicaSet.Tried(a) && replicaSet.PortFor(a, i).Some? && a.outcomes(i) == NotReady)
      && (i in table ==> table[i] == Health(STOPPED, 0, 0))
    }

    ghost predicate LeftStopped(a: Attempts)
      reads router`replicas, router.replicas.Values
    {
      forall i :: StoppedOnly(a, i, router.Table())
    }

    // -------------------------------------------------------------- the steps

    /**
     * A step of a proxied request. Whatever it does, no lease is placed on a replica that was seen
     * dead and has not become ready since.
     */
    method RequestStep(e: RouterRuns.Event)
      requires Serving() && !e.Add? && !e.Remove? && !e.SetStatus?
      modifies `held, router, router.policy, router.ledger.Keys`books, router.leases.Keys
      ensures Serving() && StaysStopped(old(router.Table()), router.Table()) && NoneOnDown() && OnlyFreshAdded()
      ensures NobodyReturned()
    {
      hide ReplicaRouter.Valid, ReplicaRouter.Table, HealthChecker.Valid, RouterRuns.Holds, RouterRuns.PlacedOnHealthy;
      hide StaysStopped, StaysAbandoned, NoneOnDown;
      NothingChanged(router.Table());
      NobodyReturns(router.Table(), health.restarting, health.restarting);
      health.RouterValid();
      NotHealthyWhileDown();
      held := RouterRuns.RequestStep(router, e, held);
      SparesDown();
      router.TableKept();
      health.TrafficKeeps();
    }

    twostate lemma {:induction false} SparesDown()
      requires RouterRuns.PlacedOnHealthy(router)
      requires forall i :: i in old(health.down) && i in old(router.Table()) ==> old(router.Table())[i].status != HEALTHY
      ensures NoneOnDown()
    {
    }

    /** Starting engines is no traffic. */
    twostate lemma {:induction false} EnginesOnly()
      requires Wired() && replicaSet.OnlyFresh() && forall l :: l in router.leases ==> l.replica == old(l.replica)
      ensures NoneOnDown() && OnlyFreshAdded()
    {
      assert router.leases.Keys - old(router.leases.Keys) == {};
    }

    /** An engine dies; nobody has noticed yet. */
    method ExitStep(k: nat)
      requires Serving()
      modifies launcher.launched
      ensures Serving() && StaysStopped(old(router.Table()), router.Table()) && NoneOnDown() && OnlyFreshAdded()
      ensures NobodyReturned()
    {
      hide HealthChecker.Valid, ReplicaRouter.Table, RouterRuns.Holds, StaysStopped, StaysAbandoned;
      NothingChanged(router.Table());
      NobodyReturns(router.Table(), health.restarting, health.restarting);
      health.ProcessesTracked();
      if k < |launcher.processes| {
        health.EngineExits(launcher.processes[k]);
      }
    }

    /** A step of the checking loop. */
    method CheckStep(e: Event)
      requires Serving() && (e.Scan? || e.Probed?)
      modifies health, router.replicas.Values
      ensures Serving() && StaysStopped(old(router.Table()), router.Table()) && NoneOnDown() && OnlyFreshAdded()
      ensures NobodyReturned()
    {
      hide HealthChecker.Valid, ReplicaRouter.Table, RouterRuns.Holds, StaysStopped, StaysAbandoned;
      NothingChanged(router.Table());
      NobodyReturns(router.Table(), health.restarting, health.restarting);
      match e {
        case Scan(now) =>
          if health.live == [] {
            var time := if now < health.clock then health.clock else now;
            health.Scan(_ => time);
          }
        case Probed(oks) =>
          if |oks| == |health.live| {
            health.ApplyProbes(oks);
            KeysDecide(old(router.Table()), router.Table(), health.restarting);
          }
      }
    }

    /** The pending restart of a replica, of which there is at most one. */
    method Pending(index: nat) returns (t: Option<Restart>)
      requires Serving()
      ensures Serving() && router.Table() == old(router.Table())
      ensures t.Some? ==> t.value in health.tasks && t.value.index == index
      ensures t.None? ==> forall u :: u in health.tasks ==> u.index != index
    {
      hide HealthChecker.Valid, RouterRuns.Holds;
      if u :| u in health.tasks && u.index == index {
        return Some(u);
      }
      return None;
    }

    /** A restart's backoff ends. */
    method WakeStep(index: nat)
      requires Serving()
      modifies health, launcher.launched, router`replicas, router`order
      ensures Serving() && StaysStopped(old(router.Table()), router.Table()) && NoneOnDown() && OnlyFreshAdded()
      ensures NobodyReturned()
    {
      hide HealthChecker.Valid, ReplicaRouter.Table, RouterRuns.Holds, StaysStopped, StaysAbandoned;
      NothingChanged(router.Table());
      NobodyReturns(router.Table(), health.restarting, health.restarting);
      var pending := Pending(index);
      if pending.Some? {
        var t := pending.value;
        health.RestartsHaveSlots(t);
        if t.phase.Sleeping? {
          health.RestartBegins(t);
        }
      }
    }

    /** A restart's launch returns an engine. */
    method StartedStep(index: nat)
      requires Serving()
      modifies health, launcher, router`replicas, router`order, router`ledger
      ensures Serving() && StaysStopped(old(router.Table()), router.Table()) && NoneOnDown() && OnlyFreshAdded()
      ensures NobodyReturned()
    {
      hide HealthChecker.Valid, ReplicaRouter.Table, RouterRuns.Holds, StaysStopped, StaysAbandoned, NoneOnDown, OnlyFreshAdded, AfterRespawn;
      NothingChanged(router.Table());
      NobodyReturns(router.Table(), health.restarting, health.restarting);
      var pending := Pending(index);
      if pending.Some? {
        var t := pending.value;
        if t.phase.Launching? {
          var process := health.RestartStarted(t);
        }
      }
      EnginesOnly();
    }

    /** A restart's launch raises. */
    method RaisedStep(index: nat, respawn: Respawn)
      requires Serving() && respawn != Spawned
      modifies health, launcher, router`replicas, router`order, router`ledger
      ensures Serving() && StaysStopped(old(router.Table()), router.Table()) && NoneOnDown() && OnlyFreshAdded()
      ensures NobodyReturned()
    {
      hide HealthChecker.Valid, ReplicaRouter.Table, RouterRuns.Holds, StaysStopped, StaysAbandoned, NoneOnDown, OnlyFreshAdded, AfterRespawn;
      NothingChanged(router.Table());
      NobodyReturns(router.Table(), health.restarting, health.restarting);
      var pending := Pending(index);
      if pending.Some? {
        var t := pending.value;
        if t.phase.Launching? {
          health.RestartRaised(t, respawn);
        }
      }
      EnginesOnly();
    }

    /** A restarted engine's readiness is known. */
    method DecidedStep(index: nat, ready: bool)
      requires Serving()
      modifies health, replicaSet`replicas, launcher.launched, router.replicas.Values
      ensures Serving() && StaysStopped(old(router.Table()), router.Table()) && NoneOnDown() && OnlyFreshAdded()
      ensures NobodyReturned()
    {
      hide HealthChecker.Valid, ReplicaRouter.Table, RouterRuns.Holds, StaysStopped, StaysAbandoned;
      NothingChanged(router.Table());
      NobodyReturns(router.Table(), health.restarting, health.restarting);
      var pending := Pending(index);
      if pending.Some? {
        var t := pending.value;
        health.RestartsHaveSlots(t);
        router.TableAt(t.index);
        if t.phase.Waiting? && ready {
          health.RestartReady(t);
        } else if t.phase.Waiting? {
          health.RestartNotReady(t);
        }
      }
    }

    /** Any step keeps the invariant, leaves stopped replicas stopped and spares the ones that are down. */
    method Step(e: Event)
      requires Serving()
      requires IsStep(e)
      modifies `held, health, replicaSet`replicas, launcher, launcher.launched
      modifies router, router.policy, router.ledger.Keys, router.leases.Keys
      ensures Serving() && StaysStopped(old(router.Table()), router.Table()) && NoneOnDown() && OnlyFreshAdded()
      ensures NobodyReturned()
    {
      hide HealthChecker.Valid, ReplicaRouter.Table, RouterRuns.Holds, StaysStopped, NoneOnDown, OnlyFreshAdded, Serving;
      hide NobodyReturned;
      EntriesListed();
      match e {
        case Request(request) => RequestStep(request);
        case Exit(k) => ExitStep(k);
        case Scan(_) => CheckStep(e);
        case Probed(_) => CheckStep(e);
        case Wake(index) => WakeStep(index);
        case Launched(index, respawn) =>
          if respawn == Spawned {
            StartedStep(index);
          } else {
            RaisedStep(index, respawn);
          }
        case Decided(index, ready) => DecidedStep(index, ready);
      }
    }

    lemma {:induction false} EntriesListed()
      requires Serving()
      ensures Wired() && forall r :: r in router.replicas.Values ==> r in router.ledger
    {
      EntriesKnown(router);
    }

    /** A run of any length. */
    method Continue(events: seq<Event>)
      requires Serving() && forall e :: e in events ==> IsStep(e)
      modifies `held, health, replicaSet`replicas, launcher, launcher.launched
      modifies router, router.policy, router.ledger.Keys, router.leases.Keys
      ensures Serving() && StaysStopped(old(router.Table()), router.Table()) && OnlyFreshAdded()
      ensures NobodyReturned()
    {
      hide Serving, ReplicaRouter.Table, StaysStopped, StaysAbandoned, IsStep, NoneOnDown;
      NothingChanged(router.Table());
      NobodyReturns(router.Table(), health.restarting, health.restarting);
      for n := 0 to |events|
        invariant Serving() && StaysStopped(old(router.Table()), router.Table()) && OnlyFreshAdded()
        invariant NobodyReturned()
      {
        ghost var table, busy := router.Table(), health.restarting;
        Step(events[n]);
        AbandonedBothTimes(
          old(router.Table()), old(health.restarting), table, busy, router.Table(), health.restarting);
        StoppedBothTimes(old(router.Table()), table, router.Table());
      }
    }

    /** What the deployment learned of since is new. */
    twostate predicate OnlyFreshAdded()
      reads router, launcher
    {
      && fresh(router.ledger.Keys - old(router.ledger.Keys))
      && fresh(router.leases.Keys - old(router.leases.Keys))
      && fresh(launcher.launched - old(launcher.launched))
    }

    /** Whatever has left the table with no restart pending stays out of it, and unattended. */
    twostate predicate NobodyReturned()
      reads router`replicas, router.replicas.Values, health`restarting
    {
      StaysAbandoned(old(router.Table()), old(health.restarting), router.Table(), health.restarting)
    }

    /** Leases on replicas that were down stay where they were; none was placed there. */
    twostate predicate NoneOnDown()
      reads this, router, router.leases.Keys
    {
      forall l :: l in router.leases && l.replica.id in old(health.down) ==>
        l in old(router.leases) && l.replica == old(l.replica)
    }

    /**
     * `shutdown`: probing and restarts first, then the replicas, then everything the launcher ever
     * started. No process is left, no port stays reserved, and no restart can start an engine again.
     */
    method Shutdown()
      requires Wired() && replicaSet.Valid()
      modifies health`tasks, health`restarting, health`live, replicaSet`allocatedPorts, ports
      modifies router, router.replicas.Values, launcher, launcher.launched
      ensures health.tasks == {} && health.restarting == {} && health.live == []
      ensures Running(launcher.launched) == {}
      ensures replicaSet.allocatedPorts == [] && ports.reserved == replicaSet.foreign
      ensures router.Table() == old(router.Table()) - Slots(replicaSet.replicas)
    {
      hide ReplicaRouter.Valid, ReplicaRouter.Table, HealthChecker.Valid, ReplicaSet.PortsValid, LocalLauncher.Valid;
      health.Stop();
      replicaSet.Stop();
      launcher.ShutdownAll();
    }

    lemma {:induction false} NotHealthyWhileDown()
      requires Serving()
      ensures forall i :: i in health.down && i in router.Table() ==> router.Table()[i].status != HEALTHY
    {
    }
  }

  /**
   * Any run of a deployment that came up, whatever its length: the invariant holds in its final
   * state, and with it what a reader of the health checker wants to know.
   */
  method EveryRun(
    ports: PortAllocator, launcher: LocalLauncher, maxConcurrency: Option<nat>, maxQueueDepth: nat,
    replicaCount: nat, unhealthyAfter: int, maxRestarts: nat, window: real, restartEnabled: bool,
    outcomes: nat -> LaunchOutcome, busy: nat -> set<int>, events: seq<Event>)
    returns (d: Deployment, ok: bool)
    requires ports.Valid() && launcher.Valid() && replicaCount >= 1 && unhealthyAfter >= 1
    requires forall e :: e in events ==> IsStep(e)
    modifies ports, launcher, launcher.launched
    ensures d.Wired() && d.replicaSet.Valid() && d.replicaSet.replicaCount == replicaCount && d.ports == ports
    ensures ok <==> d.replicaSet.AllComeUp(Attempts(old(ports.reserved), old(ports.cursor), outcomes, busy))
    ensures ok ==> d.Serving() && Trustworthy(d)
  {
    hide Deployment.Serving, ReplicaSet.Valid, ReplicaSet.AllComeUp, Deployment.LeftStopped, Trustworthy, ReplicaRouter.Table, IsStep;
    d := new Deployment(
      ports, launcher, maxConcurrency, maxQueueDepth, replicaCount, unhealthyAfter, maxRestarts, window, restartEnabled);
    ok := d.Start(outcomes, busy);
    if ok {
      d.Continue(events);
      WhatServingMeans(d);
    }
  }

  /** What holds of a deployment in every state it can reach. */
  ghost predicate Trustworthy(d: Deployment)
    reads d.health, d.router, d.router.replicas.Values
  {
    // No replica is restarted twice at a time.
    && (forall t, u :: t in d.health.tasks && u in d.health.tasks && t.index == u.index ==> t == u)
    // A replica seen dead takes no requests before it is ready again.
    && (forall i :: i in d.health.down && i in d.router.Table() ==> d.router.Table()[i].status != HEALTHY)
    // A replica that takes requests has failed fewer probes in a row than it takes to mark it down.
    && (forall i :: i in d.router.Table() && d.router.Table()[i].status == HEALTHY ==>
          d.router.Table()[i].failures < d.health.unhealthyAfter)
    // Restarts stay within the budget, whatever the window.
    && (forall i, from ::
          |R.GrantedWithin(TimesOf(d.health.granted, i), from, d.health.window)| <= d.health.maxRestarts)
    // The backoff is computed from an attempt number within the budget.
    && (forall t :: t in d.health.tasks && t.phase.Sleeping? ==> 1 <= t.phase.attempt <= d.health.maxRestarts)
  }

  lemma {:induction false} WhatServingMeans(d: Deployment)
    requires d.Serving()
    ensures Trustworthy(d)
    ensures d.Wired() && d.replicaSet.Valid()
  {
    hide R.GrantedWithin;
    forall i, from
      ensures |R.GrantedWithin(TimesOf(d.health.granted, i), from, d.health.window)| <= d.health.maxRestarts
    {
      assert R.Remembered(TimesOf(d.health.granted, i), TimesOf(d.health.restartTimes, i), d.health.clock,
                          d.health.window, d.health.maxRestarts);
      R.AtMostMaxPerWindow(TimesOf(d.health.granted, i), from, d.health.window, d.health.maxRestarts);
    }
  }

  lemma {:induction false} EmptyTable(router: ReplicaRouter)
    requires router.replicas == map[]
    ensures router.Table() == map[]
  {
  }
}
