/** Periodic health checks: probing, marking replicas down, and restarting dead ones within a budget. */
module HealthChecks {
  import opened Sequences
  import opened Router
  import opened Processes
  import opened Replicas
  import R = Restarts

  /** Where a suspended `_restart` task stands. */
  datatype Phase =
    | Sleeping(attempt: nat)                           // backing off
    | Launching(restarts: int)                         // inside `launcher.launch`
    | Waiting(restarts: int, process: ProcessHandle)   // inside `wait_until_ready`

  datatype Restart = Restart(index: nat, phase: Phase)

  function Indices(tasks: set<Restart>): set<nat> {
    set t | t in tasks :: t.index
  }

  /** What the checker's decisions rest on, by value. `down`: seen dead, not yet ready again. */
  datatype View = View(
    slots: nat,
    table: Table,
    tasks: set<Restart>,
    restarting: set<nat>,
    live: seq<nat>,
    down: set<nat>)

  predicate Stopped(table: Table, index: int) {
    index in table && table[index].status == STOPPED
  }

  /** The entry of a replica under restart, phase by phase. */
  predicate InPhase(table: Table, t: Restart, maxRestarts: nat) {
    match t.phase
    case Sleeping(attempt) =>
      1 <= attempt <= maxRestarts && t.index in table && table[t.index].status == UNHEALTHY
    case Launching(_) => t.index !in table
    case Waiting(restarts, _) => t.index in table && table[t.index] == Health(STARTING, 0, restarts)
  }

  /** No replica has two restarts pending, and only replicas seen dead are restarted. */
  ghost predicate TasksFit(v: View, maxRestarts: nat) {
    && v.restarting == Indices(v.tasks) && v.restarting <= v.down
    && (forall t, u :: t in v.tasks && u in v.tasks && t.index == u.index ==> t == u)
    && (forall t :: t in v.tasks ==> InPhase(v.table, t, maxRestarts))
  }

  /** A replica seen dead takes no requests until it is ready again. */
  ghost predicate DownFits(v: View) {
    forall i :: i in v.down ==> i < v.slots && (i in v.table ==> v.table[i].status != HEALTHY)
  }

  /** Only replicas that are neither down nor given up are being probed, each once. */
  ghost predicate LiveFits(v: View) {
    && Increasing(v.live)
    && forall i :: i in v.live ==> i < v.slots && i !in v.down && !Stopped(v.table, i)
  }

  /** A replica that takes requests has failed fewer probes in a row than it takes to mark it down. */
  ghost predicate ProbesFit(table: Table, unhealthyAfter: int) {
    forall i :: i in table && table[i].status == HEALTHY ==> table[i].failures < unhealthyAfter
  }

  ghost predicate Coherent(v: View, unhealthyAfter: int, maxRestarts: nat) {
    TasksFit(v, maxRestarts) && DownFits(v) && LiveFits(v) && ProbesFit(v.table, unhealthyAfter)
  }

  /** Replicas that are down run no engine; engines being waited for are tracked by the launcher. */
  ghost predicate EnginesFit(
    replicas: seq<Replica>, running: set<ProcessHandle>, launched: set<ProcessHandle>, tasks: set<Restart>, down: set<nat>)
  {
    && (forall i :: 0 <= i < |replicas| ==> replicas[i].process in launched)
    && (forall i :: i in down ==> i < |replicas| && replicas[i].process !in running)
    && (forall t :: t in tasks && t.phase.Waiting? ==> t.phase.process in launched)
  }

  /** STOPPED is for good. */
  ghost predicate StaysStopped(was: Table, now: Table) {
    forall i :: Stopped(was, i) ==> Stopped(now, i)
  }

  /** `check_once` looks at this replica. */
  predicate Considered(table: Table, restarting: set<nat>, i: nat) {
    i !in restarting && i in table && !Stopped(table, i)
  }

  /** Out of the table with no restart pending: `check_once` has no reason ever to look at it. */
  predicate Abandoned(table: Table, restarting: set<nat>, i: nat) {
    i !in table && i !in restarting
  }

  ghost predicate StaysAbandoned(was: Table, before: set<nat>, now: Table, after: set<nat>) {
    forall i: nat :: Abandoned(was, before, i) ==> Abandoned(now, after, i)
  }

  lemma {:induction false} NobodyReturns(table: Table, before: set<nat>, after: set<nat>)
    requires after <= before
    ensures StaysAbandoned(table, before, table, after)
  {
  }

  lemma {:induction false} KeysDecide(was: Table, now: Table, busy: set<nat>)
    requires now.Keys == was.Keys
    ensures StaysAbandoned(was, busy, now, busy)
  {
  }

  lemma {:induction false} AbandonedBothTimes(
    first: Table, busy1: set<nat>, second: Table, busy2: set<nat>, third: Table, busy3: set<nat>)
    requires StaysAbandoned(first, busy1, second, busy2) && StaysAbandoned(second, busy2, third, busy3)
    ensures StaysAbandoned(first, busy1, third, busy3)
  {
  }

  /** What happens to a replica with a restart pending concerns no abandoned one. */
  lemma {:induction false} PendingReturns(was: Table, before: set<nat>, now: Table, after: set<nat>, i: nat)
    requires i in before && after <= before
    requires
      || now == was - {i}
      || (exists r, n :: now == AfterRespawn(was, i, r, n))
      || (exists s :: now == WithStatus(was, i, s))
    ensures StaysAbandoned(was, before, now, after)
  {
  }

  /** The turn of a replica that is not considered changes nothing. */
  lemma {:induction false} TurnReturnsNobody(was: Table, before: set<nat>, now: Table, after: set<nat>, i: nat)
    requires now - {i} == was - {i} && after - {i} == before - {i}
    requires !Considered(was, before, i) ==> now == was && after == before
    ensures StaysAbandoned(was, before, now, after)
  {
    SameElsewhere(was, now, i);
    assert forall j :: j != i ==> (j in after <==> j in after - {i}) && (j in before <==> j in before - {i});
  }

  lemma {:induction false} UnhealthyIsConsidered(table: Table, restarting: set<nat>, i: nat)
    requires i in table
    ensures Considered(WithStatus(table, i, UNHEALTHY), restarting - {i}, i)
  {
  }

  /** A restart whose launch raised is followed by another exactly when a launch error was caught. */
  lemma {:induction false} RetriedExactly(table: Table, restarting: set<nat>, i: nat, respawn: Respawn, restarts: int)
    requires i !in table && respawn != Spawned
    ensures var now := AfterRespawn(table, i, respawn, restarts);
            && (Considered(now, restarting - {i}, i) <==> respawn != OtherError)
            && (Abandoned(now, restarting - {i}, i) <==> respawn == OtherError)
  {
  }

  /** Looking at replica `i` leaves the others' turn as it was. */
  lemma {:induction false} OthersStillConsidered(was: Table, now: Table, before: set<nat>, after: set<nat>, i: nat)
    requires now - {i} == was - {i} && after - {i} == before - {i}
    ensures forall j :: j != i ==> (Considered(now, after, j) <==> Considered(was, before, j))
  {
    SameElsewhere(was, now, i);
    assert forall j :: j != i ==> (j in after <==> j in after - {i});
    assert forall j :: j != i ==> (j in before <==> j in before - {i});
  }

  // ------------------------------------------------------------------ the steps, by value

  /** The counters after one probe. */
  function AfterProbe(h: Health, ok: bool, unhealthyAfter: int): Health {
    if ok then Health(HEALTHY, 0, h.restarts)
    else if h.failures + 1 >= unhealthyAfter && h.status == HEALTHY then Health(UNHEALTHY, h.failures + 1, h.restarts)
    else h.(failures := h.failures + 1)
  }

  /** An entry's counters after a series of probes. */
  function AfterProbes(h: Health, oks: seq<bool>, unhealthyAfter: int): Health {
    if oks == [] then h
    else AfterProbe(AfterProbes(h, oks[..|oks| - 1], unhealthyAfter), oks[|oks| - 1], unhealthyAfter)
  }

  /** How many probes have failed in a row at the end of the series. */
  function FailedInARow(oks: seq<bool>): (r: nat)
    ensures r <= |oks|
    ensures forall k :: |oks| - r <= k < |oks| ==> !oks[k]
    ensures r < |oks| ==> oks[|oks| - r - 1]
  {
    if oks == [] || oks[|oks| - 1] then 0 else 1 + FailedInARow(oks[..|oks| - 1])
  }

  /**
   * Any series of probes: only the failures since the last success count. Once there was a success,
   * a replica is healthy exactly while fewer than `unhealthyAfter` probes in a row have failed; before
   * that a healthy one is marked when the count reaches the limit, and no other gains its health by
   * failing. The restart count is untouched.
   */
  lemma {:induction false} ProbesDecide(h: Health, oks: seq<bool>, unhealthyAfter: int)
    requires unhealthyAfter >= 1
    ensures var now, run := AfterProbes(h, oks, unhealthyAfter), FailedInARow(oks);
            && now.restarts == h.restarts
            && (run < |oks| ==>
                  && now.failures == run
                  && now.status == if run < unhealthyAfter then HEALTHY else UNHEALTHY)
            && (run == |oks| ==>
                  && now.failures == h.failures + run
                  && now.status == if h.status == HEALTHY && run > 0 && h.failures + run >= unhealthyAfter
                                   then UNHEALTHY else h.status)
  {
    if oks != [] {
      ProbesDecide(h, oks[..|oks| - 1], unhealthyAfter);
    }
  }

  /** A healthy replica without failures is marked down by the failure that makes `unhealthyAfter` in a row. */
  lemma {:induction false} MarkedAtLimit(h: Health, oks: seq<bool>, ok: bool, unhealthyAfter: int)
    requires unhealthyAfter >= 1 && h.status == HEALTHY && h.failures == 0
    ensures var was, now := AfterProbes(h, oks, unhealthyAfter), AfterProbes(h, oks + [ok], unhealthyAfter);
            && (was.status == HEALTHY <==> FailedInARow(oks) < unhealthyAfter)
            && (was.status == HEALTHY && now.status != HEALTHY <==> !ok && FailedInARow(oks) == unhealthyAfter - 1)
            && (now.status != HEALTHY ==> now.status == UNHEALTHY)
            && (ok ==> now == Health(HEALTHY, 0, h.restarts))
  {
    ProbesDecide(h, oks, unhealthyAfter);
    ProbesDecide(h, oks + [ok], unhealthyAfter);
    assert (oks + [ok])[..|oks|] == oks;
  }

  lemma {:induction false} ProbeKeeps(v: View, i: nat, ok: bool, unhealthyAfter: int, maxRestarts: nat)
    requires Coherent(v, unhealthyAfter, maxRestarts) && i in v.live && i in v.table && unhealthyAfter >= 1
    ensures var now := v.table[i := AfterProbe(v.table[i], ok, unhealthyAfter)];
            Coherent(v.(table := now), unhealthyAfter, maxRestarts) && StaysStopped(v.table, now)
  {
    assert i !in v.restarting && i !in v.down && !Stopped(v.table, i);
    assert forall t :: t in v.tasks ==> t.index in v.restarting;
  }

  lemma {:induction false} LiveKeeps(v: View, i: nat, unhealthyAfter: int, maxRestarts: nat)
    requires Coherent(v, unhealthyAfter, maxRestarts)
    requires i < v.slots && i !in v.down && !Stopped(v.table, i) && forall j :: j in v.live ==> j < i
    ensures Coherent(v.(live := v.live + [i]), unhealthyAfter, maxRestarts)
  {
    assert forall k :: 0 <= k < |v.live| ==> v.live[k] in v.live;
  }

  lemma {:induction false} MarkDownKeeps(v: View, i: nat, unhealthyAfter: int, maxRestarts: nat)
    requires Coherent(v, unhealthyAfter, maxRestarts) && i < v.slots && i in v.table && !Stopped(v.table, i)
    requires i !in v.restarting && i !in v.live
    ensures var now := WithStatus(v.table, i, UNHEALTHY);
            Coherent(v.(table := now, down := v.down + {i}), unhealthyAfter, maxRestarts) && StaysStopped(v.table, now)
  {
    assert forall t :: t in v.tasks ==> t.index in v.restarting;
  }

  lemma {:induction false} GiveUpKeeps(v: View, i: nat, unhealthyAfter: int, maxRestarts: nat)
    requires Coherent(v, unhealthyAfter, maxRestarts) && i in v.table && i in v.down && i !in v.restarting
    ensures var now := WithStatus(v.table, i, STOPPED);
            Coherent(v.(table := now), unhealthyAfter, maxRestarts) && StaysStopped(v.table, now)
  {
    assert forall t :: t in v.tasks ==> t.index in v.restarting;
  }

  lemma {:induction false} GrantKeeps(v: View, i: nat, attempt: nat, unhealthyAfter: int, maxRestarts: nat)
    requires Coherent(v, unhealthyAfter, maxRestarts) && i in v.down && i !in v.restarting
    requires i in v.table && v.table[i].status == UNHEALTHY && 1 <= attempt <= maxRestarts
    ensures Coherent(v.(tasks := v.tasks + {Restart(i, Sleeping(attempt))}, restarting := v.restarting + {i}),
                     unhealthyAfter, maxRestarts)
  {
    assert forall t :: t in v.tasks ==> t.index in v.restarting;
    AddTask(v.tasks, Restart(i, Sleeping(attempt)));
  }

  lemma {:induction false} AddTask(tasks: set<Restart>, t: Restart)
    ensures Indices(tasks + {t}) == Indices(tasks) + {t.index}
  {
    assert t in tasks + {t};
    assert forall u :: u in tasks ==> u in tasks + {t};
  }

  lemma {:induction false} DropTask(tasks: set<Restart>, t: Restart)
    requires t in tasks && forall u :: u in tasks && u.index == t.index ==> u == t
    ensures Indices(tasks - {t}) == Indices(tasks) - {t.index}
  {
    assert forall u :: u in tasks && u != t ==> u in tasks - {t} && u.index != t.index;
  }

  function Moved(v: View, t: Restart, next: Phase): View {
    v.(tasks := v.tasks - {t} + {Restart(t.index, next)})
  }

  /** A restart moves on to its next phase. */
  lemma {:induction false} AdvanceKeeps(
    v: View, t: Restart, next: Phase, now: Table, unhealthyAfter: int, maxRestarts: nat)
    requires Coherent(v, unhealthyAfter, maxRestarts) && t in v.tasks
    requires now - {t.index} == v.table - {t.index}
    requires InPhase(now, Restart(t.index, next), maxRestarts) && !next.Sleeping?
    ensures Coherent(Moved(v.(table := now), t, next), unhealthyAfter, maxRestarts)
    ensures StaysStopped(v.table, now)
  {
    SameElsewhere(v.table, now, t.index);
    assert t.index in Indices(v.tasks);
    DropTask(v.tasks, t);
    AddTask(v.tasks - {t}, Restart(t.index, next));
  }

  lemma {:induction false} SameElsewhere(was: Table, now: Table, index: int)
    requires now - {index} == was - {index}
    ensures forall i :: i != index ==> (i in now <==> i in was)
    ensures forall i :: i != index && i in now ==> now[i] == was[i]
  {
    forall i | i != index
      ensures (i in now <==> i in was) && (i in now ==> now[i] == was[i])
    {
      assert i in now <==> i in now - {index};
      assert i in was <==> i in was - {index};
      assert i in now ==> now[i] == (now - {index})[i] && was[i] == (was - {index})[i];
    }
  }

  /** A restart is no longer pending, and a replica that became ready no longer down. */
  function WhenOver(v: View, t: Restart, ready: bool): View {
    v.(tasks := v.tasks - {t}, restarting := v.restarting - {t.index}, down := if ready then v.down - {t.index} else v.down)
  }

  /** A restart ends: the replica is ready, or it stays down without taking requests. */
  lemma {:induction false} EndKeeps(v: View, t: Restart, ready: bool, now: Table, unhealthyAfter: int, maxRestarts: nat)
    requires Coherent(v, unhealthyAfter, maxRestarts) && t in v.tasks && !t.phase.Sleeping? && unhealthyAfter >= 1
    requires now - {t.index} == v.table - {t.index}
    requires t.index in now ==> now[t.index].status == if ready then HEALTHY else UNHEALTHY
    requires t.index in now ==> now[t.index].failures == 0
    ensures Coherent(WhenOver(v.(table := now), t, ready), unhealthyAfter, maxRestarts)
    ensures StaysStopped(v.table, now)
  {
    SameElsewhere(v.table, now, t.index);
    assert t.index in Indices(v.tasks);
    DropTask(v.tasks, t);
    assert forall u :: u in v.tasks && u != t ==> u.index != t.index;
  }

  /** The engine in slot `t.index` is terminated, and the restart is about to launch another. */
  lemma {:induction false} EnginesBegin(
    replicas: seq<Replica>, running: set<ProcessHandle>, launched: set<ProcessHandle>, tasks: set<Restart>,
    down: set<nat>, t: Restart, restarts: int, gone: ProcessHandle)
    requires EnginesFit(replicas, running, launched, tasks, down)
    ensures EnginesFit(
      replicas, running - {gone}, launched, tasks - {t} + {Restart(t.index, Launching(restarts))}, down)
  {
  }

  /** A restart that has yet to launch anything is added. */
  lemma {:induction false} EnginesAsBefore(
    replicas: seq<Replica>, running: set<ProcessHandle>, launched: set<ProcessHandle>, tasks: set<Restart>,
    down: set<nat>, t: Restart)
    requires EnginesFit(replicas, running, launched, tasks, down) && t.phase.Sleeping?
    ensures EnginesFit(replicas, running, launched, tasks + {t}, down)
  {
  }

  /** A new engine is started and waited for. */
  lemma {:induction false} EnginesStarted(
    replicas: seq<Replica>, running: set<ProcessHandle>, launched: set<ProcessHandle>, more: set<ProcessHandle>,
    tasks: set<Restart>, down: set<nat>, t: Restart, restarts: int, process: ProcessHandle)
    requires EnginesFit(replicas, running, launched, tasks, down)
    requires process !in launched && process in more && launched <= more
    ensures EnginesFit(
      replicas, running + {process}, more, tasks - {t} + {Restart(t.index, Waiting(restarts, process))}, down)
  {
  }

  lemma {:induction false} EnginesRaised(
    replicas: seq<Replica>, running: set<ProcessHandle>, launched: set<ProcessHandle>, more: set<ProcessHandle>,
    tasks: set<Restart>, down: set<nat>, t: Restart)
    requires EnginesFit(replicas, running, launched, tasks, down) && launched <= more
    ensures EnginesFit(replicas, running, more, tasks - {t}, down)
  {
  }

  /** The new engine takes the slot over. */
  lemma {:induction false} EnginesReady(
    replicas: seq<Replica>, running: set<ProcessHandle>, launched: set<ProcessHandle>, tasks: set<Restart>,
    down: set<nat>, t: Restart, fresh': Replica)
    requires EnginesFit(replicas, running, launched, tasks, down) && t.index < |replicas|
    requires fresh'.process in launched
    ensures EnginesFit(replicas[t.index := fresh'], running, launched, tasks - {t}, down - {t.index})
  {
  }

  lemma {:induction false} EnginesNotReady(
    replicas: seq<Replica>, running: set<ProcessHandle>, launched: set<ProcessHandle>, tasks: set<Restart>,
    down: set<nat>, t: Restart, gone: ProcessHandle)
    requires EnginesFit(replicas, running, launched, tasks, down)
    ensures EnginesFit(replicas, running - {gone}, launched, tasks - {t}, down)
  {
  }

  lemma {:induction false} NoneLive(v: View, unhealthyAfter: int, maxRestarts: nat)
    requires Coherent(v, unhealthyAfter, maxRestarts)
    ensures Coherent(v.(live := []), unhealthyAfter, maxRestarts)
  {
  }

  lemma {:induction false} CancelKeeps(v: View, unhealthyAfter: int, maxRestarts: nat)
    requires Coherent(v, unhealthyAfter, maxRestarts)
    ensures Coherent(v.(tasks := {}, restarting := {}, live := []), unhealthyAfter, maxRestarts)
  {
  }

  // ------------------------------------------------------------------ the restart budget

  function TimesOf(times: map<nat, seq<real>>, i: nat): seq<real> {
    if i in times then times[i] else []
  }

  /** For every replica, what is remembered fits what was ever granted. */
  ghost predicate Budgeted(
    granted: map<nat, seq<real>>, times: map<nat, seq<real>>, clock: real, window: real, maxRestarts: nat)
  {
    forall i :: R.Remembered(TimesOf(granted, i), TimesOf(times, i), clock, window, maxRestarts)
  }

  lemma {:induction false} BudgetUpdate(
    granted: map<nat, seq<real>>, times: map<nat, seq<real>>, clock: real, now: real, window: real, maxRestarts: nat,
    i: nat, g: seq<real>, t: seq<real>)
    requires Budgeted(granted, times, clock, window, maxRestarts) && clock <= now
    requires R.Remembered(g, t, now, window, maxRestarts)
    ensures Budgeted(granted[i := g], times[i := t], now, window, maxRestarts)
  {
    hide R.Remembered;
    var granted', times' := granted[i := g], times[i := t];
    forall j
      ensures R.Remembered(TimesOf(granted', j), TimesOf(times', j), now, window, maxRestarts)
    {
      R.LaterRemembers(TimesOf(granted, j), TimesOf(times, j), clock, now, window, maxRestarts);
    }
  }

  class HealthChecker {
    const router: ReplicaRouter
    const replicaSet: ReplicaSet
    const unhealthyAfter: int
    const maxRestarts: nat
    const window: real
    const restartEnabled: bool
    var restartTimes: map<nat, seq<real>>
    var restarting: set<nat>
    var tasks: set<Restart>
    var live: seq<nat>                        // what the suspended `check_once` is probing
    ghost var down: set<nat>                  // seen dead, not ready again since
    ghost var granted: map<nat, seq<real>>    // every restart ever granted
    var clock: real                           // the last reading of the monotonic clock

    ghost function State(): View
      reads this, replicaSet`replicas
      reads router`replicas, router.replicas.Values
    {
      View(|replicaSet.replicas|, router.Table(), tasks, restarting, live, down)
    }

    ghost predicate EnginesKnown()
      reads `tasks, `down, replicaSet`replicas, replicaSet.launcher`launched, replicaSet.launcher.launched
    {
      EnginesFit(
        replicaSet.replicas, Running(replicaSet.launcher.launched), replicaSet.launcher.launched, tasks, down)
    }

    ghost predicate Valid()
      reads this, replicaSet, replicaSet.ports, replicaSet.launcher, replicaSet.launcher.launched
      reads router, router.ledger.Keys, router.leases.Keys, router.replicas.Values, Engines(replicaSet.replicas)
    {
      && replicaSet.router == router && unhealthyAfter >= 1
      && replicaSet.Valid() && replicaSet.SlotsValid()
      && Coherent(State(), unhealthyAfter, maxRestarts)
      && EnginesKnown()
      && Budgeted(granted, restartTimes, clock, window, maxRestarts)
    }

    /** Nothing has been checked yet. */
    ghost predicate Idle()
      reads this
    {
      restarting == {} && tasks == {} && live == [] && down == {} && granted == map[] && restartTimes == map[]
    }

    /** Once the replicas have started, checking can begin. */
    lemma {:induction false} Begins()
      requires Idle() && replicaSet.router == router && unhealthyAfter >= 1
      requires replicaSet.Valid() && replicaSet.SlotsValid()
      requires TableUp(replicaSet.replicas, map[], router.Table())
      ensures Valid()
    {
      hide ReplicaRouter.Valid, ReplicaSet.PortsValid, ReplicaSet.SlotsValid;
      forall i
        ensures R.Remembered(TimesOf(granted, i), TimesOf(restartTimes, i), clock, window, maxRestarts)
      {
        R.NothingRemembered(clock, window, maxRestarts);
      }
      assert forall i :: 0 <= i < |replicaSet.replicas| ==> ProcessesOf(replicaSet.replicas)[i] in ProcessesOf(replicaSet.replicas);
    }

    constructor (replicaSet: ReplicaSet, unhealthyAfter: int, maxRestarts: nat, window: real, restartEnabled: bool)
      ensures this.replicaSet == replicaSet && router == replicaSet.router
      ensures this.unhealthyAfter == unhealthyAfter && this.maxRestarts == maxRestarts
      ensures Idle()
    {
      this.replicaSet, this.router := replicaSet, replicaSet.router;
      this.unhealthyAfter, this.maxRestarts, this.window := unhealthyAfter, maxRestarts, window;
      this.restartEnabled := restartEnabled;
      restartTimes, restarting, tasks, live := map[], {}, {}, [];
      down, granted, clock := {}, map[], 0.0;
    }

    /** Takes a replica seen dead out of service. */
    method MarkDown(i: nat)
      requires Valid() && i < |replicaSet.replicas| && !replicaSet.replicas[i].process.running
      requires i in router.replicas && !Stopped(router.Table(), i) && i !in restarting && i !in live
      modifies `down, router.replicas[i]
      ensures Valid() && down == old(down) + {i} && router.replicas[i].status == UNHEALTHY
      ensures router.Table() == WithStatus(old(router.Table()), i, UNHEALTHY)
      ensures StaysStopped(old(router.Table()), router.Table())
    {
      hide ReplicaRouter.Valid, ReplicaSet.PortsValid, ReplicaSet.ProcessesValid, ReplicaSet.SlotsValid;
      hide ReplicaRouter.Table, Coherent, Budgeted;
      router.TableAt(i);
      MarkDownKeeps(State(), i, unhealthyAfter, maxRestarts);
      router.SetStatus(i, UNHEALTHY);
      down := down + {i};
      router.TableAt(i);
    }

    /** Leaves a dead replica stopped. */
    method GiveUp(i: nat)
      requires Valid() && i in down && i !in restarting && i in router.replicas
      modifies router.replicas[i]
      ensures Valid() && router.Table() == WithStatus(old(router.Table()), i, STOPPED)
      ensures StaysStopped(old(router.Table()), router.Table())
    {
      hide ReplicaRouter.Valid, ReplicaSet.PortsValid, ReplicaSet.ProcessesValid, ReplicaSet.SlotsValid;
      hide ReplicaRouter.Table, Coherent, Budgeted;
      router.TableAt(i);
      GiveUpKeeps(State(), i, unhealthyAfter, maxRestarts);
      router.SetStatus(i, STOPPED);
    }

    /** Records one more restart and starts its task. */
    method Grant(i: nat, now: real, times: seq<real>)
      requires Valid() && clock <= now && i in down && i !in restarting
      requires i in router.replicas && router.replicas[i].status == UNHEALTHY
      requires R.Remembered(TimesOf(granted, i), times, now, window, maxRestarts) && |times| < maxRestarts
      modifies `restartTimes, `restarting, `tasks, `granted, `clock
      ensures Valid() && clock == now
      ensures tasks == old(tasks) + {Restart(i, Sleeping(|times| + 1))} && restarting == old(restarting) + {i}
      ensures granted == old(granted)[i := old(TimesOf(granted, i)) + [now]]
    {
      hide ReplicaSet.Valid, ReplicaSet.SlotsValid, Coherent, Budgeted, R.Remembered, EnginesFit, Running;
      ghost var g, v := TimesOf(granted, i), State();
      hide TimesOf;
      EnginesAsBefore(replicaSet.replicas, Running(replicaSet.launcher.launched), replicaSet.launcher.launched,
                      tasks, down, Restart(i, Sleeping(|times| + 1)));
      R.GrantRemembers(g, times, now, window, maxRestarts);
      BudgetUpdate(granted, restartTimes, clock, now, window, maxRestarts, i, g + [now], times + [now]);
      GrantKeeps(State(), i, |times| + 1, unhealthyAfter, maxRestarts);
      restartTimes, granted, clock := restartTimes[i := times + [now]], granted[i := g + [now]], now;
      restarting := restarting + {i};
      tasks := tasks + {Restart(i, Sleeping(|times| + 1))};
      assert State() == v.(tasks := tasks, restarting := restarting);
    }

    /** The budget refuses: only what is still in the window stays remembered. */
    method Refuse(i: nat, now: real, times: seq<real>)
      requires Valid() && clock <= now
      requires R.Remembered(TimesOf(granted, i), times, now, window, maxRestarts)
      modifies `restartTimes, `granted, `clock
      ensures Valid() && clock == now
      ensures granted == old(granted)[i := old(TimesOf(granted, i))]
    {
      hide ReplicaSet.Valid, ReplicaSet.SlotsValid, Coherent, Budgeted, R.Remembered;
      ghost var g := TimesOf(granted, i);
      BudgetUpdate(granted, restartTimes, clock, now, window, maxRestarts, i, g, times);
      restartTimes, granted, clock := restartTimes[i := times], granted[i := g], now;
    }

    /** The `while times and now - times[0] > window: times.popleft()` of a dead replica. */
    method Forget(i: nat, now: real) returns (times: seq<real>)
      requires Valid() && clock <= now
      ensures Valid() && times == R.Prune(TimesOf(restartTimes, i), now, window)
      ensures R.Remembered(TimesOf(granted, i), times, now, window, maxRestarts)
      ensures |R.GrantedWithin(TimesOf(granted, i), now - window, window)| == |times|
    {
      hide R.Remembered, R.GrantedWithin, Valid;
      InWindow(i, now);
      times := TimesOf(restartTimes, i);
      while times != [] && now - times[0] > window
        invariant R.Prune(times, now, window) == R.Prune(TimesOf(restartTimes, i), now, window)
      {
        times := times[1..];
      }
    }

    /** Restarts a replica marked down, or leaves it stopped when the budget is exhausted. */
    method RestartOrGiveUp(i: nat, now: real)
      requires Valid() && clock <= now && i in down && i !in restarting
      requires i in router.replicas && router.replicas[i].status == UNHEALTHY
      modifies `restartTimes, `restarting, `tasks, `granted, `clock, router.replicas[i]
      ensures Valid() && clock <= now && StaysStopped(old(router.Table()), router.Table())
      ensures var n := |R.GrantedWithin(old(TimesOf(granted, i)), now - window, window)|;
              if n < maxRestarts then
                && router.Table() == old(router.Table())
                && tasks == old(tasks) + {Restart(i, Sleeping(n + 1))} && restarting == old(restarting) + {i}
                && granted == old(granted)[i := old(TimesOf(granted, i)) + [now]]
              else
                && router.Table() == WithStatus(old(router.Table()), i, STOPPED)
                && tasks == old(tasks) && restarting == old(restarting)
                && granted == old(granted)[i := old(TimesOf(granted, i))]
    {
      hide Valid, ReplicaRouter.Table, R.Remembered, R.GrantedWithin, R.Prune, WithStatus, StaysStopped;
      NothingChanged(router.Table());
      var times := Forget(i, now);
      if |times| >= maxRestarts {
        Refuse(i, now, times);
        GiveUp(i);
      } else {
        Grant(i, now, times);
      }
    }

    /**
     * A replica seen dead is restarted while fewer than `maxRestarts` restarts were granted within
     * the window that ends now, and stopped for good otherwise.
     */
    method HandleDead(i: nat, now: real)
      requires Valid() && clock <= now
      requires i < |replicaSet.replicas| && !replicaSet.replicas[i].process.running
      requires i in router.replicas && !Stopped(router.Table(), i) && i !in restarting && i !in live
      modifies `restartTimes, `restarting, `tasks, `down, `granted, `clock, router.replicas[i]
      ensures Valid() && clock <= now
      ensures down == old(down) + {i} && StaysStopped(old(router.Table()), router.Table())
      ensures var n := |R.GrantedWithin(old(TimesOf(granted, i)), now - window, window)|;
              if restartEnabled && n < maxRestarts then
                && router.Table() == WithStatus(old(router.Table()), i, UNHEALTHY)
                && tasks == old(tasks) + {Restart(i, Sleeping(n + 1))} && restarting == old(restarting) + {i}
                && granted == old(granted)[i := old(TimesOf(granted, i)) + [now]]
              else
                && router.Table() == WithStatus(old(router.Table()), i, STOPPED)
                && tasks == old(tasks) && restarting == old(restarting)
                && forall j :: TimesOf(granted, j) == old(TimesOf(granted, j))
    {
      hide Valid, ReplicaRouter.Table, R.Remembered, R.GrantedWithin, WithStatus, StaysStopped;
      ghost var table := router.Table();
      StopAfterMark(table, i);
      MarkDown(i);
      StoppedBothTimes(table, router.Table(), WithStatus(table, i, STOPPED));
      if restartEnabled {
        RestartOrGiveUp(i, now);
      } else {
        GiveUp(i);
      }
    }

    /** One turn of the scanning loop. */
    method Examine(i: nat, now: real)
      requires Valid() && clock <= now && i < |replicaSet.replicas| && forall j :: j in live ==> j < i
      modifies `live, `restartTimes, `restarting, `tasks, `down, `granted, `clock, router.replicas.Values
      ensures Valid() && clock <= now
      ensures router.Table() - {i} == old(router.Table()) - {i} && StaysStopped(old(router.Table()), router.Table())
      ensures restarting - {i} == old(restarting) - {i} && old(down) <= down <= old(down) + {i}
      ensures live == old(live) + if Considered(old(router.Table()), old(restarting), i) && replicaSet.replicas[i].process.running then [i] else []
      ensures Considered(old(router.Table()), old(restarting), i) && !replicaSet.replicas[i].process.running ==>
        i in down && (i in restarting || Stopped(router.Table(), i))
      ensures !Considered(old(router.Table()), old(restarting), i) ==> router.Table() == old(router.Table()) && restarting == old(restarting)
    {
      hide ReplicaRouter.Table, StaysStopped, R.GrantedWithin;
      hide ReplicaSet.Valid, ReplicaSet.SlotsValid, Coherent, Budgeted;
      NothingChanged(router.Table());
      router.TableAt(i);
      if i in restarting || i !in router.replicas || router.replicas[i].status == STOPPED {
        return;
      }
      if !replicaSet.replicas[i].process.running {
        HandleDead(i, now);
        return;
      }
      LiveKeeps(State(), i, unhealthyAfter, maxRestarts);
      live := live + [i];
    }

    /** The first half of `check_once`: dead replicas are handled, the others will be probed. */
    method Scan(nows: nat -> real)
      requires Valid() && live == []
      requires clock <= nows(0) && forall i, j :: i <= j ==> nows(i) <= nows(j)
      modifies `live, `restartTimes, `restarting, `tasks, `down, `granted, `clock, router.replicas.Values
      ensures Valid() && StaysStopped(old(router.Table()), router.Table()) && old(down) <= down
      ensures forall i: nat :: i in live <==>
        && i < |replicaSet.replicas|
        && Considered(old(router.Table()), old(restarting), i) && replicaSet.replicas[i].process.running
      ensures forall i: nat ::
        && i < |replicaSet.replicas|
        && Considered(old(router.Table()), old(restarting), i) && !replicaSet.replicas[i].process.running
        ==> i in down && (i in restarting || Stopped(router.Table(), i))
      ensures StaysAbandoned(old(router.Table()), old(restarting), router.Table(), restarting)
    {
      hide Valid, ReplicaRouter.Table, StaysStopped, Considered, Stopped, StaysAbandoned;
      NothingChanged(router.Table());
      NobodyReturns(router.Table(), restarting, restarting);
      ghost var table, busy := router.Table(), restarting;
      for i := 0 to |replicaSet.replicas|
        invariant Valid() && clock <= nows(i) && StaysStopped(table, router.Table()) && old(down) <= down
        invariant StaysAbandoned(table, busy, router.Table(), restarting)
        invariant forall j: nat :: i <= j ==>
          (Considered(router.Table(), restarting, j) <==> Considered(table, busy, j))
        invariant forall j: nat :: j in live <==>
          j < i && Considered(table, busy, j) && replicaSet.replicas[j].process.running
        invariant forall j: nat :: j < i && Considered(table, busy, j) && !replicaSet.replicas[j].process.running ==>
          j in down && (j in restarting || Stopped(router.Table(), j))
      {
        ghost var table', busy' := router.Table(), restarting;
        Examine(i, nows(i));
        OthersStillConsidered(table', router.Table(), busy', restarting, i);
        TurnReturnsNobody(table', busy', router.Table(), restarting, i);
        AbandonedBothTimes(table, busy, table', busy', router.Table(), restarting);
        StoppedBothTimes(table, table', router.Table());
        StillStopped(table', router.Table(), busy', restarting, i);
        assert nows(i) <= nows(i + 1);
      }
    }

    /** The counter and status changes of one probe, on the entry's object. */
    method CountProbe(state: ReplicaState, ok: bool)
      requires router.Valid() && state.id in router.replicas && router.replicas[state.id] == state
      modifies state`status, state`consecutiveHealthFailures
      ensures router.Valid()
      ensures var table := old(router.Table());
              router.Table() == table[state.id := AfterProbe(table[state.id], ok, unhealthyAfter)]
    {
      hide ReplicaRouter.Valid;
      EntriesKnown(router);
      if ok {
        if state.status != HEALTHY {
          state.status := HEALTHY;
        }
        state.consecutiveHealthFailures := 0;
      } else {
        state.consecutiveHealthFailures := state.consecutiveHealthFailures + 1;
        if state.consecutiveHealthFailures >= unhealthyAfter && state.status == HEALTHY {
          state.status := UNHEALTHY;
        }
      }
      ghost var table := old(router.Table());
      assert router.Table() == table[state.id := AfterProbe(table[state.id], ok, unhealthyAfter)] by {
        assert router.Table().Keys == table.Keys;
        assert forall id :: id in router.replicas && id != state.id ==> router.Table()[id] == table[id];
      }
    }

    /** One probe result of the gathered ones. */
    method RecordProbe(i: nat, ok: bool)
      requires Valid() && i in live
      modifies router.replicas.Values
      ensures Valid() && StaysStopped(old(router.Table()), router.Table())
      ensures var table := old(router.Table());
              router.Table() == if i in table then table[i := AfterProbe(table[i], ok, unhealthyAfter)] else table
    {
      hide ReplicaRouter.Valid, ReplicaRouter.Table, ReplicaSet.PortsValid, ReplicaSet.ProcessesValid;
      hide ReplicaSet.SlotsValid, Coherent, Budgeted, StaysStopped, AfterProbe;
      NothingChanged(router.Table());
      router.TableAt(i);
      if i in router.replicas {
        ProbeKeeps(State(), i, ok, unhealthyAfter, maxRestarts);
        EntriesKnown(router);
        CountProbe(router.replicas[i], ok);
      }
    }

    /** The second half of `check_once`, when all probes have come back. */
    method ApplyProbes(oks: seq<bool>)
      requires Valid() && |oks| == |live|
      modifies `live, router.replicas.Values
      ensures Valid() && live == [] && StaysStopped(old(router.Table()), router.Table())
      ensures forall k :: 0 <= k < |oks| && old(live[k] in router.Table()) ==>
        && old(live)[k] in router.Table()
        && router.Table()[old(live)[k]] == AfterProbe(old(router.Table())[old(live)[k]], oks[k], unhealthyAfter)
      ensures forall i :: i !in old(live) ==>
        && (i in router.Table() <==> i in old(router.Table()))
        && (i in router.Table() ==> router.Table()[i] == old(router.Table())[i])
      ensures router.Table().Keys == old(router.Table()).Keys
    {
      hide Valid, ReplicaRouter.Table, StaysStopped, AfterProbe;
      NothingChanged(router.Table());
      ProbedOnce();
      ghost var table := router.Table();
      for k := 0 to |live|
        invariant live == old(live)
        invariant Valid() && StaysStopped(table, router.Table()) && router.Table().Keys == table.Keys
        invariant forall j :: 0 <= j < k && live[j] in table ==>
          router.Table()[live[j]] == AfterProbe(table[live[j]], oks[j], unhealthyAfter)
        invariant forall i :: i !in live[..k] && i in table ==> router.Table()[i] == table[i]
      {
        ghost var table' := router.Table();
        RecordProbe(live[k], oks[k]);
        StoppedBothTimes(table, table', router.Table());
        assert live[..k + 1] == live[..k] + [live[k]];
      }
      assert live[..|live|] == live;
      EndProbing();
    }

    method EndProbing()
      requires Valid()
      modifies `live
      ensures Valid() && live == []
    {
      hide ReplicaSet.Valid, ReplicaSet.SlotsValid, Coherent, Budgeted;
      NoneLive(State(), unhealthyAfter, maxRestarts);
      live := [];
    }

    lemma {:induction false} ProbedOnce()
      requires Valid()
      ensures forall j, k :: 0 <= j < k < |live| ==> live[j] != live[k]
    {
    }

    // -------------------------------------------------------------- _restart, between its awaits

    lemma {:induction false} RestartsHaveSlots(t: Restart)
      requires Valid() && t in tasks
      ensures t.index in restarting && t.index in down
      ensures t.index < |replicaSet.replicas| && replicaSet.replicas[t.index].index == t.index
      ensures replicaSet.replicas[t.index].process in replicaSet.launcher.launched
      ensures t.phase.Waiting? ==> t.phase.process in replicaSet.launcher.launched
      ensures InPhase(router.Table(), t, maxRestarts) && !Stopped(router.Table(), t.index)
    {
    }

    /** The backoff is over: the old engine is made sure of and its entry leaves the table. */
    method RestartBegins(t: Restart)
      requires Valid() && t in tasks && t.phase.Sleeping?
      requires t.index < |replicaSet.replicas|
      modifies `tasks, router`replicas, router`order, replicaSet.replicas[t.index].process
      ensures Valid() && StaysStopped(old(router.Table()), router.Table())
      ensures router.Table() == old(router.Table()) - {t.index}
      ensures t.index in old(router.Table())
      ensures tasks == old(tasks) - {t} + {Restart(t.index, Launching(old(router.Table())[t.index].restarts + 1))}
      ensures StaysAbandoned(old(router.Table()), old(restarting), router.Table(), restarting)
    {
      hide ReplicaRouter.Table, Coherent, Budgeted, StaysStopped, StaysAbandoned, R.Remembered;
      hide ReplicaRouter.Valid, ReplicaSet.PortsValid, ReplicaSet.ProcessesValid, ReplicaSet.Valid;
      hide EnginesFit, Running;
      RestartsHaveSlots(t);
      ghost var was := router.Table();
      ghost var v, slots, running := State(), replicaSet.replicas, Running(replicaSet.launcher.launched);
      var restarts := replicaSet.Unseat(t.index);
      EnginesBegin(slots, running, replicaSet.launcher.launched, tasks, down, t, restarts, slots[t.index].process);
      AdvanceKeeps(v, t, Launching(restarts), router.Table(), unhealthyAfter, maxRestarts);
      PendingReturns(was, restarting, router.Table(), restarting, t.index);
      Proceed(t, Launching(restarts));
    }

    /** The launch returns an engine, which is waited for. */
    method RestartStarted(t: Restart) returns (process: ProcessHandle)
      requires Valid() && t in tasks && t.phase.Launching?
      modifies `tasks, replicaSet.launcher, router`replicas, router`order, router`ledger
      ensures Valid() && StaysStopped(old(router.Table()), router.Table()) && replicaSet.OnlyFresh()
      ensures router.Table() == AfterRespawn(old(router.Table()), t.index, Spawned, t.phase.restarts)
      ensures process in replicaSet.launcher.launched
      ensures tasks == old(tasks) - {t} + {Restart(t.index, Waiting(t.phase.restarts, process))}
      ensures StaysAbandoned(old(router.Table()), old(restarting), router.Table(), restarting)
    {
      hide ReplicaRouter.Table, Coherent, Budgeted, StaysStopped, StaysAbandoned, R.Remembered;
      hide ReplicaRouter.Valid, ReplicaSet.PortsValid, ReplicaSet.ProcessesValid, ReplicaSet.Valid;
      RestartsHaveSlots(t);
      ghost var was := router.Table();
      RespawnPhases(router.Table(), t.index, Spawned, t.phase.restarts);
      hide AfterRespawn, ReplicaSet.SlotsValid, ReplicaSet.OnlyFresh;
      hide EnginesFit, Running;
      ghost var v, running, launched := State(), Running(replicaSet.launcher.launched), replicaSet.launcher.launched;
      var started := replicaSet.Respawn(t.index, Spawned, t.phase.restarts);
      process := started.value;
      EnginesStarted(replicaSet.replicas, running, launched, replicaSet.launcher.launched, tasks, down, t,
                     t.phase.restarts, process);
      var next := Waiting(t.phase.restarts, process);
      AdvanceKeeps(v, t, next, router.Table(), unhealthyAfter, maxRestarts);
      PendingReturns(was, restarting, router.Table(), restarting, t.index);
      Proceed(t, next);
    }

    /** A restart is in its next phase. */
    method Proceed(t: Restart, next: Phase)
      requires replicaSet.router == router && unhealthyAfter >= 1 && replicaSet.Valid() && replicaSet.SlotsValid()
      requires Coherent(Moved(State(), t, next), unhealthyAfter, maxRestarts)
      requires Budgeted(granted, restartTimes, clock, window, maxRestarts)
      requires EnginesFit(replicaSet.replicas, Running(replicaSet.launcher.launched), replicaSet.launcher.launched,
                          Moved(State(), t, next).tasks, down)
      modifies `tasks
      ensures Valid() && router.Table() == old(router.Table()) && tasks == old(tasks) - {t} + {Restart(t.index, next)}
    {
      hide ReplicaRouter.Valid, ReplicaRouter.Table, ReplicaSet.PortsValid, ReplicaSet.ProcessesValid;
      hide ReplicaSet.SlotsValid, Coherent, Budgeted, EnginesFit, Running;
      tasks := tasks - {t} + {Restart(t.index, next)};
    }

    /** The launch raises: the restart is over and the replica stays down. */
    method RestartRaised(t: Restart, respawn: Respawn)
      requires Valid() && t in tasks && t.phase.Launching? && respawn != Spawned
      modifies `tasks, `restarting, `down, replicaSet.launcher, router`replicas, router`order, router`ledger
      ensures Valid() && StaysStopped(old(router.Table()), router.Table()) && replicaSet.OnlyFresh()
      ensures router.Table() == AfterRespawn(old(router.Table()), t.index, respawn, t.phase.restarts)
      ensures tasks == old(tasks) - {t} && restarting == old(restarting) - {t.index} && down == old(down)
      ensures t.index in down && (Considered(router.Table(), restarting, t.index) <==> respawn != OtherError)
      ensures respawn == OtherError ==> Abandoned(router.Table(), restarting, t.index)
      ensures StaysAbandoned(old(router.Table()), old(restarting), router.Table(), restarting)
    {
      hide ReplicaRouter.Table, Coherent, Budgeted, StaysStopped, StaysAbandoned, R.Remembered;
      hide ReplicaRouter.Valid, ReplicaSet.PortsValid, ReplicaSet.ProcessesValid, ReplicaSet.Valid;
      RestartsHaveSlots(t);
      ghost var was := router.Table();
      RespawnPhases(router.Table(), t.index, respawn, t.phase.restarts);
      RetriedExactly(router.Table(), restarting, t.index, respawn, t.phase.restarts);
      hide Considered, Abandoned;
      hide AfterRespawn, ReplicaSet.SlotsValid, ReplicaSet.OnlyFresh;
      hide EnginesFit, Running;
      ghost var v, running, launched := State(), Running(replicaSet.launcher.launched), replicaSet.launcher.launched;
      var nothing := replicaSet.Respawn(t.index, respawn, t.phase.restarts);
      EnginesRaised(replicaSet.replicas, running, launched, replicaSet.launcher.launched, tasks, down, t);
      ghost var now := router.Table();
      EndKeeps(v, t, false, now, unhealthyAfter, maxRestarts);
      PendingReturns(was, restarting, router.Table(), restarting - {t.index}, t.index);
      End(t, false);
    }

    /** A restart is over, one way or the other. */
    method End(t: Restart, ready: bool)
      requires replicaSet.router == router && unhealthyAfter >= 1 && replicaSet.Valid() && replicaSet.SlotsValid()
      requires Coherent(WhenOver(State(), t, ready), unhealthyAfter, maxRestarts)
      requires Budgeted(granted, restartTimes, clock, window, maxRestarts)
      requires EnginesFit(replicaSet.replicas, Running(replicaSet.launcher.launched), replicaSet.launcher.launched,
                          tasks - {t}, WhenOver(State(), t, ready).down)
      modifies `tasks, `restarting, `down
      ensures Valid() && router.Table() == old(router.Table())
      ensures tasks == old(tasks) - {t} && restarting == old(restarting) - {t.index}
      ensures down == if ready then old(down) - {t.index} else old(down)
    {
      hide ReplicaRouter.Valid, ReplicaRouter.Table, ReplicaSet.PortsValid, ReplicaSet.ProcessesValid;
      hide ReplicaSet.SlotsValid, Coherent, Budgeted, EnginesFit, Running;
      tasks, restarting := tasks - {t}, restarting - {t.index};
      down := if ready then down - {t.index} else down;
    }

    /** The new engine is ready and takes over the slot. */
    method RestartReady(t: Restart)
      requires Valid() && t in tasks && t.phase.Waiting? && t.index in router.replicas
      modifies `tasks, `restarting, `down, replicaSet`replicas, router.replicas[t.index], t.phase.process
      ensures Valid() && StaysStopped(old(router.Table()), router.Table())
      ensures router.Table() == WithStatus(old(router.Table()), t.index, HEALTHY)
      ensures tasks == old(tasks) - {t} && restarting == old(restarting) - {t.index} && down == old(down) - {t.index}
      ensures StaysAbandoned(old(router.Table()), old(restarting), router.Table(), restarting)
    {
      hide ReplicaRouter.Table, Coherent, Budgeted, StaysStopped, StaysAbandoned, R.Remembered;
      hide ReplicaRouter.Valid, ReplicaSet.PortsValid, ReplicaSet.ProcessesValid, ReplicaSet.Valid;
      RestartsHaveSlots(t);
      ghost var was := router.Table();
      ReseatedEntry(router.Table(), t, HEALTHY, maxRestarts);
      hide InPhase, WithStatus, EnginesFit, Running;
      ghost var v, slots, running := State(), replicaSet.replicas, Running(replicaSet.launcher.launched);
      replicaSet.Reseat(t.index, t.phase.process, true);
      EnginesReady(
        slots, running, replicaSet.launcher.launched, tasks, down, t, replicaSet.replicas[t.index]);
      ghost var now := router.Table();
      EndKeeps(v, t, true, now, unhealthyAfter, maxRestarts);
      PendingReturns(was, restarting, router.Table(), restarting - {t.index}, t.index);
      End(t, true);
    }

    /** The new engine does not become ready and is terminated; the replica stays down. */
    method RestartNotReady(t: Restart)
      requires Valid() && t in tasks && t.phase.Waiting? && t.index in router.replicas
      modifies `tasks, `restarting, `down, replicaSet`replicas, router.replicas[t.index], t.phase.process
      ensures Valid() && StaysStopped(old(router.Table()), router.Table())
      ensures router.Table() == WithStatus(old(router.Table()), t.index, UNHEALTHY)
      ensures tasks == old(tasks) - {t} && restarting == old(restarting) - {t.index} && down == old(down)
      ensures t.index in down && Considered(router.Table(), restarting, t.index)
      ensures StaysAbandoned(old(router.Table()), old(restarting), router.Table(), restarting)
    {
      hide ReplicaRouter.Table, Coherent, Budgeted, StaysStopped, StaysAbandoned, R.Remembered;
      hide ReplicaRouter.Valid, ReplicaSet.PortsValid, ReplicaSet.ProcessesValid, ReplicaSet.Valid;
      RestartsHaveSlots(t);
      ghost var was := router.Table();
      router.TableAt(t.index);
      UnhealthyIsConsidered(router.Table(), restarting, t.index);
      hide Considered;
      ReseatedEntry(router.Table(), t, UNHEALTHY, maxRestarts);
      hide InPhase, WithStatus, EnginesFit, Running;
      ghost var v, slots, running := State(), replicaSet.replicas, Running(replicaSet.launcher.launched);
      replicaSet.Reseat(t.index, t.phase.process, false);
      EnginesNotReady(slots, running, replicaSet.launcher.launched, tasks, down, t, t.phase.process);
      ghost var now := router.Table();
      EndKeeps(v, t, false, now, unhealthyAfter, maxRestarts);
      PendingReturns(was, restarting, router.Table(), restarting - {t.index}, t.index);
      End(t, false);
    }

    /** `stop`: probing and every pending restart are abandoned where they are. */
    method Stop()
      modifies `tasks, `restarting, `live
      ensures tasks == {} && restarting == {} && live == []
      ensures old(Valid()) ==> Valid()
    {
      hide ReplicaSet.Valid, ReplicaSet.SlotsValid, Coherent, Budgeted;
      if Valid() {
        CancelKeeps(State(), unhealthyAfter, maxRestarts);
      }
      tasks, restarting, live := {}, {}, [];
    }

    /** An engine may die at any moment; that alone is not being seen dead. */
    method EngineExits(process: ProcessHandle)
      requires Valid() && process in replicaSet.launcher.launched
      modifies process
      ensures Valid() && router.Table() == old(router.Table())
    {
      hide ReplicaRouter.Valid, ReplicaRouter.Table, Coherent, Budgeted, ReplicaSet.SlotsValid, ReplicaSet.PortsValid;
      process.Exit();
    }

    lemma {:induction false} ProcessesTracked()
      requires Valid()
      ensures forall p :: p in replicaSet.launcher.processes ==> p in replicaSet.launcher.launched
    {
    }

    /** A replica that is down has no running engine: the next scan that considers it finds it dead. */
    lemma {:induction false} DownIsDead(i: nat)
      requires Valid() && i in down
      ensures i < |replicaSet.replicas| && !replicaSet.replicas[i].process.running
    {
      var r := replicaSet.replicas[i];
      assert r.process in replicaSet.launcher.launched && r.process !in Running(replicaSet.launcher.launched);
    }

    lemma {:induction false} RouterValid()
      requires Valid()
      ensures router.Valid()
    {
    }

    /** Traffic changes nothing the checker relies on, as long as the router's own books stay right. */
    twostate lemma {:induction false} TrafficKeeps()
      requires old(Valid()) && router.Valid() && router.Table() == old(router.Table())
      requires unchanged(this) && unchanged(replicaSet) && unchanged(replicaSet.ports)
      requires unchanged(replicaSet.launcher) && unchanged(old(replicaSet.launcher.launched))
      ensures Valid()
    {
      hide ReplicaRouter.Valid, ReplicaRouter.Table, Coherent, Budgeted, ReplicaSet.SlotsValid;
      hide ReplicaSet.PortsValid, ReplicaSet.ProcessesValid;
    }

    /** What is left after pruning are the restarts granted within the window. */
    lemma {:induction false} InWindow(i: nat, now: real)
      requires Valid() && clock <= now
      ensures var times := R.Prune(TimesOf(restartTimes, i), now, window);
              && R.Remembered(TimesOf(granted, i), times, now, window, maxRestarts)
              && |R.GrantedWithin(TimesOf(granted, i), now - window, window)| == |times|
    {
      hide R.Remembered, R.Prune;
      R.PruneRemembers(TimesOf(granted, i), TimesOf(restartTimes, i), clock, now, window, maxRestarts);
      R.RememberedIsWindow(
        TimesOf(granted, i), R.Prune(TimesOf(restartTimes, i), now, window), now, window, maxRestarts);
    }
  }

  lemma {:induction false} StoppedBothTimes(was: Table, between: Table, now: Table)
    ensures StaysStopped(was, between) && StaysStopped(between, now) ==> StaysStopped(was, now)
  {
  }

  lemma {:induction false} RespawnPhases(table: Table, index: nat, respawn: Respawn, restarts: int)
    requires index !in table
    ensures var now := AfterRespawn(table, index, respawn, restarts);
            && now - {index} == table - {index}
            && (respawn == Spawned ==> index in now && now[index] == Health(STARTING, 0, restarts))
            && (respawn != Spawned && index in now ==> now[index] == Health(UNHEALTHY, 0, restarts))
  {
  }

  lemma {:induction false} ReseatedEntry(table: Table, t: Restart, status: ReplicaStatus, maxRestarts: nat)
    requires InPhase(table, t, maxRestarts) && t.phase.Waiting?
    ensures var now := WithStatus(table, t.index, status);
            && now - {t.index} == table - {t.index}
            && t.index in now && now[t.index].status == status && now[t.index].failures == 0
  {
  }

  lemma {:induction false} StillStopped(was: Table, now: Table, before: set<nat>, after: set<nat>, i: nat)
    requires StaysStopped(was, now) && after - {i} == before - {i}
    ensures forall j: nat :: j != i && (j in before || Stopped(was, j)) ==> j in after || Stopped(now, j)
  {
    assert forall j :: j != i && j in before ==> j in after - {i};
  }

  lemma {:induction false} NothingChanged(table: Table)
    ensures StaysStopped(table, table)
  {
  }

  lemma {:induction false} StopAfterMark(table: Table, i: int)
    ensures WithStatus(WithStatus(table, i, UNHEALTHY), i, STOPPED) == WithStatus(table, i, STOPPED)
  {
  }
}
