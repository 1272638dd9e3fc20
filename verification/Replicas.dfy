/** The replicas of one plan: started together, stopped together, their ports held until then. */
module Replicas {
  import opened Wrappers
  import opened Sequences
  import opened Router
  import opened Ports
  import opened Processes

  /** A replica that came up: its slot, its port and its engine process. Its router id is its slot. */
  datatype Replica = Replica(index: nat, port: int, process: ProcessHandle)

  /** How one launch ends once it has a port. */
  datatype LaunchOutcome = SpawnFails | NotReady | Ready

  datatype LaunchError = LaunchFailed

  /** What the launches of a start meet, slot by slot. */
  datatype Attempts = Attempts(
    reserved: set<int>, cursor: int, outcomes: nat -> LaunchOutcome, busy: nat -> set<int>)

  type Table = map<ReplicaId, Health>

  /** The processes of some replicas. */
  function ProcessesOf(replicas: seq<Replica>): (r: seq<ProcessHandle>)
    ensures |r| == |replicas|
    ensures forall i :: 0 <= i < |replicas| ==> r[i] == replicas[i].process
  {
    seq(|replicas|, i requires 0 <= i < |replicas| => replicas[i].process)
  }

  ghost function Engines(replicas: seq<Replica>): set<ProcessHandle> {
    set p | p in ProcessesOf(replicas)
  }

  /** The slots of some replicas. */
  ghost function Slots(replicas: seq<Replica>): set<int> {
    set i | 0 <= i < |replicas| :: replicas[i].index
  }

  lemma {:induction false} AppendReplica(up: seq<Replica>, r: Replica)
    ensures Engines(up + [r]) == Engines(up) + {r.process}
    ensures Slots(up + [r]) == Slots(up) + {r.index}
  {
    var all := up + [r];
    assert ProcessesOf(all) == ProcessesOf(up) + [r.process];
    assert all[|up|] == r && forall i :: 0 <= i < |up| ==> all[i] == up[i];
  }

  ghost function PortSet(ports: seq<int>): set<int> {
    set p | p in ports
  }

  lemma {:induction false} AppendPort(held: seq<int>, port: int)
    requires Distinct(held) && port !in held
    ensures Distinct(held + [port])
    ensures PortSet(held + [port]) == PortSet(held) + {port}
  {
    assert forall k :: 0 <= k < |held| ==> held[k] in held;
  }

  // ------------------------------------------------------------------ what launches leave behind

  /** The replicas of `up` take requests; every other entry that was not there before is stopped. */
  ghost predicate TableUp(up: seq<Replica>, was: Table, now: Table) {
    && (forall id :: id in Slots(up) ==> id in now && now[id] == Health(HEALTHY, 0, 0))
    && (forall id :: id in now ==>
          id in Slots(up) || now[id].status == STOPPED || (id in was && now[id] == was[id]))
  }

  /** Of what was started since, exactly the engines of `up` run. */
  ghost predicate EnginesUp(up: seq<Replica>, was: set<ProcessHandle>, now: set<ProcessHandle>) {
    Engines(up) !! was && now == was + Engines(up)
  }

  /** `up` uses different ports of those held. */
  predicate PortsUp(up: seq<Replica>, held: seq<int>) {
    && (forall i :: 0 <= i < |up| ==> up[i].port in held)
    && (forall i, j :: 0 <= i < j < |up| ==> up[i].port != up[j].port)
  }

  /** The table after a launch for slot `index`, which may fail before it is registered. */
  function AfterLaunch(table: Table, index: int, registered: bool, ready: bool): Table {
    if registered then table[index := Health(if ready then HEALTHY else STOPPED, 0, 0)] else table
  }

  lemma {:induction false} StatusAfterAdd(table: Table, index: int, status: ReplicaStatus)
    ensures WithStatus(table[index := Health(STARTING, 0, 0)], index, status) == table[index := Health(status, 0, 0)]
  {
  }

  /** The replicas that are up after one more launch. */
  function WithResult(up: seq<Replica>, r: Result<Replica, LaunchError>): seq<Replica> {
    if r.Ok? then up + [r.value] else up
  }

  lemma {:induction false} TableGrows(
    up: seq<Replica>, r: Result<Replica, LaunchError>, index: int, registered: bool, was: Table, before: Table)
    requires TableUp(up, was, before) && index !in Slots(up)
    requires r.Ok? ==> r.value.index == index && registered
    ensures TableUp(WithResult(up, r), was, AfterLaunch(before, index, registered, r.Ok?))
  {
    if r.Ok? {
      AppendReplica(up, r.value);
    }
  }

  lemma {:induction false} EnginesGrow(
    up: seq<Replica>, r: Result<Replica, LaunchError>,
    was: set<ProcessHandle>, before: set<ProcessHandle>, now: set<ProcessHandle>)
    requires EnginesUp(up, was, before)
    requires if r.Ok? then r.value.process !in before && now == before + {r.value.process} else now == before
    ensures EnginesUp(WithResult(up, r), was, now)
  {
    if r.Ok? {
      AppendReplica(up, r.value);
    }
  }

  lemma {:induction false} PortsGrow(up: seq<Replica>, r: Result<Replica, LaunchError>, before: seq<int>, now: seq<int>)
    requires PortsUp(up, before) && before <= now
    requires r.Ok? ==> r.value.port in now && r.value.port !in before
    ensures PortsUp(WithResult(up, r), now)
  {
    assert forall p :: p in before ==> p in now;
  }

  predicate BelowSlot(up: seq<Replica>, index: nat) {
    forall i :: 0 <= i < |up| ==> up[i].index < index
  }

  /** Replica `i` sits in slot `i`. */
  predicate InSlots(up: seq<Replica>) {
    forall i :: 0 <= i < |up| ==> up[i].index == i
  }

  lemma {:induction false} SlotsGrow(up: seq<Replica>, r: Result<Replica, LaunchError>, index: nat)
    requires BelowSlot(up, index) && (r.Ok? ==> r.value.index == index)
    ensures index !in Slots(up) && BelowSlot(WithResult(up, r), index + 1)
    ensures r.Ok? && |up| == index && InSlots(up) ==> InSlots(WithResult(up, r))
  {
  }

  lemma {:induction false} NothingUp(table: Table, running: set<ProcessHandle>, held: seq<int>)
    ensures TableUp([], table, table) && EnginesUp([], running, running) && PortsUp([], held)
    ensures BelowSlot([], 0) && InSlots([])
  {
  }

  /** Stopping exactly what came up restores what ran before and leaves only stopped entries. */
  lemma {:induction false} WhatIsUpStops(
    up: seq<Replica>, table: Table, tableNow: Table, running: set<ProcessHandle>, runningNow: set<ProcessHandle>)
    requires TableUp(up, table, tableNow) && EnginesUp(up, running, runningNow)
    ensures TableUp([], table, tableNow - Slots(up))
    ensures Engines(up) <= runningNow && runningNow - Engines(up) == running
  {
  }

  class ReplicaSet {
    const router: ReplicaRouter
    const ports: PortAllocator
    const launcher: LocalLauncher
    const replicaCount: nat
    var replicas: seq<Replica>
    var allocatedPorts: seq<int>
    ghost const foreign: set<int>  // ports other users of the allocator hold

    /** Beside what others hold, exactly the set's own ports are reserved, each once. */
    ghost predicate PortsValid()
      reads `allocatedPorts, ports
    {
      && ports.Valid()
      && Distinct(allocatedPorts)
      && ports.reserved == foreign + PortSet(allocatedPorts)
      && foreign !! PortSet(allocatedPorts)
    }

    /** Every replica runs a process the launcher knows. */
    ghost predicate ProcessesValid()
      reads this, launcher, launcher.launched
    {
      launcher.Valid() && Engines(replicas) <= launcher.launched
    }

    /** A started set: every slot is filled, on a port of its own. */
    ghost predicate SlotsValid()
      reads this
    {
      |replicas| == replicaCount && InSlots(replicas) && PortsUp(replicas, allocatedPorts)
    }

    ghost predicate Valid()
      reads this, ports, launcher, launcher.launched, router, router.ledger.Keys`books, router.leases.Keys
    {
      router.Valid() && PortsValid() && ProcessesValid()
    }

    constructor (router: ReplicaRouter, ports: PortAllocator, launcher: LocalLauncher, replicaCount: nat)
      requires router.Valid() && ports.Valid() && launcher.Valid() && replicaCount >= 1
      ensures Valid() && replicas == [] && allocatedPorts == [] && foreign == ports.reserved
      ensures this.router == router && this.ports == ports && this.launcher == launcher
      ensures this.replicaCount == replicaCount
    {
      hide ReplicaRouter.Valid;
      this.router, this.ports, this.launcher, this.replicaCount := router, ports, launcher, replicaCount;
      this.replicas, this.allocatedPorts := [], [];
      this.foreign := ports.reserved;
    }

    // -------------------------------------------------------------- what a start comes to

    /** Reservations and cursor after this port was given out, or none. */
    function PortsThen(reserved: set<int>, cursor: int, port: Option<int>): (set<int>, int) {
      if port.Some? then (reserved + {port.value}, ports.After(port.value)) else (reserved, cursor)
    }

    /** ... when slot `i` has its turn; failed launches keep their ports until the set is stopped. */
    function PortsBefore(a: Attempts, i: nat): (set<int>, int)
      decreases i
    {
      if i == 0 then (a.reserved, a.cursor)
      else
        var held := PortsBefore(a, i - 1);
        PortsThen(held.0, held.1, ports.FirstFree(held.0, a.busy(i - 1), held.1, ports.Span()))
    }

    /** The port slot `i` finds. */
    function PortFor(a: Attempts, i: nat): Option<int> {
      var held := PortsBefore(a, i);
      ports.FirstFree(held.0, a.busy(i), held.1, ports.Span())
    }

    predicate ComesUp(a: Attempts, i: nat) {
      PortFor(a, i).Some? && a.outcomes(i) == Ready
    }

    predicate AllComeUp(a: Attempts) {
      forall i :: 0 <= i < replicaCount ==> ComesUp(a, i)
    }

    /** The slots tried: all of them, unless slot 0 does not come up. */
    function Tried(a: Attempts): nat {
      if ComesUp(a, 0) then replicaCount else 1
    }

    ghost function TableAfter(table: Table, a: Attempts, n: nat): Table
      decreases n
    {
      if n == 0 then table
      else
        AfterLaunch(TableAfter(table, a, n - 1), n - 1,
                    PortFor(a, n - 1).Some? && a.outcomes(n - 1) != SpawnFails, ComesUp(a, n - 1))
    }

    /** What a start that failed leaves: a stopped entry for every engine that was started and not ready. */
    ghost function Remains(table: Table, a: Attempts, n: nat): Table
      decreases n
    {
      if n == 0 then table
      else
        var before := Remains(table, a, n - 1);
        if ComesUp(a, n - 1) then before - {n - 1}
        else if PortFor(a, n - 1).Some? && a.outcomes(n - 1) == NotReady then before[n - 1 := Health(STOPPED, 0, 0)]
        else before
    }

    /** Taking out the replicas that came up leaves exactly that. */
    lemma {:induction false} RemainsAre(table: Table, a: Attempts, n: nat, slots: set<int>)
      requires forall i :: i in slots <==> 0 <= i < n && ComesUp(a, i)
      ensures TableAfter(table, a, n) - slots == Remains(table, a, n)
    {
      if n > 0 {
        var last := n - 1;
        var before := TableAfter(table, a, last);
        CameUp(a, last);
        hide ComesUp, PortFor;
        RemainsAre(table, a, last, slots - {last});
        if ComesUp(a, last) {
          MinusUpdated(before, slots, last, Health(HEALTHY, 0, 0));
        } else {
          assert slots - {last} == slots;
          UpdatedMinus(before, slots, last, Health(STOPPED, 0, 0));
        }
      } else {
        assert forall i :: i !in slots;
        assert slots == {};
      }
    }

    lemma {:induction false} CameUp(a: Attempts, i: nat)
      ensures ComesUp(a, i) <==> PortFor(a, i).Some? && a.outcomes(i) == Ready
    {
      hide PortFor;
    }

    lemma {:induction false} MinusUpdated(table: Table, slots: set<int>, i: int, h: Health)
      requires i in slots
      ensures table[i := h] - slots == (table - (slots - {i})) - {i}
    {
    }

    lemma {:induction false} UpdatedMinus(table: Table, slots: set<int>, i: int, h: Health)
      requires i !in slots
      ensures table[i := h] - slots == (table - slots)[i := h]
    {
    }

    /** Nothing else is left of a start from an empty table. */
    lemma {:induction false} RemainsOfNothing(a: Attempts, n: nat, i: int)
      ensures var left := Remains(map[], a, n);
              && (i in left <==> 0 <= i < n && PortFor(a, i).Some? && a.outcomes(i) == NotReady)
              && (i in left ==> left[i] == Health(STOPPED, 0, 0))
    {
      hide PortFor;
      if n > 0 {
        RemainsOfNothing(a, n - 1, i);
      }
    }

    /** A port of its own, reserved until the set is stopped. */
    method ReservePort(busy: set<int>) returns (r: Option<int>)
      requires PortsValid()
      modifies `allocatedPorts, ports
      ensures PortsValid()
      ensures r == old(ports.NextFree(busy))
      ensures (ports.reserved, ports.cursor) == PortsThen(old(ports.reserved), old(ports.cursor), r)
      ensures r.None? ==> allocatedPorts == old(allocatedPorts)
      ensures r.Some? ==> allocatedPorts == old(allocatedPorts) + [r.value] && r.value !in old(allocatedPorts)
    {
      r := ports.Allocate(busy);
      if r.Some? {
        AppendPort(allocatedPorts, r.value);
        allocatedPorts := allocatedPorts + [r.value];
      }
    }

    /** Every process and replica entry that turned up since is a new object. */
    twostate predicate OnlyFresh()
      reads launcher, router
    {
      && old(launcher.launched) <= launcher.launched && fresh(launcher.launched - old(launcher.launched))
      && fresh(router.ledger.Keys - old(router.ledger.Keys))
      && router.leases == old(router.leases)
    }

    /**
     * One launch: reserve a port, start the engine, register it as starting, wait for readiness.
     * An engine that does not become ready is terminated and its router entry is left stopped.
     */
    method LaunchOne(index: nat, outcome: LaunchOutcome, busy: set<int>) returns (r: Result<Replica, LaunchError>)
      requires router.Valid() && PortsValid() && launcher.Valid()
      modifies `allocatedPorts, ports, launcher, router
      ensures router.Valid() && PortsValid() && launcher.Valid() && OnlyFresh()
      ensures r.Ok? <==> old(ports.NextFree(busy)).Some? && outcome == Ready
      ensures (ports.reserved, ports.cursor)
           == PortsThen(old(ports.reserved), old(ports.cursor), old(ports.NextFree(busy)))
      ensures var registered := old(ports.NextFree(busy)).Some? && outcome != SpawnFails;
              router.Table() == AfterLaunch(old(router.Table()), index, registered, r.Ok?)
      ensures old(allocatedPorts) <= allocatedPorts
      ensures |allocatedPorts| == |old(allocatedPorts)| + if old(ports.NextFree(busy)).Some? then 1 else 0
      ensures r.Err? ==> Running(launcher.launched) == old(Running(launcher.launched))
      ensures r.Ok? ==>
        && r.value.index == index && r.value.port == old(ports.NextFree(busy)).value
        && r.value.port in allocatedPorts && r.value.port !in old(allocatedPorts)
        && r.value.process !in old(launcher.launched)
        && Running(launcher.launched) == old(Running(launcher.launched)) + {r.value.process}
    {
      hide ReplicaRouter.Valid, ReplicaRouter.Table, PortsValid, LocalLauncher.Valid, PortAllocator.FirstFree;
      assert AfterLaunch(router.Table(), index, false, false) == router.Table();
      hide PortsThen, AfterLaunch;
      var port := ReservePort(busy);
      if port.None? {
        return Err(LaunchFailed);
      }
      var process := launcher.Launch(outcome != SpawnFails);
      if process.None? {
        return Err(LaunchFailed);
      }
      AwaitReady(index, process.value, outcome == Ready);
      r := if outcome == Ready then Ok(Replica(index, port.value, process.value)) else Err(LaunchFailed);
    }

    /** Registers a started engine and waits; one that is not ready is terminated and marked stopped. */
    method AwaitReady(index: int, process: ProcessHandle, ready: bool)
      requires router.Valid() && launcher.Valid() && process in launcher.launched && process.running
      modifies router, process
      ensures router.Valid() && launcher.Valid()
      ensures fresh(router.ledger.Keys - old(router.ledger.Keys)) && router.leases == old(router.leases)
      ensures router.Table() == AfterLaunch(old(router.Table()), index, true, ready)
      ensures Running(launcher.launched) == old(Running(launcher.launched)) - if ready then {} else {process}
    {
      hide ReplicaRouter.Valid, ReplicaRouter.Table;
      ghost var table := router.Table();
      var state := router.AddReplica(index);
      if !ready {
        process.Terminate();
      }
      var status := if ready then HEALTHY else STOPPED;
      StatusAfterAdd(table, index, status);
      router.SetStatus(index, status);
    }

    /** What the launches since `table` and `running` brought up. */
    ghost predicate BroughtUp(up: seq<Replica>, table: Table, running: set<ProcessHandle>)
      reads `allocatedPorts, launcher, launcher.launched, router, router.replicas.Values
    {
      && TableUp(up, table, router.Table())
      && EnginesUp(up, running, Running(launcher.launched))
      && PortsUp(up, allocatedPorts)
    }

    /** One more launch, whatever its outcome. */
    method LaunchInto(up: seq<Replica>, index: nat, outcome: LaunchOutcome, busy: set<int>,
                      ghost table: Table, ghost running: set<ProcessHandle>)
      returns (more: seq<Replica>, ok: bool)
      requires router.Valid() && PortsValid() && launcher.Valid() && BroughtUp(up, table, running)
      requires BelowSlot(up, index)
      modifies `allocatedPorts, ports, launcher, router
      ensures router.Valid() && PortsValid() && launcher.Valid() && BroughtUp(more, table, running) && OnlyFresh()
      ensures BelowSlot(more, index + 1)
      ensures ok && |up| == index && InSlots(up) ==> |more| == index + 1 && InSlots(more)
      ensures var port := old(ports.NextFree(busy));
        && (ok <==> port.Some? && outcome == Ready)
        && (ports.reserved, ports.cursor) == PortsThen(old(ports.reserved), old(ports.cursor), port)
        && router.Table() == AfterLaunch(old(router.Table()), index, port.Some? && outcome != SpawnFails, ok)
        && Slots(more) == Slots(up) + if ok then {index as int} else {}
    {
      hide ReplicaRouter.Valid, PortsValid, LocalLauncher.Valid, TableUp, EnginesUp, PortsUp, BelowSlot, InSlots;
      hide PortAllocator.FirstFree, PortsThen, AfterLaunch, ReplicaRouter.Table, Slots;
      ghost var held, table0, running0 := allocatedPorts, router.Table(), Running(launcher.launched);
      ghost var registered := ports.NextFree(busy).Some? && outcome != SpawnFails;
      var r := LaunchOne(index, outcome, busy);
      SlotsGrow(up, r, index);
      TableGrows(up, r, index, registered, table, table0);
      EnginesGrow(up, r, running, running0, Running(launcher.launched));
      PortsGrow(up, r, held, allocatedPorts);
      if r.Ok? {
        AppendReplica(up, r.value);
      }
      ok, more := r.Ok?, WithResult(up, r);
    }

    /** The launches of the first `n` slots, and what they did to table and ports. */
    ghost predicate LaunchedBy(a: Attempts, n: nat, was: Table, now: Table, held: (set<int>, int), slots: set<int>) {
      && held == PortsBefore(a, n)
      && now == TableAfter(was, a, n)
      && forall i :: i in slots <==> 0 <= i < n && ComesUp(a, i)
    }

    lemma {:induction false} NothingLaunched(a: Attempts, table: Table)
      ensures LaunchedBy(a, 0, table, table, (a.reserved, a.cursor), {})
    {
    }

    lemma {:induction false} LaunchedMore(
      a: Attempts, n: nat, was: Table, now: Table, held: (set<int>, int), slots: set<int>, next: Table, more: (set<int>, int),
      ok: bool)
      requires LaunchedBy(a, n, was, now, held, slots)
      requires var port := ports.FirstFree(held.0, a.busy(n), held.1, ports.Span());
               && (ok <==> port.Some? && a.outcomes(n) == Ready)
               && more == PortsThen(held.0, held.1, port)
               && next == AfterLaunch(now, n, port.Some? && a.outcomes(n) != SpawnFails, ok)
      ensures LaunchedBy(a, n + 1, was, next, more, slots + if ok then {n as int} else {})
      ensures ok <==> ComesUp(a, n)
    {
      hide AfterLaunch;
    }

    /** Slot 0 alone first; once it is up the others, where one failing does not keep the rest from being tried. */
    method LaunchAll(outcomes: nat -> LaunchOutcome, busy: nat -> set<int>) returns (up: seq<Replica>, ok: bool)
      requires router.Valid() && PortsValid() && launcher.Valid() && replicaCount >= 1
      modifies `allocatedPorts, ports, launcher, router
      ensures router.Valid() && PortsValid() && launcher.Valid() && OnlyFresh()
      ensures BroughtUp(up, old(router.Table()), old(Running(launcher.launched)))
      ensures ok ==> |up| == replicaCount && InSlots(up)
      ensures var a := Attempts(old(ports.reserved), old(ports.cursor), outcomes, busy);
        && (ok <==> AllComeUp(a))
        && LaunchedBy(a, Tried(a), old(router.Table()), router.Table(), (ports.reserved, ports.cursor), Slots(up))
        && (!ComesUp(a, 0) ==>
              LaunchedBy(a, 1, old(router.Table()), router.Table(), (ports.reserved, ports.cursor), Slots(up)))
    {
      hide PortAllocator.FirstFree, PortAllocator.After, LaunchedBy, ComesUp, PortsThen, AfterLaunch, Slots;
      hide ReplicaRouter.Valid, LocalLauncher.Valid, PortsValid, TableUp, EnginesUp, PortsUp, BelowSlot, InSlots;
      hide ReplicaRouter.Table;
      ghost var table, running := router.Table(), Running(launcher.launched);
      ghost var a := Attempts(ports.reserved, ports.cursor, outcomes, busy);
      NothingUp(table, running, allocatedPorts);
      NothingLaunched(a, table);
      NoSlots(table);
      up, ok := LaunchInto([], 0, outcomes(0), busy(0), table, running);
      LaunchedMore(a, 0, table, table, (a.reserved, a.cursor), {}, router.Table(), (ports.reserved, ports.cursor), ok);
      if ok {
        for index := 1 to replicaCount
          invariant router.Valid() && PortsValid() && launcher.Valid() && BroughtUp(up, table, running) && OnlyFresh()
          invariant BelowSlot(up, index) && (ok ==> |up| == index && InSlots(up))
          invariant ok <==> forall i :: 0 <= i < index ==> ComesUp(a, i)
          invariant LaunchedBy(a, index, table, router.Table(), (ports.reserved, ports.cursor), Slots(up))
        {
          ghost var now, held, slots := router.Table(), (ports.reserved, ports.cursor), Slots(up);
          var launched;
          up, launched := LaunchInto(up, index, outcomes(index), busy(index), table, running);
          LaunchedMore(a, index, table, now, held, slots, router.Table(), (ports.reserved, ports.cursor), launched);
          ok := ok && launched;
        }
      }
    }

    /** Every replica's entry is marked stopped and removed. */
    method Deregister()
      requires router.Valid()
      modifies router, router.replicas.Values
      ensures router.Valid() && router.ledger == old(router.ledger) && router.leases == old(router.leases)
      ensures router.Table() == old(router.Table()) - Slots(replicas)
    {
      hide ReplicaRouter.Valid, ReplicaRouter.Table, WithStatus, Slots;
      ghost var table := router.Table();
      NoSlots(table);
      assert replicas[..0] == [];
      for i := 0 to |replicas|
        invariant router.Valid() && router.ledger == old(router.ledger) && router.leases == old(router.leases)
        invariant router.replicas.Values <= old(router.replicas.Values)
        invariant router.Table() == old(router.Table()) - Slots(replicas[..i])
      {
        StoppedAndRemoved(table, Slots(replicas[..i]), replicas[i].index);
        router.SetStatus(replicas[i].index, STOPPED);
        router.RemoveReplica(replicas[i].index);
        assert replicas[..i + 1] == replicas[..i] + [replicas[i]];
        AppendReplica(replicas[..i], replicas[i]);
      }
      assert replicas[..|replicas|] == replicas;
    }

    method ReleasePorts()
      requires PortsValid()
      modifies `allocatedPorts, ports
      ensures PortsValid() && allocatedPorts == [] && ports.reserved == foreign
    {
      for i := 0 to |allocatedPorts|
        invariant ports.Valid() && allocatedPorts == old(allocatedPorts)
        invariant ports.reserved == foreign + PortSet(allocatedPorts[i..])
        invariant foreign !! PortSet(allocatedPorts[i..])
      {
        DropPort(allocatedPorts, i);
        ports.Release(allocatedPorts[i]);
      }
      allocatedPorts := [];
    }

    /** Terminates every replica, takes it out of the router and gives all ports back. */
    method Stop()
      requires Valid()
      modifies `allocatedPorts, ports, router, router.replicas.Values, Engines(replicas)
      ensures Valid()
      ensures allocatedPorts == [] && ports.reserved == foreign
      ensures launcher.launched == old(launcher.launched)
      ensures Running(launcher.launched) == old(Running(launcher.launched)) - Engines(replicas)
      ensures router.Table() == old(router.Table()) - Slots(replicas)
      ensures router.ledger == old(router.ledger) && router.leases == old(router.leases)
    {
      hide ReplicaRouter.Valid, ReplicaRouter.Table, PortsValid, Running, Slots;
      TerminateAll(ProcessesOf(replicas), launcher.launched);
      Deregister();
      ReleasePorts();
    }

    // -------------------------------------------------------------- restart_replica, between awaits

    /** The dead replica's engine is made sure of and its entry removed; its restart count goes on. */
    method Unseat(slot: nat) returns (restarts: int)
      requires Valid() && slot < |replicas| && replicas[slot].index == slot
      modifies router`replicas, router`order, replicas[slot].process
      ensures Valid()
      ensures router.Table() == old(router.Table()) - {slot}
      ensures restarts == if slot in old(router.Table()) then old(router.Table())[slot].restarts + 1 else 1
      ensures Running(launcher.launched) == old(Running(launcher.launched)) - {replicas[slot].process}
    {
      hide ReplicaRouter.Valid, PortsValid;
      replicas[slot].process.Terminate();
      restarts := if slot in router.replicas then router.replicas[slot].restarts + 1 else 1;
      router.RemoveReplica(slot);
    }

    /** The engine is started again on the same port and gets a new entry, unless starting it fails. */
    method Respawn(slot: nat, respawn: Respawn, restarts: int) returns (process: Option<ProcessHandle>)
      requires Valid()
      modifies launcher, router`replicas, router`order, router`ledger
      ensures Valid() && OnlyFresh()
      ensures router.Table() == AfterRespawn(old(router.Table()), slot, respawn, restarts)
      ensures old(launcher.launched) <= launcher.launched
      ensures process.Some? <==> respawn == Spawned
      ensures process.Some? ==> process.value in launcher.launched && process.value !in old(launcher.launched)
      ensures Running(launcher.launched) == old(Running(launcher.launched)) + if process.Some? then {process.value} else {}
    {
      hide ReplicaRouter.Valid, ReplicaRouter.Table, PortsValid;
      process := launcher.Launch(respawn == Spawned);
      if respawn != OtherError {
        Register(slot, restarts, respawn == Spawned);
      }
    }

    /** The entry of a restarted engine; the new object starts counting failures afresh. */
    method Register(slot: nat, restarts: int, started: bool)
      requires router.Valid()
      modifies router`replicas, router`order, router`ledger
      ensures router.Valid() && fresh(router.ledger.Keys - old(router.ledger.Keys))
      ensures router.Table() == old(router.Table())[slot := Health(if started then STARTING else UNHEALTHY, 0, restarts)]
    {
      hide ReplicaRouter.Valid, ReplicaRouter.Table, WithStatus;
      NewEntry(router.Table(), slot, restarts);
      var state := router.AddReplica(slot);
      SetRestarts(state, restarts);
      if !started {
        router.SetStatus(slot, UNHEALTHY);
      }
    }

    method SetRestarts(state: ReplicaState, restarts: int)
      requires router.Valid() && state.id in router.replicas && router.replicas[state.id] == state
      modifies state`restarts
      ensures router.Valid()
      ensures var table := old(router.Table());
              router.Table() == table[state.id := table[state.id].(restarts := restarts)]
    {
      hide ReplicaRouter.Valid;
      EntriesKnown(router);
      state.restarts := restarts;
      ghost var table := old(router.Table());
      assert router.Table() == table[state.id := table[state.id].(restarts := restarts)] by {
        assert router.Table().Keys == table.Keys;
        assert forall id :: id in router.replicas && id != state.id ==> router.Table()[id] == table[id];
      }
    }

    /** A ready engine takes the slot over; any other is terminated and the old replica stays. */
    method Reseat(slot: nat, process: ProcessHandle, ready: bool)
      requires Valid() && slot < |replicas| && replicas[slot].index == slot && process in launcher.launched
      requires slot in router.replicas
      modifies `replicas, router.replicas[slot], process
      ensures Valid()
      ensures router.Table() == WithStatus(old(router.Table()), slot, if ready then HEALTHY else UNHEALTHY)
      ensures replicas == if ready then old(replicas)[slot := Replica(slot, old(replicas)[slot].port, process)] else old(replicas)
      ensures Running(launcher.launched) == old(Running(launcher.launched)) - if ready then {} else {process}
    {
      hide ReplicaRouter.Valid, PortsValid;
      if ready {
        router.SetStatus(slot, HEALTHY);
        replicas := replicas[slot := Replica(slot, replicas[slot].port, process)];
      } else {
        process.Terminate();
        router.SetStatus(slot, UNHEALTHY);
      }
    }

    /**
     * Launches every slot; unless all come up, everything is stopped again. After a failure exactly
     * what ran before runs, no port stays reserved, and no entry left behind can take requests.
     */
    method Start(outcomes: nat -> LaunchOutcome, busy: nat -> set<int>) returns (ok: bool)
      requires Valid() && replicas == [] && allocatedPorts == [] && replicaCount >= 1
      modifies this, ports, launcher, router, router.ledger.Keys
      ensures Valid() && OnlyFresh()
      ensures ok ==> SlotsValid() && BroughtUp(replicas, old(router.Table()), old(Running(launcher.launched)))
      ensures var a := Attempts(old(ports.reserved), old(ports.cursor), outcomes, busy);
        && (ok <==> AllComeUp(a))
        && (!ok ==>
              && Running(launcher.launched) == old(Running(launcher.launched))
              && allocatedPorts == [] && ports.reserved == foreign
              && router.Table() == Remains(old(router.Table()), a, Tried(a))
              && TableUp([], old(router.Table()), router.Table()))
    {
      hide ReplicaRouter.Valid, ReplicaRouter.Table, PortsValid, LocalLauncher.Valid;
      hide InSlots, PortsUp, EnginesUp, TableUp, Engines, Slots, AllComeUp, Tried, ComesUp, Remains, TableAfter;
      ghost var a := Attempts(ports.reserved, ports.cursor, outcomes, busy);
      ghost var table, running := router.Table(), Running(launcher.launched);
      replicas, ok := LaunchAll(outcomes, busy);
      WhatIsUpStops(replicas, table, router.Table(), running, Running(launcher.launched));
      if !ok {
        EntriesKnown(router);
        RemainsAre(table, a, Tried(a), Slots(replicas));
        Stop();
      }
    }
  }

  /** How starting the replacement of a dead engine goes. */
  datatype Respawn = Spawned | LaunchErrored | OtherError

  /** The entry a restart leaves while the new engine comes up, or when there is none. */
  function AfterRespawn(table: Table, index: int, respawn: Respawn, restarts: int): Table {
    match respawn
    case Spawned => table[index := Health(STARTING, 0, restarts)]
    case LaunchErrored => table[index := Health(UNHEALTHY, 0, restarts)]
    case OtherError => table
  }

  /** The table lists accounted-for objects. */
  lemma {:induction false} EntriesKnown(router: ReplicaRouter)
    requires router.Valid()
    ensures forall id :: id in router.replicas ==> router.replicas[id].id == id && router.replicas[id] in router.ledger
    ensures forall r :: r in router.replicas.Values ==> r in router.ledger
  {
  }

  lemma {:induction false} NewEntry(table: Table, index: int, restarts: int)
    ensures var fresh' := table[index := Health(STARTING, 0, 0)];
            var counted := fresh'[index := fresh'[index].(restarts := restarts)];
            && counted == table[index := Health(STARTING, 0, restarts)]
            && WithStatus(counted, index, UNHEALTHY) == table[index := Health(UNHEALTHY, 0, restarts)]
  {
  }

  lemma {:induction false} NoSlots(table: Table)
    ensures Slots([]) == {} && table - Slots([]) == table
  {
  }

  lemma {:induction false} StoppedAndRemoved(table: Table, gone: set<int>, index: int)
    ensures WithStatus(table - gone, index, STOPPED) - {index} == table - (gone + {index})
  {
  }

  lemma {:induction false} DropPort(held: seq<int>, i: nat)
    requires Distinct(held) && i < |held|
    ensures PortSet(held[i + 1..]) == PortSet(held[i..]) - {held[i]}
  {
    assert held[i..] == [held[i]] + held[i + 1..];
    var rest := held[i + 1..];
    assert forall k :: 0 <= k < |rest| ==> rest[k] == held[i + 1 + k];
  }
}
