/** The replica router: who may serve a request, how many at once, and what each replica is charged. */
module Router {
  import opened Wrappers
  import opened Numbers
  import opened Sequences
  import A = Accounts
  import S = Semaphores
  import Policies

  /** Replica ids are strings that name the replica's index; only their equality matters. */
  type ReplicaId = int

  datatype ReplicaStatus = STARTING | HEALTHY | UNHEALTHY | STOPPED

  /** Routing-relevant state of one backend; objects outlive their entry in the router's table. */
  class ReplicaState {
    const id: ReplicaId
    var status: ReplicaStatus
    var books: A.Books  // inflight_requests, total_requests, failures
    var consecutiveHealthFailures: int
    var restarts: int

    constructor (id: ReplicaId)
      ensures this.id == id && status == STARTING && books == A.Books(0, 0, 0)
      ensures consecutiveHealthFailures == 0 && restarts == 0
    {
      this.id := id;
      status := STARTING;
      books := A.Books(0, 0, 0);
      consecutiveHealthFailures, restarts := 0, 0;
    }
  }

  /** What the health checker knows about a table entry. */
  datatype Health = Health(status: ReplicaStatus, failures: int, restarts: int)

  /** `set_status` on the table by value: nothing happens to an unknown id. */
  function WithStatus(table: map<ReplicaId, Health>, id: ReplicaId, status: ReplicaStatus): (r: map<ReplicaId, Health>)
    ensures r.Keys == table.Keys && forall k :: k in table && k != id ==> r[k] == table[k]
    ensures id in table ==>
      r[id].status == status && r[id].failures == table[id].failures && r[id].restarts == table[id].restarts
  {
    if id in table then table[id := table[id].(status := status)] else table
  }

  /** A request's claim on a replica. */
  class RouteLease {
    var replica: ReplicaState
    var excluded: set<ReplicaId>

    constructor (replica: ReplicaState)
      ensures this.replica == replica && excluded == {replica.id}
    {
      this.replica := replica;
      excluded := {replica.id};
    }
  }

  /** Fewest in-flight requests first, round-robin among ties. */
  class LeastInflightRoutingPolicy {
    var tick: nat

    constructor ()
      ensures tick == 0
    {
      tick := 0;
    }

    method Select(replicas: seq<ReplicaState>) returns (r: ReplicaState)
      requires replicas != []
      modifies this
      ensures r == replicas[Policies.Pick(Loads(replicas), old(tick))]
      ensures tick == Policies.NextTick(Loads(replicas), old(tick))
    {
      var ties := Policies.Ties(Loads(replicas));
      if |ties| == 1 {
        SingleTie(Loads(replicas), tick);
        return replicas[ties[0]];
      }
      r := replicas[ties[tick % |ties|]];
      tick := tick + 1;
    }
  }

  /**
   * Requests that come and go one after another leave the loads as they are: as many selections as
   * there are least-loaded replicas choose each of them once.
   */
  method SelectInTurn(policy: LeastInflightRoutingPolicy, replicas: seq<ReplicaState>) returns (chosen: seq<ReplicaState>)
    requires replicas != [] && Distinct(replicas)
    modifies policy
    ensures |chosen| == |Policies.LeastOnes(Loads(replicas))|
    ensures Distinct(chosen)
    ensures forall r :: r in chosen <==> r in replicas && forall q :: q in replicas ==> r.books.inflight <= q.books.inflight
    ensures |chosen| == 1 ==> policy.tick == old(policy.tick)
  {
    hide Policies.LeastOnes, Policies.Selections, Policies.Pick, Policies.NextTick, Loads, Distinct;
    var loads := Loads(replicas);
    var n := |Policies.LeastOnes(loads)|;
    chosen := [];
    ghost var turns := Policies.Selections(loads, policy.tick, n);
    ghost var picks: seq<nat> := [];
    Policies.CounterMoves(loads, policy.tick);
    for k := 0 to n
      invariant |picks| == |chosen| == k
      invariant turns == picks + Policies.Selections(loads, policy.tick, n - k)
      invariant forall i :: 0 <= i < k ==> picks[i] < |replicas| && chosen[i] == replicas[picks[i]]
      invariant n == 1 ==> policy.tick == old(policy.tick)
    {
      ghost var i := Policies.Pick(loads, policy.tick);
      Policies.OneMoreSelection(loads, policy.tick, n - k);
      Policies.CounterMoves(loads, policy.tick);
      var r := policy.Select(replicas);
      chosen, picks := chosen + [r], picks + [i];
    }
    Policies.OneMoreSelection(loads, policy.tick, 0);
    assert turns == picks;
    Policies.EveryTieOnce(loads, old(policy.tick));
    LeastChosen(replicas, picks, chosen);
  }

  lemma {:induction false} LeastChosen(replicas: seq<ReplicaState>, picks: seq<nat>, chosen: seq<ReplicaState>)
    requires |chosen| == |picks| && forall i :: 0 <= i < |picks| ==> picks[i] < |replicas| && chosen[i] == replicas[picks[i]]
    requires forall j :: j in picks <==> j in Policies.LeastOnes(Loads(replicas))
    requires Distinct(replicas) && forall i, h :: 0 <= i < h < |picks| ==> picks[i] != picks[h]
    ensures Distinct(chosen)
    ensures forall r :: r in chosen <==> r in replicas && forall q :: q in replicas ==> r.books.inflight <= q.books.inflight
  {
    var loads := Loads(replicas);
    forall r
      ensures r in chosen <==> r in replicas && forall q :: q in replicas ==> r.books.inflight <= q.books.inflight
    {
      if r in chosen {
        var i :| 0 <= i < |chosen| && chosen[i] == r;
        assert picks[i] in picks && Policies.LeastAt(loads, picks[i]);
        forall q | q in replicas
          ensures r.books.inflight <= q.books.inflight
        {
          var j :| 0 <= j < |replicas| && replicas[j] == q;
          assert loads[picks[i]] <= loads[j];
        }
      }
      if r in replicas && forall q :: q in replicas ==> r.books.inflight <= q.books.inflight {
        var j :| 0 <= j < |replicas| && replicas[j] == r;
        forall h | 0 <= h < |replicas|
          ensures loads[j] <= loads[h]
        {
          assert replicas[h] in replicas;
        }
        assert j in Policies.LeastOnes(loads);
        var i :| 0 <= i < |picks| && picks[i] == j;
        assert chosen[i] == r;
      }
    }
  }

  lemma {:induction false} SingleTie(loads: seq<int>, tick: nat)
    requires loads != [] && |Policies.Ties(loads)| == 1
    ensures Policies.Pick(loads, tick) == Policies.Ties(loads)[0]
  {
  }

  function Loads(replicas: seq<ReplicaState>): (r: seq<int>)
    reads replicas
    ensures |r| == |replicas|
    ensures forall i :: 0 <= i < |replicas| ==> r[i] == replicas[i].books.inflight
  {
    seq(|replicas|, i requires 0 <= i < |replicas| reads replicas => replicas[i].books.inflight)
  }

  /** Free, granted and used permits make up the configured number; no waiter is forgotten. */
  predicate PermitsBalance(
    semaphore: Option<S.Semaphore>, maxConcurrency: Option<nat>, maxQueueDepth: nat, waiting: nat, used: nat)
  {
    match semaphore
    case None => (maxConcurrency == None || maxConcurrency == Some(0)) && waiting == 0
    case Some(s) =>
      && maxConcurrency.Some?
      && maxConcurrency.value > 0
      && S.Permits(s) + used == maxConcurrency.value
      && S.NoLostWakeup(s)
      && waiting == |s.waiters| <= maxQueueDepth
  }

  /** The table and its order list the same ids, each once, each with an object of its own. */
  ghost predicate Listed(table: map<ReplicaId, ReplicaState>, order: seq<ReplicaId>, objects: set<ReplicaState>) {
    && (forall id :: id in table ==> table[id].id == id && table[id] in objects)
    && (forall id :: id in order <==> id in table)
    && Distinct(order)
  }

  datatype AcquireOutcome =
    | Leased(lease: RouteLease)
    | Queued                     // suspended until the semaphore grants a permit
    | Overloaded
    | NoHealthyReplica

  class ReplicaRouter {
    const policy: LeastInflightRoutingPolicy
    var replicas: map<ReplicaId, ReplicaState>  // the table...
    var order: seq<ReplicaId>                   // ... and its insertion order
    var maxConcurrency: Option<nat>
    const maxQueueDepth: nat
    var semaphore: Option<S.Semaphore>
    var waiting: nat
    var totalRequests: int
    var totalErrors: int
    var rejectedOverload: int
    ghost var ledger: map<ReplicaState, A.Books>        // every replica object ever created
    ghost var leases: map<RouteLease, ReplicaState>     // every lease not yet released
    ghost var reroutes: int

    // -------------------------------------------------------------- invariant

    /**
     * The table lists accounted-for objects under their own ids, the ledger and the leases describe
     * the actual objects, and the books balance.
     */
    ghost predicate Sound()
      reads `replicas, `order, `ledger, `leases, `totalRequests, `totalErrors, `reroutes
      reads ledger.Keys`books, leases.Keys
    {
      && Listed(replicas, order, ledger.Keys)
      && (forall r {:trigger r in ledger} :: r in ledger ==> ledger[r] == r.books)
      && (forall l {:trigger leases[l]} :: l in leases ==> leases[l] == l.replica && leases[l].id in l.excluded)
      && A.Balanced(ledger, leases, totalRequests, totalErrors, reroutes)
    }

    ghost predicate Valid()
      reads this, ledger.Keys`books, leases.Keys
    {
      Sound() && PermitsBalance(semaphore, maxConcurrency, maxQueueDepth, waiting, |leases|)
    }

    /** The table by value: what every entry's object says about its health. */
    ghost function Table(): map<ReplicaId, Health>
      reads `replicas, replicas.Values`status, replicas.Values`consecutiveHealthFailures, replicas.Values`restarts
    {
      map id | id in replicas ::
        Health(replicas[id].status, replicas[id].consecutiveHealthFailures, replicas[id].restarts)
    }

    lemma {:induction false} TableAt(id: ReplicaId)
      ensures id in Table() <==> id in replicas
      ensures id in replicas ==> Table()[id].status == replicas[id].status
    {
    }

    /** The table by value rests on the entries' health alone. */
    twostate lemma {:induction false} TableKept()
      requires replicas == old(replicas)
      requires forall id :: id in replicas ==>
        && replicas[id].status == old(replicas[id].status)
        && replicas[id].consecutiveHealthFailures == old(replicas[id].consecutiveHealthFailures)
        && replicas[id].restarts == old(replicas[id].restarts)
      ensures Table() == old(Table())
    {
      assert Table().Keys == old(Table()).Keys;
      assert forall id :: id in replicas ==> Table()[id] == old(Table())[id];
    }

    constructor (policy: LeastInflightRoutingPolicy, maxConcurrency: Option<nat>, maxQueueDepth: nat)
      ensures Valid() && this.policy == policy
      ensures this.maxConcurrency == maxConcurrency && this.maxQueueDepth == maxQueueDepth
      ensures replicas == map[] && ledger == map[] && leases == map[]
      ensures rejectedOverload == 0
    {
      hide A.Balanced;
      this.policy := policy;
      this.replicas := map[];
      this.order := [];
      this.maxConcurrency := maxConcurrency;
      this.maxQueueDepth := maxQueueDepth;
      this.semaphore := NewSemaphore(maxConcurrency);
      this.waiting := 0;
      this.totalRequests, this.totalErrors, this.rejectedOverload := 0, 0, 0;
      this.ledger, this.leases, this.reroutes := map[], map[], 0;
      A.EmptyBalanced<ReplicaState, RouteLease>(map[], map[]);
    }

    // -------------------------------------------------------------- replica management

    method AddReplica(id: ReplicaId) returns (state: ReplicaState)
      requires Valid()
      modifies `replicas, `order, `ledger
      ensures Valid()
      ensures fresh(state) && state.id == id && state.status == STARTING
      ensures state.consecutiveHealthFailures == 0 && state.restarts == 0
      ensures replicas == old(replicas)[id := state] && order == WithId(old(order), id)
      ensures Table() == old(Table())[id := Health(STARTING, 0, 0)]
      ensures ledger == A.Open(old(ledger), state)
    {
      hide Sound, PermitsBalance, A.Open, WithId;
      state := new ReplicaState(id);
      replicas, order, ledger := replicas[id := state], WithId(order, id), A.Open(ledger, state);
      AddKeepsSound(state);
    }

    twostate lemma {:induction false} AddKeepsSound(new state: ReplicaState)
      requires old(Sound()) && state !in old(ledger) && state.books == A.Books(0, 0, 0)
      requires replicas == old(replicas)[state.id := state] && order == WithId(old(order), state.id)
      requires ledger == A.Open(old(ledger), state) && leases == old(leases)
      requires totalRequests == old(totalRequests) && totalErrors == old(totalErrors) && reroutes == old(reroutes)
      requires forall r :: r in old(ledger) ==> r.books == old(r.books)
      requires forall l :: l in old(leases) ==> l.replica == old(l.replica) && l.excluded == old(l.excluded)
      ensures Sound()
    {
      hide A.Balanced, Distinct;
      A.OpenKeepsBalance(old(ledger), leases, totalRequests, totalErrors, reroutes, state);
    }

    method RemoveReplica(id: ReplicaId)
      requires Valid()
      modifies `replicas, `order
      ensures Valid()
      ensures replicas == old(replicas) - {id} && Table() == old(Table()) - {id}
    {
      hide A.Balanced, PermitsBalance;
      if id in replicas {
        order := WithoutId(order, id);
      }
      replicas := replicas - {id};
    }

    method SetStatus(id: ReplicaId, status: ReplicaStatus)
      requires Valid()
      modifies if id in replicas then {replicas[id]} else {}
      ensures Valid()
      ensures Table() == WithStatus(old(Table()), id, status)
    {
      hide A.Balanced, PermitsBalance;
      if id in replicas {
        replicas[id].status := status;
      }
      assert Table() == WithStatus(old(Table()), id, status) by {
        assert Table().Keys == old(Table()).Keys;
        assert forall k :: k in replicas && k != id ==> Table()[k] == old(Table())[k];
      }
    }

    /** `healthy_replicas()` minus the excluded ids, in table order. */
    function Candidates(excluded: set<ReplicaId>): seq<ReplicaState>
      reads `replicas, `order, replicas.Values`status
    {
      HealthyOutside(replicas, order, excluded)
    }

    /** Only entries marked healthy can be given a request. */
    lemma {:induction false} CandidatesAreHealthy(excluded: set<ReplicaId>)
      requires Valid()
      ensures forall c :: c in Candidates(excluded) ==> c.id in Table() && Table()[c.id].status == HEALTHY
    {
    }

    /** The candidates come in the table's order, each once. */
    lemma {:induction false} CandidatesInOrder(excluded: set<ReplicaId>)
      requires Valid()
      ensures InOrderOf(Candidates(excluded), order)
    {
      hide A.Balanced, PermitsBalance;
      InListOrder(replicas, order, excluded);
    }

    /** The least-loaded healthy replica outside `excluded`, if there is one. */
    method SelectReplica(excluded: set<ReplicaId>) returns (r: Option<ReplicaState>)
      requires Sound()
      modifies policy
      ensures r.None? <==> Candidates(excluded) == []
      ensures r.Some? ==> r.value in Candidates(excluded) && r.value in ledger && r.value.id !in excluded
      ensures r.Some? ==> forall c :: c in Candidates(excluded) ==> r.value.books.inflight <= c.books.inflight
      ensures r.Some? ==>
        && r.value == Candidates(excluded)[Policies.Pick(Loads(Candidates(excluded)), old(policy.tick))]
        && policy.tick == Policies.NextTick(Loads(Candidates(excluded)), old(policy.tick))
    {
      hide A.Balanced;
      var cands := Candidates(excluded);
      if cands == [] {
        return None;
      }
      var choice := policy.Select(cands);
      forall c | c in cands
        ensures choice.books.inflight <= c.books.inflight
      {
        var j :| 0 <= j < |cands| && cands[j] == c;
        assert Loads(cands)[j] == c.books.inflight;
      }
      r := Some(choice);
    }

    // -------------------------------------------------------------- acquire, reroute, release

    /** The counters of a granted request: the permit in hand becomes a lease on `replica`. */
    method PlaceLease(replica: ReplicaState) returns (lease: RouteLease)
      requires Sound() && replica in ledger
      modifies `totalRequests, `ledger, `leases, replica`books
      ensures Sound() && |leases| == |old(leases)| + 1
      ensures fresh(lease) && lease.replica == replica && lease.excluded == {replica.id}
      ensures leases == old(leases)[lease := replica] && totalRequests == old(totalRequests) + 1
      ensures ledger == A.Place(old(ledger), replica)
    {
      hide Sound, A.Place;
      lease := new RouteLease(replica);
      assert lease !in leases;
      Enter(lease);
    }

    /** A new lease is entered in the books. */
    method Enter(lease: RouteLease)
      requires Sound() && lease.replica in ledger && lease !in leases && lease.excluded == {lease.replica.id}
      modifies `totalRequests, `ledger, `leases, lease.replica`books
      ensures Sound() && |leases| == |old(leases)| + 1
      ensures leases == old(leases)[lease := lease.replica] && totalRequests == old(totalRequests) + 1
      ensures ledger == A.Place(old(ledger), lease.replica)
    {
      hide Sound, A.Place;
      BooksAreAccounts();
      var replica := lease.replica;
      var b := replica.books;
      ledger, leases := A.Place(ledger, replica), leases[lease := replica];
      replica.books, totalRequests := A.Books(b.inflight + 1, b.total + 1, b.failures), totalRequests + 1;
      EnterKeepsSound(lease);
    }

    lemma {:induction false} BooksAreAccounts()
      requires Sound()
      ensures forall r :: r in ledger ==> r.books == ledger[r]
    {
    }

    twostate lemma {:induction false} EnterKeepsSound(lease: RouteLease)
      requires old(Sound()) && lease !in old(leases) && lease.replica in old(ledger)
      requires lease.excluded == {lease.replica.id}
      requires ledger == A.Place(old(ledger), lease.replica) && leases == old(leases)[lease := lease.replica]
      requires replicas == old(replicas) && order == old(order)
      requires totalRequests == old(totalRequests) + 1 && totalErrors == old(totalErrors) && reroutes == old(reroutes)
      requires forall l :: l in old(leases) ==> l.replica == old(l.replica) && l.excluded == old(l.excluded)
      requires forall r :: r in old(ledger) ==> r.books == ledger[r]
      ensures Sound() && |leases| == |old(leases)| + 1
    {
      hide A.Balanced, A.Place, Listed;
      A.PlaceKeepsBalance(old(ledger), old(leases), old(totalRequests), totalErrors, reroutes, lease, lease.replica);
    }

    /** The counters of `reroute`: the lease leaves its replica, which is charged, for another. */
    method MoveLease(lease: RouteLease, replica: ReplicaState)
      requires Sound() && lease in leases && replica in ledger && replica != lease.replica
      modifies `reroutes, `ledger, `leases, lease
      modifies lease.replica`books, replica`books
      ensures Sound() && |leases| == |old(leases)|
      ensures lease.replica == replica && lease.excluded == old(lease.excluded) + {replica.id}
      ensures leases == old(leases)[lease := replica] && reroutes == old(reroutes) + 1
      ensures ledger == A.Move(old(ledger), old(lease.replica), replica)
    {
      hide Sound, A.Move;
      LeaseIsAccounted(lease);
      var previous := lease.replica;
      ghost var after, moved := A.Move(ledger, previous, replica), leases[lease := replica];
      var charged := previous.books;
      previous.books := A.Books(AtLeastZero(charged.inflight - 1), charged.total, charged.failures + 1);
      replica.books := A.Books(replica.books.inflight + 1, replica.books.total + 1, replica.books.failures);
      lease.replica := replica;
      lease.excluded := lease.excluded + {replica.id};
      ledger, leases, reroutes := after, moved, reroutes + 1;
      MoveKeepsSound(lease);
    }

    lemma {:induction false} LeaseIsAccounted(lease: RouteLease)
      requires Sound() && lease in leases
      ensures lease.replica in ledger && lease.replica == leases[lease] && lease.replica.books.inflight >= 1
      ensures lease.replica.id in lease.excluded && forall r :: r in ledger ==> r.books == ledger[r]
    {
      hide A.Balanced, Listed;
      A.HeldIsPositive(ledger, leases, totalRequests, totalErrors, reroutes, lease);
    }

    twostate lemma {:induction false} MoveKeepsSound(lease: RouteLease)
      requires old(Sound()) && lease in old(leases) && lease.replica != old(lease.replica)
      requires old(lease.replica) in old(ledger) && lease.replica in old(ledger)
      requires ledger == A.Move(old(ledger), old(lease.replica), lease.replica)
      requires leases == old(leases)[lease := lease.replica] && lease.excluded == old(lease.excluded) + {lease.replica.id}
      requires replicas == old(replicas) && order == old(order)
      requires totalRequests == old(totalRequests) && totalErrors == old(totalErrors) && reroutes == old(reroutes) + 1
      requires forall l :: l in old(leases) && l != lease ==> l.replica == old(l.replica) && l.excluded == old(l.excluded)
      requires forall r :: r in old(ledger) ==> r.books == ledger[r]
      ensures Sound() && |leases| == |old(leases)|
    {
      hide A.Balanced, A.Move, Listed;
      A.MoveKeepsBalance(
        old(ledger), old(leases), totalRequests, totalErrors, old(reroutes), lease, lease.replica);
    }

    /** The counters of `release`: the lease ends, charged or not. */
    method SettleLease(lease: RouteLease, failed: bool)
      requires Sound() && lease in leases
      modifies `totalErrors, `ledger, `leases
      modifies lease.replica`books
      ensures Sound() && |leases| == |old(leases)| - 1
      ensures leases == A.Ended(old(leases), lease)
      ensures totalErrors == old(totalErrors) + A.Penalty(failed)
      ensures lease.replica in old(ledger) && ledger == A.Settle(old(ledger), lease.replica, failed)
    {
      hide Sound, A.Ended, A.Settle, A.Penalty;
      LeaseIsAccounted(lease);
      var replica := lease.replica;
      var b := replica.books;
      ledger, leases := A.Settle(ledger, replica, failed), A.Ended(leases, lease);
      replica.books := A.Books(AtLeastZero(b.inflight - 1), b.total, b.failures + A.Penalty(failed));
      totalErrors := totalErrors + A.Penalty(failed);
      SettleKeepsSound(lease);
    }

    twostate lemma {:induction false} SettleKeepsSound(lease: RouteLease)
      requires old(Sound()) && lease in old(leases) && old(lease.replica) in old(ledger)
      requires exists failed ::
        ledger == A.Settle(old(ledger), old(lease.replica), failed) && totalErrors == old(totalErrors) + A.Penalty(failed)
      requires leases == A.Ended(old(leases), lease)
      requires replicas == old(replicas) && order == old(order)
      requires totalRequests == old(totalRequests) && reroutes == old(reroutes)
      requires forall l :: l in old(leases) ==> l.replica == old(l.replica) && l.excluded == old(l.excluded)
      requires forall r :: r in old(ledger) ==> r.books == ledger[r]
      ensures Sound() && |leases| == |old(leases)| - 1
    {
      hide A.Balanced, A.Ended, A.Settle, A.Penalty, Listed;
      var failed :|
        ledger == A.Settle(old(ledger), old(lease.replica), failed) && totalErrors == old(totalErrors) + A.Penalty(failed);
      A.SettleKeepsBalance(old(ledger), old(leases), totalRequests, old(totalErrors), reroutes, lease, failed);
    }

    /** The clamp at zero never acts: a replica with a lease has a request in flight. */
    lemma {:induction false} ChargeMatches(lease: RouteLease, failed: bool)
      requires Sound() && lease in leases
      ensures lease.replica in ledger
      ensures var b := lease.replica.books;
              A.Settle(ledger, lease.replica, failed)[lease.replica]
              == A.Books(AtLeastZero(b.inflight - 1), b.total, b.failures + A.Penalty(failed))
    {
      hide Sound, A.Penalty;
      LeaseIsAccounted(lease);
    }

    /** Every permit accounted for while the running step still holds one. */
    ghost predicate HoldingPermit()
      reads this, ledger.Keys, leases.Keys
    {
      Sound() && PermitsBalance(semaphore, maxConcurrency, maxQueueDepth, waiting,
                                |leases| + if semaphore.Some? then 1 else 0)
    }

    /** `acquire` past the semaphore: pick a replica, or give the permit back. */
    method Admit() returns (o: AcquireOutcome)
      requires HoldingPermit()
      modifies policy, `semaphore, `totalRequests, `ledger, `leases, ledger.Keys`books
      ensures Valid()
      ensures if old(Candidates({})) == [] then o == NoHealthyReplica else o.Leased?
      ensures o == NoHealthyReplica ==>
        && ledger == old(ledger) && leases == old(leases) && totalRequests == old(totalRequests)
        && semaphore == Released(old(semaphore))
      ensures o.Leased? ==>
        fresh(o.lease) && Granted(o.lease) && o.lease.replica in old(Candidates({})) && semaphore == old(semaphore)
    {
      hide Sound, A.Place, Candidates, PermitsBalance, Released, Loads, Policies.Pick, Policies.NextTick;
      var choice := SelectReplica({});
      if choice.None? {
        ReleasedBalance(semaphore, maxConcurrency, maxQueueDepth, waiting, |leases|);
        semaphore := Released(semaphore);
        return NoHealthyReplica;
      }
      LeasedBalance(semaphore, maxConcurrency, maxQueueDepth, waiting, |leases|);
      var lease := PlaceLease(choice.value);
      o := Leased(lease);
    }

    /** A lease was placed and charged to its replica, and nothing else was. */
    twostate predicate Granted(new lease: RouteLease)
      reads this, lease
    {
      && lease.replica in old(ledger)
      && lease.excluded == {lease.replica.id}
      && leases == old(leases)[lease := lease.replica]
      && ledger == A.Place(old(ledger), lease.replica)
      && totalRequests == old(totalRequests) + 1
    }

    /**
     * `acquire` up to its first suspension: rejected when the queue is full, queued behind a locked
     * semaphore, or served at once.
     */
    method Acquire() returns (o: AcquireOutcome)
      requires Valid()
      modifies policy, `semaphore, `waiting, `rejectedOverload, `totalRequests, `ledger, `leases, ledger.Keys`books
      ensures Valid()
      ensures o == Overloaded <==> old(MustWait()) && old(waiting) >= maxQueueDepth
      ensures o == Queued <==> old(MustWait()) && old(waiting) < maxQueueDepth
      ensures o == NoHealthyReplica <==> !old(MustWait()) && old(Candidates({})) == []
      ensures rejectedOverload == old(rejectedOverload) + if o == Overloaded then 1 else 0
      ensures o == Queued ==> semaphore == Some(S.Enqueue(old(semaphore.value))) && waiting == old(waiting) + 1
      ensures !o.Leased? ==> ledger == old(ledger) && leases == old(leases) && totalRequests == old(totalRequests)
      ensures o.Leased? ==> fresh(o.lease) && Granted(o.lease) && o.lease.replica in old(Candidates({}))
    {
      hide Sound, A.Place, HealthyOutside, PermitsBalance, S.Locked, S.Enqueue, Released;
      if MustWait() {
        if waiting >= maxQueueDepth {
          rejectedOverload := rejectedOverload + 1;
          return Overloaded;
        }
        EnqueuedBalance(semaphore, maxConcurrency, maxQueueDepth, waiting, |leases|);
        waiting := waiting + 1;
        semaphore := Some(S.Enqueue(semaphore.value));
        return Queued;
      }
      if semaphore.Some? {
        TakenBalance(semaphore, maxConcurrency, maxQueueDepth, waiting, |leases|);
        semaphore := Some(S.Take(semaphore.value));
      }
      o := Admit();
    }

    /** A new request cannot proceed at once. */
    predicate MustWait()
      reads this
    {
      semaphore.Some? && S.Locked(semaphore.value)
    }

    /** The `i`-th queued task runs again with the permit it was granted. */
    method Resume(i: nat) returns (o: AcquireOutcome)
      requires Valid() && semaphore.Some? && i < |semaphore.value.waiters| && semaphore.value.waiters[i] == S.Granted
      modifies policy, `semaphore, `waiting, `totalRequests, `ledger, `leases, ledger.Keys`books
      ensures Valid()
      ensures waiting == old(waiting) - 1
      ensures if old(Candidates({})) == [] then o == NoHealthyReplica else o.Leased?
      ensures !o.Leased? ==> ledger == old(ledger) && leases == old(leases) && totalRequests == old(totalRequests)
      ensures o.Leased? ==> fresh(o.lease) && Granted(o.lease) && o.lease.replica in old(Candidates({}))
    {
      hide Sound, A.Place, Candidates, PermitsBalance, S.WakeNext, S.ResumeGranted, Released;
      ResumedBalance(semaphore, maxConcurrency, maxQueueDepth, waiting, |leases|, i);
      semaphore := Some(S.ResumeGranted(semaphore.value, i));
      waiting := waiting - 1;
      o := Admit();
    }

    /** The `i`-th queued task is cancelled before any permit reached it. */
    method CancelWaiter(i: nat)
      requires Valid() && semaphore.Some? && i < |semaphore.value.waiters| && semaphore.value.waiters[i] == S.Pending
      modifies `semaphore
      ensures Valid()
      ensures semaphore == Some(S.CancelPending(old(semaphore.value), i))
    {
      hide Sound;
      S.CancelPendingConserves(semaphore.value, i);
      semaphore := Some(S.CancelPending(semaphore.value, i));
    }

    /** The `i`-th queued task runs again only to be cancelled, possibly after it was granted a permit. */
    method ResumeCancelled(i: nat)
      requires Valid() && semaphore.Some? && i < |semaphore.value.waiters| && semaphore.value.waiters[i] != S.Pending
      modifies `semaphore, `waiting
      ensures Valid()
      ensures semaphore == Some(S.ResumeCancelled(old(semaphore.value), i)) && waiting == old(waiting) - 1
    {
      hide Sound;
      S.ResumeCancelledConserves(semaphore.value, i);
      semaphore := Some(S.ResumeCancelled(semaphore.value, i));
      waiting := waiting - 1;
    }

    /** Moves a lease to another healthy replica it has not visited; without one, nothing changes. */
    method Reroute(lease: RouteLease) returns (r: Option<ReplicaState>)
      requires Valid() && lease in leases
      modifies policy, `reroutes, `ledger, `leases, lease, ledger.Keys`books
      ensures Valid()
      ensures r.None? <==> old(Candidates(lease.excluded)) == []
      ensures r.None? ==> ledger == old(ledger) && leases == old(leases) && reroutes == old(reroutes)
      ensures r.None? ==> lease.replica == old(lease.replica) && lease.excluded == old(lease.excluded)
      ensures r.Some? ==>
        && r.value in old(Candidates(lease.excluded))
        && r.value.id !in old(lease.excluded)
        && lease.replica == r.value && r.value != old(lease.replica)
        && lease.excluded == old(lease.excluded) + {r.value.id}
        && leases == old(leases)[lease := r.value]
        && ledger == A.Move(old(ledger), old(lease.replica), r.value)
        && reroutes == old(reroutes) + 1
    {
      hide Sound, PermitsBalance, A.Move, Candidates, Loads, Policies.Pick, Policies.NextTick;
      LeaseIsAccounted(lease);
      r := SelectReplica(lease.excluded);
      if r.Some? {
        MoveLease(lease, r.value);
      }
    }

    /** Ends a lease: the replica gives up the slot, a failure is charged, the permit goes back. */
    method Release(lease: RouteLease, failed: bool)
      requires Valid() && lease in leases
      modifies `semaphore, `totalErrors, `ledger, `leases, lease.replica`books
      ensures Valid()
      ensures leases == A.Ended(old(leases), lease)
      ensures lease.replica in old(ledger) && ledger == A.Settle(old(ledger), lease.replica, failed)
      ensures totalErrors == old(totalErrors) + A.Penalty(failed)
      ensures semaphore == Released(old(semaphore))
    {
      hide Sound, A.Ended;
      SettleLease(lease, failed);
      ReleasedBalance(semaphore, maxConcurrency, maxQueueDepth, waiting, |leases|);
      semaphore := Released(semaphore);
    }

    /**
     * Replaces the semaphore. The permits still add up afterwards exactly when the limit is lifted
     * or no lease is outstanding; tasks queued on the old semaphore are stranded, so none may be.
     */
    method SetMaxConcurrency(value: Option<nat>)
      requires Valid()
      modifies `maxConcurrency, `semaphore
      ensures maxConcurrency == value && semaphore == NewSemaphore(value)
      ensures Sound()
      ensures Valid() <==> old(waiting) == 0 && (semaphore == None || |leases| == 0)
    {
      hide Sound;
      maxConcurrency := value;
      semaphore := NewSemaphore(value);
    }
  }

  lemma {:induction false} LeasedBalance(
    semaphore: Option<S.Semaphore>, maxConcurrency: Option<nat>, maxQueueDepth: nat, waiting: nat, used: nat)
    requires PermitsBalance(semaphore, maxConcurrency, maxQueueDepth, waiting, used + if semaphore.Some? then 1 else 0)
    ensures PermitsBalance(semaphore, maxConcurrency, maxQueueDepth, waiting, used + 1)
  {
  }

  lemma {:induction false} EnqueuedBalance(
    semaphore: Option<S.Semaphore>, maxConcurrency: Option<nat>, maxQueueDepth: nat, waiting: nat, used: nat)
    requires PermitsBalance(semaphore, maxConcurrency, maxQueueDepth, waiting, used)
    requires semaphore.Some? && S.Locked(semaphore.value) && waiting < maxQueueDepth
    ensures PermitsBalance(Some(S.Enqueue(semaphore.value)), maxConcurrency, maxQueueDepth, waiting + 1, used)
  {
    S.EnqueueConserves(semaphore.value);
  }

  lemma {:induction false} TakenBalance(
    semaphore: Option<S.Semaphore>, maxConcurrency: Option<nat>, maxQueueDepth: nat, waiting: nat, used: nat)
    requires PermitsBalance(semaphore, maxConcurrency, maxQueueDepth, waiting, used)
    requires semaphore.Some? && !S.Locked(semaphore.value)
    ensures PermitsBalance(Some(S.Take(semaphore.value)), maxConcurrency, maxQueueDepth, waiting, used + 1)
  {
    S.TakeConserves(semaphore.value);
  }

  lemma {:induction false} ResumedBalance(
    semaphore: Option<S.Semaphore>, maxConcurrency: Option<nat>, maxQueueDepth: nat, waiting: nat, used: nat, i: nat)
    requires PermitsBalance(semaphore, maxConcurrency, maxQueueDepth, waiting, used)
    requires semaphore.Some? && i < |semaphore.value.waiters| && semaphore.value.waiters[i] == S.Granted
    ensures waiting >= 1
    ensures PermitsBalance(Some(S.ResumeGranted(semaphore.value, i)), maxConcurrency, maxQueueDepth, waiting - 1, used + 1)
  {
    S.ResumeGrantedConserves(semaphore.value, i);
  }

  /** `semaphore.release()` when there is one. */
  function Released(s: Option<S.Semaphore>): Option<S.Semaphore> {
    if s.Some? then Some(S.Release(s.value)) else None
  }

  lemma {:induction false} ReleasedBalance(
    semaphore: Option<S.Semaphore>, maxConcurrency: Option<nat>, maxQueueDepth: nat, waiting: nat, used: nat)
    requires PermitsBalance(semaphore, maxConcurrency, maxQueueDepth, waiting, used + if semaphore.Some? then 1 else 0)
    ensures PermitsBalance(Released(semaphore), maxConcurrency, maxQueueDepth, waiting, used)
  {
    if semaphore.Some? {
      S.ReleaseConserves(semaphore.value);
    }
  }

  function HealthyOutside(table: map<ReplicaId, ReplicaState>, ids: seq<ReplicaId>, excluded: set<ReplicaId>)
    : (r: seq<ReplicaState>)
    reads table.Values`status
    ensures forall c :: c in r ==>
      exists id :: id in ids && id in table && table[id] == c && c.status == HEALTHY && id !in excluded
    ensures forall id :: id in ids && id in table && id !in excluded && table[id].status == HEALTHY ==> table[id] in r
  {
    if ids == [] then []
    else
      var id0, rest := ids[0], HealthyOutside(table, ids[1..], excluded);
      assert forall id :: id in ids <==> id == id0 || id in ids[1..];
      if id0 in table && id0 !in excluded && table[id0].status == HEALTHY then [table[id0]] + rest else rest
  }

  /** Earlier objects have their ids at earlier places. */
  predicate InOrderOf(objects: seq<ReplicaState>, ids: seq<ReplicaId>) {
    forall i, j, p, q ::
      0 <= i < j < |objects| && 0 <= p < |ids| && 0 <= q < |ids| && ids[p] == objects[i].id && ids[q] == objects[j].id ==>
        p < q
  }

  lemma {:induction false} InListOrder(table: map<ReplicaId, ReplicaState>, ids: seq<ReplicaId>, excluded: set<ReplicaId>)
    requires Distinct(ids) && forall id :: id in table ==> table[id].id == id
    ensures InOrderOf(HealthyOutside(table, ids, excluded), ids)
  {
    if ids != [] {
      var rest := ids[1..];
      var later := HealthyOutside(table, rest, excluded);
      InListOrder(table, rest, excluded);
      LaterInOrder(later, ids);
      if ids[0] in table {
        FirstInOrder(table[ids[0]], later, ids);
      }
    }
  }

  lemma {:induction false} LaterInOrder(later: seq<ReplicaState>, ids: seq<ReplicaId>)
    requires ids != [] && Distinct(ids) && InOrderOf(later, ids[1..])
    requires forall c :: c in later ==> c.id in ids[1..]
    ensures InOrderOf(later, ids)
  {
    forall i, j, p, q |
      0 <= i < j < |later| && 0 <= p < |ids| && 0 <= q < |ids| && ids[p] == later[i].id && ids[q] == later[j].id
      ensures p < q
    {
      assert later[i] in later && later[j] in later;
      assert p > 0 && q > 0 && ids[1..][p - 1] == ids[p] && ids[1..][q - 1] == ids[q];
    }
  }

  lemma {:induction false} FirstInOrder(first: ReplicaState, later: seq<ReplicaState>, ids: seq<ReplicaId>)
    requires ids != [] && Distinct(ids) && InOrderOf(later, ids) && first.id == ids[0]
    requires forall c :: c in later ==> c.id in ids[1..]
    ensures InOrderOf([first] + later, ids)
  {
    var all := [first] + later;
    forall i, j, p, q |
      0 <= i < j < |all| && 0 <= p < |ids| && 0 <= q < |ids| && ids[p] == all[i].id && ids[q] == all[j].id
      ensures p < q
    {
      assert all[j] == later[j - 1] && later[j - 1] in later;
      if i > 0 {
        assert all[i] == later[i - 1];
      } else {
        assert p == 0 && q != 0;
      }
    }
  }

  /** `asyncio.Semaphore(n) if n else None`. */
  function NewSemaphore(n: Option<nat>): Option<S.Semaphore> {
    if n.Some? && n.value > 0 then Some(S.Semaphore(n.value, [])) else None
  }

  /** A key keeps its place when it is set again, and goes last when it is new. */
  function WithId(ids: seq<ReplicaId>, id: ReplicaId): (r: seq<ReplicaId>)
    ensures forall x :: x in r <==> x in ids || x == id
    ensures ids <= r && (Distinct(ids) ==> Distinct(r))
  {
    if id in ids then ids else ids + [id]
  }

  /** The others keep their places. */
  lemma {:induction false} WithoutIdExactly(ids: seq<ReplicaId>, k: nat)
    requires Distinct(ids) && k < |ids|
    ensures WithoutId(ids, ids[k]) == ids[..k] + ids[k + 1..]
  {
    var rest := ids[1..];
    if k == 0 {
      NobodyWithout(rest, ids[0]);
    } else {
      WithoutIdExactly(rest, k - 1);
      assert ids[..k] == [ids[0]] + rest[..k - 1] && ids[k + 1..] == rest[k..];
    }
  }

  lemma {:induction false} NobodyWithout(ids: seq<ReplicaId>, id: ReplicaId)
    requires id !in ids
    ensures WithoutId(ids, id) == ids
  {
    if ids != [] {
      assert ids == [ids[0]] + ids[1..];
      NobodyWithout(ids[1..], id);
    }
  }

  function WithoutId(ids: seq<ReplicaId>, id: ReplicaId): (r: seq<ReplicaId>)
    ensures forall x :: x in r <==> x in ids && x != id
    ensures Distinct(ids) ==> Distinct(r)
  {
    if ids == [] then []
    else
      var rest := WithoutId(ids[1..], id);
      assert forall k :: 0 <= k < |rest| ==> rest[k] in rest;
      if ids[0] == id then rest else [ids[0]] + rest
  }
}
