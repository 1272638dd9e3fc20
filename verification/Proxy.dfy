/** One proxied request: send, retry once elsewhere, stream, and settle the lease whatever happens. */
module Proxy {
  import opened Sequences
  import opened Router
  import opened RouterRuns
  import A = Accounts
  import S = Semaphores

  /** How one upstream `send` ends; a failing status is followed by closing the response. */
  datatype SendOutcome =
    | Responded(status: nat, closeRaises: bool)
    | TransportError
    | SendCancelled

  /** How streaming the accepted response ends. */
  datatype StreamOutcome = Completed | BackendDropped | ClientGone

  /** What the network does to one request. */
  datatype Fate = Fate(first: SendOutcome, second: SendOutcome, stream: StreamOutcome) {
    function Send(attempt: nat): SendOutcome {
      if attempt == 0 then first else second
    }
  }

  predicate Served(outcome: SendOutcome) {
    outcome.Responded? && outcome.status < 500
  }

  predicate Failed(outcome: SendOutcome) {
    outcome.TransportError? || (outcome.Responded? && outcome.status >= 500)
  }

  /** A failing response whose connection could not be closed: the failure escapes uncharged. */
  predicate CloseRaisedAt(outcome: SendOutcome) {
    outcome.Responded? && outcome.status >= 500 && outcome.closeRaises
  }

  /** How many of the first `n` sends fail. */
  function Failures(fate: Fate, n: nat): nat {
    if n == 0 then 0 else Failures(fate, n - 1) + if Failed(fate.Send(n - 1)) then 1 else 0
  }

  datatype SendResult = Accepted | AllFailed | Raised

  datatype Reply =
    | Streamed               // handed to the client, completely or not
    | BadGateway             // every attempt failed
    | Unavailable            // no healthy replica
    | TooBusy                // the queue is full
    | Aborted                // cancelled, or closing a failed response raised
    | Waiting                // queued for a permit

  /** A request's own record: where it was sent, what failed, which replicas it charged a failure. */
  datatype Trace = Trace(sends: seq<ReplicaId>, failedSends: nat, charged: seq<ReplicaId>, drops: nat)

  /** The leases in the hands of all other requests. */
  class OtherTasks {
    var held: seq<RouteLease>

    constructor ()
      ensures held == []
    {
      held := [];
    }
  }

  /** This request holds `lease`, the others hold all the rest. */
  ghost predicate Shared(router: ReplicaRouter, lease: RouteLease, others: OtherTasks)
    reads router`leases, others
  {
    Holds(router, [lease] + others.held)
  }

  lemma {:induction false} SharedIsLeased(router: ReplicaRouter, lease: RouteLease, others: OtherTasks)
    requires Shared(router, lease, others)
    ensures lease in router.leases
  {
    assert ([lease] + others.held)[0] == lease;
  }

  lemma {:induction false} FirstShared(
    router: ReplicaRouter, lease: RouteLease, others: OtherTasks, before: set<RouteLease>)
    requires Distinct(others.held) && (forall l :: l in others.held <==> l in before)
    requires lease !in before && router.leases.Keys == before + {lease}
    ensures Shared(router, lease, others)
  {
    var held := [lease] + others.held;
    assert forall k :: 1 <= k < |held| ==> held[k] == others.held[k - 1] && others.held[k - 1] in others.held;
  }

  lemma {:induction false} LastShared(
    router: ReplicaRouter, lease: RouteLease, others: OtherTasks, before: set<RouteLease>)
    requires router.leases.Keys == before - {lease}
    requires var held := [lease] + others.held; Distinct(held) && forall l :: l in held <==> l in before
    ensures Holds(router, others.held)
  {
    var held := [lease] + others.held;
    assert held[0] == lease && forall k :: 0 <= k < |others.held| ==> others.held[k] == held[k + 1];
    forall l | l in others.held
      ensures l in router.leases
    {
      var k :| 0 <= k < |others.held| && others.held[k] == l;
      assert held[k + 1] == l && l in held && l != held[0];
    }
  }

  /**
   * While this task is suspended the others take any steps they like; none of them is this
   * request's own, so its lease stays where it is.
   */
  method OtherTasksRun(router: ReplicaRouter, lease: RouteLease, others: OtherTasks)
    requires router.Valid() && Shared(router, lease, others)
    modifies router, router.policy, router.ledger.Keys, router.leases.Keys, others
    ensures router.Valid() && Shared(router, lease, others)
    ensures SameLease(lease) && OnlyFreshAdded(router)
  {
    hide ReplicaRouter.Valid, Holds;
    var events: seq<Event> := *;
    var left := OthersRun(router, [lease] + others.held, events);
    others.held := left[1..];
    assert left == [lease] + others.held;
  }

  /** Failures charged so far on all replicas, as the books have it. */
  ghost function Charged(router: ReplicaRouter): int
    reads router
  {
    router.totalErrors + router.reroutes
  }

  datatype AttemptResult = Good | Bad | Interrupted | CloseRaised

  /** An attempt ended as the network's answer has it. */
  predicate Answers(r: AttemptResult, outcome: SendOutcome) {
    && (r == Good <==> Served(outcome))
    && (r == Interrupted <==> outcome.SendCancelled?)
    && (r == CloseRaised <==> CloseRaisedAt(outcome))
  }

  /** One send and, for a failing status, closing the response; others run at both awaits. */
  method Attempt(router: ReplicaRouter, lease: RouteLease, others: OtherTasks, outcome: SendOutcome)
    returns (r: AttemptResult)
    requires router.Valid() && Shared(router, lease, others)
    modifies router, router.policy, router.ledger.Keys, router.leases.Keys, others
    ensures router.Valid() && Shared(router, lease, others) && SameLease(lease) && OnlyFreshAdded(router)
    ensures Answers(r, outcome)
  {
    hide ReplicaRouter.Valid, Shared;
    OtherTasksRun(router, lease, others);
    match outcome {
      case SendCancelled => r := Interrupted;
      case TransportError => r := Bad;
      case Responded(status, closeRaises) =>
        if status < 500 {
          return Good;
        }
        OtherTasksRun(router, lease, others);
        r := if closeRaises then CloseRaised else Bad;
    }
  }

  lemma {:induction false} LeasedReplicaKnown(router: ReplicaRouter, lease: RouteLease, others: OtherTasks)
    requires router.Valid() && Shared(router, lease, others)
    ensures lease.replica in router.ledger
  {
    SharedIsLeased(router, lease, others);
  }

  lemma {:induction false} CandidatesKnown(router: ReplicaRouter, excluded: set<ReplicaId>)
    requires router.Valid()
    ensures forall c :: c in router.Candidates(excluded) ==> c in router.ledger
  {
    hide A.Balanced, PermitsBalance;
  }

  /**
   * `reroute`: the lease moves, and its old replica is charged one failure, exactly when a healthy
   * replica it never visited exists; otherwise nothing changes.
   */
  method Retry(router: ReplicaRouter, lease: RouteLease, others: OtherTasks)
    returns (moved: bool, ghost charged: seq<ReplicaId>)
    requires router.Valid() && Shared(router, lease, others)
    modifies router, router.policy, router.ledger.Keys, lease
    ensures router.Valid() && Shared(router, lease, others) && OnlyFreshAdded(router)
    ensures moved <==> old(router.Candidates(lease.excluded)) != []
    ensures charged == (if moved then [old(lease.replica.id)] else []) && Charged(router) == old(Charged(router)) + |charged|
    ensures moved ==>
      && old(lease.replica) in old(router.ledger) && lease.replica in old(router.ledger)
      && router.ledger == A.Move(old(router.ledger), old(lease.replica), lease.replica)
    ensures !moved ==> router.ledger == old(router.ledger)
    ensures moved ==> lease.replica in old(router.Candidates(lease.excluded)) && lease.replica.id !in old(lease.excluded)
    ensures moved ==> lease.excluded == old(lease.excluded) + {lease.replica.id}
    ensures !moved ==> SameLease(lease) && router.Candidates(lease.excluded) == []
  {
    hide PermitsBalance, ReplicaRouter.Valid, ReplicaRouter.Sound, HealthyOutside, A.Move;
    SharedIsLeased(router, lease, others);
    LeasedReplicaKnown(router, lease, others);
    CandidatesKnown(router, lease.excluded);
    charged := [lease.replica.id];
    var other := router.Reroute(lease);
    moved := other.Some?;
    charged := if moved then charged else [];
  }

  /** One healthy replica was all there was: a single failed send is not followed by another. */
  ghost predicate NowhereElse(router: ReplicaRouter, t: Trace)
    reads router, router.replicas.Values
  {
    |t.sends| == 1 ==> router.Candidates({t.sends[0]}) == []
  }

  /** What was sent and what failed, as the network answered; a second send follows a failed one only. */
  predicate Sent(t: Trace, fate: Fate) {
    && 1 <= |t.sends| <= 2
    && (|t.sends| == 2 ==> t.sends[0] != t.sends[1] && Failed(fate.first) && !CloseRaisedAt(fate.first))
    && t.failedSends == Failures(fate, |t.sends|)
  }

  /** Everything before the last send failed. */
  lemma {:induction false} FailuresBeforeLast(t: Trace, fate: Fate)
    requires Sent(t, fate)
    ensures t.failedSends == |t.sends| - 1 + if Failed(fate.Send(|t.sends| - 1)) then 1 else 0
  {
    assert Failures(fate, 1) == if Failed(fate.first) then 1 else 0;
  }

  /** The answer to the last send decides the result. */
  function Result(last: SendOutcome): SendResult {
    if Served(last) then Accepted else if last.SendCancelled? || CloseRaisedAt(last) then Raised else AllFailed
  }

  function ResultOf(last: AttemptResult): SendResult {
    match last
    case Good => Accepted
    case Bad => AllFailed
    case Interrupted => Raised
    case CloseRaised => Raised
  }

  /** Nothing, or one failed send that another may follow, has happened. */
  predicate Begun(sends: seq<ReplicaId>, fate: Fate) {
    |sends| <= 1 && (|sends| == 1 ==> Failed(fate.first) && !CloseRaisedAt(fate.first))
  }

  lemma {:induction false} NothingSent(fate: Fate)
    ensures Begun([], fate)
  {
  }

  lemma {:induction false} BeginsAgain(fate: Fate, sends: seq<ReplicaId>, r: AttemptResult)
    requires |sends| == 1 && Answers(r, fate.Send(0)) && r == Bad
    ensures Begun(sends, fate)
  {
  }

  lemma {:induction false} SendsDone(before: seq<ReplicaId>, to: ReplicaId, fate: Fate, last: AttemptResult)
    requires Begun(before, fate) && to !in before && Answers(last, fate.Send(|before|))
    ensures var failed := |before| + if last == Bad || last == CloseRaised then 1 else 0;
            Sent(Trace(before + [to], failed, before, 0), fate)
    ensures ResultOf(last) == Result(fate.Send(|before|))
  {
    assert Failures(fate, 1) == if Failed(fate.Send(0)) then 1 else 0;
  }

  /** One turn of the retry loop: a send and, after a failure that is not the last allowed, a reroute. */
  method SendOnce(router: ReplicaRouter, lease: RouteLease, others: OtherTasks, outcome: SendOutcome, last: bool)
    returns (result: AttemptResult, again: bool, ghost charged: seq<ReplicaId>)
    requires router.Valid() && Shared(router, lease, others)
    modifies router, router.policy, router.ledger.Keys, router.leases.Keys, others
    ensures router.Valid() && Shared(router, lease, others) && OnlyFreshAdded(router) && Answers(result, outcome)
    ensures again ==>
      && result == Bad && !last && charged == [old(lease.replica.id)] && lease.replica.id !in old(lease.excluded)
    ensures !again ==> SameLease(lease) && charged == []
    ensures result == Bad && !last && !again ==> router.Candidates(lease.excluded) == []
  {
    hide PermitsBalance, Shared, Charged, A.Move, A.Settle, Answers;
    hide ReplicaRouter.Valid, ReplicaRouter.Sound, ReplicaRouter.Candidates;
    again, charged := false, [];
    SharedIsLeased(router, lease, others);
    result := Attempt(router, lease, others, outcome);
    if result == Bad && !last {
      SharedIsLeased(router, lease, others);
      again, charged := Retry(router, lease, others);
    }
  }

  /** Sends to the leased replica; on a failure before any body, once more to another one. */
  method SendWithRetry(router: ReplicaRouter, lease: RouteLease, others: OtherTasks, fate: Fate)
    returns (r: SendResult, ghost t: Trace)
    requires router.Valid() && Shared(router, lease, others) && lease.excluded == {lease.replica.id}
    modifies router, router.policy, router.ledger.Keys, router.leases.Keys, others
    ensures router.Valid() && Shared(router, lease, others) && OnlyFreshAdded(router)
    ensures Sent(t, fate) && t.drops == 0 && r == Result(fate.Send(|t.sends| - 1))
    ensures t.sends[0] == old(lease.replica.id) && t.sends[|t.sends| - 1] == lease.replica.id
    ensures t.charged == t.sends[..|t.sends| - 1]
    ensures r == AllFailed ==> NowhereElse(router, t)
  {
    hide PermitsBalance, Shared, Answers, Begun, Result, Fate.Send, Sent;
    hide ReplicaRouter.Valid, ReplicaRouter.Sound, ReplicaRouter.Candidates;
    var attempts, again := 0, true;
    var result := Bad;
    ghost var before: seq<ReplicaId>, charged: seq<ReplicaId> := [], [];
    NothingSent(fate);
    while again
      invariant router.Valid() && Shared(router, lease, others) && OnlyFreshAdded(router)
      invariant attempts <= 2 && Begun(before, fate) && charged == before
      invariant again ==> attempts < 2 && |before| == attempts
      invariant before == [] ==> SameLease(lease)
      invariant before != [] ==> before == [old(lease.replica.id)] && before[0] != lease.replica.id
      invariant !again ==> Answers(result, fate.Send(|before|))
      invariant !again && result == Bad && before == [] ==> router.Candidates(lease.excluded) == []
      decreases 2 - attempts
    {
      ghost var sender, more := lease.replica.id, [];
      SharedIsLeased(router, lease, others);
      result, again, more := SendOnce(router, lease, others, fate.Send(attempts), attempts >= 1);
      attempts := attempts + 1;
      if again {
        BeginsAgain(fate, [sender], result);
        before, charged := [sender], more;
      }
    }
    r := ResultOf(result);
    SendsDone(before, lease.replica.id, fate, result);
    ghost var failed := |before| + if result == Bad || result == CloseRaised then 1 else 0;
    t := Trace(before + [lease.replica.id], failed, charged, 0);
  }

  /** `cleanup`: the lease is released whether or not closing the response raises. */
  method Cleanup(router: ReplicaRouter, lease: RouteLease, others: OtherTasks, error: bool, ghost t: Trace)
    returns (ghost settled: Trace)
    requires router.Valid() && Shared(router, lease, others)
    modifies router`semaphore, router`totalErrors, router`ledger, router`leases, lease.replica`books
    ensures router.Valid() && Holds(router, others.held) && lease !in router.leases
    ensures settled == t.(charged := t.charged + if error then [lease.replica.id] else [])
    ensures lease.replica in old(router.ledger) && router.ledger == A.Settle(old(router.ledger), lease.replica, error)
    ensures Charged(router) == old(Charged(router)) + if error then 1 else 0
  {
    hide A.Balanced, A.Settle, PermitsBalance, ReplicaRouter.Valid, ReplicaRouter.Sound;
    SharedIsLeased(router, lease, others);
    ghost var leases := router.leases.Keys;
    router.Release(lease, error);
    LastShared(router, lease, others, leases);
    settled := t.(charged := t.charged + if error then [lease.replica.id] else []);
  }

  /** After sending: stream an accepted response, then clean up in every case. */
  method Finish(
    router: ReplicaRouter, lease: RouteLease, others: OtherTasks, result: SendResult, stream: StreamOutcome, ghost t: Trace)
    returns (reply: Reply, ghost settled: Trace)
    requires router.Valid() && Shared(router, lease, others) && t.drops == 0
    modifies router, router.policy, router.ledger.Keys, router.leases.Keys, others
    ensures router.Valid() && Holds(router, others.held) && lease !in router.leases
    ensures reply == match result
      case Accepted => Streamed
      case AllFailed => BadGateway
      case Raised => Aborted
    ensures settled.sends == t.sends && settled.failedSends == t.failedSends
    ensures settled.drops == (if result == Accepted && stream == BackendDropped then 1 else 0)
    ensures settled.charged ==
      t.charged + if settled.drops == 1 || result == AllFailed then [old(lease.replica.id)] else []
    ensures result == AllFailed && old(NowhereElse(router, t)) ==> NowhereElse(router, settled)
  {
    hide PermitsBalance, ReplicaRouter.Valid, ReplicaRouter.Sound, Shared, Holds, Charged, A.Settle;
    var dropped := false;
    if result == Accepted {
      OtherTasksRun(router, lease, others);
      dropped := stream == BackendDropped;
    }
    LeasedReplicaKnown(router, lease, others);
    settled := Cleanup(
      router, lease, others, dropped || result == AllFailed, t.(drops := if dropped then 1 else 0));
    reply := match result case Accepted => Streamed case AllFailed => BadGateway case Raised => Aborted;
  }

  /** The replicas of the first `n` sends that fail, except where closing the failed response raises. */
  function ChargedSends(sends: seq<ReplicaId>, fate: Fate, n: nat): seq<ReplicaId>
    requires n <= |sends|
  {
    if n == 0 then []
    else
      ChargedSends(sends, fate, n - 1)
      + if Failed(fate.Send(n - 1)) && !CloseRaisedAt(fate.Send(n - 1)) then [sends[n - 1]] else []
  }

  /**
   * What a served request did: one or two sends, to different replicas, the second only after a
   * failed first; the last answer decides the reply; every failed send and a mid-stream drop is
   * charged once, to the replica it happened on, except a failing response whose connection could
   * not be closed.
   */
  predicate Settled(t: Trace, reply: Reply, fate: Fate) {
    && Sent(t, fate)
    && var last := fate.Send(|t.sends| - 1);
    && (reply == Streamed || reply == BadGateway || reply == Aborted)
    && (reply == Streamed <==> Served(last))
    && (reply == BadGateway <==> Failed(last) && !CloseRaisedAt(last))
    && (reply == Aborted <==> last.SendCancelled? || CloseRaisedAt(last))
    && t.drops == (if reply == Streamed && fate.stream == BackendDropped then 1 else 0)
    && t.charged == ChargedSends(t.sends, fate, |t.sends|) + if t.drops == 1 then [t.sends[|t.sends| - 1]] else []
  }

  /** Each failure is charged once, as the retry loop says, exactly when no closing raises. */
  lemma {:induction false} ChargedExactly(t: Trace, reply: Reply, fate: Fate)
    requires Settled(t, reply, fate)
    ensures |t.charged| == t.failedSends + t.drops <==> !CloseRaisedAt(fate.Send(|t.sends| - 1))
  {
    FailuresBeforeLast(t, fate);
    ChargedBeforeLast(t, fate);
  }

  /** Everything before the last send is charged. */
  lemma {:induction false} ChargedBeforeLast(t: Trace, fate: Fate)
    requires Sent(t, fate)
    ensures var last := |t.sends| - 1;
            ChargedSends(t.sends, fate, |t.sends|) ==
            t.sends[..last] + if Failed(fate.Send(last)) && !CloseRaisedAt(fate.Send(last)) then [t.sends[last]] else []
  {
    assert ChargedSends(t.sends, fate, 0) == [];
    assert ChargedSends(t.sends, fate, 1)
        == if Failed(fate.first) && !CloseRaisedAt(fate.first) then [t.sends[0]] else [];
  }

  /** A server error whose connection cannot be closed is a failure nobody is charged for. */
  lemma {:induction false} FailureCanGoUncharged(fate: Fate, t: Trace)
    requires fate.first == Responded(500, true) && t == Trace([7], 1, [], 0)
    ensures Settled(t, Aborted, fate)
    ensures forall u, reply :: Settled(u, reply, fate) ==> u.failedSends == 1 && u.charged == [] && reply == Aborted
  {
    assert Failures(fate, 1) == 1;
    forall u, reply | Settled(u, reply, fate)
      ensures u.failedSends == 1 && u.charged == [] && reply == Aborted
    {
      assert |u.sends| == 1 && ChargedSends(u.sends, fate, 1) == [];
    }
    assert ChargedSends([7], fate, 1) == [];
  }

  /**
   * The part of `proxy_generation` that owns a lease, up to and including the cleanup that runs
   * when the response object is done or was never handed off.
   */
  method Serve(router: ReplicaRouter, lease: RouteLease, others: OtherTasks, fate: Fate)
    returns (reply: Reply, ghost t: Trace)
    requires router.Valid() && Shared(router, lease, others) && lease.excluded == {lease.replica.id}
    modifies router, router.policy, router.ledger.Keys, router.leases.Keys, others
    ensures router.Valid() && Holds(router, others.held) && lease !in router.leases
    ensures Settled(t, reply, fate) && t.sends[0] == old(lease.replica.id)
    ensures reply == BadGateway ==> NowhereElse(router, t)
  {
    hide PermitsBalance, ReplicaRouter.Valid, ReplicaRouter.Sound, Shared, Holds, NowhereElse;
    var result;
    ghost var sent;
    result, sent := SendWithRetry(router, lease, others, fate);
    FailuresBeforeLast(sent, fate);
    ChargedBeforeLast(sent, fate);
    reply, t := Finish(router, lease, others, result, fate.stream, sent);
  }

  predicate Refused(reply: Reply) {
    reply == TooBusy || reply == Waiting || reply == Unavailable
  }

  /** The first send of a request went to one of these replicas. */
  predicate StartsAmong(t: Trace, replicas: seq<ReplicaState>) {
    t.sends != [] && exists r :: r in replicas && r.id == t.sends[0]
  }

  /** `proxy_generation` up to the point where it holds a lease, is refused, or has to queue. */
  method HandleRequest(router: ReplicaRouter, others: OtherTasks, fate: Fate) returns (reply: Reply, ghost t: Trace)
    requires router.Valid() && Holds(router, others.held)
    modifies router, router.policy, router.ledger.Keys, router.leases.Keys, others
    ensures router.Valid() && Holds(router, others.held)
    ensures reply == TooBusy <==> old(router.MustWait()) && old(router.waiting) >= router.maxQueueDepth
    ensures reply == Waiting <==> old(router.MustWait()) && old(router.waiting) < router.maxQueueDepth
    ensures reply == Unavailable <==> !old(router.MustWait()) && old(router.Candidates({})) == []
    ensures Refused(reply) ==> t == Trace([], 0, [], 0) && router.leases == old(router.leases)
    ensures !Refused(reply) ==> Settled(t, reply, fate) && StartsAmong(t, old(router.Candidates({})))
    ensures reply == BadGateway ==> NowhereElse(router, t)
  {
    hide PermitsBalance, ReplicaRouter.Valid, ReplicaRouter.Sound, HealthyOutside, Failures;
    t := Trace([], 0, [], 0);
    ghost var leases := router.leases.Keys;
    var o := router.Acquire();
    match o {
      case Overloaded => reply := TooBusy;
      case Queued => reply := Waiting;
      case NoHealthyReplica => reply := Unavailable;
      case Leased(lease) =>
        FirstShared(router, lease, others, leases);
        ghost var first := lease.replica;
        reply, t := Serve(router, lease, others, fate);
        assert first.id == t.sends[0];
    }
  }

  /** The rest of the request once the permit it queued for has been granted. */
  method ContinueRequest(router: ReplicaRouter, i: nat, others: OtherTasks, fate: Fate)
    returns (reply: Reply, ghost t: Trace)
    requires router.Valid() && Holds(router, others.held) && Waits(router, i, S.Granted)
    modifies router, router.policy, router.ledger.Keys, router.leases.Keys, others
    ensures router.Valid() && Holds(router, others.held)
    ensures reply == Unavailable <==> old(router.Candidates({})) == []
    ensures reply == Unavailable ==> t == Trace([], 0, [], 0) && router.leases == old(router.leases)
    ensures reply != Unavailable ==> Settled(t, reply, fate) && StartsAmong(t, old(router.Candidates({})))
    ensures reply == BadGateway ==> NowhereElse(router, t)
  {
    hide PermitsBalance, ReplicaRouter.Valid, ReplicaRouter.Sound, HealthyOutside, Failures;
    t := Trace([], 0, [], 0);
    ghost var leases := router.leases.Keys;
    var o := router.Resume(i);
    if o.Leased? {
      FirstShared(router, o.lease, others, leases);
      ghost var first := o.lease.replica;
      reply, t := Serve(router, o.lease, others, fate);
      assert first.id == t.sends[0];
    } else {
      reply := Unavailable;
    }
  }
}
