/** The staged tuner: which sessions it opens and closes, and what its measurements belong to. */
module Tuning {
  import opened Wrappers
  import opened Numbers
  import opened Sequences
  import opened Sorting
  import opened Scoring
  import opened Scores
  import opened Sweeps
  import Memory

  /** Structural identity of a plan: its topology, whatever its tunable knobs. */
  type Key = int

  datatype CandidatePlan = CandidatePlan(
    id: int, key: Key, memoryFraction: Option<real>, maxConcurrency: Option<int>, maxNumSeqs: Option<int>,
    replicaCount: nat, deviceMemory: Option<(int, int)>)  // estimated total and free bytes per device

  /** What launches the same engines: topology and memory fraction. */
  predicate SameLaunch(a: CandidatePlan, b: CandidatePlan) {
    a.key == b.key && a.memoryFraction == b.memoryFraction
  }

  datatype Purpose = StageA | Sweep | Refine | Latency | Memory | Final

  /** A benchmark result together with the launch configuration it was measured on. */
  datatype Measurement = Measurement(result: BenchmarkResult, purpose: Purpose, key: Key, memoryFraction: Option<real>)

  datatype Status = Pending | Benchmarked | Failed

  datatype CandidateEvaluation = CandidateEvaluation(plan: CandidatePlan, status: Status, results: seq<Measurement>)

  datatype Failure = NoViablePlan | Raised

  datatype BenchmarkFailure = BenchmarkError | OtherError

  /** One benchmark that was run, whatever came of it. */
  datatype Ask = Ask(concurrency: int, purpose: Purpose)

  function Asks(points: seq<int>, purpose: Purpose): (r: seq<Ask>)
    ensures |r| == |points| && forall i :: 0 <= i < |r| ==> r[i] == Ask(points[i], purpose)
  {
    seq(|points|, i requires 0 <= i < |points| => Ask(points[i], purpose))
  }

  lemma {:induction false} OneMoreAsk(points: seq<int>, c: int, purpose: Purpose)
    ensures Asks(points + [c], purpose) == Asks(points, purpose) + [Ask(c, purpose)]
    ensures Asks([], purpose) == []
  {
  }

  /** A launched candidate. */
  class Session {
    const plan: CandidatePlan
    var closes: nat
    ghost var asked: seq<Ask>  // every benchmark run on it

    constructor (plan: CandidatePlan)
      ensures this.plan == plan && closes == 0 && asked == []
    {
      this.plan := plan;
      closes := 0;
      asked := [];
    }

    /** Only an open session can be measured; the measurement may fail in a known way or raise. */
    method Benchmark(concurrency: int, purpose: Purpose) returns (r: Result<Measurement, BenchmarkFailure>)
      requires closes == 0
      modifies this`asked
      ensures asked == old(asked) + [Ask(concurrency, purpose)]
      ensures r.Ok? ==> r.value.key == plan.key && r.value.memoryFraction == plan.memoryFraction
      ensures r.Ok? ==> r.value.purpose == purpose && r.value.result.concurrency == concurrency
    {
      asked := asked + [Ask(concurrency, purpose)];
      var measured: BenchmarkResult := *;
      var fails: bool, known: bool := *, *;
      r := if !fails then Ok(Measurement(measured.(concurrency := concurrency), purpose, plan.key, plan.memoryFraction))
           else if known then Err(BenchmarkError) else Err(OtherError);
    }

    /** Tears the engines down; cleaning up may raise, but the session is closed all the same. */
    method Close() returns (r: Result<(), Failure>)
      requires closes == 0
      modifies this`closes
      ensures closes == 1
    {
      closes := closes + 1;
      var raises: bool := *;
      r := if raises then Err(Raised) else Ok(());
    }
  }

  /** Every result was measured on the launch configuration of the evaluation's plan. */
  predicate Faithful(e: CandidateEvaluation) {
    forall m :: m in e.results ==> m.key == e.plan.key && m.memoryFraction == e.plan.memoryFraction
  }

  predicate AllFaithful(es: seq<CandidateEvaluation>) {
    forall e :: e in es ==> Faithful(e)
  }

  datatype Settings = Settings(
    maxStructuralCandidates: nat, topK: nat, memoryTuning: bool, sweepStart: int, sweepMax: int, sweepGrowth: int,
    refinementPoints: nat, memoryStep: real, memoryMinGain: real, expectedConcurrency: Option<int>,
    scoring: ScoringConfig)
  {
    /** Sweeps start somewhere and grow. */
    predicate Sensible() {
      sweepStart >= 1 && sweepGrowth >= 2 && (expectedConcurrency.Some? ==> expectedConcurrency.value >= 1)
    }
  }

  const DEFAULT_LATENCY_CONCURRENCY := 16
  const STAGE_A_MIN_CONCURRENCY := 8
  const STAGE_A_MAX_CONCURRENCY := 256

  /** `x or y` of optional numbers. */
  function Or(x: Option<int>, y: int): int {
    if x.Some? && x.value != 0 then x.value else y
  }

  /** The measured results alone. */
  function ResultsOf(ms: seq<Measurement>): (r: seq<BenchmarkResult>)
    ensures |r| == |ms| && forall i :: 0 <= i < |r| ==> r[i] == ms[i].result
  {
    seq(|ms|, i requires 0 <= i < |ms| => ms[i].result)
  }

  /** Everything measured for a topology, in the order it was recorded. */
  function MeasuredFor(evaluations: seq<CandidateEvaluation>, key: Key): (r: seq<Measurement>)
    ensures forall m :: m in r <==> exists e :: e in evaluations && e.plan.key == key && m in e.results
  {
    if evaluations == [] then []
    else
      var e, rest := evaluations[0], MeasuredFor(evaluations[1..], key);
      assert forall x :: x in evaluations[1..] ==> x in evaluations;
      assert e in evaluations;
      if e.plan.key == key then e.results + rest else rest
  }

  lemma {:induction false} MeasuredForConcat(a: seq<CandidateEvaluation>, b: seq<CandidateEvaluation>, key: Key)
    ensures MeasuredFor(a + b, key) == MeasuredFor(a, key) + MeasuredFor(b, key)
  {
    if a == [] {
      assert a + b == b;
    } else {
      assert (a + b)[1..] == a[1..] + b;
      MeasuredForConcat(a[1..], b, key);
    }
  }

  /** The results with a successful request. */
  function Working(results: seq<BenchmarkResult>): (r: seq<BenchmarkResult>)
    ensures forall x :: x in r <==> x in results && x.successfulRequests > 0
  {
    if results == [] then []
    else
      assert results == [results[0]] + results[1..];
      if results[0].successfulRequests > 0 then [results[0]] + Working(results[1..]) else Working(results[1..])
  }

  predicate ByMostThroughput(a: BenchmarkResult, b: BenchmarkResult) {
    a.tokensPerSecond >= b.tokensPerSecond
  }

  function IndexOf(s: seq<BenchmarkResult>, x: BenchmarkResult): (i: nat)
    requires x in s
    ensures i < |s| && s[i] == x && x !in s[..i]
  {
    if s[0] == x then 0
    else
      assert s == [s[0]] + s[1..];
      var i := IndexOf(s[1..], x);
      assert s[..i + 1] == [s[0]] + s[1..][..i];
      i + 1
  }

  /** Midpoints between the fastest point of a sweep and the points next to it. */
  function Neighbours(results: seq<BenchmarkResult>): seq<int> {
    var valid := StableSort(Working(results), ByConcurrency);
    if |valid| < 2 then []
    else
      var best := First(valid, ByMostThroughput);
      Beside(valid, IndexOf(valid, best))
  }

  function Beside(points: seq<BenchmarkResult>, i: nat): (r: seq<int>)
    requires i < |points|
    ensures forall c :: c in r <==>
      || (i + 1 < |points| && c == (points[i].concurrency + points[i + 1].concurrency) / 2)
      || (i > 0 && c == (points[i].concurrency + points[i - 1].concurrency) / 2)
    ensures i + 1 < |points| ==> r != [] && r[0] == (points[i].concurrency + points[i + 1].concurrency) / 2
  {
    (if i + 1 < |points| then [(points[i].concurrency + points[i + 1].concurrency) / 2] else [])
    + (if i > 0 then [(points[i].concurrency + points[i - 1].concurrency) / 2] else [])
  }

  /**
   * With two working points or more, the refinement lies half way between the fastest of them, at its
   * lowest concurrency, and the next one above and below.
   */
  lemma {:induction false} NeighboursExactly(results: seq<BenchmarkResult>) returns (i: nat)
    requires |Working(results)| >= 2
    ensures var points := StableSort(Working(results), ByConcurrency);
      && i < |points|
      && (forall x :: x in results && x.successfulRequests > 0 ==> x.tokensPerSecond <= points[i].tokensPerSecond)
      && (forall j :: 0 <= j < i ==> points[j].tokensPerSecond < points[i].tokensPerSecond)
      && (forall c :: c in Neighbours(results) <==>
            || (i + 1 < |points| && c == (points[i].concurrency + points[i + 1].concurrency) / 2)
            || (i > 0 && c == (points[i].concurrency + points[i - 1].concurrency) / 2))
      && (i + 1 < |points| ==> Neighbours(results)[0] == (points[i].concurrency + points[i + 1].concurrency) / 2)
  {
    hide StableSort, ByMostThroughput, ByConcurrency, Beside, First, IndexOf;
    var points := StableSort(Working(results), ByConcurrency);
    StableSortSame(Working(results), ByConcurrency);
    FastestAt(points);
    i := IndexOf(points, First(points, ByMostThroughput));
  }

  lemma {:induction false} FastestAt(points: seq<BenchmarkResult>)
    requires points != []
    ensures var i := IndexOf(points, First(points, ByMostThroughput));
      && (forall x :: x in points ==> x.tokensPerSecond <= points[i].tokensPerSecond)
      && (forall j :: 0 <= j < i ==> points[j].tokensPerSecond < points[i].tokensPerSecond)
  {
    hide IndexOf;
    var best := First(points, ByMostThroughput);
    var i := IndexOf(points, best);
    var p := FirstAt(points, ByMostThroughput);
    assert forall k :: 0 <= k < i ==> points[..i][k] == points[k];
  }

  /** How a sweep went: upwards point by point and then refined, or from an operating point on. */
  datatype Course =
    | Upwards(points: seq<int>, n: nat, sweep: seq<Measurement>, refined: seq<int>)
    | FromBase(first: seq<Measurement>, rungs: seq<int>)

  /** The point was measured before, other than in stage A. */
  predicate Tried(history: seq<Measurement>, concurrency: int) {
    exists m :: m in history && m.result.concurrency == concurrency && m.purpose != StageA
  }

  /** What was measured in stage A alone is measured again in a sweep. */
  lemma {:induction false} StageADoesNotCount(history: seq<Measurement>, m: Measurement)
    requires m.purpose == StageA
    ensures forall c :: Tried(history + [m], c) <==> Tried(history, c)
  {
    forall c
      ensures Tried(history + [m], c) <==> Tried(history, c)
    {
      assert forall x :: x in history + [m] <==> x in history || x == m;
    }
  }

  /** ... and what a sweep has measured is not. */
  lemma {:induction false} SweptCounts(history: seq<Measurement>, m: Measurement)
    requires m.purpose != StageA
    ensures Tried(history + [m], m.result.concurrency)
  {
    assert m in history + [m];
  }

  /** Points measured after `history`, each at a concurrency of its own that was not tried before. */
  predicate NewPoints(history: seq<Measurement>, ms: seq<Measurement>) {
    && (forall m :: m in ms ==> m.purpose != StageA)
    && (forall i :: 0 <= i < |ms| ==> !Tried(history, ms[i].result.concurrency))
    && (forall i, j :: 0 <= i < j < |ms| ==> ms[i].result.concurrency != ms[j].result.concurrency)
  }

  lemma {:induction false} OneMorePoint(history: seq<Measurement>, ms: seq<Measurement>, m: Measurement)
    requires NewPoints(history, ms) && m.purpose != StageA && !Tried(history + ms, m.result.concurrency)
    ensures NewPoints(history, ms + [m])
  {
    assert forall x :: x in history || x in ms ==> x in history + ms;
    assert forall i :: 0 <= i < |ms| ==> ms[i] in ms;
  }

  predicate HasConcurrency(results: seq<BenchmarkResult>, concurrency: int) {
    exists x :: x in results && x.concurrency == concurrency
  }

  function AtConcurrency(results: seq<BenchmarkResult>, concurrency: int): seq<BenchmarkResult> {
    if results == [] then []
    else if results[0].concurrency == concurrency then [results[0]] + AtConcurrency(results[1..], concurrency)
    else AtConcurrency(results[1..], concurrency)
  }

  /** Every measurement was taken on the session's launch configuration. */
  predicate MeasuredOn(s: Session, ms: seq<Measurement>) {
    forall m :: m in ms ==> m.key == s.plan.key && m.memoryFraction == s.plan.memoryFraction
  }

  function FirstResult(e: CandidateEvaluation): BenchmarkResult
    requires e.results != []
  {
    e.results[0].result
  }

  /** A structural evaluation with the score of its first result. */
  datatype Ranked = Ranked(evaluation: CandidateEvaluation, scored: ScoredResult)

  predicate ByRank(a: Ranked, b: Ranked) {
    if a.scored.Eligible() != b.scored.Eligible() then a.scored.Eligible() else a.scored.score >= b.scored.score
  }

  function Firsts(es: seq<CandidateEvaluation>): (r: seq<BenchmarkResult>)
    requires forall e :: e in es ==> e.results != []
    ensures |r| == |es| && forall i :: 0 <= i < |r| ==> r[i] == FirstResult(es[i])
  {
    seq(|es|, i requires 0 <= i < |es| => FirstResult(es[i]))
  }

  function Paired(es: seq<CandidateEvaluation>, scored: seq<ScoredResult>): (r: seq<Ranked>)
    requires |scored| == |es|
    ensures |r| == |es| && forall i :: 0 <= i < |r| ==> r[i] == Ranked(es[i], scored[i])
  {
    seq(|es|, i requires 0 <= i < |es| => Ranked(es[i], scored[i]))
  }

  function Evaluations(ranked: seq<Ranked>): (r: seq<CandidateEvaluation>)
    ensures |r| == |ranked| && forall i :: 0 <= i < |r| ==> r[i] == ranked[i].evaluation
  {
    seq(|ranked|, i requires 0 <= i < |ranked| => ranked[i].evaluation)
  }

  /** An operating point of one sweep. */
  datatype Operating = Operating(evaluation: CandidateEvaluation, result: BenchmarkResult)

  predicate Represented(os: seq<Operating>, e: CandidateEvaluation) {
    exists o :: o in os && o.evaluation == e
  }

  /** Something valid was measured for the topology. */
  predicate HasValid(evaluations: seq<CandidateEvaluation>, key: Key, cfg: ScoringConfig) {
    exists x :: x in ResultsOf(MeasuredFor(evaluations, key)) && IsValid(x, cfg)
  }

  /** Something valid that meets the SLO was measured for the topology. */
  predicate HasEligible(
    evaluations: seq<CandidateEvaluation>, key: Key, slo: Option<LatencyConstraints>, cfg: ScoringConfig)
  {
    exists x :: x in ResultsOf(MeasuredFor(evaluations, key)) && IsValid(x, cfg) && Satisfies(x, slo)
  }

  function OperatingResults(os: seq<Operating>): (r: seq<BenchmarkResult>)
    ensures |r| == |os| && forall i :: 0 <= i < |r| ==> r[i] == os[i].result
  {
    seq(|os|, i requires 0 <= i < |os| => os[i].result)
  }

  /** The evaluations that hold a result. */
  function WithResults(es: seq<CandidateEvaluation>): (r: seq<CandidateEvaluation>)
    ensures forall e :: e in r <==> e in es && e.results != []
  {
    if es == [] then []
    else
      var last := |es| - 1;
      assert es == es[..last] + [es[last]];
      WithResults(es[..last]) + if es[last].results != [] then [es[last]] else []
  }

  /** The evaluations that did not fail. */
  function NotFailed(es: seq<CandidateEvaluation>): (r: seq<CandidateEvaluation>)
    ensures forall e :: e in r <==> e in es && e.status != Failed
  {
    if es == [] then []
    else
      var last := |es| - 1;
      assert es == es[..last] + [es[last]];
      NotFailed(es[..last]) + if es[last].status != Failed then [es[last]] else []
  }

  lemma {:induction false} OneMoreTried(
    before: seq<CandidateEvaluation>, between: seq<CandidateEvaluation>, e: CandidateEvaluation)
    requires before <= between
    ensures NotFailed((between + [e])[|before|..])
         == NotFailed(between[|before|..]) + if e.status != Failed then [e] else []
  {
    hide NotFailed;
    assert (between + [e])[|before|..] == between[|before|..] + [e];
    NotFailedLast(between[|before|..], e);
  }

  lemma {:induction false} NotFailedLast(es: seq<CandidateEvaluation>, e: CandidateEvaluation)
    ensures NotFailed(es + [e]) == NotFailed(es) + if e.status != Failed then [e] else []
  {
    assert (es + [e])[..|es|] == es;
  }

  lemma {:induction false} NoResults()
    ensures WithResults([]) == [] && NotFailed([]) == []
  {
  }

  /** Exactly one evaluation, of this topology, was added; it is the one found if it holds a result. */
  predicate OneRecorded(
    before: seq<CandidateEvaluation>, after: seq<CandidateEvaluation>, key: Key, found: Option<CandidateEvaluation>)
  {
    && |after| == |before| + 1 && after[..|before|] == before
    && after[|before|].plan.key == key
    && (found.Some? <==> after[|before|].results != [])
    && (found.Some? ==> found.value == after[|before|])
  }

  /** One evaluation for every candidate, in order. */
  predicate AllRecorded(
    before: seq<CandidateEvaluation>, after: seq<CandidateEvaluation>, candidates: seq<CandidatePlan>)
  {
    && |after| == |before| + |candidates| && after[..|before|] == before
    && forall i :: 0 <= i < |candidates| ==> after[|before| + i].plan.key == candidates[i].key
  }

  lemma {:induction false} NothingRecorded(before: seq<CandidateEvaluation>)
    ensures AllRecorded(before, before, [])
  {
  }

  lemma {:induction false} RecordOneMore(
    before: seq<CandidateEvaluation>, between: seq<CandidateEvaluation>, after: seq<CandidateEvaluation>,
    candidates: seq<CandidatePlan>, next: CandidatePlan, found: Option<CandidateEvaluation>)
    requires AllRecorded(before, between, candidates) && OneRecorded(between, after, next.key, found)
    ensures AllRecorded(before, after, candidates + [next])
    ensures WithResults(after[|before|..])
         == WithResults(between[|before|..]) + if found.Some? then [found.value] else []
  {
    var grown, was := after[|before|..], between[|before|..];
    assert grown[..|grown| - 1] == was;
    assert forall i :: 0 <= i < |between| ==> after[i] == between[i];
  }

  /** Evaluations of one topology before all others. */
  function TopologyFirst(key: Key): (CandidateEvaluation, CandidateEvaluation) -> bool {
    (a: CandidateEvaluation, b: CandidateEvaluation) => a.plan.key != key ==> b.plan.key != key
  }

  predicate KeyFirst(es: seq<CandidateEvaluation>, key: Key) {
    forall i, j :: 0 <= i < j < |es| && es[j].plan.key == key ==> es[i].plan.key == key
  }

  lemma {:induction false} OpenFirst(es: seq<CandidateEvaluation>, key: Key)
    ensures KeyFirst(StableSort(es, TopologyFirst(key)), key)
  {
    StableSortSorted(es, TopologyFirst(key));
  }

  /** Some recorded evaluation of the same topology holds the result. */
  ghost predicate SupportedBy(evaluations: seq<CandidateEvaluation>, o: Operating) {
    exists e, m :: e in evaluations && e.plan.key == o.evaluation.plan.key && m in e.results && m.result == o.result
  }

  /** `floor((free - headroom) / total * 100) / 100`. */
  function Ceiling(total: int, free: int): real
    requires total != 0
  {
    ((free - Memory.GIB) as real / total as real * 100.0).Floor as real / 100.0
  }

  /** `round(x, 2)`. */
  function Rounded(x: real): real {
    (x * 100.0 + 0.5).Floor as real / 100.0
  }

  /** The ceiling is a whole number of hundredths that leaves a GiB of free memory. */
  lemma {:induction false} CeilingFits(total: int, free: int)
    requires total > 0
    ensures Scaled(Ceiling(total, free), total as real) <= (free - Memory.GIB) as real
  {
    var room, all := (free - Memory.GIB) as real, total as real;
    var share := room / all;
    ScaledQuotient(room, all);
    assert Ceiling(total, free) <= share;
    ScaleUp(Ceiling(total, free), share, all);
  }

  lemma {:induction false} RoundedHundredth(ceiling: real, n: int, wanted: real)
    requires ceiling == n as real / 100.0
    ensures var next := Rounded(if wanted <= ceiling then wanted else ceiling);
            next <= ceiling && next <= wanted + 0.005
  {
    assert ceiling * 100.0 == n as real;
    assert (ceiling * 100.0 + 0.5).Floor == n;
  }

  // ------------------------------------------------------------------ what stage D makes of its winner

  /** The winner's plan, capped at the concurrency it won at. */
  function FinalPlan(best: Operating): CandidatePlan {
    best.evaluation.plan.(maxConcurrency := Some(best.result.concurrency))
  }

  /** The final sample replaces the winner's measurement, whatever it shows. */
  function FinalChoice(best: Operating, final: Option<Measurement>): Operating {
    match final
    case None => best
    case Some(m) => Operating(FinalRecord(best, final), m.result)
  }

  /** What stage D records: the sample, or that there is none. */
  function FinalRecord(best: Operating, final: Option<Measurement>): CandidateEvaluation {
    if final.Some? then CandidateEvaluation(FinalPlan(best), Benchmarked, [final.value])
    else CandidateEvaluation(FinalPlan(best), Failed, [])
  }

  /** A final sample of this winner. */
  predicate FinalSample(best: Operating, m: Measurement) {
    && m.purpose == Final
    && m.key == best.evaluation.plan.key && m.memoryFraction == best.evaluation.plan.memoryFraction
    && m.result.concurrency == Or(Some(best.result.concurrency), 1)
  }

  /** The tuner's promise holds exactly when the final sample is missing or valid itself. */
  lemma {:induction false} FinalValidExactly(best: Operating, final: Option<Measurement>, cfg: ScoringConfig)
    requires IsValid(best.result, cfg)
    ensures IsValid(FinalChoice(best, final).result, cfg) <==> final.None? || IsValid(final.value.result, cfg)
  {
  }

  /** A winner without errors whose final sample sees one request in ten fail. */
  lemma {:induction false} FinalCanBeInvalid() returns (best: Operating, m: Measurement)
    ensures IsValid(best.result, DEFAULT_CONFIG) && FinalSample(best, m) && best.result.errorRate == 0.0
    ensures !IsValid(FinalChoice(best, Some(m)).result, DEFAULT_CONFIG)
  {
    var plan := CandidatePlan(1, 1, None, None, None, 1, None);
    var good := BenchmarkResult(16, 100, 1000.0, 2.0, None, None, 0.0);
    best := Operating(CandidateEvaluation(plan, Benchmarked, [Measurement(good, Sweep, 1, None)]), good);
    m := Measurement(good.(errorRate := 0.1), Final, 1, None);
  }

  /** What led to a winner: the sweeps, what had been recorded when they were compared, and the pick. */
  datatype Story = Story(sweeps: seq<CandidateEvaluation>, seen: seq<CandidateEvaluation>, picked: Operating)

  class Tuner {
    const settings: Settings
    const objective: Objective
    const slo: Option<LatencyConstraints>
    const root: real -> real
    const completed: seq<CandidateEvaluation>  // benchmarked in an interrupted run
    var evaluations: seq<CandidateEvaluation>
    var session: Option<Session>
    ghost var launched: set<Session>             // every session ever launched

    /** Of all sessions ever launched only the current one is open; the others were closed once. */
    ghost predicate SessionsValid()
      reads `session, `launched, launched`closes
    {
      && (session.Some? ==> session.value in launched)
      && forall s :: s in launched ==> s.closes == if session == Some(s) then 0 else 1
    }

    ghost predicate Valid()
      reads this, launched`closes
    {
      && SessionsValid() && settings.Sensible()
      && AllFaithful(evaluations) && AllFaithful(completed)
      && forall e :: e in completed ==> e.results != []
    }

    /** Evaluations and sessions are only ever added; new sessions are new objects. */
    twostate predicate Advanced()
      reads this
    {
      old(evaluations) <= evaluations && old(launched) <= launched && fresh(launched - old(launched))
    }

    constructor (
      settings: Settings, objective: Objective, slo: Option<LatencyConstraints>, root: real -> real,
      completed: seq<CandidateEvaluation>)
      requires settings.Sensible() && AllFaithful(completed) && forall e :: e in completed ==> e.results != []
      ensures Valid() && evaluations == [] && session == None && launched == {}
    {
      this.settings, this.objective, this.slo, this.root := settings, objective, slo, root;
      this.completed := completed;
      this.evaluations, this.session, this.launched := [], None, {};
    }

    // -------------------------------------------------------------- sessions

    /** Closes the current session, if any; it is forgotten first, so it is never closed twice. */
    method CloseSession() returns (r: Result<(), Failure>)
      requires Valid()
      modifies `session, (if session.Some? then {session.value} else {})`closes
      ensures Valid() && session == None && launched == old(launched) && evaluations == old(evaluations)
    {
      hide AllFaithful, Settings.Sensible;
      if session.None? {
        return Ok(());
      }
      var current := session.value;
      session := None;
      r := current.Close();
    }

    /** The open session when it serves the same launch, or a new one; `None` when launching fails. */
    method Open(plan: CandidatePlan) returns (r: Result<Option<Session>, Failure>)
      requires Valid()
      modifies `session, `launched, launched`closes
      ensures Valid() && Advanced() && evaluations == old(evaluations)
      ensures r.Ok? && r.value.Some? ==> session == r.value && SameLaunch(r.value.value.plan, plan)
      ensures r.Ok? && r.value.Some? ==>
        r.value == old(session) || (fresh(r.value.value) && r.value.value.plan == plan && r.value.value.asked == [])
      ensures r.Ok? && r.value.None? ==> session == None
    {
      hide AllFaithful, Settings.Sensible;
      if session.Some? {
        if SameLaunch(session.value.plan, plan) {
          return Ok(session);
        }
        var closed :- CloseSession();
      }
      var fails: bool, raises: bool := *, *;
      if raises {
        return Err(Raised);
      }
      if fails {
        return Ok(None);
      }
      var fresh' := new Session(plan);
      launched := launched + {fresh'};
      session := Some(fresh');
      r := Ok(session);
    }

    /** Appends an evaluation; the persistence hook may raise afterwards. */
    method Record(e: CandidateEvaluation) returns (r: Result<(), Failure>)
      requires Valid() && Faithful(e)
      modifies `evaluations
      ensures Valid() && evaluations == old(evaluations) + [e]
    {
      hide SessionsValid, Settings.Sensible, Faithful;
      evaluations := evaluations + [e];
      var raises: bool := *;
      r := if raises then Err(Raised) else Ok(());
    }

    // -------------------------------------------------------------- stage A

    /** A measurement of the same launch configuration from an interrupted run; diagnostics do not count. */
    function Prior(plan: CandidatePlan): (prior: Option<CandidateEvaluation>)
      ensures prior.Some? ==> prior.value in completed && prior.value.plan.key == plan.key
      ensures prior.Some? ==> prior.value.plan.(deviceMemory := plan.deviceMemory) == plan
    {
      var prior := LastWithId(completed, plan.id);
      if prior.Some? && prior.value.plan.(deviceMemory := None) == plan.(deviceMemory := None) then prior else None
    }

    function StageAConcurrency(plan: CandidatePlan): int {
      if settings.expectedConcurrency.Some? then settings.expectedConcurrency.value
      else if objective == LATENCY then DEFAULT_LATENCY_CONCURRENCY
      else
        var cap := Or(plan.maxConcurrency, Or(plan.maxNumSeqs, 64) * plan.replicaCount);
        Larger(Larger(STAGE_A_MIN_CONCURRENCY, 2 * plan.replicaCount), Smaller(STAGE_A_MAX_CONCURRENCY, cap / 2))
    }

    /** An expected concurrency is used as it is; otherwise every replica is kept busy, within bounds. */
    lemma {:induction false} StageAConcurrencyBounds(plan: CandidatePlan)
      ensures settings.expectedConcurrency.Some? ==> StageAConcurrency(plan) == settings.expectedConcurrency.value
      ensures settings.expectedConcurrency.None? && objective != LATENCY ==>
        var c, cap := StageAConcurrency(plan), Or(plan.maxConcurrency, Or(plan.maxNumSeqs, 64) * plan.replicaCount);
        && c >= STAGE_A_MIN_CONCURRENCY && c >= 2 * plan.replicaCount
        && (c <= STAGE_A_MIN_CONCURRENCY || c <= 2 * plan.replicaCount || (c <= STAGE_A_MAX_CONCURRENCY && 2 * c <= cap))
        && (c >= STAGE_A_MAX_CONCURRENCY || 2 * (c + 1) > cap)
    {
    }

    /** One measurement at the concurrency stage A uses for the plan. */
    predicate MeasuredOnce(e: CandidateEvaluation, plan: CandidatePlan) {
      && e.plan == plan && e.status == Benchmarked && |e.results| == 1
      && e.results[0].purpose == StageA && e.results[0].result.concurrency == StageAConcurrency(plan)
    }

    /** Launches and measures one candidate; failures are recorded and yield nothing. */
    method MeasureStructural(plan: CandidatePlan, last: bool)
      returns (r: Result<Option<CandidateEvaluation>, Failure>, ghost used: Option<Session>)
      requires Valid()
      modifies `session, `evaluations, `launched, launched
      ensures Valid() && Advanced()
      ensures r.Ok? ==> OneRecorded(old(evaluations), evaluations, plan.key, r.value)
      ensures r.Ok? ==> (session.Some? <==> last && r.value.Some?) && LaunchedFor(plan)
      ensures r.Ok? && r.value.Some? ==> used.Some? && MeasuredOnce(r.value.value, plan)
      ensures r.Ok? && used.Some? ==>
        && SameLaunch(used.value.plan, plan)
        && used.value.asked == (if used == old(session) then old(session.value.asked) else [])
                               + [Ask(StageAConcurrency(plan), StageA)]
    {
      hide Valid, StageAConcurrency;
      used := None;
      SessionKnown();
      var s :- Open(plan);
      if s.None? {
        var recorded :- Record(CandidateEvaluation(plan, Failed, []));
        return Ok(None), None;
      }
      used := s;
      OpenNow(s.value);
      var measured := s.value.Benchmark(StageAConcurrency(plan), StageA);
      if measured.Err? && measured.error == OtherError {
        return Err(Raised), used;
      }
      if measured.Err? {
        var recorded :- Record(CandidateEvaluation(plan, Failed, []));
        var closed :- CloseSession();
        return Ok(None), used;
      }
      var e := CandidateEvaluation(plan, Benchmarked, [measured.value]);
      var recorded :- Record(e);
      if !last {
        var closed :- CloseSession();
      }
      r := Ok(Some(e));
    }

    /** Whatever session is open was launched for this plan's configuration. */
    predicate LaunchedFor(plan: CandidatePlan)
      reads `session
    {
      session.Some? ==> SameLaunch(session.value.plan, plan)
    }

    lemma {:induction false} SessionKnown()
      requires Valid()
      ensures session.Some? ==> session.value in launched
    {
    }

    lemma {:induction false} OpenNow(s: Session)
      requires Valid() && session == Some(s)
      ensures s in launched && s.closes == 0
    {
    }

    /** One candidate: its completed evaluation if there is one, or a measurement. */
    method StageAStep(plan: CandidatePlan, last: bool) returns (r: Result<Option<CandidateEvaluation>, Failure>)
      requires Valid()
      modifies `session, `evaluations, `launched, launched
      ensures Valid() && Advanced()
      ensures r.Ok? ==> OneRecorded(old(evaluations), evaluations, plan.key, r.value)
      ensures r.Ok? && Prior(plan).Some? ==> r.value == Prior(plan) && session == old(session)
      ensures r.Ok? && Prior(plan).None? ==> (session.Some? <==> last && r.value.Some?) && LaunchedFor(plan)
      ensures r.Ok? && Prior(plan).None? && r.value.Some? ==> MeasuredOnce(r.value.value, plan)
    {
      hide Valid, Prior, MeasuredOnce;
      var prior := Prior(plan);
      if prior.Some? {
        Resume(prior.value);
        r := Ok(prior);
      } else {
        ghost var used;
        r, used := MeasureStructural(plan, last);
      }
    }

    /** Every candidate in turn; resumed measurements are reused. */
    method RunStageA(candidates: seq<CandidatePlan>) returns (r: Result<seq<CandidateEvaluation>, Failure>)
      requires Valid()
      modifies `session, `evaluations, `launched, launched
      ensures Valid() && Advanced()
      ensures r.Ok? ==> AllRecorded(old(evaluations), evaluations, candidates) &&
                        r.value == WithResults(evaluations[|old(evaluations)|..])
      ensures r.Ok? ==> Resumed(|old(evaluations)|, candidates)
      ensures r.Ok? && old(session).None? ==> OnlyLastOpen(candidates)
    {
      hide Valid, Prior, WithResults, AllRecorded, OneRecorded, ResumedIn, SameLaunch, MeasuredOnce;
      var benchmarked: seq<CandidateEvaluation> := [];
      NoResults();
      NothingRecorded(evaluations);
      NothingResumed();
      assert evaluations[|evaluations|..] == [];
      for i := 0 to |candidates|
        invariant Valid() && Advanced() && AllRecorded(old(evaluations), evaluations, candidates[..i])
        invariant benchmarked == WithResults(evaluations[|old(evaluations)|..])
        invariant Resumed(|old(evaluations)|, candidates[..i])
        invariant old(session).None? ==> if i < |candidates| then session.None? else OnlyLastOpen(candidates)
      {
        ghost var before := evaluations;
        var e :- StageAStep(candidates[i], i == |candidates| - 1);
        assert candidates[..i + 1] == candidates[..i] + [candidates[i]];
        RecordOneMore(old(evaluations), before, evaluations, candidates[..i], candidates[i], e);
        ResumedMore(old(evaluations), before, candidates[..i], candidates[i], e);
        if e.Some? {
          benchmarked := benchmarked + [e.value];
        }
      }
      assert candidates[..|candidates|] == candidates;
      r := Ok(benchmarked);
    }

    lemma {:induction false} NothingResumed()
      ensures Resumed(|evaluations|, [])
    {
    }

    lemma {:induction false} ResumedMore(
      first: seq<CandidateEvaluation>, before: seq<CandidateEvaluation>, candidates: seq<CandidatePlan>,
      next: CandidatePlan, found: Option<CandidateEvaluation>)
      requires AllRecorded(first, before, candidates) && OneRecorded(before, evaluations, next.key, found)
      requires ResumedIn(before, |first|, candidates)
      requires Prior(next).Some? ==> found == Prior(next)
      requires Prior(next).None? && found.Some? ==> MeasuredOnce(found.value, next)
      ensures Resumed(|first|, candidates + [next])
    {
      hide Prior, MeasuredOnce;
      forall i | 0 <= i < |before|
        ensures evaluations[i] == before[i]
      {
        assert evaluations[..|before|][i] == before[i];
      }
    }

    /** A candidate measured in the interrupted run contributes that evaluation; others were measured now or failed. */
    ghost predicate Resumed(n: nat, candidates: seq<CandidatePlan>)
      reads `evaluations
    {
      ResumedIn(evaluations, n, candidates)
    }

    ghost predicate ResumedIn(es: seq<CandidateEvaluation>, n: nat, candidates: seq<CandidatePlan>) {
      && n + |candidates| <= |es|
      && forall i :: 0 <= i < |candidates| ==>
           if Prior(candidates[i]).Some? then es[n + i] == Prior(candidates[i]).value
           else es[n + i].results == [] || MeasuredOnce(es[n + i], candidates[i])
    }

    /** Every session was closed again, except that of the last candidate if it was measured now. */
    predicate OnlyLastOpen(candidates: seq<CandidatePlan>)
      reads `session
    {
      session.Some? ==>
        && candidates != []
        && Prior(candidates[|candidates| - 1]).None?
        && SameLaunch(session.value.plan, candidates[|candidates| - 1])
    }

    /** A resumed evaluation joins the others. */
    method Resume(prior: CandidateEvaluation)
      requires Valid() && prior in completed
      modifies `evaluations
      ensures Valid() && evaluations == old(evaluations) + [prior] && prior.results != []
    {
      evaluations := evaluations + [prior];
    }

    // -------------------------------------------------------------- stage B

    /** The first result of each evaluation, scored against the others'. */
    function ScoredFirsts(es: seq<CandidateEvaluation>): (r: seq<ScoredResult>)
      requires forall e :: e in es ==> e.results != []
      ensures |r| == |es|
    {
      var firsts := Firsts(es);
      var bests := BestsOf(ValidOnes(firsts, settings.scoring));
      seq(|es|, i requires 0 <= i < |es| => ScoredOf(firsts[i], objective, slo, bests, settings.scoring, root))
    }

    /** Eligible evaluations first, then by score, ties in the order they were measured. */
    function Ranking(es: seq<CandidateEvaluation>): seq<Ranked>
      requires forall e :: e in es ==> e.results != []
    {
      StableSort(Paired(es, ScoredFirsts(es)), ByRank)
    }

    lemma {:induction false} RankingSound(es: seq<CandidateEvaluation>)
      requires forall e :: e in es ==> e.results != []
      ensures SortedBy(Ranking(es), ByRank) && |Ranking(es)| == |es|
      ensures forall i, j :: 0 <= i < j < |es| ==>
        var a, b := Ranking(es)[i].scored, Ranking(es)[j].scored;
        (b.Eligible() ==> a.Eligible()) && (a.Eligible() == b.Eligible() ==> a.score >= b.score)
      ensures forall e :: e in Evaluations(Ranking(es)) <==> e in es
    {
      hide ScoredFirsts;
      var pairs := Paired(es, ScoredFirsts(es));
      StableSortSorted(pairs, ByRank);
      StableSortSame(pairs, ByRank);
      var order := StableSort(pairs, ByRank);
      hide StableSort, ByRank;
      forall e
        ensures e in Evaluations(order) <==> e in es
      {
        if e in es {
          var i :| 0 <= i < |es| && es[i] == e;
          assert pairs[i] in order;
          var k :| 0 <= k < |order| && order[k] == pairs[i];
          assert Evaluations(order)[k] == e;
        }
        if e in Evaluations(order) {
          var k :| 0 <= k < |order| && Evaluations(order)[k] == e;
          assert order[k] in pairs;
        }
      }
    }

    /** Evaluations that rank the same stay in the order they were measured. */
    lemma {:induction false} RankingStable(es: seq<CandidateEvaluation>, a: Ranked)
      requires forall e :: e in es ==> e.results != []
      ensures Tied(Ranking(es), a, ByRank) == Tied(Paired(es, ScoredFirsts(es)), a, ByRank)
    {
      Stable(Paired(es, ScoredFirsts(es)), a, ByRank);
    }

    /** Structural evaluations, best first. */
    method RankStructural(es: seq<CandidateEvaluation>) returns (ranked: seq<CandidateEvaluation>)
      requires forall e :: e in es ==> e.results != []
      ensures ranked == Evaluations(Ranking(es))
    {
      var scored := ScoreResults(Firsts(es), objective, slo, settings.scoring, root);
      assert scored == ScoredFirsts(es);
      ranked := Evaluations(StableSort(Paired(es, scored), ByRank));
    }

    /** The best few by rank, those of the open session's topology first. */
    function TopOf(es: seq<CandidateEvaluation>): seq<CandidateEvaluation>
      requires forall e :: e in es ==> e.results != []
      reads `session
    {
      RankingSound(es);
      var top := Evaluations(Ranking(es))[..Smaller(settings.topK, |es|)];
      if session.None? then top
      else
        var key := session.value.plan.key;
        StableSort(top, TopologyFirst(key))
    }

    lemma {:induction false} TopFacts(es: seq<CandidateEvaluation>)
      requires forall e :: e in es ==> e.results != []
      ensures forall e :: e in TopOf(es) ==> e in es
      ensures |TopOf(es)| == Smaller(settings.topK, |es|)
    {
      hide Ranking, StableSort, TopologyFirst;
      RankingSound(es);
      var ranked := Evaluations(Ranking(es));
      var top := ranked[..Smaller(settings.topK, |es|)];
      assert forall e :: e in top ==> e in ranked;
      if session.Some? {
        StableSortSame(top, TopologyFirst(session.value.plan.key));
      }
    }

    /** They are the first of the ranking, those of the open session's topology before the others. */
    lemma {:induction false} TopOrder(es: seq<CandidateEvaluation>)
      requires forall e :: e in es ==> e.results != []
      ensures var best := Evaluations(Ranking(es))[..Smaller(settings.topK, |es|)];
        && multiset(TopOf(es)) == multiset(best)
        && (session.None? ==> TopOf(es) == best)
        && (session.Some? ==> KeyFirst(TopOf(es), session.value.plan.key))
    {
      hide Ranking, StableSort, TopologyFirst, KeyFirst;
      RankingSound(es);
      if session.Some? {
        OpenFirst(Evaluations(Ranking(es))[..Smaller(settings.topK, |es|)], session.value.plan.key);
      }
    }

    /** The best few, the one whose session is still open first. */
    method TopStructural(es: seq<CandidateEvaluation>) returns (top: seq<CandidateEvaluation>)
      requires forall e :: e in es ==> e.results != []
      ensures top == TopOf(es)
    {
      hide Ranking, StableSort, TopologyFirst;
      var ranked := RankStructural(es);
      RankingSound(es);
      top := ranked[..Smaller(settings.topK, |ranked|)];
      if session.Some? {
        top := StableSort(top, TopologyFirst(session.value.plan.key));
      }
    }

    /** One more point, unless that concurrency was measured before; a failed benchmark is only noted. */
    method RunPoint(s: Session, concurrency: int, history: seq<Measurement>, purpose: Purpose)
      returns (r: Result<Option<Measurement>, Failure>)
      requires s.closes == 0 && purpose != StageA
      modifies s`asked
      ensures s.asked == old(s.asked) + if Tried(history, concurrency) then [] else [Ask(concurrency, purpose)]
      ensures r.Ok? && r.value.Some? ==>
        && r.value.value.purpose == purpose && r.value.value.key == s.plan.key && r.value.value.memoryFraction == s.plan.memoryFraction
        && r.value.value.result.concurrency == concurrency && !Tried(history, concurrency)
    {
      if Tried(history, concurrency) {
        return Ok(None);
      }
      var measured := s.Benchmark(concurrency, purpose);
      if measured.Ok? {
        return Ok(Some(measured.value));
      }
      r := if measured.error == BenchmarkError then Ok(None) else Err(Raised);
    }

    /** Of some points, those to be measured: they were not tried before. */
    function Untried(points: seq<int>, history: seq<Measurement>): (r: seq<int>)
      ensures forall c :: c in r <==> c in points && !Tried(history, c)
    {
      if points == [] then []
      else
        var last := |points| - 1;
        assert points == points[..last] + [points[last]];
        Untried(points[..last], history) + if Tried(history, points[last]) then [] else [points[last]]
    }

    lemma {:induction false} UntriedOneMore(points: seq<int>, i: nat, history: seq<Measurement>)
      requires i < |points|
      ensures Untried(points[..i + 1], history)
           == Untried(points[..i], history) + if Tried(history, points[i]) then [] else [points[i]]
    {
      assert points[..i + 1][..i] == points[..i];
    }

    /** A sweep's own points do not make a later point tried. */
    lemma {:induction false} TriedBefore(history: seq<Measurement>, measured: seq<Measurement>, points: seq<int>, i: nat)
      requires Increasing(points) && i < |points| && forall m :: m in measured ==> m.result.concurrency in points[..i]
      ensures Tried(history + measured, points[i]) <==> Tried(history, points[i])
    {
      assert forall m :: m in history ==> m in history + measured;
      forall m | m in measured
        ensures m.result.concurrency != points[i]
      {
        var k :| 0 <= k < i && points[k] == m.result.concurrency;
      }
    }

    /** The sweep went on after all of these but possibly the last. */
    ghost predicate WentOn(swept: seq<BenchmarkResult>) {
      forall k :: 0 <= k < |swept| ==> ShouldContinue(swept[..k], slo, settings.scoring)
    }

    /**
     * The points of an ascending sweep: every one that was not tried before is measured, in order,
     * until one of the results says to stop.
     */
    method SweepUp(s: Session, points: seq<int>, history: seq<Measurement>)
      returns (r: Result<seq<Measurement>, Failure>, ghost swept: seq<BenchmarkResult>, ghost n: nat)
      requires s.closes == 0 && Increasing(points)
      modifies s`asked
      ensures r.Ok? ==> MeasuredOn(s, r.value) && NewPoints(history, r.value)
      ensures StopsAtFirstBad(swept, slo, settings.scoring) && WentOn(swept)
      ensures r.Ok? ==> swept == ResultsOf(r.value)
      ensures n <= |points| && old(s.asked) <= s.asked
      ensures r.Ok? ==> s.asked == old(s.asked) + Asks(Untried(points[..n], history), Sweep)
      ensures r.Ok? ==> n == |points| || !ShouldContinue(swept, slo, settings.scoring)
    {
      hide Untried, Tried, ShouldContinue, WentOn, StopsAtFirstBad, Asks;
      var measured: seq<Measurement> := [];
      swept, n := [], 0;
      SweepBegins(history);
      assert points[..0] == [];
      OneMoreAsk([], 0, Sweep);
      for i := 0 to |points|
        invariant MeasuredOn(s, measured) && NewPoints(history, measured) && swept == ResultsOf(measured)
        invariant StopsAtFirstBad(swept, slo, settings.scoring) && ShouldContinue(swept, slo, settings.scoring)
        invariant forall m :: m in measured ==> m.result.concurrency in points[..i]
        invariant WentOn(swept) && n == i && s.asked == old(s.asked) + Asks(Untried(points[..i], history), Sweep)
      {
        TriedBefore(history, measured, points, i);
        UntriedOneMore(points, i, history);
        OneMoreAsk(Untried(points[..i], history), points[i], Sweep);
        var point := RunPoint(s, points[i], history + measured, Sweep);
        if point.Err? {
          r := Err(point.error);
          return;
        }
        n := i + 1;
        assert forall c :: c in points[..i] || c == points[i] ==> c in points[..i + 1] by {
          assert points[..i + 1] == points[..i] + [points[i]];
        }
        if point.value.Some? {
          GoodSoFar(swept, point.value.value.result, slo, settings.scoring);
          OneMorePoint(history, measured, point.value.value);
          OnceMore(swept, point.value.value.result);
          measured := measured + [point.value.value];
          swept := swept + [point.value.value.result];
          if !ShouldContinue(ResultsOf(measured), slo, settings.scoring) {
            r := Ok(measured);
            return;
          }
        }
      }
      r := Ok(measured);
    }

    lemma {:induction false} SweepBegins(history: seq<Measurement>)
      ensures Untried([], history) == [] && WentOn([]) && ShouldContinue([], slo, settings.scoring)
      ensures StopsAtFirstBad([], slo, settings.scoring)
    {
    }

    lemma {:induction false} OnceMore(swept: seq<BenchmarkResult>, next: BenchmarkResult)
      requires WentOn(swept) && ShouldContinue(swept, slo, settings.scoring)
      ensures WentOn(swept + [next])
    {
      hide ShouldContinue;
      var more := swept + [next];
      forall k | 0 <= k < |more|
        ensures ShouldContinue(more[..k], slo, settings.scoring)
      {
        assert more[..k] == swept[..k];
        assert k == |swept| ==> swept[..k] == swept;
      }
    }

    /** No sweep goes beyond this concurrency. */
    function Limit(plan: CandidatePlan): int {
      Smaller(settings.sweepMax, Or(plan.maxConcurrency, settings.sweepMax))
    }

    /** It is the lower of the tuner's limit and the plan's own, if it has one. */
    lemma {:induction false} LimitIsLower(plan: CandidatePlan)
      ensures Limit(plan) <= settings.sweepMax
      ensures Or(plan.maxConcurrency, 0) != 0 ==> Limit(plan) <= plan.maxConcurrency.value
      ensures Limit(plan) == settings.sweepMax || Some(Limit(plan)) == plan.maxConcurrency
    {
    }

    /** A refinement measures this: a midpoint next to the fastest point so far, not yet measured with success. */
    predicate ToRefine(all: seq<Measurement>, c: int) {
      && c > 0 && !HasConcurrency(Working(ResultsOf(all)), c)
      && exists i :: 0 <= i < |Neighbours(ResultsOf(all))| && i < settings.refinementPoints && Neighbours(ResultsOf(all))[i] == c
    }

    /**
     * A throughput sweep went this way: up the geometric points, each measured unless it was tried
     * before, until a result said stop; then every refinement point, each unless it was tried.
     */
    ghost predicate SweptUp(
      plan: CandidatePlan, history: seq<Measurement>, measured: seq<Measurement>, asks: seq<Ask>, how: Course)
    {
      && how.Upwards? && how.n <= |how.points| && how.sweep <= measured
      && Geometric(how.points, settings.sweepStart, settings.sweepGrowth, Limit(plan))
      && asks == Asks(Untried(how.points[..how.n], history), Sweep) + Asks(how.refined, Refine)
      && WentOn(ResultsOf(how.sweep))
      && (how.n == |how.points| || !ShouldContinue(ResultsOf(how.sweep), slo, settings.scoring))
      && (forall c :: c in how.refined ==> ToRefine(history + how.sweep, c))
      && (forall c :: ToRefine(history + how.sweep, c) ==> c in how.refined || Tried(history + measured, c))
    }

    /** Throughput: a geometric sweep, then points next to the best one. */
    method SweepThroughput(s: Session, plan: CandidatePlan, history: seq<Measurement>)
      returns (r: Result<seq<Measurement>, Failure>, ghost how: Course)
      requires s.closes == 0 && settings.Sensible()
      modifies s`asked
      ensures r.Ok? ==> MeasuredOn(s, r.value) && NewPoints(history, r.value)
      ensures old(s.asked) <= s.asked
      ensures r.Ok? ==> SweptUp(plan, history, r.value, s.asked[|old(s.asked)|..], how)
    {
      hide Untried, Geometric, Neighbours, Working, WentOn, ShouldContinue, StopsAtFirstBad, Tried, Asks;
      var points := SweepPoints(settings.sweepStart, settings.sweepGrowth, Limit(plan));
      GeometricIncreases(points, settings.sweepStart, settings.sweepGrowth, Limit(plan));
      var swept, sweep, n := SweepUp(s, points, history);
      how := Upwards(points, n, [], []);
      if swept.Err? {
        r := swept;
        return;
      }
      how := Upwards(points, n, swept.value, []);
      ghost var asked := s.asked;
      ghost var refined;
      r, refined := RefineAround(s, history, swept.value);
      how := Upwards(points, n, swept.value, refined);
    }

    lemma {:induction false} GeometricIncreases(points: seq<int>, start: int, growth: int, upper: int)
      requires Geometric(points, start, growth, upper)
      ensures Increasing(points)
    {
    }

    /** The midpoints next to the fastest point. */
    method RefineAround(s: Session, history: seq<Measurement>, sweep: seq<Measurement>)
      returns (r: Result<seq<Measurement>, Failure>, ghost refined: seq<int>)
      requires s.closes == 0 && MeasuredOn(s, sweep) && NewPoints(history, sweep)
      modifies s`asked
      ensures s.asked == old(s.asked) + Asks(refined, Refine)
      ensures r.Ok? ==> sweep <= r.value && MeasuredOn(s, r.value) && NewPoints(history, r.value)
      ensures forall c :: c in refined ==> ToRefine(history + sweep, c)
      ensures r.Ok? ==> forall c :: ToRefine(history + sweep, c) ==> c in refined || Tried(history + r.value, c)
    {
      hide Neighbours, Working, Asks, HasConcurrency;
      var measured, all := sweep, history + sweep;
      var tested := Working(ResultsOf(all));
      var neighbours := Neighbours(ResultsOf(all));
      refined := [];
      OneMoreAsk([], 0, Refine);
      for i := 0 to |neighbours|
        invariant MeasuredOn(s, measured) && NewPoints(history, measured) && sweep <= measured
        invariant s.asked == old(s.asked) + Asks(refined, Refine)
        invariant forall c :: c in refined ==> ToRefine(all, c)
        invariant forall j :: 0 <= j < i && ToRefine(all, neighbours[j]) && j < settings.refinementPoints ==>
          neighbours[j] in refined || Tried(history + measured, neighbours[j])
      {
        var c := neighbours[i];
        if i < settings.refinementPoints && c > 0 && !HasConcurrency(tested, c) {
          OneMoreAsk(refined, c, Refine);
          ghost var wasTried := Tried(history + measured, c);
          var point := RunPoint(s, c, history + measured, Refine);
          refined := if wasTried then refined else refined + [c];
          if point.Err? {
            r := Err(point.error);
            return;
          }
          if point.value.Some? {
            OneMorePoint(history, measured, point.value.value);
            StillTried(history, measured, point.value.value);
            measured := measured + [point.value.value];
          }
        }
      }
      r := Ok(measured);
    }

    lemma {:induction false} StillTried(history: seq<Measurement>, measured: seq<Measurement>, m: Measurement)
      ensures forall c :: Tried(history + measured, c) ==> Tried(history + (measured + [m]), c)
    {
      assert history + (measured + [m]) == (history + measured) + [m];
    }

    function LatencyBase(): int {
      Or(settings.expectedConcurrency, DEFAULT_LATENCY_CONCURRENCY)
    }

    /** The results a climb from the operating point starts with. */
    function BaseResults(history: seq<Measurement>, first: seq<Measurement>): seq<BenchmarkResult> {
      AtConcurrency(ResultsOf(history + first), LatencyBase())
    }

    /** The concurrency a climb tries after `k` others. */
    function Step(k: nat): int {
      Rung(GrownBy(LatencyBase(), settings.sweepGrowth), settings.sweepGrowth, k)
    }

    /**
     * A climb measured these rungs, each grown from the one before: it ended at the limit, at a point
     * tried before, with a failed benchmark, or with a result that said stop.
     */
    ghost predicate Climbed(
      plan: CandidatePlan, history: seq<Measurement>, first: seq<Measurement>, up: seq<Measurement>, rungs: seq<int>)
    {
      && (forall i :: 0 <= i < |rungs| ==> rungs[i] == Step(i) <= Limit(plan))
      && |up| <= |rungs| <= |up| + 1
      && (forall k :: 0 < k < |up| ==> ShouldContinue(BaseResults(history, first) + ResultsOf(up[..k]), slo, settings.scoring))
      && (|| Step(|rungs|) > Limit(plan)
          || Tried(history + (first + up), Step(|rungs|))
          || |up| < |rungs|
          || (rungs != [] && !ShouldContinue(BaseResults(history, first) + ResultsOf(up), slo, settings.scoring)))
    }

    /**
     * A latency sweep went this way: the operating point unless it was tried before; without an SLO
     * nothing else, and a climb under one.
     */
    ghost predicate SweptFromBase(
      plan: CandidatePlan, history: seq<Measurement>, measured: seq<Measurement>, asks: seq<Ask>, how: Course)
    {
      && how.FromBase? && how.first <= measured
      && asks == Asks(Untried([LatencyBase()], history), Latency) + Asks(how.rungs, Sweep)
      && if HasSlo(slo) then Climbed(plan, history, how.first, measured[|how.first|..], how.rungs)
         else how.rungs == [] && measured == how.first
    }

    lemma {:induction false} BaseAlone(history: seq<Measurement>)
      ensures Untried([LatencyBase()], history) == if Tried(history, LatencyBase()) then [] else [LatencyBase()]
    {
      UntriedOneMore([LatencyBase()], 0, history);
      assert [LatencyBase()][..1] == [LatencyBase()] && [LatencyBase()][..0] == [];
    }

    lemma {:induction false} NextStep(k: nat)
      requires settings.Sensible()
      ensures Step(0) == GrownBy(LatencyBase(), settings.sweepGrowth) >= 1
      ensures Step(k + 1) == GrownBy(Step(k), settings.sweepGrowth)
    {
      Grows(LatencyBase(), settings.sweepGrowth);
    }

    /** Under an SLO, growing concurrency while it is met. */
    method Climb(s: Session, plan: CandidatePlan, history: seq<Measurement>, first: seq<Measurement>)
      returns (r: Result<seq<Measurement>, Failure>, ghost rungs: seq<int>)
      requires s.closes == 0 && settings.Sensible() && MeasuredOn(s, first) && NewPoints(history, first)
      modifies s`asked
      ensures s.asked == old(s.asked) + Asks(rungs, Sweep)
      ensures r.Ok? ==> MeasuredOn(s, first + r.value) && NewPoints(history, first + r.value)
      ensures r.Ok? ==> Climbed(plan, history, first, r.value, rungs)
    {
      hide ShouldContinue, Tried, Asks, AtConcurrency, GrownBy, Rung, Step, BaseResults;
      NextStep(0);
      OneMoreAsk([], 0, Sweep);
      var c, upper := GrownBy(LatencyBase(), settings.sweepGrowth), Limit(plan);
      var swept, up := BaseResults(history, first), [];
      rungs := [];
      assert first + up == first && swept + ResultsOf(up) == swept;
      while c <= upper
        invariant MeasuredOn(s, first + up) && NewPoints(history, first + up) && c >= 1 && c == Step(|rungs|)
        invariant s.asked == old(s.asked) + Asks(rungs, Sweep) && |up| == |rungs|
        invariant forall i :: 0 <= i < |rungs| ==> rungs[i] == Step(i) <= upper
        invariant swept == BaseResults(history, first) + ResultsOf(up)
        invariant forall k :: 0 < k <= |up| ==>
          ShouldContinue(BaseResults(history, first) + ResultsOf(up[..k]), slo, settings.scoring)
        decreases upper - c
      {
        var measured := first + up;
        OneMoreAsk(rungs, c, Sweep);
        ghost var wasTried := Tried(history + measured, c);
        var point := RunPoint(s, c, history + measured, Sweep);
        rungs := if wasTried then rungs else rungs + [c];
        if point.Err? {
          r := Err(point.error);
          return;
        }
        if point.value.None? {
          break;
        }
        OneMorePoint(history, measured, point.value.value);
        ghost var before := up;
        up, swept := up + [point.value.value], swept + [point.value.value.result];
        assert first + up == measured + [point.value.value];
        assert forall k :: 0 < k <= |before| ==> up[..k] == before[..k];
        assert up[..|up|] == up;
        assert ResultsOf(up) == ResultsOf(before) + [point.value.value.result];
        assert swept == BaseResults(history, first) + ResultsOf(up);
        if !ShouldContinue(swept, slo, settings.scoring) {
          break;
        }
        NextStep(|rungs| - 1);
        Grows(c, settings.sweepGrowth);
        c := GrownBy(c, settings.sweepGrowth);
      }
      r := Ok(up);
    }

    /** Latency: more samples at the operating point and, under an SLO, upwards while it is met. */
    method SweepLatency(s: Session, plan: CandidatePlan, history: seq<Measurement>)
      returns (r: Result<seq<Measurement>, Failure>, ghost how: Course)
      requires s.closes == 0 && settings.Sensible()
      modifies s`asked
      ensures r.Ok? ==> MeasuredOn(s, r.value) && NewPoints(history, r.value)
      ensures old(s.asked) <= s.asked
      ensures r.Ok? ==> SweptFromBase(plan, history, r.value, s.asked[|old(s.asked)|..], how)
    {
      hide Untried, ShouldContinue, Tried, Asks, AtConcurrency, Rung, GrownBy;
      var base := LatencyBase();
      var measured: seq<Measurement> := [];
      how := FromBase([], []);
      BaseAlone(history);
      OneMoreAsk([], base, Latency);
      OneMoreAsk([], base, Sweep);
      var first :- RunPoint(s, base, history, Latency);
      if first.Some? {
        assert history + measured == history;
        OneMorePoint(history, measured, first.value);
        measured := measured + [first.value];
      }
      how := FromBase(measured, []);
      if !HasSlo(slo) {
        return Ok(measured), how;
      }
      var up, rungs := Climb(s, plan, history, measured);
      how := FromBase(measured, rungs);
      r := if up.Ok? then Ok(measured + up.value) else up;
    }
    /** The concurrency sweep of one structural candidate; `None` when it cannot be relaunched. */
    method SweepCandidate(structural: CandidateEvaluation)
      returns (r: Result<Option<CandidateEvaluation>, Failure>, ghost asks: seq<Ask>)
      requires Valid() && Faithful(structural)
      modifies `session, `evaluations, `launched, launched
      ensures Valid() && Advanced()
      ensures r.Ok? ==>
        && |evaluations| == |old(evaluations)| + 1
        && evaluations[..|old(evaluations)|] == old(evaluations)
        && evaluations[|old(evaluations)|].plan == structural.plan
        && (structural.results != [] ==> (r.value.Some? <==> evaluations[|old(evaluations)|].status != Failed))
        && (r.value.Some? ==> r.value.value == evaluations[|old(evaluations)|])
      ensures r.Ok? && r.value.Some? ==>
        && session.Some? && SweptAs(structural.plan, structural.results, r.value.value.results, asks)
        && session.value.asked == (if session == old(session) then old(session.value.asked) else []) + asks
    {
      hide Valid, SweptUp, SweptFromBase;
      asks := [];
      SettingsSensible();
      SessionKnown();
      var plan := structural.plan;
      var s :- Open(plan);
      if s.None? {
        var recorded :- Record(CandidateEvaluation(plan, Failed, []));
        return Ok(None), [];
      }
      OpenNow(s.value);
      ghost var before := s.value.asked;
      var swept;
      ghost var how;
      if objective == LATENCY {
        swept, how := SweepLatency(s.value, plan, structural.results);
      } else {
        swept, how := SweepThroughput(s.value, plan, structural.results);
      }
      asks := s.value.asked[|before|..];
      var measured :- swept;
      var status := if measured != [] || structural.results != [] then Benchmarked else Failed;
      var e := CandidateEvaluation(plan, status, measured);
      var recorded :- Record(e);
      r := Ok(Some(e));
    }

    /** The benchmarks a sweep ran, and what it measured, as its objective has it. */
    ghost predicate SweptAs(plan: CandidatePlan, history: seq<Measurement>, measured: seq<Measurement>, asks: seq<Ask>) {
      exists how ::
        if objective == LATENCY then SweptFromBase(plan, history, measured, asks, how)
        else SweptUp(plan, history, measured, asks, how)
    }

    lemma {:induction false} SettingsSensible()
      requires Valid()
      ensures settings.Sensible()
    {
    }

    /** Sweeps the best candidates; when none can be relaunched, their stage A results stand. */
    method RunStageB(structural: seq<CandidateEvaluation>) returns (r: Result<seq<CandidateEvaluation>, Failure>)
      requires Valid() && structural != []
      requires forall e :: e in structural ==> e in evaluations && e.results != []
      modifies `session, `evaluations, `launched, launched
      ensures Valid() && Advanced()
      ensures r.Ok? ==> forall e :: e in r.value ==> e in evaluations
      ensures r.Ok? ==> |evaluations| == |old(evaluations)| + Smaller(settings.topK, |structural|)
      ensures r.Ok? && settings.topK >= 1 ==> r.value != []
      ensures r.Ok? ==> var sweeps := NotFailed(evaluations[|old(evaluations)|..]);
        r.value == if sweeps != [] then sweeps else old(TopOf(structural))
    {
      hide Valid, TopOf, NotFailed;
      TopFacts(structural);
      var top := TopStructural(structural);
      var sweeps: seq<CandidateEvaluation> := [];
      NoResults();
      assert evaluations[|evaluations|..] == [];
      for i := 0 to |top|
        invariant Valid() && Advanced() && |evaluations| == |old(evaluations)| + i
        invariant forall e :: e in sweeps ==> e in evaluations
        invariant sweeps == NotFailed(evaluations[|old(evaluations)|..])
      {
        ghost var before := evaluations;
        assert top[i] in top && top[i] in structural;
        assert forall x :: x in old(evaluations) ==> x in evaluations;
        RecordedFaithful(top[i]);
        var e, asks :- SweepCandidate(top[i]);
        assert forall x :: x in before ==> x in evaluations;
        assert evaluations == before + [evaluations[|before|]];
        OneMoreTried(old(evaluations), before, evaluations[|before|]);
        if e.Some? {
          sweeps := sweeps + [e.value];
        }
      }
      r := Ok(if sweeps == [] then top else sweeps);
    }

    lemma {:induction false} RecordedFaithful(e: CandidateEvaluation)
      requires Valid() && e in evaluations
      ensures Faithful(e)
    {
    }

    // -------------------------------------------------------------- the winner

    /** The operating point of an evaluation's topology, from everything measured for it. */
    function PointOf(es: seq<CandidateEvaluation>, e: CandidateEvaluation): Option<BenchmarkResult> {
      Choice(ResultsOf(MeasuredFor(es, e.plan.key)), objective, slo, settings.scoring)
    }

    /** The operating points of the sweeps that have one, in order. */
    function PointsOf(es: seq<CandidateEvaluation>, sweeps: seq<CandidateEvaluation>): seq<Operating> {
      if sweeps == [] then []
      else
        var last := sweeps[|sweeps| - 1];
        var point := PointOf(es, last);
        PointsOf(es, sweeps[..|sweeps| - 1]) + if point.Some? then [Operating(last, point.value)] else []
    }

    lemma {:induction false} PointsOfMore(es: seq<CandidateEvaluation>, sweeps: seq<CandidateEvaluation>, i: nat)
      requires i < |sweeps|
      ensures PointsOf(es, sweeps[..i + 1]) == PointsOf(es, sweeps[..i]) +
        if PointOf(es, sweeps[i]).Some? then [Operating(sweeps[i], PointOf(es, sweeps[i]).value)] else []
    {
      assert sweeps[..i + 1][..i] == sweeps[..i];
    }

    /** The operating point of every sweep whose topology has a valid result; eligible if any is. */
    method OperatingPoints(sweeps: seq<CandidateEvaluation>) returns (os: seq<Operating>)
      ensures os == PointsOf(evaluations, sweeps)
      ensures forall o :: o in os ==> o.evaluation in sweeps && OperatesFor(o)
      ensures forall e :: e in sweeps && HasValid(evaluations, e.plan.key, settings.scoring) ==> Represented(os, e)
    {
      hide OperatesFor, HasValid, Choice, PointsOf, Eligible;
      os := [];
      NoPointsYet(evaluations);
      assert sweeps[..0] == [];
      for i := 0 to |sweeps|
        invariant os == PointsOf(evaluations, sweeps[..i])
        invariant forall o :: o in os ==> o.evaluation in sweeps && OperatesFor(o)
        invariant forall j :: 0 <= j < i && HasValid(evaluations, sweeps[j].plan.key, settings.scoring) ==>
          Represented(os, sweeps[j])
      {
        PointsOfMore(evaluations, sweeps, i);
        var history := ResultsOf(MeasuredFor(evaluations, sweeps[i].plan.key));
        var choice := ChooseConcurrency(history, objective, slo, settings.scoring);
        ChoiceOperates(sweeps[i], choice);
        if choice.Some? {
          var o := Operating(sweeps[i], choice.value);
          os := os + [o];
          assert o in os;
        }
      }
      assert sweeps[..|sweeps|] == sweeps;
    }

    /** Earlier sweeps come first. */
    lemma {:induction false} PointsConcat(es: seq<CandidateEvaluation>, a: seq<CandidateEvaluation>, b: seq<CandidateEvaluation>)
      ensures PointsOf(es, a + b) == PointsOf(es, a) + PointsOf(es, b)
      decreases |b|
    {
      hide PointsOf, PointOf;
      if b == [] {
        NoPointsYet(es);
        assert a + b == a;
      } else {
        var last := |b| - 1;
        var all := a + b;
        assert all[..|all| - 1] == a + b[..last] && all[..|all|] == all && b[..|b|] == b;
        PointsConcat(es, a, b[..last]);
        PointsOfMore(es, all, |all| - 1);
        PointsOfMore(es, b, last);
      }
    }

    lemma {:induction false} NoPointsYet(es: seq<CandidateEvaluation>)
      ensures PointsOf(es, []) == []
    {
    }

    /** A valid result of the evaluation's topology, which meets the SLO if any valid one does. */
    ghost predicate OperatesFor(o: Operating)
      reads `evaluations
    {
      && o.result in ResultsOf(MeasuredFor(evaluations, o.evaluation.plan.key))
      && IsValid(o.result, settings.scoring)
      && (Satisfies(o.result, slo) || !HasEligible(evaluations, o.evaluation.plan.key, slo, settings.scoring))
    }

    lemma {:induction false} ChoiceOperates(e: CandidateEvaluation, choice: Option<BenchmarkResult>)
      requires var history := ResultsOf(MeasuredFor(evaluations, e.plan.key));
        && (choice.None? <==> forall p :: p in history ==> !IsValid(p, settings.scoring))
        && (choice.Some? ==> Considered(choice.value, history, slo, settings.scoring))
      ensures choice.Some? <==> HasValid(evaluations, e.plan.key, settings.scoring)
      ensures choice.Some? ==> OperatesFor(Operating(e, choice.value))
    {
      hide IsValid, Satisfies, MeasuredFor;
    }

    /** Score of a point when all operating points are compared. */
    function PointScore(points: seq<Operating>, i: nat): real
      requires i < |points|
    {
      Score(points[i].result, objective, BestsOf(ValidOnes(OperatingResults(points), settings.scoring)), settings.scoring, root)
    }

    /** No point that meets the SLO as well scores more, and no earlier one as much. */
    ghost predicate BestAt(points: seq<Operating>, i: nat) {
      && i < |points|
      && (Satisfies(points[i].result, slo) || forall o :: o in points ==> !Satisfies(o.result, slo))
      && forall j :: 0 <= j < |points| && (Satisfies(points[j].result, slo) || !Satisfies(points[i].result, slo)) ==>
           && PointScore(points, j) <= PointScore(points, i)
           && (j < i ==> PointScore(points, j) < PointScore(points, i))
    }

    /** The best operating point of the sweeps. */
    ghost predicate PickedFrom(es: seq<CandidateEvaluation>, sweeps: seq<CandidateEvaluation>, o: Operating) {
      exists i: nat :: BestAt(PointsOf(es, sweeps), i) && PointsOf(es, sweeps)[i] == o
    }

    /**
     * The best operating point: of those that meet the SLO, if any does, the one that scores highest
     * among all, the earlier of two that score the same. There is none only if no swept topology has
     * a valid result; it is a valid result of its topology and meets the SLO if any result of any
     * swept topology does.
     */
    method PickWinner(sweeps: seq<CandidateEvaluation>) returns (r: Result<Operating, Failure>)
      ensures r.Err? ==> r.error == NoViablePlan
      ensures r.Err? <==> forall e :: e in sweeps ==> !HasValid(evaluations, e.plan.key, settings.scoring)
      ensures r.Ok? ==> PickedFrom(evaluations, sweeps, r.value)
      ensures r.Ok? ==> r.value.evaluation in sweeps && OperatesFor(r.value)
      ensures r.Ok? ==> Satisfies(r.value.result, slo) ||
                        forall e :: e in sweeps ==> !HasEligible(evaluations, e.plan.key, slo, settings.scoring)
    {
      hide IsValid, Satisfies, SelectBest, MeasuredFor, ScoredOf, HasValid, HasEligible, OperatesFor, PointsOf, BestAt;
      var points := OperatingPoints(sweeps);
      NoPoints(sweeps, points);
      if points == [] {
        return Err(NoViablePlan);
      }
      AllOperate(points);
      var scored := ScoreResults(OperatingResults(points), objective, slo, settings.scoring, root);
      WinnerListed(points, scored);
      var i := FirstEqual(scored, SelectBest(scored).value.winner);
      WinnerSound(points, scored, i);
      assert points[i] in points;
      NothingEligible(sweeps, points);
      r := Ok(points[i]);
    }

    lemma {:induction false} AllOperate(points: seq<Operating>)
      requires forall o :: o in points ==> OperatesFor(o)
      ensures forall o :: o in points ==> IsValid(o.result, settings.scoring)
    {
    }

    lemma {:induction false} NoPoints(sweeps: seq<CandidateEvaluation>, points: seq<Operating>)
      requires forall o :: o in points ==> o.evaluation in sweeps && OperatesFor(o)
      requires forall e :: e in sweeps && HasValid(evaluations, e.plan.key, settings.scoring) ==> Represented(points, e)
      ensures points == [] <==> forall e :: e in sweeps ==> !HasValid(evaluations, e.plan.key, settings.scoring)
    {
      hide IsValid, Satisfies, MeasuredFor;
      if points != [] {
        var o := points[0];
        assert o in points && o.evaluation in sweeps && OperatesFor(o);
      }
    }

    /** If no operating point meets the SLO, no swept topology has an eligible result. */
    lemma {:induction false} NothingEligible(sweeps: seq<CandidateEvaluation>, points: seq<Operating>)
      requires forall o :: o in points ==> OperatesFor(o)
      requires forall e :: e in sweeps && HasValid(evaluations, e.plan.key, settings.scoring) ==> Represented(points, e)
      ensures (forall o :: o in points ==> !Satisfies(o.result, slo)) ==>
        forall e :: e in sweeps ==> !HasEligible(evaluations, e.plan.key, slo, settings.scoring)
    {
      hide IsValid, Satisfies, MeasuredFor;
    }

    method FirstEqual(scored: seq<ScoredResult>, winner: ScoredResult) returns (i: nat)
      requires winner in scored
      ensures i < |scored| && scored[i] == winner && winner !in scored[..i]
    {
      i := 0;
      while scored[i] != winner
        invariant i < |scored| && winner !in scored[..i] && winner in scored[i..]
        decreases |scored| - i
      {
        assert scored[i..] == [scored[i]] + scored[i + 1..];
        i := i + 1;
      }
    }

    /** The points scored against each other. */
    ghost predicate ScoredAs(points: seq<Operating>, scored: seq<ScoredResult>) {
      && |scored| == |points|
      && forall i :: 0 <= i < |points| ==> scored[i] == ScoredOf(OperatingResults(points)[i], objective, slo,
           BestsOf(ValidOnes(OperatingResults(points), settings.scoring)), settings.scoring, root)
    }

    lemma {:induction false} WinnerListed(points: seq<Operating>, scored: seq<ScoredResult>)
      requires ScoredAs(points, scored) && points != []
      requires forall o :: o in points ==> IsValid(o.result, settings.scoring)
      ensures SelectBest(scored).Some? && SelectBest(scored).value.winner in scored
    {
      hide SelectBest, IsValid;
      ScoredFlags(points, scored);
      SelectBestSound(scored);
      assert scored[0] in scored && scored[0].valid;
    }

    lemma {:induction false} WinnerSound(points: seq<Operating>, scored: seq<ScoredResult>, i: nat)
      requires ScoredAs(points, scored) && i < |points|
      requires forall o :: o in points ==> IsValid(o.result, settings.scoring)
      requires SelectBest(scored).Some? && scored[i] == SelectBest(scored).value.winner
      requires SelectBest(scored).value.winner !in scored[..i]
      ensures BestAt(points, i)
      ensures Satisfies(points[i].result, slo) || forall o :: o in points ==> !Satisfies(o.result, slo)
    {
      hide SelectBest, IsValid, Satisfies, ScoredAs, PointScore;
      ScoredFlags(points, scored);
      SelectBestSound(scored);
      SelectBestFirst(scored, i);
      forall j | 0 <= j < |points| && (Satisfies(points[j].result, slo) || !Satisfies(points[i].result, slo))
        ensures PointScore(points, j) <= PointScore(points, i)
        ensures j < i ==> PointScore(points, j) < PointScore(points, i)
      {
        assert scored[j] in scored;
        assert j < i ==> scored[j] == scored[..i][j] && scored[j] in scored[..i];
      }
    }

    lemma {:induction false} ScoredFlags(points: seq<Operating>, scored: seq<ScoredResult>)
      requires ScoredAs(points, scored)
      requires forall o :: o in points ==> IsValid(o.result, settings.scoring)
      ensures |scored| == |points| && forall i :: 0 <= i < |points| ==>
        && scored[i].result == points[i].result && scored[i].valid
        && (scored[i].sloSatisfied <==> Satisfies(points[i].result, slo))
        && scored[i].score == PointScore(points, i)
      ensures (forall s :: s in scored ==> !s.Eligible()) ==> forall o :: o in points ==> !Satisfies(o.result, slo)
    {
      hide Score, BestsOf, ValidOnes, Satisfies;
      forall i | 0 <= i < |points|
        ensures scored[i].result == points[i].result && scored[i].valid
        ensures scored[i].sloSatisfied <==> Satisfies(points[i].result, slo)
        ensures scored[i].score == PointScore(points, i)
        ensures scored[i] in scored
      {
        assert points[i] in points;
      }
    }

    // -------------------------------------------------------------- stage C

    /** The larger memory fraction stage C tries, if there is room for one. */
    function LargerFraction(plan: CandidatePlan): (f: Option<real>)
      requires plan.deviceMemory.Some? ==> plan.deviceMemory.value.0 != 0
      ensures f.Some? ==> plan.memoryFraction.Some? && f.value > plan.memoryFraction.value
    {
      if !settings.memoryTuning || objective == LATENCY || plan.memoryFraction.None? || plan.deviceMemory.None? then None
      else
        var (total, free) := plan.deviceMemory.value;
        var wanted, ceiling := plan.memoryFraction.value + settings.memoryStep, Ceiling(total, free);
        var next := Rounded(if wanted <= ceiling then wanted else ceiling);
        if next <= plan.memoryFraction.value then None else Some(next)
    }

    /** The winner's plan with more memory, if stage C is to try one. */
    function Retuned(plan: CandidatePlan): Option<CandidatePlan> {
      if plan.deviceMemory.Some? && plan.deviceMemory.value.0 == 0 then None
      else if LargerFraction(plan).None? then None
      else Some(plan.(memoryFraction := LargerFraction(plan)))
    }

    /** The fraction tried leaves the reserve of a GiB alone and grows by about a step. */
    lemma {:induction false} FractionFits(plan: CandidatePlan)
      requires plan.deviceMemory.Some? && plan.deviceMemory.value.0 > 0 && LargerFraction(plan).Some?
      ensures var f, (total, free) := LargerFraction(plan).value, plan.deviceMemory.value;
              Scaled(f, total as real) <= (free - Memory.GIB) as real
      ensures LargerFraction(plan).value <= plan.memoryFraction.value + settings.memoryStep + 0.005
    {
      hide Scaled;
      var (total, free) := plan.deviceMemory.value;
      var ceiling := Ceiling(total, free);
      CeilingFits(total, free);
      var hundredths := ((free - Memory.GIB) as real / total as real * 100.0).Floor;
      RoundedHundredth(ceiling, hundredths, plan.memoryFraction.value + settings.memoryStep);
      ScaleUp(LargerFraction(plan).value, ceiling, total as real);
    }

    /** A hundredth that a step reaches and the reserve allows is tried. */
    lemma {:induction false} FractionTried(plan: CandidatePlan)
      requires settings.memoryTuning && objective != LATENCY && plan.memoryFraction.Some? && plan.deviceMemory.Some?
      requires plan.deviceMemory.value.0 != 0 && settings.memoryStep >= 0.01
      requires Ceiling(plan.deviceMemory.value.0, plan.deviceMemory.value.1) >= plan.memoryFraction.value + 0.01
      ensures LargerFraction(plan).Some?
    {
    }

    /** The concurrencies stage C tries: the winner's and one growth step more, within twice the plan's cap. */
    function MemoryTrials(plan: CandidatePlan, c0: int): seq<int> {
      var limit := Or(plan.maxConcurrency, 0) * 2;
      if limit != 0 && c0 > limit then []
      else if limit != 0 && GrownBy(c0, settings.sweepGrowth) > limit then [c0]
      else [c0, GrownBy(c0, settings.sweepGrowth)]
    }

    /** Two more points at the larger memory fraction. */
    method MemoryPoints(s: Session, plan: CandidatePlan, c0: int) returns (r: Result<seq<Measurement>, Failure>)
      requires s.closes == 0 && settings.Sensible()
      modifies s`asked
      ensures r.Ok? ==> MeasuredOn(s, r.value)
      ensures r.Ok? && c0 != 0 ==> s.asked == old(s.asked) + Asks(MemoryTrials(plan, c0), Memory)
    {
      var limit := Or(plan.maxConcurrency, 0) * 2;
      var measured: seq<Measurement> := [];
      GrownApart(c0, settings.sweepGrowth);
      hide GrownBy;
      if limit == 0 || c0 <= limit {
        var first :- RunPoint(s, c0, [], Memory);
        if first.Some? {
          measured := [first.value];
        }
        var c1 := GrownBy(c0, settings.sweepGrowth);
        if limit == 0 || c1 <= limit {
          var second :- RunPoint(s, c1, measured, Memory);
          if second.Some? {
            measured := measured + [second.value];
          }
        }
      }
      r := Ok(measured);
    }

    lemma {:induction false} GrownApart(c: int, growth: int)
      requires growth >= 2
      ensures GrownBy(c, growth) == c ==> c == 0
    {
      if c > 0 {
        Grows(c, growth);
      } else if c < 0 {
        Grows(-c, growth);
        assert (-c) * growth == -(c * growth);
      }
    }

    /** What stage C makes of its measurements: the operating point among them, if it is clearly better. */
    function Preferred(best: Operating, e: CandidateEvaluation): Operating {
      var choice := Choice(ResultsOf(e.results), objective, slo, settings.scoring);
      if choice.Some? && ClearlyBetter(best.result, choice.value) then Operating(e, choice.value) else best
    }

    /** `x` is eligible and, compared with `best` alone, scores higher by enough. */
    predicate ClearlyBetter(best: BenchmarkResult, x: BenchmarkResult) {
      && Eligible(x, slo, settings.scoring)
      && Gain(ComparedScore(best, x, best), ComparedScore(best, x, x)) >= settings.memoryMinGain
    }

    /** The session stage C launched was asked for exactly its trials; without one the launch failed. */
    twostate predicate Trialled(best: Operating, e: CandidateEvaluation, new s: Option<Session>)
      reads if s.Some? then {s.value} else {}
    {
      if s.None? then e.status == Failed && e.results == []
      else
        && fresh(s.value) && s.value.plan == e.plan && MeasuredOn(s.value, e.results)
        && (best.result.concurrency != 0 ==>
              s.value.asked == Asks(MemoryTrials(best.evaluation.plan, best.result.concurrency), Memory))
    }

    /**
     * Tries the winner with more memory and keeps that exactly when it is eligible and clearly
     * better. The stage is left out exactly when there is no larger fraction to try.
     */
    method RunStageC(best: Operating) returns (r: Result<Operating, Failure>, ghost used: Option<Session>)
      requires Valid()
      modifies `session, `evaluations, `launched, launched
      ensures Valid() && Advanced()
      ensures r.Ok? && Retuned(best.evaluation.plan).None? ==>
        r.value == best && evaluations == old(evaluations) && session == old(session)
      ensures r.Ok? && Retuned(best.evaluation.plan).Some? ==>
        && |evaluations| == |old(evaluations)| + 1
        && var e := evaluations[|old(evaluations)|];
        && e.plan == Retuned(best.evaluation.plan).value && r.value == Preferred(best, e)
        && Trialled(best, e, used)
      ensures r.Ok? ==> r.value == best || AdoptedFrom(r.value, best)
    {
      hide Valid, LargerFraction, AdoptedFrom, ClearlyBetter, Choice, IsValid, Satisfies, Eligible, WorthIt, WithinRegret;
      hide MemoryTrials, Asks, WalkEnds, Pool;
      used := None;
      var plan := best.evaluation.plan;
      if plan.deviceMemory.Some? && plan.deviceMemory.value.0 == 0 {
        r := if settings.memoryTuning && objective != LATENCY && plan.memoryFraction.Some? then Err(Raised) else Ok(best);
        return;
      }
      var fraction := LargerFraction(plan);
      if fraction.None? {
        return Ok(best), None;
      }
      var tuned := plan.(memoryFraction := fraction);
      SessionKnown();
      var closed :- CloseSession();
      var s :- Open(tuned);
      if s.None? {
        var e := CandidateEvaluation(tuned, Failed, []);
        var recorded :- Record(e);
        NothingPreferred(best, e);
        return Ok(best), None;
      }
      used := s;
      OpenNow(s.value);
      SettingsSensible();
      var measured :- MemoryPoints(s.value, plan, best.result.concurrency);
      var e := CandidateEvaluation(tuned, if measured != [] then Benchmarked else Failed, measured);
      var recorded :- Record(e);
      var choice := ChooseConcurrency(ResultsOf(measured), objective, slo, settings.scoring);
      if choice.None? {
        return Ok(best), used;
      }
      MeasuredResults(measured, choice.value);
      r := Prefer(best, e, choice.value);
    }

    lemma {:induction false} NothingPreferred(best: Operating, e: CandidateEvaluation)
      requires e.results == []
      ensures Preferred(best, e) == best
    {
      hide ClearlyBetter, StableSort;
      assert ResultsOf(e.results) == [];
      assert ValidOnes([], settings.scoring) == [];
      assert |StableSort<BenchmarkResult>([], ByConcurrency)| == 0;
      assert SatisfyingOnes([], slo) == [];
    }

    /** The result on more memory wins when it is eligible and better by enough. */
    method Prefer(best: Operating, e: CandidateEvaluation, x: BenchmarkResult) returns (r: Result<Operating, Failure>)
      requires Valid() && e in evaluations && e.plan.key == best.evaluation.plan.key
      requires exists m :: m in e.results && m.result == x
      modifies `session, launched`closes
      ensures Valid() && evaluations == old(evaluations) && launched == old(launched)
      ensures r.Ok? ==> r.value == if ClearlyBetter(best.result, x) then Operating(e, x) else best
      ensures r.Ok? ==> r.value == best || AdoptedFrom(r.value, best)
    {
      hide Valid, AdoptedFrom, Score, BestsOf, ValidOnes;
      SessionKnown();
      var pair := ScoreResults([best.result, x], objective, slo, settings.scoring, root);
      if pair[1].Eligible() && Gain(pair[0].score, pair[1].score) >= settings.memoryMinGain {
        Adopted(best, e, x);
        return Ok(Operating(e, x));
      }
      var closed :- CloseSession();
      r := Ok(best);
    }

    /** Score of `x` when only `best` and `x` are compared. */
    function ComparedScore(best: BenchmarkResult, other: BenchmarkResult, x: BenchmarkResult): real {
      Score(x, objective, BestsOf(ValidOnes([best, other], settings.scoring)), settings.scoring, root)
    }

    /** A stage C result replaces the winner: same topology, recorded, eligible, and better by enough. */
    ghost predicate AdoptedFrom(o: Operating, best: Operating)
      reads this
    {
      && o.evaluation in evaluations && o.evaluation.plan.key == best.evaluation.plan.key
      && Eligible(o.result, slo, settings.scoring)
      && Gain(ComparedScore(best.result, o.result, best.result), ComparedScore(best.result, o.result, o.result))
         >= settings.memoryMinGain
      && exists m :: m in o.evaluation.results && m.result == o.result
    }

    lemma {:induction false} Adopted(best: Operating, e: CandidateEvaluation, x: BenchmarkResult)
      requires e in evaluations && e.plan.key == best.evaluation.plan.key && Eligible(x, slo, settings.scoring)
      requires Gain(ComparedScore(best.result, x, best.result), ComparedScore(best.result, x, x)) >= settings.memoryMinGain
      requires exists m :: m in e.results && m.result == x
      ensures AdoptedFrom(Operating(e, x), best)
    {
    }

    lemma {:induction false} MeasuredResults(ms: seq<Measurement>, x: BenchmarkResult)
      requires x in ResultsOf(ms)
      ensures exists m :: m in ms && m.result == x
    {
      var i :| 0 <= i < |ms| && ResultsOf(ms)[i] == x;
      assert ms[i] in ms;
    }

    // -------------------------------------------------------------- stage D

    /**
     * A larger final sample of the winner; without one the preliminary measurement stands. The
     * sample replaces it without another look at its validity.
     */
    method RunStageD(best: Operating) returns (r: Result<Operating, Failure>, ghost final: Option<Measurement>)
      requires Valid()
      modifies `session, `evaluations, `launched, launched
      ensures Valid() && Advanced()
      ensures r.Ok? ==> evaluations == old(evaluations) + [FinalRecord(best, final)] && (session.None? ==> final.None?)
      ensures r.Ok? && session.Some? ==>
        session.value.asked == (if session == old(session) then old(session.value.asked) else [])
                               + [Ask(Or(Some(best.result.concurrency), 1), Final)]
      ensures r.Ok? ==> r.value == FinalChoice(best, final)
      ensures final.Some? ==> FinalSample(best, final.value)
      ensures r.Ok? && final.Some? ==> r.value.evaluation in evaluations
    {
      hide Valid;
      final := None;
      var plan := FinalPlan(best);
      var launch := Open(plan);
      if launch.Err? {
        return Err(launch.error), None;
      }
      var s := launch.value;
      if s.None? {
        var recorded := Record(CandidateEvaluation(plan, Failed, []));
        return if recorded.Ok? then Ok(best) else Err(recorded.error), None;
      }
      OpenNow(s.value);
      var measured := s.value.Benchmark(Or(plan.maxConcurrency, 1), Final);
      if measured.Err? && measured.error == OtherError {
        return Err(Raised), None;
      }
      if measured.Err? {
        var recorded := Record(CandidateEvaluation(plan, Failed, []));
        return if recorded.Ok? then Ok(best) else Err(recorded.error), None;
      }
      var e := CandidateEvaluation(plan, Benchmarked, [measured.value]);
      var recorded := Record(e);
      r := if recorded.Ok? then Ok(Operating(e, measured.value.result)) else Err(recorded.error);
      final := Some(measured.value);
    }

    // -------------------------------------------------------------- tune

    /**
     * The stages in order; any of them may end the run early. What is selected is a valid recorded
     * result, or the final sample of one.
     */
    method RunStages(candidates: seq<CandidatePlan>)
      returns (r: Result<Operating, Failure>, ghost story: Story, ghost winner: Operating, ghost final: Option<Measurement>)
      requires Valid()
      modifies `session, `evaluations, `launched, launched
      ensures Valid() && Advanced()
      ensures r.Ok? ==> Supported(r.value) && Led(story, winner)
      ensures r.Ok? ==> ValidWinner(winner) && r.value == FinalChoice(winner, final)
      ensures r.Ok? && final.Some? ==> FinalSample(winner, final.value)
    {
      hide ValidWinner, FinalChoice, FinalRecord, FinalSample, LedBy;
      final := None;
      var chosen;
      chosen, story := SelectWinner(candidates);
      if chosen.Err? {
        winner := *;
        r := chosen;
        return;
      }
      winner := chosen.value;
      ghost var before := evaluations;
      r, final := RunStageD(chosen.value);
      hide Supported, Valid;
      WinnerStands(before, winner);
      StillLed(before, story, winner);
      if r.Ok? {
        FinalStands(winner, final);
      }
    }

    /** A valid result that was recorded for its evaluation's topology. */
    ghost predicate ValidWinner(o: Operating)
      reads `evaluations
    {
      Supported(o) && IsValid(o.result, settings.scoring)
    }

    lemma {:induction false} WinnerStands(before: seq<CandidateEvaluation>, o: Operating)
      requires before <= evaluations && SupportedBy(before, o) && IsValid(o.result, settings.scoring)
      ensures ValidWinner(o)
    {
      hide IsValid;
      StillSupported(before, o);
    }

    lemma {:induction false} FinalStands(winner: Operating, final: Option<Measurement>)
      requires ValidWinner(winner)
      requires final.Some? ==> FinalChoice(winner, final).evaluation in evaluations
      ensures Supported(FinalChoice(winner, final))
    {
      if final.Some? {
        var o := FinalChoice(winner, final);
        assert final.value in o.evaluation.results;
        FinalSupported(o);
      }
    }

    /** The winner is the sweeps' best operating point, or what stage C made of it. */
    ghost predicate LedBy(es: seq<CandidateEvaluation>, story: Story, winner: Operating) {
      var plan := story.picked.evaluation.plan;
      && (forall e :: e in story.sweeps ==> e in story.seen) && story.seen <= es
      && PickedFrom(story.seen, story.sweeps, story.picked)
      && (Retuned(plan).None? ==> winner == story.picked)
      && (Retuned(plan).Some? ==>
            exists e :: e in es && e.plan == Retuned(plan).value && winner == Preferred(story.picked, e))
    }

    ghost predicate Led(story: Story, winner: Operating)
      reads `evaluations
    {
      LedBy(evaluations, story, winner)
    }

    lemma {:induction false} StillLed(before: seq<CandidateEvaluation>, story: Story, winner: Operating)
      requires before <= evaluations
      ensures LedBy(before, story, winner) ==> Led(story, winner)
    {
      hide PickedFrom, Retuned, Preferred;
      assert forall e :: e in before ==> e in evaluations;
    }

    /** Stage C's recorded evaluation tells how the winner came about. */
    lemma {:induction false} LedToWinner(
      before: seq<CandidateEvaluation>, sweeps: seq<CandidateEvaluation>, picked: Operating, winner: Operating)
      requires before <= evaluations && (forall e :: e in sweeps ==> e in before) && PickedFrom(before, sweeps, picked)
      requires Retuned(picked.evaluation.plan).None? ==> winner == picked
      requires Retuned(picked.evaluation.plan).Some? ==>
        && |before| < |evaluations| && evaluations[|before|].plan == Retuned(picked.evaluation.plan).value
        && winner == Preferred(picked, evaluations[|before|])
      ensures Led(Story(sweeps, before, picked), winner)
    {
      hide PickedFrom, Retuned, Preferred;
      if Retuned(picked.evaluation.plan).Some? {
        assert evaluations[|before|] in evaluations;
      }
    }

    /** Stages A to C: the best operating point, possibly with more memory. */
    method SelectWinner(candidates: seq<CandidatePlan>) returns (r: Result<Operating, Failure>, ghost story: Story)
      requires Valid()
      modifies `session, `evaluations, `launched, launched
      ensures Valid() && Advanced()
      ensures r.Ok? ==> SupportedBy(evaluations, r.value) && IsValid(r.value.result, settings.scoring)
      ensures r.Ok? ==> Led(story, r.value)
    {
      hide Valid, SupportedBy, AdoptedFrom, OperatesFor, HasValid, HasEligible, IsValid, Satisfies, Trialled;
      hide WithResults, AllRecorded, Resumed, OnlyLastOpen, TopOf, NotFailed, PickedFrom, Retuned, Preferred, Led;
      ghost var n := |evaluations|;
      story := *;
      var structural :- RunStageA(candidates);
      RecordedSuffix(n, structural);
      if structural == [] {
        return Err(NoViablePlan), story;
      }
      var sweeps :- RunStageB(structural);
      var best :- PickWinner(sweeps);
      WinnerSupported(best);
      ghost var before := evaluations;
      var tuned, used :- RunStageC(best);
      StillSupported(before, best);
      LedToWinner(before, sweeps, best, tuned);
      if tuned != best {
        AdoptedSupported(tuned, best);
      }
      r, story := Ok(tuned), Story(sweeps, before, best);
    }

    lemma {:induction false} RecordedSuffix(n: nat, es: seq<CandidateEvaluation>)
      requires n <= |evaluations| && es == WithResults(evaluations[n..])
      ensures forall e :: e in es ==> e in evaluations && e.results != []
    {
    }

    /** The result was recorded for the topology of the evaluation's plan. */
    ghost predicate Supported(o: Operating)
      reads `evaluations
    {
      SupportedBy(evaluations, o)
    }

    lemma {:induction false} WinnerSupported(o: Operating)
      requires OperatesFor(o)
      ensures Supported(o) && IsValid(o.result, settings.scoring)
    {
      MeasuredResults(MeasuredFor(evaluations, o.evaluation.plan.key), o.result);
    }

    lemma {:induction false} StillSupported(before: seq<CandidateEvaluation>, o: Operating)
      requires before <= evaluations
      ensures SupportedBy(before, o) ==> Supported(o)
    {
      assert forall e :: e in before ==> e in evaluations;
    }

    lemma {:induction false} AdoptedSupported(o: Operating, best: Operating)
      requires AdoptedFrom(o, best)
      ensures Supported(o) && IsValid(o.result, settings.scoring)
    {
      hide ComparedScore, Gain;
    }

    lemma {:induction false} FinalSupported(o: Operating)
      requires o.evaluation in evaluations
      requires exists m :: m in o.evaluation.results && m.result == o.result
      ensures Supported(o)
    {
    }

    /**
     * The whole run. However it ends, no session is left open and each one opened was closed exactly
     * once; whatever was recorded belongs to the launch configuration it is recorded under. What is
     * selected is a valid recorded result, or the final sample of one; it is invalid exactly when
     * that sample is.
     */
    method Tune(viable: seq<CandidatePlan>)
      returns (r: Result<Operating, Failure>, ghost story: Story, ghost winner: Operating, ghost final: Option<Measurement>)
      requires Valid() && session == None
      modifies `session, `evaluations, `launched, launched
      ensures Valid() && Advanced() && session == None
      ensures forall s :: s in launched ==> s.closes == 1
      ensures AllFaithful(evaluations)
      ensures r.Ok? ==> Supported(r.value) && ValidWinner(winner) && r.value == FinalChoice(winner, final)
      ensures r.Ok? ==> Led(story, winner)
      ensures r.Ok? && final.Some? ==> FinalSample(winner, final.value)
      ensures r.Ok? ==>
        (IsValid(r.value.result, settings.scoring) <==> final.None? || IsValid(final.value.result, settings.scoring))
      ensures viable == [] ==> r == Err(NoViablePlan) && launched == old(launched)
    {
      hide Supported, AllFaithful, FinalChoice, FinalSample, IsValid, LedBy;
      var candidates :=
        if settings.maxStructuralCandidates < |viable| then viable[..settings.maxStructuralCandidates] else viable;
      if candidates == [] {
        story, winner, final := *, *, None;
        r := Err(NoViablePlan);
        return;
      }
      r, story, winner, final := RunStages(candidates);
      if r.Ok? {
        FinalValidExactly(winner, final, settings.scoring);
      }
      var closed := CloseSession();
      if closed.Err? {
        r := Err(closed.error);
      }
    }
  }

  /** `{e.plan.id: e for e in completed}`: the last evaluation of a plan counts. */
  function LastWithId(completed: seq<CandidateEvaluation>, id: int): (e: Option<CandidateEvaluation>)
    ensures e.Some? <==> exists x :: x in completed && x.plan.id == id
    ensures e.Some? ==>
      exists i :: 0 <= i < |completed| && completed[i] == e.value && completed[i].plan.id == id
                  && forall j :: i < j < |completed| ==> completed[j].plan.id != id
  {
    if completed == [] then None
    else if completed[|completed| - 1].plan.id == id then Some(completed[|completed| - 1])
    else LastWithId(completed[..|completed| - 1], id)
  }
}
