/**
 `BenchmarkRunner.runCase` of
 `packages/tekmemo-benchmark-kit/src/runner/benchmark-runner.ts`.
 */
module BenchmarkRunner {
  import opened Optional
  import Pool = WorkerPool

  // Set-up, warm-up iterations one after the other, measured iterations on the worker
  // pool, results in index order, and teardown in the `finally` block.  A step is what
  // happens between two awaits; a run is any sequence of enabled steps.

  datatype Settings = Settings(failFast: bool, captureErrors: bool)

  /** `teardown` tells whether the case has one. */
  datatype Case = Case(iterations: int, warmups: int, concurrency: int, teardown: bool)

  datatype IterationResult = IterationResult(iteration: nat, durationMs: real, ok: bool)

  datatype Outcome = Threw | Results(results: seq<IterationResult>)

  datatype Stage = SettingUp | Warming(next: nat) | Measuring | Ending(outcome: Outcome) | Ended(outcome: Outcome)

  /** What happened, in order. */
  datatype Entry = WarmedUp(i: nat, ok: bool) | Iterated(i: nat, ok: bool) | TornDown

  datatype State = State(stage: Stage, pool: Option<Pool.State<nat>>, byIndex: map<nat, IterationResult>, trace: seq<Entry>)

  datatype Event =
    | SetUp(ok: bool)
    | WarmUp(ok: bool)
    | Take(w: nat)
    | Iterate(w: nat, ok: bool, elapsed: real)
    | Settle
    | TearDown(ok: bool)

  /** `validateBenchmarkCase`, as far as these fields go. */
  predicate ValidCase(c: Case) {
    c.iterations > 0 && c.warmups >= 0 && c.concurrency > 0
  }

  const INIT := State(SettingUp, None, map[], [])

  /** `runOneIteration`: its result, or `None` when it throws. */
  function OneIteration(o: Settings, i: nat, warmup: bool, ok: bool, elapsed: real): Option<IterationResult> {
    if !ok && (o.failFast || !o.captureErrors || warmup) then None
    else Some(IterationResult(i, if elapsed > 0.0 then elapsed else 0.0, ok))
  }

  function Measured(n: nat): seq<Option<nat>> {
    seq(n, i => Some(i))
  }

  function Collect(byIndex: map<nat, IterationResult>, n: nat): seq<IterationResult> {
    if n == 0 then []
    else Collect(byIndex, n - 1) + (if n - 1 in byIndex then [byIndex[n - 1]] else [])
  }

  predicate SomeFailed(workers: seq<Pool.Phase>) {
    exists w :: 0 <= w < |workers| && workers[w].Failed?
  }

  predicate Enabled(c: Case, s: State, e: Event) {
    match e
    case SetUp(_) => s.stage.SettingUp?
    case WarmUp(_) => s.stage.Warming?
    case Take(w) => s.pool.Some? && Pool.Enabled(s.pool.value, Pool.Resume(w))
    case Iterate(w, ok, _) => s.pool.Some? && Pool.Enabled(s.pool.value, Pool.Finish(w, ok))
    case Settle => s.stage.Measuring? && s.pool.Some? && (Pool.Returned(s.pool.value) || SomeFailed(s.pool.value.workers))
    case TearDown(ok) => s.stage.Ending? && (ok || c.teardown)
  }

  /** Warm-up goes on, or measuring begins. */
  function Warmed(c: Case, s: State, done: nat): State
    requires ValidCase(c)
  {
    if done < c.warmups then s.(stage := Warming(done))
    else s.(stage := Measuring, pool := Some(Pool.Init(Measured(c.iterations), c.concurrency)))
  }

  function Iteration(o: Settings, s: State, w: nat, ok: bool, elapsed: real): State
    requires s.pool.Some? && Pool.Enabled(s.pool.value, Pool.Finish(w, ok))
  {
    var i := s.pool.value.workers[w].index;
    var result := OneIteration(o, i, false, ok, elapsed);
    State(s.stage,
          Some(Pool.Next(s.pool.value, Pool.Finish(w, result.Some?))),
          if result.Some? then s.byIndex[i := result.value] else s.byIndex,
          s.trace + [Iterated(i, ok)])
  }

  function Next(o: Settings, c: Case, s: State, e: Event): State
    requires ValidCase(c) && Enabled(c, s, e)
  {
    match e
    case SetUp(ok) => if ok then Warmed(c, s, 0) else s.(stage := Ending(Threw))
    case WarmUp(ok) =>
      var i := s.stage.next;
      var logged := s.(trace := s.trace + [WarmedUp(i, ok)]);
      if OneIteration(o, i, true, ok, 0.0).Some? then Warmed(c, logged, i + 1) else logged.(stage := Ending(Threw))
    case Take(w) => s.(pool := Some(Pool.Next(s.pool.value, Pool.Resume(w))))
    case Iterate(w, ok, elapsed) => Iteration(o, s, w, ok, elapsed)
    case Settle =>
      s.(stage := Ending(if SomeFailed(s.pool.value.workers) then Threw else Results(Collect(s.byIndex, c.iterations))))
    case TearDown(ok) =>
      s.(stage := Ended(if ok then s.stage.outcome else Threw), trace := s.trace + (if c.teardown then [TornDown] else []))
  }

  function Exec(o: Settings, c: Case, s: State, run: seq<Event>): (r: Option<State>)
    requires ValidCase(c)
    decreases |run|
  {
    if run == [] then Some(s)
    else
      match Exec(o, c, s, run[..|run| - 1])
      case None => None
      case Some(m) => if Enabled(c, m, run[|run| - 1]) then Some(Next(o, c, m, run[|run| - 1])) else None
  }

  // ---------------------------------------------------------------- the class

  /** One call of `runCase`; its local variables are the fields. */
  class CaseRun {
    const settings: Settings
    const testCase: Case
    var stage: Stage
    var pool: Pool.Pool?<nat>
    var byIndex: map<nat, IterationResult>
    ghost var trace: seq<Entry>

    ghost function Footprint(): set<object>
      reads this
    {
      if pool == null then {this} else {this, pool}
    }

    ghost predicate Valid()
      reads Footprint()
    {
      && ValidCase(testCase)
      && (pool != null ==> pool.Valid())
      && (stage.SettingUp? || stage.Warming? ==> pool == null)
    }

    ghost function View(): State
      requires Valid()
      reads Footprint()
    {
      State(stage, if pool == null then None else Some(pool.View()), byIndex, trace)
    }

    constructor (o: Settings, c: Case)
      requires ValidCase(c)
      ensures settings == o && testCase == c && Valid() && View() == INIT
    {
      settings, testCase := o, c;
      stage, pool, byIndex, trace := SettingUp, null, map[], [];
    }

    method Proceed(done: nat)
      requires Valid() && pool == null
      modifies this
      ensures Valid() && View() == Warmed(testCase, old(View()), done)
      ensures pool != null ==> fresh(pool)
    {
      hide Pool.Init, Measured, Pool.Seek;
      if done < testCase.warmups {
        stage := Warming(done);
      } else {
        pool := new Pool.Pool(Measured(testCase.iterations), testCase.concurrency);
        stage := Measuring;
      }
    }

    method SetUp(ok: bool)
      requires Valid() && Enabled(testCase, View(), Event.SetUp(ok))
      modifies this
      ensures Valid() && View() == Next(settings, testCase, old(View()), Event.SetUp(ok))
    {
      if ok {
        Proceed(0);
      } else {
        stage := Ending(Threw);
      }
    }

    method WarmUp(ok: bool)
      requires Valid() && Enabled(testCase, View(), Event.WarmUp(ok))
      modifies this
      ensures Valid() && View() == Next(settings, testCase, old(View()), Event.WarmUp(ok))
    {
      var i := stage.next;
      trace := trace + [WarmedUp(i, ok)];
      if OneIteration(settings, i, true, ok, 0.0).Some? {
        Proceed(i + 1);
      } else {
        stage := Ending(Threw);
      }
    }

    method Take(w: nat) returns (iteration: Option<nat>)
      requires Valid() && Enabled(testCase, View(), Event.Take(w))
      modifies pool
      ensures Valid() && View() == Next(settings, testCase, old(View()), Event.Take(w))
    {
      iteration := pool.Take(w);
    }

    method Iterate(w: nat, ok: bool, elapsed: real)
      requires Valid() && Enabled(testCase, View(), Event.Iterate(w, ok, elapsed))
      modifies Footprint()
      ensures Valid() && View() == Next(settings, testCase, old(View()), Event.Iterate(w, ok, elapsed))
    {
      var iteration := pool.workers[w].index;
      var result := OneIteration(settings, iteration, false, ok, elapsed);
      if result.Some? {
        byIndex := byIndex[iteration := result.value];
      }
      trace := trace + [Iterated(iteration, ok)];
      pool.Complete(w, result.Some?);
    }

    method Settle()
      requires Valid() && Enabled(testCase, View(), Event.Settle)
      modifies this
      ensures Valid() && View() == Next(settings, testCase, old(View()), Event.Settle)
    {
      if SomeFailed(pool.workers) {
        stage := Ending(Threw);
        return;
      }
      var iterations: seq<IterationResult> := [];
      for index := 0 to testCase.iterations
        invariant iterations == Collect(byIndex, index)
      {
        if index in byIndex {
          iterations := iterations + [byIndex[index]];
        }
      }
      stage := Ending(Results(iterations));
    }

    method TearDown(ok: bool)
      requires Valid() && Enabled(testCase, View(), Event.TearDown(ok))
      modifies this
      ensures Valid() && View() == Next(settings, testCase, old(View()), Event.TearDown(ok))
    {
      if testCase.teardown {
        trace := trace + [TornDown];
      }
      stage := Ended(if ok then stage.outcome else Threw);
    }
  }

  // ------------------------------------------------------------ the invariant

  function WarmTrace(n: nat): seq<Entry> {
    seq(n, (i: nat) => WarmedUp(i, true))
  }

  /** The entries of the iterations done, in the order in which they were. */
  function DoneTrace(done: seq<nat>, byIndex: map<nat, IterationResult>): seq<Entry>
    requires forall i :: i in done ==> i in byIndex
  {
    seq(|done|, k requires 0 <= k < |done| => Iterated(done[k], byIndex[done[k]].ok))
  }

  function TearDownTrace(c: Case, stage: Stage): seq<Entry> {
    if stage.Ended? && c.teardown then [TornDown] else []
  }

  ghost predicate PoolInv(c: Case, s: State, p: Pool.State<nat>)
    requires ValidCase(c)
  {
    && Pool.Inv(p) && p.items == Measured(c.iterations)
    && |p.workers| == Pool.WorkerCount(c.concurrency, c.iterations)
    && (forall i :: i in s.byIndex <==> i in p.done)
    && (forall i :: i in s.byIndex ==> s.byIndex[i].iteration == i)
    && (!SomeFailed(p.workers) ==> s.trace == WarmTrace(c.warmups) + DoneTrace(p.done, s.byIndex) + TearDownTrace(c, s.stage))
  }

  ghost predicate StageInv(c: Case, s: State)
    requires ValidCase(c)
  {
    match s.stage
    case SettingUp => s.pool == None && s.trace == []
    case Warming(i) => s.pool == None && i < c.warmups && s.trace == WarmTrace(i)
    case Measuring => s.pool.Some?
    case Ending(outcome) => OutcomeInv(c, s, outcome)
    case Ended(outcome) => OutcomeInv(c, s, outcome)
  }

  ghost predicate OutcomeInv(c: Case, s: State, outcome: Outcome)
    requires ValidCase(c)
  {
    && (s.pool.Some? ==> Pool.Returned(s.pool.value) || SomeFailed(s.pool.value.workers))
    && (outcome.Results? ==>
          s.pool.Some? && Pool.Returned(s.pool.value) && outcome.results == Collect(s.byIndex, c.iterations))
  }

  ghost predicate Inv(c: Case, s: State)
    requires ValidCase(c)
  {
    && StageInv(c, s)
    && (match s.pool
        case None => s.byIndex == map[]
        case Some(p) => PoolInv(c, s, p))
  }

  /** An iteration that completes is new: it is not among those done. */
  lemma BusyNotDone(p: Pool.State<nat>, w: nat)
    requires Pool.Inv(p) && w < |p.workers| && (p.workers[w].Busy? || p.workers[w].Failed?)
    ensures p.workers[w].index !in p.done
  {
    hide Pool.Items, Pool.Held;
    var i := p.workers[w].index;
    Pool.ItemsIncrease(p.items, p.next);
    Pool.IncreasingOnce(p.started, i);
    Pool.HeldUpdate(p.workers, w, Pool.Ready);
    var others := multiset(Pool.Held(p.workers[w := Pool.Ready]));
    assert (others + multiset([i]))[i] == (multiset(Pool.Held(p.workers)) + multiset([]))[i];
    assert multiset(p.started)[i] == multiset(p.done)[i] + multiset(Pool.Held(p.workers))[i];
  }

  lemma InvIterate(o: Settings, c: Case, s: State, w: nat, ok: bool, elapsed: real)
    requires ValidCase(c) && Inv(c, s) && Enabled(c, s, Iterate(w, ok, elapsed))
    ensures Inv(c, Next(o, c, s, Iterate(w, ok, elapsed)))
  {
    hide Pool.Inv, Collect;
    var s' := Next(o, c, s, Iterate(w, ok, elapsed));
    var p, p' := s.pool.value, s'.pool.value;
    var i := p.workers[w].index;
    Pool.InvNext(p, Pool.Finish(w, OneIteration(o, i, false, ok, elapsed).Some?));
    BusyNotDone(p, w);
    assert !Pool.Returned(p);
    if OneIteration(o, i, false, ok, elapsed).Some? {
      assert SomeFailed(p.workers) ==> SomeFailed(p'.workers) by {
        if SomeFailed(p.workers) {
          var v :| 0 <= v < |p.workers| && p.workers[v].Failed?;
          assert p'.workers[v].Failed?;
        }
      }
      if !SomeFailed(p'.workers) {
        TraceStep(c, s, s', i);
      }
    } else {
      assert p'.workers[w].Failed?;
    }
  }

  lemma TraceStep(c: Case, s: State, s': State, i: nat)
    requires ValidCase(c) && s.pool.Some? && s'.pool.Some? && PoolInv(c, s, s.pool.value) && !SomeFailed(s.pool.value.workers)
    requires i !in s.byIndex && i in s'.byIndex && s'.byIndex == s.byIndex[i := s'.byIndex[i]]
    requires s'.pool.value.done == s.pool.value.done + [i] && s'.stage == s.stage
    requires s'.trace == s.trace + [Iterated(i, s'.byIndex[i].ok)]
    requires TearDownTrace(c, s.stage) == []
    ensures s'.trace == WarmTrace(c.warmups) + DoneTrace(s'.pool.value.done, s'.byIndex) + TearDownTrace(c, s'.stage)
  {
    assert DoneTrace(s'.pool.value.done, s'.byIndex)
        == DoneTrace(s.pool.value.done, s.byIndex) + [Iterated(i, s'.byIndex[i].ok)];
  }

  lemma InvWarmed(c: Case, s: State, done: nat)
    requires ValidCase(c) && s.pool == None && s.byIndex == map[] && done <= c.warmups && s.trace == WarmTrace(done)
    ensures Inv(c, Warmed(c, s, done))
  {
    hide Pool.Inv;
    if done == c.warmups {
      var s' := Warmed(c, s, done);
      Pool.InvInit(Measured(c.iterations), c.concurrency);
      assert s'.trace == WarmTrace(c.warmups) + [] + [];
      assert DoneTrace([], s'.byIndex) == [];
    }
  }

  lemma InvTake(o: Settings, c: Case, s: State, w: nat)
    requires ValidCase(c) && Inv(c, s) && Enabled(c, s, Take(w))
    ensures Inv(c, Next(o, c, s, Take(w)))
  {
    hide Pool.Inv, Collect, WarmTrace, DoneTrace;
    var p := s.pool.value;
    var p' := Next(o, c, s, Take(w)).pool.value;
    Pool.InvNext(p, Pool.Resume(w));
    assert !Pool.Returned(p);
    SameFailures(p.workers, w, p'.workers[w]);
  }

  lemma SameFailures(workers: seq<Pool.Phase>, w: nat, p: Pool.Phase)
    requires w < |workers| && !workers[w].Failed? && !p.Failed?
    ensures SomeFailed(workers[w := p]) <==> SomeFailed(workers)
  {
    if SomeFailed(workers) {
      var v :| 0 <= v < |workers| && workers[v].Failed?;
      assert workers[w := p][v].Failed?;
    }
  }

  lemma InvNext(o: Settings, c: Case, s: State, e: Event)
    requires ValidCase(c) && Inv(c, s) && Enabled(c, s, e)
    ensures Inv(c, Next(o, c, s, e))
  {
    hide Pool.Inv, Collect;
    match e
    case SetUp(ok) =>
      if ok { InvWarmed(c, s, 0); }
    case WarmUp(ok) =>
      if ok { InvWarmed(c, s.(trace := s.trace + [WarmedUp(s.stage.next, ok)]), s.stage.next + 1); }
    case Take(w) => InvTake(o, c, s, w);
    case Iterate(w, ok, elapsed) => InvIterate(o, c, s, w, ok, elapsed);
    case Settle => InvSettle(o, c, s);
    case TearDown(ok) => InvTearDown(o, c, s, ok);
  }

  lemma InvSettle(o: Settings, c: Case, s: State)
    requires ValidCase(c) && Inv(c, s) && Enabled(c, s, Settle)
    ensures Inv(c, Next(o, c, s, Settle))
  {
    hide Pool.Inv, Collect, WarmTrace;
  }

  lemma InvTearDown(o: Settings, c: Case, s: State, ok: bool)
    requires ValidCase(c) && Inv(c, s) && Enabled(c, s, TearDown(ok))
    ensures Inv(c, Next(o, c, s, TearDown(ok)))
  {
    hide Pool.Inv, Collect, WarmTrace;
  }

  lemma InvInit(c: Case)
    requires ValidCase(c)
    ensures Inv(c, INIT)
  {
  }

  lemma {:induction false} InvReachable(o: Settings, c: Case, run: seq<Event>)
    requires ValidCase(c) && Exec(o, c, INIT, run).Some?
    ensures Inv(c, Exec(o, c, INIT, run).value)
  {
    hide Inv, Next, Enabled;
    if run == [] {
      InvInit(c);
    } else {
      var n := |run| - 1;
      InvReachable(o, c, run[..n]);
      InvNext(o, c, Exec(o, c, INIT, run[..n]).value, run[n]);
    }
  }

  // -------------------------------------------------------------- guarantees

  lemma {:induction false} CollectAll(byIndex: map<nat, IterationResult>, n: nat)
    requires forall i: nat :: i < n ==> i in byIndex
    ensures |Collect(byIndex, n)| == n
    ensures forall i: nat :: i < n ==> Collect(byIndex, n)[i] == byIndex[i]
  {
    if n > 0 { CollectAll(byIndex, n - 1); }
  }

  function Upto(n: nat): seq<nat> {
    seq(n, i => i)
  }

  lemma UptoHolds(n: nat)
    ensures forall i :: i in Upto(n) <==> 0 <= i < n
  {
    var all := Upto(n);
    forall i | 0 <= i < n
      ensures i in all
    {
      assert all[i] == i;
    }
  }

  lemma {:induction false} AllMeasured(n: nat, k: nat)
    requires k <= n
    ensures Pool.Items(Measured(n), k) == Upto(k)
  {
    if k > 0 { AllMeasured(n, k - 1); }
  }

  /** What the trace of a call that returned looks like, in the order the iterations ended in. */
  function FullTrace(c: Case, order: seq<nat>, results: seq<IterationResult>): seq<Entry>
    requires forall k :: 0 <= k < |order| ==> order[k] < |results|
  {
    WarmTrace(if c.warmups >= 0 then c.warmups else 0)
    + seq(|order|, k requires 0 <= k < |order| => Iterated(order[k], results[order[k]].ok))
    + (if c.teardown then [TornDown] else [])
  }

  /**
   Whatever the interleaving, a call that returns has run the warm-ups in order,
   then every measured iteration exactly once, then the teardown, and it returns
   the result of iteration `i` at position `i`.
   */
  lemma ReturnsEveryIteration(o: Settings, c: Case, run: seq<Event>) returns (order: seq<nat>)
    requires ValidCase(c) && Exec(o, c, INIT, run).Some?
    requires var stage := Exec(o, c, INIT, run).value.stage; stage.Ended? && stage.outcome.Results?
    ensures var s := Exec(o, c, INIT, run).value;
            var results := s.stage.outcome.results;
            && |results| == c.iterations
            && (forall i :: 0 <= i < c.iterations ==> results[i].iteration == i)
            && multiset(order) == multiset(Upto(c.iterations))
            && (forall i :: i in order <==> 0 <= i < c.iterations)
            && (forall k :: 0 <= k < |order| ==> order[k] < |results|)
            && s.trace == FullTrace(c, order, results)
  {
    hide Exec;
    InvReachable(o, c, run);
    var s := Exec(o, c, INIT, run).value;
    order := ReturnedTrace(c, s);
  }

  lemma ReturnedTrace(c: Case, s: State) returns (order: seq<nat>)
    requires ValidCase(c) && Inv(c, s) && s.stage.Ended? && s.stage.outcome.Results?
    ensures var results := s.stage.outcome.results;
            && |results| == c.iterations
            && (forall i :: 0 <= i < c.iterations ==> results[i].iteration == i)
            && multiset(order) == multiset(Upto(c.iterations))
            && (forall i :: i in order <==> 0 <= i < c.iterations)
            && (forall k :: 0 <= k < |order| ==> order[k] < |results|)
            && s.trace == FullTrace(c, order, results)
  {
    hide Collect, WarmTrace, Pool.Inv, Upto;
    var p := s.pool.value;
    order := p.done;
    DoneIsAll(c, p);
    CollectAll(s.byIndex, c.iterations);
    assert !SomeFailed(p.workers);
    assert forall k :: 0 <= k < |order| ==> order[k] in order;
    var results := s.stage.outcome.results;
    assert DoneTrace(order, s.byIndex)
        == seq(|order|, k requires 0 <= k < |order| => Iterated(order[k], results[order[k]].ok));
  }

  lemma DoneIsAll(c: Case, p: Pool.State<nat>)
    requires ValidCase(c) && Pool.Inv(p) && p.items == Measured(c.iterations)
    requires |p.workers| == Pool.WorkerCount(c.concurrency, c.iterations) && Pool.Returned(p)
    ensures multiset(p.done) == multiset(Upto(c.iterations))
    ensures forall i :: i in p.done <==> 0 <= i < c.iterations
  {
    hide Pool.Items, Pool.Held, Upto;
    AllMeasured(c.iterations, c.iterations);
    Pool.AllExitedHoldNothing(p.workers);
    assert p.workers[0].Exited?;
    assert p.next == |p.items| == c.iterations;
    var none: seq<nat> := [];
    assert Pool.Held(p.workers) == none;
    assert multiset(p.done) + multiset(none) == multiset(p.done);
    UptoHolds(c.iterations);
    SameElements(p.done, Upto(c.iterations));
  }

  lemma SameElements(a: seq<nat>, b: seq<nat>)
    requires multiset(a) == multiset(b)
    ensures forall i: nat :: i in a <==> i in b
  {
    forall i: nat
      ensures i in a <==> i in b
    {
      assert i in a <==> i in multiset(a);
      assert i in b <==> i in multiset(b);
    }
  }

  // ------------------------------------------------------ told by the events

  function WarmUpsIn(run: seq<Event>): nat {
    if run == [] then 0 else WarmUpsIn(run[..|run| - 1]) + (if run[|run| - 1].WarmUp? then 1 else 0)
  }

  /** What the events of a run have to enter: warm-ups by their number, iterations by the worker that ends them, and a teardown of a case that has one. */
  function Entries(o: Settings, c: Case, run: seq<Event>): seq<Entry>
    requires ValidCase(c)
  {
    if run == [] then []
    else
      var n := |run| - 1;
      Entries(o, c, run[..n]) +
      match run[n]
      case WarmUp(ok) => [WarmedUp(WarmUpsIn(run[..n]), ok)]
      case Iterate(w, ok, _) => (match HeldIn(o, c, run[..n], w) case Some(i) => [Iterated(i, ok)] case None => [])
      case TearDown(_) => if c.teardown then [TornDown] else []
      case _ => []
  }

  /** The iteration that the worker is busy with after the run. */
  function HeldIn(o: Settings, c: Case, run: seq<Event>, w: nat): Option<nat>
    requires ValidCase(c)
  {
    match Exec(o, c, INIT, run)
    case None => None
    case Some(s) =>
      if s.pool.Some? && w < |s.pool.value.workers| && s.pool.value.workers[w].Busy? then Some(s.pool.value.workers[w].index) else None
  }

  /** The trace holds what the events of the run entered, in their order. */
  lemma {:induction false} TraceAsMade(o: Settings, c: Case, run: seq<Event>)
    requires ValidCase(c) && Exec(o, c, INIT, run).Some?
    ensures var s := Exec(o, c, INIT, run).value;
            && s.trace == Entries(o, c, run)
            && (s.stage.SettingUp? ==> WarmUpsIn(run) == 0)
            && (s.stage.Warming? ==> s.stage.next == WarmUpsIn(run))
  {
    hide OneIteration, Collect, SomeFailed, Pool.Next, Pool.Init, Measured;
    if run != [] { TraceAsMade(o, c, run[..|run| - 1]); }
  }

  /** At this place of the run a worker that held iteration `i` ended it. */
  ghost predicate Ends(o: Settings, c: Case, run: seq<Event>, j: nat, i: nat)
    requires ValidCase(c)
  {
    && j < |run| && run[j].Iterate? && Exec(o, c, INIT, run[..j]).Some?
    && var pool := Exec(o, c, INIT, run[..j]).value.pool;
       pool.Some? && run[j].w < |pool.value.workers| && pool.value.workers[run[j].w] == Pool.Busy(i)
  }

  /** The result tells what the event says, a negative time counting as none. */
  predicate Tells(r: IterationResult, e: Event)
    requires e.Iterate?
  {
    r.ok == e.ok && r.durationMs == if e.elapsed < 0.0 then 0.0 else e.elapsed
  }

  /** The result is told by the event at this place, which ended the iteration. */
  ghost predicate ToldBy(o: Settings, c: Case, run: seq<Event>, j: nat, i: nat, r: IterationResult)
    requires ValidCase(c)
  {
    Ends(o, c, run, j, i) && Tells(r, run[j])
  }

  /** Every result that is stored is of an event of the run that ended this iteration. */
  ghost predicate AllTold(o: Settings, c: Case, run: seq<Event>, byIndex: map<nat, IterationResult>)
    requires ValidCase(c)
  {
    forall i :: i in byIndex ==> exists j: nat :: ToldBy(o, c, run, j, i, byIndex[i])
  }

  lemma EndsLater(o: Settings, c: Case, run: seq<Event>, e: Event, j: nat, i: nat, r: IterationResult)
    requires ValidCase(c) && ToldBy(o, c, run, j, i, r)
    ensures ToldBy(o, c, run + [e], j, i, r)
  {
    hide Exec;
    assert (run + [e])[..j] == run[..j];
  }

  lemma ByIndexNext(o: Settings, c: Case, s: State, e: Event)
    requires ValidCase(c) && Enabled(c, s, e)
    ensures var next := Next(o, c, s, e).byIndex;
            if e.Iterate? then
              var i := s.pool.value.workers[e.w].index;
              forall k :: k in next ==> (k in s.byIndex && next[k] == s.byIndex[k]) || (k == i && Tells(next[k], e))
            else next == s.byIndex
  {
    hide Collect;
  }

  lemma {:induction false} ResultsTell(o: Settings, c: Case, run: seq<Event>)
    requires ValidCase(c) && Exec(o, c, INIT, run).Some?
    ensures AllTold(o, c, run, Exec(o, c, INIT, run).value.byIndex)
  {
    hide Next, Enabled, ToldBy, Tells;
    if run != [] {
      var n := |run| - 1;
      var m := Exec(o, c, INIT, run[..n]).value;
      ResultsTell(o, c, run[..n]);
      ByIndexNext(o, c, m, run[n]);
      var byIndex := Next(o, c, m, run[n]).byIndex;
      assert run == run[..n] + [run[n]];
      forall i | i in byIndex
        ensures exists j: nat :: ToldBy(o, c, run, j, i, byIndex[i])
      {
        if i in m.byIndex && byIndex[i] == m.byIndex[i] {
          var j: nat :| ToldBy(o, c, run[..n], j, i, m.byIndex[i]);
          EndsLater(o, c, run[..n], run[n], j, i, byIndex[i]);
        } else {
          EndsNow(o, c, run, i, byIndex[i]);
        }
      }
    }
  }

  lemma EndsNow(o: Settings, c: Case, run: seq<Event>, i: nat, r: IterationResult)
    requires ValidCase(c) && run != [] && Exec(o, c, INIT, run).Some? && run[|run| - 1].Iterate? && Tells(r, run[|run| - 1])
    requires var m := Exec(o, c, INIT, run[..|run| - 1]).value;
             Enabled(c, m, run[|run| - 1]) && m.pool.value.workers[run[|run| - 1].w].index == i
    ensures ToldBy(o, c, run, |run| - 1, i, r)
  {
    hide Tells, Next;
  }

  /** An iteration that ended is not ended again: what its event told stays. */
  lemma {:induction false} ToldOnce(o: Settings, c: Case, run: seq<Event>, j: nat, i: nat)
    requires ValidCase(c) && Exec(o, c, INIT, run).Some? && Ends(o, c, run, j, i)
    requires var s := Exec(o, c, INIT, run).value; s.pool.Some? ==> !SomeFailed(s.pool.value.workers)
    ensures var s := Exec(o, c, INIT, run).value;
            s.pool.Some? && i in s.byIndex && ToldBy(o, c, run, j, i, s.byIndex[i])
  {
    hide Next, Enabled, Tells, Inv, SomeFailed;
    var n := |run| - 1;
    var m := Exec(o, c, INIT, run[..n]).value;
    InvReachable(o, c, run[..n]);
    NotFailedBefore(o, c, m, run[n]);
    if j == n {
      EndedNow(o, c, m, run[n]);
    } else {
      assert run[..n][..j] == run[..j];
      assert Ends(o, c, run[..n], j, i);
      ToldOnce(o, c, run[..n], j, i);
      ByIndexKept(o, c, m, run[n], i);
    }
  }

  lemma NotFailedBefore(o: Settings, c: Case, s: State, e: Event)
    requires ValidCase(c) && Inv(c, s) && Enabled(c, s, e)
    requires var s' := Next(o, c, s, e); s'.pool.Some? ==> !SomeFailed(s'.pool.value.workers)
    ensures s.pool.Some? ==> !SomeFailed(s.pool.value.workers)
  {
    hide Collect, Pool.Inv, WarmTrace, DoneTrace;
    if s.pool.Some? && (e.Take? || e.Iterate?) {
      var p, p' := s.pool.value, Next(o, c, s, e).pool.value;
      FailuresStay(p.workers, e.w, p'.workers[e.w]);
    }
  }

  lemma EndedNow(o: Settings, c: Case, s: State, e: Event)
    requires ValidCase(c) && Enabled(c, s, e) && e.Iterate?
    requires var s' := Next(o, c, s, e); s'.pool.Some? ==> !SomeFailed(s'.pool.value.workers)
    ensures var i, s' := s.pool.value.workers[e.w].index, Next(o, c, s, e);
            s'.pool.Some? && i in s'.byIndex && Tells(s'.byIndex[i], e)
  {
    var p, p' := s.pool.value, Next(o, c, s, e).pool.value;
    FailuresStay(p.workers, e.w, p'.workers[e.w]);
  }

  lemma BusyNotStored(c: Case, s: State, w: nat)
    requires ValidCase(c) && Inv(c, s) && s.pool.Some? && w < |s.pool.value.workers| && s.pool.value.workers[w].Busy?
    ensures s.pool.value.workers[w].index !in s.byIndex
  {
    hide Pool.Inv, Collect, WarmTrace, DoneTrace;
    BusyNotDone(s.pool.value, w);
  }

  lemma ByIndexKept(o: Settings, c: Case, s: State, e: Event, i: nat)
    requires ValidCase(c) && Inv(c, s) && Enabled(c, s, e) && s.pool.Some? && i in s.byIndex
    ensures var s' := Next(o, c, s, e); s'.pool.Some? && i in s'.byIndex && s'.byIndex[i] == s.byIndex[i]
  {
    hide Collect, Pool.Inv, WarmTrace, DoneTrace;
    if e.Iterate? { BusyNotStored(c, s, e.w); }
  }

  /**
   In a call that returns, the result of an iteration has the outcome and the time
   of the one event of the run that ended it.
   */
  lemma ResultsAreTold(o: Settings, c: Case, run: seq<Event>, i: nat)
    requires ValidCase(c) && Exec(o, c, INIT, run).Some? && i < c.iterations
    requires var stage := Exec(o, c, INIT, run).value.stage; stage.Ended? && stage.outcome.Results?
    ensures var results := Exec(o, c, INIT, run).value.stage.outcome.results;
            && i < |results| && results[i].iteration == i
            && (exists j: nat :: Ends(o, c, run, j, i))
            && (forall j: nat :: Ends(o, c, run, j, i) ==> ToldBy(o, c, run, j, i, results[i]))
  {
    hide Exec, Ends, Tells, Inv, SomeFailed;
    InvReachable(o, c, run);
    ResultsTell(o, c, run);
    var s := Exec(o, c, INIT, run).value;
    ResultsStored(c, s, i);
    forall j: nat | Ends(o, c, run, j, i)
      ensures ToldBy(o, c, run, j, i, s.byIndex[i])
    {
      ToldOnce(o, c, run, j, i);
    }
    var j: nat :| ToldBy(o, c, run, j, i, s.byIndex[i]);
  }

  lemma ResultsStored(c: Case, s: State, i: nat)
    requires ValidCase(c) && Inv(c, s) && s.stage.Ended? && s.stage.outcome.Results? && i < c.iterations
    ensures var results := s.stage.outcome.results;
            && i < |results| && i in s.byIndex && results[i] == s.byIndex[i] && results[i].iteration == i
            && s.pool.Some? && !SomeFailed(s.pool.value.workers)
  {
    hide Pool.Inv, WarmTrace, DoneTrace, Collect;
    DoneIsAll(c, s.pool.value);
    CollectAll(s.byIndex, c.iterations);
  }

  /** The events that make a call throw. */
  predicate Throws(o: Settings, e: Event) {
    match e
    case SetUp(ok) => !ok
    case WarmUp(ok) => !ok
    case TearDown(ok) => !ok
    case Iterate(_, ok, _) => !ok && (o.failFast || !o.captureErrors)
    case _ => false
  }

  ghost predicate Harmed(s: State) {
    || (s.stage.Ending? && s.stage.outcome.Threw?)
    || (s.stage.Ended? && s.stage.outcome.Threw?)
    || (s.pool.Some? && SomeFailed(s.pool.value.workers))
  }

  lemma HarmStep(o: Settings, c: Case, s: State, e: Event)
    requires ValidCase(c) && Inv(c, s) && Enabled(c, s, e)
    ensures Harmed(Next(o, c, s, e)) <==> Harmed(s) || Throws(o, e)
  {
    hide Collect, Pool.Inv, WarmTrace, DoneTrace;
    if s.pool.Some? && (e.Take? || e.Iterate?) {
      var p, p' := s.pool.value, Next(o, c, s, e).pool.value;
      FailuresStay(p.workers, e.w, p'.workers[e.w]);
    }
  }

  lemma FailuresStay(workers: seq<Pool.Phase>, w: nat, p: Pool.Phase)
    requires w < |workers| && !workers[w].Failed?
    ensures SomeFailed(workers[w := p]) <==> SomeFailed(workers) || p.Failed?
  {
    if SomeFailed(workers) {
      var v :| 0 <= v < |workers| && workers[v].Failed?;
      assert workers[w := p][v].Failed?;
    }
    if p.Failed? { assert workers[w := p][w].Failed?; }
  }

  ghost predicate SomeThrew(o: Settings, run: seq<Event>) {
    exists e :: e in run && Throws(o, e)
  }

  lemma {:induction false} HarmedIff(o: Settings, c: Case, run: seq<Event>)
    requires ValidCase(c) && Exec(o, c, INIT, run).Some?
    ensures Harmed(Exec(o, c, INIT, run).value) <==> SomeThrew(o, run)
  {
    hide Harmed, Next, Throws, Enabled, Inv;
    if run == [] {
      assert !Harmed(INIT) by { InitUnharmed(); }
    } else {
      var n := |run| - 1;
      HarmedIff(o, c, run[..n]);
      InvReachable(o, c, run[..n]);
      HarmStep(o, c, Exec(o, c, INIT, run[..n]).value, run[n]);
      assert run == run[..n] + [run[n]];
    }
  }

  /**
   A call that has ended has thrown exactly when its set-up, a warm-up or its
   teardown threw, or an iteration whose error is not captured, be it one that
   threw only after the call had ended.
   */
  lemma ThrowsExactlyWhenCalled(o: Settings, c: Case, run: seq<Event>)
    requires ValidCase(c) && Exec(o, c, INIT, run).Some? && Exec(o, c, INIT, run).value.stage.Ended?
    ensures Exec(o, c, INIT, run).value.stage.outcome.Threw? <==> SomeThrew(o, run)
  {
    hide Exec, SomeThrew, Pool.Inv;
    HarmedIff(o, c, run);
    InvReachable(o, c, run);
  }

  lemma InitUnharmed()
    ensures !Harmed(INIT)
  {
  }

  function TearDowns(c: Case, stage: Stage): nat {
    if stage.Ended? && c.teardown then 1 else 0
  }

  /** Teardown runs once, after everything else unless an iteration threw. */
  lemma {:induction false} TearDownOnce(o: Settings, c: Case, run: seq<Event>)
    requires ValidCase(c) && Exec(o, c, INIT, run).Some?
    ensures var s := Exec(o, c, INIT, run).value; multiset(s.trace)[TornDown] == TearDowns(c, s.stage)
  {
    hide Next, Enabled, TearDowns;
    if run == [] {
      assert TearDowns(c, SettingUp) == 0 by { NoneYet(c); }
    } else {
      var n := |run| - 1;
      TearDownOnce(o, c, run[..n]);
      TearDownStep(o, c, Exec(o, c, INIT, run[..n]).value, run[n]);
    }
  }

  lemma NoneYet(c: Case)
    ensures TearDowns(c, SettingUp) == 0
  {
  }

  lemma TearDownStep(o: Settings, c: Case, s: State, e: Event)
    requires ValidCase(c) && Enabled(c, s, e) && multiset(s.trace)[TornDown] == TearDowns(c, s.stage)
    ensures multiset(Next(o, c, s, e).trace)[TornDown] == TearDowns(c, Next(o, c, s, e).stage)
  {
    hide Collect;
  }

  /** No iteration ends after the teardown. */
  predicate TearDownEnds(trace: seq<Entry>) {
    forall i :: 0 <= i < |trace| && trace[i] == TornDown ==> i == |trace| - 1
  }

  /** No worker can go on. */
  predicate AtRest(s: State) {
    s.pool.Some? ==> Pool.Stuck(s.pool.value)
  }

  /** There is nothing to tear down, nothing that throws, or never more than one iteration at a time. */
  predicate TearDownWaits(o: Settings, c: Case) {
    !c.teardown || (!o.failFast && o.captureErrors) || c.concurrency <= 1 || c.iterations <= 1
  }

  ghost predicate TornDownLast(s: State) {
    if s.stage.Ended? then s.trace != [] && s.trace[|s.trace| - 1] == TornDown && TornDown !in s.trace[..|s.trace| - 1] && AtRest(s)
    else TornDown !in s.trace
  }

  lemma {:induction false} NothingFails(o: Settings, c: Case, run: seq<Event>)
    requires ValidCase(c) && Exec(o, c, INIT, run).Some? && !o.failFast && o.captureErrors
    ensures var s := Exec(o, c, INIT, run).value; s.pool.Some? ==> !SomeFailed(s.pool.value.workers)
  {
    hide Enabled;
    if run != [] {
      var n := |run| - 1;
      NothingFails(o, c, run[..n]);
      NothingFailsStep(o, c, Exec(o, c, INIT, run[..n]).value, run[n]);
    }
  }

  lemma NothingFailsStep(o: Settings, c: Case, s: State, e: Event)
    requires ValidCase(c) && Enabled(c, s, e) && !o.failFast && o.captureErrors
    requires s.pool.Some? ==> !SomeFailed(s.pool.value.workers)
    ensures var s' := Next(o, c, s, e); s'.pool.Some? ==> !SomeFailed(s'.pool.value.workers)
  {
    hide Collect;
  }

  /** Once the outcome is known no worker can go on, unless one has failed and left others behind. */
  lemma RestAtTheEnd(o: Settings, c: Case, s: State)
    requires ValidCase(c) && Inv(c, s) && (s.stage.Ending? || s.stage.Ended?)
    requires s.pool.Some? && (c.concurrency > 1 && c.iterations > 1) ==> !SomeFailed(s.pool.value.workers)
    ensures AtRest(s)
  {
    hide Pool.Inv, Collect, WarmTrace, DoneTrace;
    if s.pool.Some? && SomeFailed(s.pool.value.workers) {
      var workers := s.pool.value.workers;
      assert |workers| <= 1;
    }
  }

  lemma TornDownLastStep(o: Settings, c: Case, s: State, e: Event)
    requires ValidCase(c) && Enabled(c, s, e) && c.teardown && TornDownLast(s)
    requires s.stage.Ending? ==> AtRest(s)
    ensures TornDownLast(Next(o, c, s, e))
  {
    hide Collect;
  }

  lemma {:induction false} TornDownLastKept(o: Settings, c: Case, run: seq<Event>)
    requires ValidCase(c) && Exec(o, c, INIT, run).Some? && c.teardown && TearDownWaits(o, c)
    ensures TornDownLast(Exec(o, c, INIT, run).value)
  {
    hide Next, Enabled, Inv, TornDownLast, AtRest;
    if run == [] {
      assert TornDownLast(INIT) by { NotTornDown(); }
    } else {
      var n := |run| - 1;
      var m := Exec(o, c, INIT, run[..n]).value;
      TornDownLastKept(o, c, run[..n]);
      InvReachable(o, c, run[..n]);
      if !o.failFast && o.captureErrors { NothingFails(o, c, run[..n]); }
      if m.stage.Ending? { RestAtTheEnd(o, c, m); }
      TornDownLastStep(o, c, m, run[n]);
    }
  }

  lemma NotTornDown()
    ensures TornDownLast(INIT)
  {
  }

  lemma LastEnds(s: State)
    requires TornDownLast(s)
    ensures TearDownEnds(s.trace)
  {
    forall i | 0 <= i < |s.trace| - 1
      ensures s.trace[i] == TornDown ==> TornDown in s.trace[..|s.trace| - 1]
    {
      assert s.trace[..|s.trace| - 1][i] == s.trace[i];
    }
  }

  // ---------------------------------------------------------------- progress

  lemma Progress(o: Settings, c: Case, run: seq<Event>) returns (e: Event)
    requires ValidCase(c) && Exec(o, c, INIT, run).Some? && !Exec(o, c, INIT, run).value.stage.Ended?
    ensures Enabled(c, Exec(o, c, INIT, run).value, e)
  {
    hide Exec;
    InvReachable(o, c, run);
    var s := Exec(o, c, INIT, run).value;
    match s.stage
    case SettingUp => e := SetUp(true);
    case Warming(_) => e := WarmUp(true);
    case Measuring => e := PoolProgress(c, s);
    case Ending(_) => e := TearDown(true);
  }

  lemma PoolProgress(c: Case, s: State) returns (e: Event)
    requires ValidCase(c) && Inv(c, s) && s.stage.Measuring?
    ensures Enabled(c, s, e)
  {
    var p := s.pool.value;
    if Pool.Stuck(p) {
      if !Pool.Returned(p) {
        var w :| 0 <= w < |p.workers| && !p.workers[w].Exited?;
        assert p.workers[w].Failed?;
      }
      e := Settle;
    } else {
      var w: nat :| w < |p.workers| && !p.workers[w].Exited? && !p.workers[w].Failed?;
      e := if p.workers[w].Ready? then Take(w) else Iterate(w, true, 0.0);
    }
  }

  function StepsLeft(c: Case, s: State): nat
    requires ValidCase(c)
  {
    (match s.stage
     case SettingUp => c.warmups + 3
     case Warming(i) => if i < c.warmups then c.warmups - i + 2 else 2
     case Measuring => 2
     case Ending(_) => 1
     case Ended(_) => 0)
    + (match s.pool
       case Some(p) => Pool.StepsLeft(p)
       case None => Pool.StepsLeft(Pool.Init(Measured(c.iterations), c.concurrency)))
  }

  lemma StepsLess(o: Settings, c: Case, s: State, e: Event)
    requires ValidCase(c) && Inv(c, s) && Enabled(c, s, e)
    ensures StepsLeft(c, Next(o, c, s, e)) < StepsLeft(c, s)
  {
    hide Pool.Inv, Collect, WarmTrace, DoneTrace, Pool.Init;
    if e.Take? || e.Iterate? {
      var p, p' := s.pool.value, Next(o, c, s, e).pool.value;
      Pool.WeightsUpdate(p.workers, e.w, p'.workers[e.w]);
    }
  }

  /** Every run is finite, so that with `Progress` every call ends. */
  lemma {:induction false} RunsAreFinite(o: Settings, c: Case, run: seq<Event>)
    requires ValidCase(c) && Exec(o, c, INIT, run).Some?
    ensures |run| + StepsLeft(c, Exec(o, c, INIT, run).value) <= StepsLeft(c, INIT)
  {
    hide Inv, Next, Enabled, StepsLeft;
    if run != [] {
      var n := |run| - 1;
      RunsAreFinite(o, c, run[..n]);
      InvReachable(o, c, run[..n]);
      StepsLess(o, c, Exec(o, c, INIT, run[..n]).value, run[n]);
    }
  }

  // ------------------------------------------------------------ after a throw

  lemma OneMore(o: Settings, c: Case, run: seq<Event>, s: State, e: Event, s': State)
    requires ValidCase(c) && Exec(o, c, INIT, run) == Some(s) && Enabled(c, s, e) && Next(o, c, s, e) == s'
    ensures Exec(o, c, INIT, run + [e]) == Some(s')
  {
    assert (run + [e])[..|run|] == run;
  }

  /** Set-up and the first warm-ups go well. */
  lemma {:induction false} WarmUps(o: Settings, c: Case, j: nat) returns (run: seq<Event>)
    requires ValidCase(c) && j <= c.warmups
    ensures Exec(o, c, INIT, run) == Some(Warmed(c, INIT.(trace := WarmTrace(j)), j))
  {
    hide Exec, Measured, Pool.Init;
    if j == 0 {
      assert Exec(o, c, INIT, []) == Some(INIT) by { NoEvents(o, c); }
      assert WarmTrace(0) == [];
      OneMore(o, c, [], INIT, SetUp(true), Warmed(c, INIT, 0));
      run := [] + [SetUp(true)];
    } else {
      var before := WarmUps(o, c, j - 1);
      var s := Warmed(c, INIT.(trace := WarmTrace(j - 1)), j - 1);
      assert WarmTrace(j) == WarmTrace(j - 1) + [WarmedUp(j - 1, true)];
      OneMore(o, c, before, s, WarmUp(true), Warmed(c, INIT.(trace := WarmTrace(j)), j));
      run := before + [WarmUp(true)];
    }
  }

  lemma NoEvents(o: Settings, c: Case)
    requires ValidCase(c)
    ensures Exec(o, c, INIT, []) == Some(INIT)
  {
  }

  /** Of `k` workers the first `j` have taken an iteration each. */
  function Taken(n: nat, k: nat, j: nat): Pool.State<nat>
    requires j <= k <= n
  {
    Pool.State(Measured(n), j, seq(k, (w: nat) => if w < j then Pool.Busy(w) else Pool.Ready), Upto(j), [])
  }

  lemma TakenNext(n: nat, k: nat, j: nat)
    requires j < k <= n
    ensures Pool.Enabled(Taken(n, k, j), Pool.Resume(j)) && Pool.Next(Taken(n, k, j), Pool.Resume(j)) == Taken(n, k, j + 1)
  {
    var p, p' := Taken(n, k, j), Taken(n, k, j + 1);
    assert Pool.Seek(p.items, j) == j;
    assert p.workers[j := Pool.Busy(j)] == p'.workers;
    assert p.started + [j] == p'.started;
  }

  lemma TakenNone(n: nat, k: nat, concurrency: int)
    requires k == Pool.WorkerCount(concurrency, n)
    ensures Pool.Init(Measured(n), concurrency) == Taken(n, k, 0)
  {
    assert Pool.Init(Measured(n), concurrency).workers == Taken(n, k, 0).workers;
    assert Upto(0) == [];
  }

  /** Then every worker takes its first iteration, as the source has them do at once. */
  lemma {:induction false} Takes(o: Settings, c: Case, j: nat) returns (run: seq<Event>)
    requires ValidCase(c) && j <= Pool.WorkerCount(c.concurrency, c.iterations)
    ensures Exec(o, c, INIT, run)
         == Some(State(Measuring, Some(Taken(c.iterations, Pool.WorkerCount(c.concurrency, c.iterations), j)), map[], WarmTrace(c.warmups)))
  {
    hide Exec, Measured, Pool.Init, Pool.Next, Taken, WarmTrace;
    var n, k := c.iterations, Pool.WorkerCount(c.concurrency, c.iterations);
    if j == 0 {
      run := WarmUps(o, c, c.warmups);
      TakenNone(n, k, c.concurrency);
    } else {
      var before := Takes(o, c, j - 1);
      TakenNext(n, k, j - 1);
      var s := State(Measuring, Some(Taken(n, k, j - 1)), map[], WarmTrace(c.warmups));
      OneMore(o, c, before, s, Take(j - 1), s.(pool := Some(Taken(n, k, j))));
      run := before + [Take(j - 1)];
    }
  }

  /** The first iteration throws, the call throws and tears down, and then the second iteration ends. */
  lemma EndsAfterTearDown(o: Settings, c: Case) returns (run: seq<Event>, s: State)
    requires ValidCase(c) && !TearDownWaits(o, c)
    ensures Exec(o, c, INIT, run) == Some(s)
    ensures s.stage == Ended(Threw) && s.trace == WarmTrace(c.warmups) + [Iterated(0, false), TornDown, Iterated(1, true)]
    ensures var k := Pool.WorkerCount(c.concurrency, c.iterations);
            && s.pool.Some? && s.pool.value.items == Measured(c.iterations) && s.pool.value.next == k
            && |s.pool.value.workers| == k && k > 1 && s.pool.value.workers[1].Ready?
  {
    hide Exec, Pool.Init, WarmTrace;
    var n, k := c.iterations, Pool.WorkerCount(c.concurrency, c.iterations);
    run := Takes(o, c, k);
    var p := Taken(n, k, k);
    s := State(Measuring, Some(p), map[], WarmTrace(c.warmups));
    assert p.workers[0] == Pool.Busy(0) && p.workers[1] == Pool.Busy(1);
    var s1 := Next(o, c, s, Iterate(0, false, 0.0));
    OneMore(o, c, run, s, Iterate(0, false, 0.0), s1);
    run := run + [Iterate(0, false, 0.0)];
    assert s1.pool.value.workers[0].Failed?;
    var s2 := Next(o, c, s1, Settle);
    OneMore(o, c, run, s1, Settle, s2);
    run := run + [Settle];
    var s3 := Next(o, c, s2, TearDown(true));
    OneMore(o, c, run, s2, TearDown(true), s3);
    run := run + [TearDown(true)];
    assert s3.pool.value.workers[1] == Pool.Busy(1);
    s := Next(o, c, s3, Iterate(1, true, 0.0));
    OneMore(o, c, run, s3, Iterate(1, true, 0.0), s);
    run := run + [Iterate(1, true, 0.0)];
    var warm := WarmTrace(c.warmups);
    assert warm + [Iterated(0, false)] + [TornDown] + [Iterated(1, true)] == warm + [Iterated(0, false), TornDown, Iterated(1, true)];
  }

  /**
   The teardown is the last thing that happens in every run exactly when the case
   has none, no error of an iteration is let through, or there is never more than
   one iteration at a time.
   */
  lemma TearDownLastIff(o: Settings, c: Case)
    requires ValidCase(c)
    ensures (forall run: seq<Event> :: Exec(o, c, INIT, run).Some? ==> TearDownEnds(Exec(o, c, INIT, run).value.trace))
            <==> !c.teardown || (!o.failFast && o.captureErrors) || c.concurrency <= 1 || c.iterations <= 1
  {
    hide Exec, TornDownLast, WarmTrace, Pool.WorkerCount, Measured;
    if TearDownWaits(o, c) {
      forall run: seq<Event> | Exec(o, c, INIT, run).Some?
        ensures TearDownEnds(Exec(o, c, INIT, run).value.trace)
      {
        if c.teardown {
          TornDownLastKept(o, c, run);
          LastEnds(Exec(o, c, INIT, run).value);
        } else {
          TearDownOnce(o, c, run);
          assert TornDown !in multiset(Exec(o, c, INIT, run).value.trace);
        }
      }
    } else {
      var run, s := EndsAfterTearDown(o, c);
      assert s.trace[|WarmTrace(c.warmups)| + 1] == TornDown;
      assert !TearDownEnds(s.trace);
    }
  }

  /** ... and then a call that has ended and torn down is over for good. */
  lemma EndedIsOver(o: Settings, c: Case, run: seq<Event>, e: Event)
    requires ValidCase(c) && c.teardown && TearDownWaits(o, c)
    requires Exec(o, c, INIT, run).Some? && Exec(o, c, INIT, run).value.stage.Ended?
    ensures !Enabled(c, Exec(o, c, INIT, run).value, e)
  {
    hide Exec, TearDownWaits;
    TornDownLastKept(o, c, run);
  }

  /** With iterations left over, one of them is even started after the teardown of a call that threw. */
  lemma StartsAfterTearDown(o: Settings, c: Case) returns (run: seq<Event>, s: State)
    requires ValidCase(c) && !TearDownWaits(o, c) && c.iterations > c.concurrency
    ensures Exec(o, c, INIT, run + [Take(1)]).Some?
    ensures Exec(o, c, INIT, run) == Some(s) && TornDown in s.trace
    ensures var p := Exec(o, c, INIT, run + [Take(1)]).value.pool;
            p.Some? && |p.value.workers| > 1 && p.value.workers[1] == Pool.Busy(c.concurrency)
  {
    hide Exec, WarmTrace;
    run, s := EndsAfterTearDown(o, c);
    var p := s.pool.value;
    assert p.items[p.next].Some?;
    assert s.trace[|WarmTrace(c.warmups)| + 1] == TornDown;
    OneMore(o, c, run, s, Take(1), Next(o, c, s, Take(1)));
  }
}
