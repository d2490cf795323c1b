/** The worker pool of `packages/tekmemo-benchmark-kit/src/utils/concurrency.ts`. */
module WorkerPool {
  import opened Optional

  // A worker that resumes shifts items off the shared queue until it finds one to
  // await or the queue is empty; that is one atomic step, and so is the settling of
  // the awaited call.  A run is any sequence of enabled steps of the workers.

  /** What a worker holds is named by its position in the list of items. */
  datatype Phase = Ready | Busy(index: nat) | Exited | Failed(index: nat)

  /**
   The queue is `items[next..]`; `started` and `done` record the positions
   handed out and those completed.
   */
  datatype State<T> = State(items: seq<Option<T>>, next: nat, workers: seq<Phase>, started: seq<nat>, done: seq<nat>)

  datatype Event = Resume(w: nat) | Finish(w: nat, ok: bool)

  /** The length of the array made from `Math.min(concurrency, queue.length)`. */
  function WorkerCount(concurrency: int, n: nat): nat {
    if concurrency <= 0 then 0 else if concurrency < n then concurrency else n
  }

  function Init<T>(items: seq<Option<T>>, concurrency: int): State<T> {
    State(items, 0, seq(WorkerCount(concurrency, |items|), i => Ready), [], [])
  }

  predicate Enabled<T>(s: State<T>, e: Event) {
    && s.next <= |s.items|
    && match e
    case Resume(w) => w < |s.workers| && s.workers[w].Ready?
    case Finish(w, _) => w < |s.workers| && s.workers[w].Busy?
  }

  /** The first position from `i` on that holds an item, not `undefined`. */
  function Seek<T>(items: seq<Option<T>>, i: nat): (j: nat)
    requires i <= |items|
    ensures i <= j <= |items|
    ensures j < |items| ==> items[j].Some?
    ensures forall k :: i <= k < j ==> items[k].None?
    decreases |items| - i
  {
    if i < |items| && items[i].None? then Seek(items, i + 1) else i
  }

  function Next<T>(s: State<T>, e: Event): State<T>
    requires Enabled(s, e)
  {
    match e
    case Resume(w) =>
      var index := Seek(s.items, s.next);
      if index == |s.items| then s.(next := index, workers := s.workers[w := Exited])
      else s.(next := index + 1, workers := s.workers[w := Busy(index)], started := s.started + [index])
    case Finish(w, ok) =>
      var index := s.workers[w].index;
      if ok then s.(workers := s.workers[w := Ready], done := s.done + [index])
      else s.(workers := s.workers[w := Failed(index)])
  }

  function Exec<T>(s: State<T>, run: seq<Event>): (r: Option<State<T>>)
    decreases |run|
  {
    if run == [] then Some(s)
    else
      match Exec(s, run[..|run| - 1])
      case None => None
      case Some(m) => if Enabled(m, run[|run| - 1]) then Some(Next(m, run[|run| - 1])) else None
  }

  lemma RestOfRest<T>(items: seq<T>, i: nat)
    requires i < |items|
    ensures items[i..][0] == items[i] && items[i..][1..] == items[i + 1..]
  {
  }

  // ---------------------------------------------------------------- the class

  class Pool<T> {
    const items: seq<Option<T>>
    var queue: seq<Option<T>>
    var workers: seq<Phase>
    ghost var started: seq<nat>
    ghost var done: seq<nat>

    ghost predicate Valid()
      reads this
    {
      |queue| <= |items| && queue == items[|items| - |queue|..]
    }

    ghost function View(): State<T>
      requires Valid()
      reads this
    {
      State(items, |items| - |queue|, workers, started, done)
    }

    constructor (list: seq<Option<T>>, concurrency: int)
      ensures Valid() && View() == Init(list, concurrency)
    {
      queue, items := list, list;
      workers := seq(WorkerCount(concurrency, |list|), i => Ready);
      started, done := [], [];
    }

    /** The loop of a worker, up to its next await. */
    method Take(w: nat) returns (item: Option<T>)
      requires Valid() && Enabled(View(), Resume(w))
      modifies this
      ensures Valid() && View() == Next(old(View()), Resume(w))
      ensures item == if workers[w].Busy? then items[workers[w].index] else None
    {
      ghost var first: nat := |items| - |queue|;
      ghost var next: nat := first;
      while |queue| > 0
        invariant next <= |items| && queue == items[next..]
        invariant Seek(items, next) == Seek(items, first)
        invariant workers == old(workers) && started == old(started) && done == old(done)
      {
        RestOfRest(items, next);
        item := queue[0];
        queue := queue[1..];
        next := next + 1;
        if item.Some? {
          workers := workers[w := Busy(|items| - |queue| - 1)];
          started := started + [next - 1];
          return;
        }
      }
      workers := workers[w := Exited];
      return None;
    }

    /** The awaited call settled. */
    method Complete(w: nat, ok: bool)
      requires Valid() && Enabled(View(), Finish(w, ok))
      modifies this
      ensures Valid() && View() == Next(old(View()), Finish(w, ok))
    {
      var index := workers[w].index;
      if ok {
        workers := workers[w := Ready];
        done := done + [index];
      } else {
        workers := workers[w := Failed(index)];
      }
    }
  }

  // ------------------------------------------------------------ the invariant

  /** The positions below `n` that hold an item, in order. */
  function Items<T>(items: seq<Option<T>>, n: nat): seq<nat>
    requires n <= |items|
  {
    if n == 0 then []
    else Items(items, n - 1) + (if items[n - 1].Some? then [n - 1] else [])
  }

  function HeldBy(p: Phase): seq<nat> {
    if p.Busy? || p.Failed? then [p.index] else []
  }

  /** The positions that workers hold, or failed on. */
  function Held(workers: seq<Phase>): seq<nat> {
    if workers == [] then []
    else Held(workers[..|workers| - 1]) + HeldBy(workers[|workers| - 1])
  }

  ghost predicate Inv<T>(s: State<T>) {
    && s.next <= |s.items|
    && s.started == Items(s.items, s.next)
    && multiset(s.started) == multiset(s.done) + multiset(Held(s.workers))
    && (forall w :: 0 <= w < |s.workers| && s.workers[w].Exited? ==> s.next == |s.items|)
  }

  /** Skipping over `undefined` adds no item. */
  lemma {:induction false} ItemsSkip<T>(items: seq<Option<T>>, a: nat, b: nat)
    requires a <= b <= |items| && forall i :: a <= i < b ==> items[i].None?
    ensures Items(items, b) == Items(items, a)
  {
    if a < b { ItemsSkip(items, a, b - 1); }
  }

  lemma {:induction false} HeldAppend(a: seq<Phase>, b: seq<Phase>)
    ensures Held(a + b) == Held(a) + Held(b)
  {
    hide HeldBy;
    if b == [] {
      assert a + b == a;
    } else {
      var n := |b| - 1;
      HeldAppend(a, b[..n]);
      assert (a + b)[..|a + b| - 1] == a + b[..n];
    }
  }

  lemma HeldUpdate(workers: seq<Phase>, w: nat, p: Phase)
    requires w < |workers|
    ensures multiset(Held(workers[w := p])) + multiset(HeldBy(workers[w])) == multiset(Held(workers)) + multiset(HeldBy(p))
  {
    hide Held, HeldBy;
    var a, c := workers[..w], workers[w + 1..];
    assert workers == a + [workers[w]] + c && workers[w := p] == a + [p] + c;
    HeldAround(a, workers[w], c);
    HeldAround(a, p, c);
  }

  lemma HeldAround(a: seq<Phase>, p: Phase, c: seq<Phase>)
    ensures multiset(Held(a + [p] + c)) == multiset(Held(a)) + multiset(Held(c)) + multiset(HeldBy(p))
  {
    HeldAppend(a + [p], c);
    HeldAppend(a, [p]);
    assert [p][..0] == [];
  }

  lemma {:induction false} HeldReady(n: nat)
    ensures Held(seq(n, i => Ready)) == []
  {
    if n > 0 {
      HeldReady(n - 1);
      assert seq(n, i => Ready)[..n - 1] == seq(n - 1, i => Ready);
    }
  }

  lemma InvInit<T>(items: seq<Option<T>>, concurrency: int)
    ensures Inv(Init(items, concurrency))
  {
    HeldReady(WorkerCount(concurrency, |items|));
  }

  lemma Cancel(a: multiset<nat>, b: multiset<nat>, c: multiset<nat>)
    requires a + c == b + c
    ensures a == b
  {
    forall x: nat
      ensures a[x] == b[x]
    {
      assert (a + c)[x] == (b + c)[x];
    }
  }

  lemma InvResume<T>(s: State<T>, w: nat)
    requires Inv(s) && Enabled(s, Resume(w))
    ensures Inv(Next(s, Resume(w)))
  {
    hide Held, Items, Seek;
    var s' := Next(s, Resume(w));
    var index := Seek(s.items, s.next);
    HeldUpdate(s.workers, w, s'.workers[w]);
    ItemsSkip(s.items, s.next, index);
    if index < |s.items| {
      assert s'.started == Items(s.items, index + 1) by { ItemsNext(s.items, index); }
      assert multiset(s'.started) == multiset(s.started) + multiset([index]);
      assert multiset(Held(s'.workers)) == multiset(Held(s.workers)) + multiset([index]);
    } else {
      Cancel(multiset(Held(s'.workers)), multiset(Held(s.workers)), multiset(HeldBy(s.workers[w])));
    }
  }

  lemma ItemsNext<T>(items: seq<Option<T>>, i: nat)
    requires i < |items| && items[i].Some?
    ensures Items(items, i + 1) == Items(items, i) + [i]
  {
  }

  lemma InvFinish<T>(s: State<T>, w: nat, ok: bool)
    requires Inv(s) && Enabled(s, Finish(w, ok))
    ensures Inv(Next(s, Finish(w, ok)))
  {
    hide Held, Items, Seek;
    var s' := Next(s, Finish(w, ok));
    var held := multiset([s.workers[w].index]);
    HeldUpdate(s.workers, w, s'.workers[w]);
    if ok {
      assert multiset(Held(s'.workers)) + held == multiset(Held(s.workers));
      assert multiset(s'.done) == multiset(s.done) + held;
    } else {
      Cancel(multiset(Held(s'.workers)), multiset(Held(s.workers)), multiset(HeldBy(s.workers[w])));
    }
  }

  lemma InvNext<T>(s: State<T>, e: Event)
    requires Inv(s) && Enabled(s, e)
    ensures Inv(Next(s, e))
  {
    match e
    case Resume(w) => InvResume(s, w);
    case Finish(w, ok) => InvFinish(s, w, ok);
  }

  lemma {:induction false} InvReachable<T>(items: seq<Option<T>>, concurrency: int, run: seq<Event>)
    requires Exec(Init(items, concurrency), run).Some?
    ensures var s := Exec(Init(items, concurrency), run).value;
            Inv(s) && s.items == items && |s.workers| == WorkerCount(concurrency, |items|)
  {
    hide Inv, Next, Enabled;
    if run == [] {
      InvInit(items, concurrency);
    } else {
      var n := |run| - 1;
      InvReachable(items, concurrency, run[..n]);
      var m := Exec(Init(items, concurrency), run[..n]).value;
      InvNext(m, run[n]);
      SameShape(m, run[n]);
    }
  }

  lemma SameShape<T>(s: State<T>, e: Event)
    requires Enabled(s, e)
    ensures Next(s, e).items == s.items && |Next(s, e).workers| == |s.workers|
  {
  }

  // -------------------------------------------------------------- guarantees

  /** `Items` is the increasing list of the positions that hold an item. */
  lemma {:induction false} ItemsIncrease<T>(items: seq<Option<T>>, n: nat)
    requires n <= |items|
    ensures forall i: nat :: i in Items(items, n) <==> i < n && items[i].Some?
    ensures forall j, k :: 0 <= j < k < |Items(items, n)| ==> Items(items, n)[j] < Items(items, n)[k]
  {
    if n > 0 {
      ItemsIncrease(items, n - 1);
      var front := Items(items, n - 1);
      assert forall k :: 0 <= k < |front| ==> front[k] in front;
    }
  }

  /**
   In every run items are handed out in queue order, none twice and, up to where
   the queue stands, none left out.
   */
  lemma HandedOutInOrder<T>(items: seq<Option<T>>, concurrency: int, run: seq<Event>)
    requires Exec(Init(items, concurrency), run).Some?
    ensures var s := Exec(Init(items, concurrency), run).value;
            && (forall j, k :: 0 <= j < k < |s.started| ==> s.started[j] < s.started[k])
            && (forall i: nat :: i in s.started <==> i < s.next <= |items| && items[i].Some?)
  {
    InvReachable(items, concurrency, run);
    var s := Exec(Init(items, concurrency), run).value;
    ItemsIncrease(items, s.next);
  }

  // ---------------------------------------------------- told by the events

  /** The item that the worker holds after the run. */
  function HeldAfter<T>(s: State<T>, run: seq<Event>, w: nat): Option<nat> {
    match Exec(s, run)
    case None => None
    case Some(m) => if w < |m.workers| && m.workers[w].Busy? then Some(m.workers[w].index) else None
  }

  /** The items that were completed, as the events of the run say. */
  function Completed<T>(s: State<T>, run: seq<Event>): seq<nat> {
    if run == [] then []
    else
      var n := |run| - 1;
      Completed(s, run[..n]) +
      (match run[n]
       case Finish(w, true) => (match HeldAfter(s, run[..n], w) case Some(i) => [i] case None => [])
       case _ => [])
  }

  ghost predicate Threw(run: seq<Event>, w: nat) {
    exists j :: 0 <= j < |run| && run[j] == Finish(w, false)
  }

  lemma ThrewNext(run: seq<Event>, e: Event, w: nat)
    ensures Threw(run + [e], w) <==> Threw(run, w) || e == Finish(w, false)
  {
    assert (run + [e])[|run|] == e;
    if Threw(run, w) {
      var j :| 0 <= j < |run| && run[j] == Finish(w, false);
      assert (run + [e])[j] == Finish(w, false);
    }
  }

  /** Done are just the items that were finished without an error, in that order; a worker has failed exactly when its iterator threw. */
  lemma {:induction false} DoneAsMade<T>(items: seq<Option<T>>, concurrency: int, run: seq<Event>)
    requires Exec(Init(items, concurrency), run).Some?
    ensures var s := Exec(Init(items, concurrency), run).value;
            && |s.workers| == WorkerCount(concurrency, |items|)
            && s.done == Completed(Init(items, concurrency), run)
            && forall w: nat :: w < |s.workers| ==> (s.workers[w].Failed? <==> Threw(run, w))
  {
    hide Seek, Threw, Next, Enabled, Completed, HeldAfter;
    if run == [] {
      NothingCompleted(items, concurrency);
    } else {
      var n := |run| - 1;
      DoneAsMade(items, concurrency, run[..n]);
      var m := Exec(Init(items, concurrency), run[..n]).value;
      assert run == run[..n] + [run[n]];
      CompletedNext(Init(items, concurrency), run, m);
      DoneNext(m, run[n]);
      forall w: nat
        ensures Threw(run, w) <==> Threw(run[..n], w) || run[n] == Finish(w, false)
      {
        ThrewNext(run[..n], run[n], w);
      }
    }
  }

  lemma NothingCompleted<T>(items: seq<Option<T>>, concurrency: int)
    ensures var s := Init(items, concurrency); Completed(s, []) == [] && Exec(s, []) == Some(s)
    ensures forall w: nat :: !Threw([], w)
  {
  }

  function DoneBy<T>(m: State<T>, e: Event): seq<nat> {
    if e.Finish? && e.ok && e.w < |m.workers| && m.workers[e.w].Busy? then [m.workers[e.w].index] else []
  }

  lemma CompletedNext<T>(s: State<T>, run: seq<Event>, m: State<T>)
    requires run != [] && Exec(s, run[..|run| - 1]) == Some(m)
    ensures Completed(s, run) == Completed(s, run[..|run| - 1]) + DoneBy(m, run[|run| - 1])
  {
    hide Exec;
  }

  lemma DoneNext<T>(s: State<T>, e: Event)
    requires Enabled(s, e)
    ensures var s' := Next(s, e);
            && s'.done == s.done + DoneBy(s, e) && |s'.workers| == |s.workers|
            && forall w: nat :: w < |s.workers| ==> (s'.workers[w].Failed? <==> s.workers[w].Failed? || e == Finish(w, false))
  {
    hide Seek;
  }

  predicate Returned<T>(s: State<T>) {
    forall w :: 0 <= w < |s.workers| ==> s.workers[w].Exited?
  }

  lemma {:induction false} AllExitedHoldNothing(workers: seq<Phase>)
    requires forall w :: 0 <= w < |workers| ==> workers[w].Exited? || workers[w].Ready?
    ensures Held(workers) == []
  {
    if workers != [] { AllExitedHoldNothing(workers[..|workers| - 1]); }
  }

  /**
   When `runConcurrent` has returned, every item has been completed exactly
   once, unless the concurrency was not positive: then nothing was started.
   */
  lemma ReturnedMeansAllDone<T>(items: seq<Option<T>>, concurrency: int, run: seq<Event>)
    requires Exec(Init(items, concurrency), run).Some?
    requires Returned(Exec(Init(items, concurrency), run).value)
    ensures var s := Exec(Init(items, concurrency), run).value;
            && multiset(s.done) == multiset(s.started)
            && (if concurrency <= 0 then s.done == []
                else s.started == Items(items, |items|))
  {
    InvReachable(items, concurrency, run);
    var s := Exec(Init(items, concurrency), run).value;
    AllExitedHoldNothing(s.workers);
    if concurrency <= 0 {
      NoWorkersNoSteps(items, concurrency, run);
    } else if |items| > 0 {
      assert s.workers[0].Exited?;
    }
  }

  lemma {:induction false} NoWorkersNoSteps<T>(items: seq<Option<T>>, concurrency: int, run: seq<Event>)
    requires concurrency <= 0 && Exec(Init(items, concurrency), run).Some?
    ensures run == []
  {
    if run != [] { NoWorkersNoSteps(items, concurrency, run[..|run| - 1]); }
  }

  function InFlight(workers: seq<Phase>): seq<nat> {
    if workers == [] then []
    else
      var last := workers[|workers| - 1];
      InFlight(workers[..|workers| - 1]) + (if last.Busy? then [last.index] else [])
  }

  lemma {:induction false} InFlightHeld(workers: seq<Phase>)
    ensures |InFlight(workers)| <= |workers|
    ensures multiset(InFlight(workers)) <= multiset(Held(workers))
  {
    if workers != [] { InFlightHeld(workers[..|workers| - 1]); }
  }

  /** At most `min(concurrency, n)` items are in flight; all are different, and none is done. */
  lemma BoundedConcurrency<T>(items: seq<Option<T>>, concurrency: int, run: seq<Event>, i: nat)
    requires Exec(Init(items, concurrency), run).Some?
    ensures var s := Exec(Init(items, concurrency), run).value;
            && |InFlight(s.workers)| <= WorkerCount(concurrency, |items|)
            && multiset(InFlight(s.workers))[i] + multiset(s.done)[i] <= 1
  {
    InvReachable(items, concurrency, run);
    var s := Exec(Init(items, concurrency), run).value;
    InFlightHeld(s.workers);
    ItemsIncrease(items, s.next);
    IncreasingOnce(s.started, i);
  }

  lemma {:induction false} IncreasingOnce(xs: seq<nat>, i: nat)
    requires forall j, k :: 0 <= j < k < |xs| ==> xs[j] < xs[k]
    ensures multiset(xs)[i] <= 1
  {
    if xs != [] {
      var n := |xs| - 1;
      IncreasingOnce(xs[..n], i);
      assert xs == xs[..n] + [xs[n]];
      if xs[n] == i { assert i !in xs[..n]; }
    }
  }

  // ------------------------------------------------------------- termination

  function Weight(p: Phase): nat {
    match p
    case Ready => 1
    case Busy(_) => 2
    case _ => 0
  }

  function Weights(workers: seq<Phase>): nat {
    if workers == [] then 0 else Weights(workers[..|workers| - 1]) + Weight(workers[|workers| - 1])
  }

  lemma {:induction false} WeightsUpdate(workers: seq<Phase>, w: nat, p: Phase)
    requires w < |workers|
    ensures Weights(workers[w := p]) + Weight(workers[w]) == Weights(workers) + Weight(p)
  {
    var n := |workers| - 1;
    if w < n {
      WeightsUpdate(workers[..n], w, p);
      assert workers[w := p][..n] == workers[..n][w := p];
    } else {
      assert workers[w := p][..n] == workers[..n];
    }
  }

  function StepsLeft<T>(s: State<T>): nat {
    (if s.next <= |s.items| then 2 * (|s.items| - s.next) else 0) + Weights(s.workers)
  }

  /** Every run is finite: each step uses up one of the steps left. */
  lemma {:induction false} RunsAreFinite<T>(s: State<T>, run: seq<Event>)
    requires Exec(s, run).Some?
    ensures |run| + StepsLeft(Exec(s, run).value) <= StepsLeft(s)
  {
    if run != [] {
      var n := |run| - 1;
      RunsAreFinite(s, run[..n]);
      var m := Exec(s, run[..n]).value;
      WeightsUpdate(m.workers, run[n].w, Next(m, run[n]).workers[run[n].w]);
    }
  }

  predicate Stuck<T>(s: State<T>) {
    forall w :: 0 <= w < |s.workers| ==> s.workers[w].Exited? || s.workers[w].Failed?
  }

  lemma StuckIffNothingEnabled<T>(s: State<T>)
    requires s.next <= |s.items|
    ensures Stuck(s) <==> forall e: Event :: !Enabled(s, e)
  {
    if !Stuck(s) {
      var w :| 0 <= w < |s.workers| && !(s.workers[w].Exited? || s.workers[w].Failed?);
      assert Enabled(s, Resume(w)) || Enabled(s, Finish(w, true));
    }
  }

  /**
   A throwing worker does not stop the others: when nothing more can happen,
   either every item was started, or every worker failed.
   */
  lemma ThrowsDoNotStopOthers<T>(items: seq<Option<T>>, concurrency: int, run: seq<Event>)
    requires concurrency > 0 && Exec(Init(items, concurrency), run).Some?
    requires Stuck(Exec(Init(items, concurrency), run).value)
    ensures var s := Exec(Init(items, concurrency), run).value;
            && (s.started == Items(items, |items|) || forall w :: 0 <= w < |s.workers| ==> s.workers[w].Failed?)
            && multiset(s.started) == multiset(s.done) + multiset(Held(s.workers))
  {
    InvReachable(items, concurrency, run);
  }
}
