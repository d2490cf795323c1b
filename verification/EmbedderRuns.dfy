/**
 Calls of one embedder that overlap: `embedTexts` of
 `packages/tekmemo-adapter-transformers/src/transformers-embedder.ts`.
 */
module EmbedderRuns {
  import opened Optional
  import opened StableSort
  import opened Batching
  import opened TransformersEmbedder

  // A call awaits the pipeline once for each batch.  What it does with an answer,
  // up to the next await, is one event; the answers of different calls come in
  // any order, and they share the inferred dimension.

  /** A call with what it has been answered for its batches so far. */
  datatype Task = Task(
    texts: seq<string>, size: int, answers: seq<Vector>, records: seq<Record>, outcome: Option<Result<seq<Record>, TransformersEmbedder.Error>>)

  datatype State = State(kept: Option<Dimension>, tasks: seq<Task>)

  const INIT := State(None, [])

  datatype Event = Enter(texts: seq<string>, size: int) | Answer(t: nat, raw: Option<Vector>)

  predicate Awaits(task: Task) {
    var k := |task.answers|;
    task.outcome.None? && k < |Batches(task.texts, task.size)| && Batches(task.texts, task.size)[k] != []
  }

  predicate Enabled(s: State, e: Event) {
    match e
    case Enter(_, _) => true
    case Answer(t, _) => t < |s.tasks| && Awaits(s.tasks[t])
  }

  function Awaited(task: Task): seq<string>
    requires Awaits(task)
  {
    Batches(task.texts, task.size)[|task.answers|]
  }

  /** The records of one more batch; the last one ends the call. */
  function Received(task: Task, flat: Vector, dim: Dimension): Task
    requires Awaits(task)
  {
    var k, batch := |task.answers|, Awaited(task);
    var records := task.records + BatchRecords(batch, flat, dim, k * task.size, |batch|);
    task.(answers := task.answers + [flat], records := records,
          outcome := if k + 1 == |Batches(task.texts, task.size)| then Some(Ok(Sort(records, RecordKey))) else None)
  }

  function Next(s: State, e: Event): State
    requires Enabled(s, e)
  {
    match e
    case Enter(texts, size) =>
      s.(tasks := s.tasks + [Task(texts, size, [], [], if texts == [] then Some(Ok([])) else None)])
    case Answer(t, None) => s.(tasks := s.tasks[t := s.tasks[t].(outcome := Some(Err(PipelineFailed)))])
    case Answer(t, Some(flat)) =>
      var dim := if s.kept.Some? then s.kept.value else Infer(|flat|, |Awaited(s.tasks[t])|);
      State(Some(dim),
            s.tasks[t := if s.kept.None? && !ValidDimension(dim) then s.tasks[t].(outcome := Some(Err(NoDimension)))
                         else Received(s.tasks[t], flat, dim)])
  }

  function Exec(s: State, run: seq<Event>): Option<State>
    decreases |run|
  {
    if run == [] then Some(s)
    else
      match Exec(s, run[..|run| - 1])
      case None => None
      case Some(m) => if Enabled(m, run[|run| - 1]) then Some(Next(m, run[|run| - 1])) else None
  }

  /** What the first vector that any call was answered divides into. */
  function FirstVector(run: seq<Event>): Option<Dimension>
    requires Exec(INIT, run).Some?
  {
    if run == [] then None
    else
      var n := |run| - 1;
      var before, m := FirstVector(run[..n]), Exec(INIT, run[..n]).value;
      if before.Some? || run[n].Enter? || run[n].raw.None? then before
      else Some(Infer(|run[n].raw.value|, |Awaited(m.tasks[run[n].t])|))
  }

  /** However calls overlap, the dimension kept is that of the first vector. */
  lemma {:induction false} KeptIsFirstVector(run: seq<Event>)
    requires Exec(INIT, run).Some?
    ensures Exec(INIT, run).value.kept == FirstVector(run)
    decreases |run|
  {
    hide Received, Awaits, Awaited, Batches, ValidDimension;
    if run != [] { KeptIsFirstVector(run[..|run| - 1]); }
  }

  // ---------------------------------------------------- told by the events

  function Entered(run: seq<Event>): seq<(seq<string>, int)> {
    if run == [] then []
    else Entered(run[..|run| - 1]) + (match run[|run| - 1] case Enter(texts, size) => [(texts, size)] case Answer(_, _) => [])
  }

  /** The vectors that call `t` was answered by, in order. */
  function AnswersTo(run: seq<Event>, t: nat): seq<Vector> {
    if run == [] then []
    else AnswersTo(run[..|run| - 1], t) + (if run[|run| - 1].Answer? && run[|run| - 1].t == t && run[|run| - 1].raw.Some? then [run[|run| - 1].raw.value] else [])
  }

  predicate AsMade(task: Task, entered: (seq<string>, int), answers: seq<Vector>) {
    && task.texts == entered.0 && task.size == entered.1
    && (task.outcome != Some(Err(NoDimension)) ==> task.answers == answers)
  }

  ghost predicate AllAsMade(s: State, run: seq<Event>) {
    && |s.tasks| == |Entered(run)|
    && (forall t :: 0 <= t < |s.tasks| ==> AsMade(s.tasks[t], Entered(run)[t], AnswersTo(run, t)))
    && forall t: nat :: t >= |s.tasks| ==> AnswersTo(run, t) == []
  }

  /** After any run call `t` is the one that entered as number `t`, with its texts and its batch size, and holds the vectors it was answered by. */
  lemma {:induction false} TasksAsMade(run: seq<Event>)
    requires Exec(INIT, run).Some?
    ensures AllAsMade(Exec(INIT, run).value, run)
    decreases |run|
  {
    if run != [] {
      var front, e := run[..|run| - 1], run[|run| - 1];
      TasksAsMade(front);
      var m, s := Exec(INIT, front).value, Exec(INIT, run).value;
      assert s == Next(m, e);
      TasksNext(m, e);
      assert e.Answer? ==> e.t < |m.tasks|;
      assert Entered(run) == Entered(front) + (if e.Enter? then [(e.texts, e.size)] else []);
      forall t: nat
        ensures AnswersTo(run, t) == AnswersTo(front, t) + (if e.Answer? && e.t == t && e.raw.Some? then [e.raw.value] else [])
      {
      }
      hide Exec, Next, Enabled, Entered, AnswersTo, AsMade;
      forall t | 0 <= t < |s.tasks|
        ensures AsMade(s.tasks[t], Entered(run)[t], AnswersTo(run, t))
      {
        if t < |m.tasks| {
          AsMadeNext(m, e, t, Entered(front)[t], AnswersTo(front, t));
        } else {
          AsEntered(e.texts, e.size);
        }
      }
    }
  }

  lemma TasksNext(s: State, e: Event)
    requires Enabled(s, e)
    ensures var tasks := Next(s, e).tasks;
            if e.Enter? then tasks == s.tasks + [Task(e.texts, e.size, [], [], if e.texts == [] then Some(Ok([])) else None)]
            else |tasks| == |s.tasks|
  {
  }

  lemma AsEntered(texts: seq<string>, size: int)
    ensures AsMade(Task(texts, size, [], [], if texts == [] then Some(Ok([])) else None), (texts, size), [])
  {
  }

  lemma AsMadeNext(s: State, e: Event, t: nat, entered: (seq<string>, int), answers: seq<Vector>)
    requires Enabled(s, e) && t < |s.tasks| && AsMade(s.tasks[t], entered, answers)
    ensures AsMade(Next(s, e).tasks[t], entered, answers + (if e.Answer? && e.t == t && e.raw.Some? then [e.raw.value] else []))
  {
    hide Batches, BatchRecords, Sort, ValidDimension, Infer;
  }

  // ------------------------------------------------------------ the invariant

  predicate OfDimension(records: seq<Record>, kept: Option<Dimension>) {
    forall i :: 0 <= i < |records| ==> kept == Some(records[i].dimensions)
  }

  ghost predicate TaskOk(kept: Option<Dimension>, task: Task) {
    && (task.texts == [] ==> task.records == [] && task.outcome == Some(Ok([])))
    && (task.texts != [] ==>
          && |task.answers| <= |Batches(task.texts, task.size)|
          && InOrder(task.texts, task.records) && |task.records| == Before(Batches(task.texts, task.size), |task.answers|)
          && OfDimension(task.records, kept)
          && (task.outcome.Some? && task.outcome.value.Ok? ==>
                task.outcome.value.value == task.records && |task.answers| == |Batches(task.texts, task.size)|))
  }

  ghost predicate Inv(s: State) {
    forall t :: 0 <= t < |s.tasks| ==> TaskOk(s.kept, s.tasks[t])
  }

  lemma EntersOk(kept: Option<Dimension>, texts: seq<string>, size: int)
    ensures TaskOk(kept, Task(texts, size, [], [], if texts == [] then Some(Ok([])) else None))
  {
    hide Batches;
  }

  lemma ReceivedOk(kept: Option<Dimension>, task: Task, flat: Vector, dim: Dimension)
    requires TaskOk(kept, task) && Awaits(task) && (kept == None || kept == Some(dim))
    ensures TaskOk(Some(dim), Received(task, flat, dim))
  {
    hide Batches, SliceAt, Sort;
    var k, batch := |task.answers|, Awaited(task);
    var batches := Batches(task.texts, task.size);
    if task.texts != [] {
      BatchStart(task.texts, task.size, k);
      BeforeStep(batches, k);
      var records := Received(task, flat, dim).records;
      assert InOrder(task.texts, records);
      SortIdle(records, RecordKey);
    }
  }

  lemma BeforeStep<T>(batches: seq<seq<T>>, k: nat)
    requires k < |batches|
    ensures Before(batches, k + 1) == Before(batches, k) + |batches[k]|
  {
  }

  lemma {:induction false} InvReachable(run: seq<Event>)
    requires Exec(INIT, run).Some?
    ensures Inv(Exec(INIT, run).value)
    decreases |run|
  {
    hide Received, TaskOk, Awaits, Awaited;
    if run != [] {
      InvReachable(run[..|run| - 1]);
      InvNext(Exec(INIT, run[..|run| - 1]).value, run[|run| - 1]);
    }
  }

  lemma InvNext(s: State, e: Event)
    requires Inv(s) && Enabled(s, e)
    ensures Inv(Next(s, e))
  {
    hide Received, TaskOk, Batches, Awaited, ValidDimension;
    var s' := Next(s, e);
    forall t | 0 <= t < |s'.tasks|
      ensures TaskOk(s'.kept, s'.tasks[t])
    {
      if e.Enter? {
        EntersOk(s.kept, e.texts, e.size);
      } else {
        assert TaskOk(s.kept, s.tasks[t]);
        KeptOn(s.kept, s'.kept, s.tasks[t]);
        FailsOk(s'.kept, s.tasks[t], PipelineFailed);
        FailsOk(s'.kept, s.tasks[t], NoDimension);
        if t == e.t && e.raw.Some? { ReceivedOk(s.kept, s.tasks[t], e.raw.value, s'.kept.value); }
      }
    }
  }

  lemma KeptOn(kept: Option<Dimension>, next: Option<Dimension>, task: Task)
    requires TaskOk(kept, task) && (kept == None || kept == next)
    ensures TaskOk(next, task)
  {
    hide Batches;
  }

  lemma FailsOk(kept: Option<Dimension>, task: Task, e: TransformersEmbedder.Error)
    requires TaskOk(kept, task)
    ensures task.outcome.None? ==> TaskOk(kept, task.(outcome := Some(Err(e))))
  {
    hide Batches;
  }

  // -------------------------------------------------------------- guarantees

  /**
   However calls overlap, what a call returns are the records of its texts in
   order, all of the dimension that the first vector of all had; if that one was
   not valid they are right for no embedding at all.
   */
  lemma RecordsOfFirstVector(run: seq<Event>, t: nat)
    requires Exec(INIT, run).Some? && t < |Exec(INIT, run).value.tasks|
    ensures var task := Exec(INIT, run).value.tasks[t];
            task.outcome.Some? && task.outcome.value.Ok? ==>
              var records := task.outcome.value.value;
              && |records| == |task.texts| && InOrder(task.texts, records) && OfDimension(records, FirstVector(run))
              && (task.texts != [] && FirstVector(run).Some? && !ValidDimension(FirstVector(run).value) ==>
                    forall f, d: nat :: d > 0 ==> !Right(f, d, task.texts, records))
  {
    hide Exec, FirstVector, Batches, Right;
    InvReachable(run);
    KeptIsFirstVector(run);
    var s := Exec(INIT, run).value;
    var task := s.tasks[t];
    assert TaskOk(s.kept, task);
    if task.texts != [] && task.outcome.Some? && task.outcome.value.Ok? {
      BatchesCover(task.texts, task.size);
      forall f, d: nat | d > 0 && s.kept.Some? && !ValidDimension(s.kept.value)
        ensures !Right(f, d, task.texts, task.records)
      {
        WrongDimension(f, d, task.texts, task.records);
      }
    }
  }

  /** The event brings the first vector of all to call `t`, and it is not one that divides among its texts. */
  ghost predicate BadFirst(run: seq<Event>, i: nat, t: nat)
    requires i < |run| && Exec(INIT, run[..i]).Some? && Exec(INIT, run[..i + 1]).Some?
  {
    && run[i].Answer? && run[i].t == t && FirstVector(run[..i]) == None
    && FirstVector(run[..i + 1]).Some? && !ValidDimension(FirstVector(run[..i + 1]).value)
  }

  ghost predicate Prefixed(run: seq<Event>) {
    forall i :: 0 <= i <= |run| ==> Exec(INIT, run[..i]).Some?
  }

  lemma {:induction false} PrefixesRun(run: seq<Event>)
    requires Exec(INIT, run).Some?
    ensures Prefixed(run)
    decreases |run|
  {
    assert run[..|run|] == run;
    if run != [] {
      var front := run[..|run| - 1];
      PrefixesRun(front);
      forall i | 0 <= i < |run|
        ensures Exec(INIT, run[..i]).Some?
      {
        assert run[..i] == front[..i];
      }
    }
  }

  ghost predicate SomeAnswerFailed(run: seq<Event>, t: nat) {
    exists i :: 0 <= i < |run| && run[i] == Answer(t, None)
  }

  ghost predicate SomeBadFirst(run: seq<Event>, t: nat)
    requires Prefixed(run)
  {
    exists i :: 0 <= i < |run| && BadFirst(run, i, t)
  }

  /** What one event more makes of these. */
  lemma OneMore(run: seq<Event>, e: Event, t: nat)
    requires Prefixed(run) && Prefixed(run + [e])
    ensures SomeAnswerFailed(run + [e], t) <==> SomeAnswerFailed(run, t) || e == Answer(t, None)
    ensures SomeBadFirst(run + [e], t) <==> SomeBadFirst(run, t) || BadFirst(run + [e], |run|, t)
  {
    hide Exec, FirstVector, ValidDimension;
    var more := run + [e];
    assert forall i :: 0 <= i <= |run| ==> more[..i] == run[..i];
    assert more[|run|] == e && more[..|run| + 1] == more;
    forall i: nat | i < |run|
      ensures more[i] == run[i] && (BadFirst(more, i, t) <==> BadFirst(run, i, t))
    {
      assert more[..i] == run[..i] && more[..i + 1] == run[..i + 1];
    }
  }

  /**
   However calls overlap: a call fails as the pipeline does exactly when the
   pipeline failed one of its own batches, for want of a dimension exactly when it
   got the first vector of all and that one was not valid, and one that has not
   settled awaits a batch.
   */
  lemma {:induction false} FailsIff(run: seq<Event>, t: nat)
    requires Exec(INIT, run).Some? && t < |Exec(INIT, run).value.tasks|
    ensures Prefixed(run)
    ensures var task := Exec(INIT, run).value.tasks[t];
            && (task.outcome == Some(Err(PipelineFailed)) <==> SomeAnswerFailed(run, t))
            && (task.outcome == Some(Err(NoDimension)) <==> SomeBadFirst(run, t))
            && (task.outcome.None? ==> Awaits(task))
    decreases |run|
  {
    PrefixesRun(run);
    if run != [] {
      var n := |run| - 1;
      var front, e := run[..n], run[n];
      assert run == front + [e];
      PrefixesRun(front);
      OneMore(front, e, t);
      LastIsBadFirst(run, t);
      var m := Exec(INIT, front).value;
      if t < |m.tasks| {
        FailsIff(front, t);
        FailsNext(m, e, t);
      } else {
        hide BadFirst, Awaited, Received, ValidDimension, FirstVector, Batches;
        EntersUntouched(front, t);
        NewAwaits(e.texts, e.size);
        assert Exec(INIT, run).value == Next(m, e) && e.Enter?;
      }
    }
  }

  lemma LastIsBadFirst(run: seq<Event>, t: nat)
    requires run != [] && Prefixed(run) && Exec(INIT, run).Some? && Exec(INIT, run[..|run| - 1]).Some?
    ensures var n := |run| - 1; var before, after := Exec(INIT, run[..n]).value, Exec(INIT, run).value;
            BadFirst(run, n, t) <==>
              && run[n].Answer? && run[n].t == t && before.kept.None?
              && after.kept.Some? && !ValidDimension(after.kept.value)
  {
    hide Exec, FirstVector, ValidDimension;
    KeptIsFirstVector(run[..|run| - 1]);
    KeptIsFirstVector(run);
    assert run[..|run|] == run;
  }

  lemma NewAwaits(texts: seq<string>, size: int)
    ensures texts != [] ==> Batches(texts, size) != [] && Batches(texts, size)[0] != []
  {
    if texts != [] { BatchesCover(texts, size); }
  }

  /** Nothing was answered to a call that had not begun. */
  lemma {:induction false} EntersUntouched(run: seq<Event>, t: nat)
    requires Exec(INIT, run).Some? && |Exec(INIT, run).value.tasks| <= t
    ensures Prefixed(run) && !SomeAnswerFailed(run, t) && !SomeBadFirst(run, t)
    decreases |run|
  {
    PrefixesRun(run);
    if run != [] {
      var n := |run| - 1;
      assert run == run[..n] + [run[n]];
      PrefixesRun(run[..n]);
      OneMore(run[..n], run[n], t);
      EntersUntouched(run[..n], t);
    }
  }

  lemma FailsNext(s: State, e: Event, t: nat)
    requires Enabled(s, e) && t < |s.tasks| && (s.tasks[t].outcome.None? ==> Awaits(s.tasks[t]))
    ensures var before, after := s.tasks[t], Next(s, e).tasks[t];
            && (after.outcome == Some(Err(PipelineFailed)) <==> before.outcome == Some(Err(PipelineFailed)) || e == Answer(t, None))
            && (after.outcome == Some(Err(NoDimension)) <==>
                  || before.outcome == Some(Err(NoDimension))
                  || (e.Answer? && e.t == t && s.kept.None? && Next(s, e).kept.Some? && !ValidDimension(Next(s, e).kept.value)))
            && (after.outcome.None? ==> Awaits(after))
  {
    hide ValidDimension, Sort, Chunks, SliceAt;
    if s.tasks[t].texts != [] { BatchesCover(s.tasks[t].texts, s.tasks[t].size); }
  }

  /** The call was answered pointwise, by vectors of `d` values. */
  ghost predicate Pointwise(f: string -> Vector, task: Task) {
    && |task.answers| <= |Batches(task.texts, task.size)|
    && forall k :: 0 <= k < |task.answers| ==> task.answers[k] == Concat(f, Batches(task.texts, task.size)[k])
  }

  ghost predicate RightSoFar(f: string -> Vector, d: nat, task: Task) {
    task.texts != [] && Pointwise(f, task) ==> Right(f, d, task.texts, task.records)
  }

  ghost predicate AllRight(f: string -> Vector, d: nat, s: State) {
    s.kept == None || s.kept == Some(Whole(d)) ==> forall t :: 0 <= t < |s.tasks| ==> RightSoFar(f, d, s.tasks[t])
  }

  lemma ReceivedRight(f: string -> Vector, d: nat, kept: Option<Dimension>, task: Task, flat: Vector)
    requires (forall t :: |f(t)| == d) && TaskOk(kept, task) && Awaits(task) && RightSoFar(f, d, task)
    ensures RightSoFar(f, d, Received(task, flat, Whole(d)))
  {
    hide Batches, BatchRecords, Sort, Right, Concat;
    var next := Received(task, flat, Whole(d));
    var k := |task.answers|;
    if task.texts != [] && Pointwise(f, next) {
      forall j | 0 <= j < k
        ensures task.answers[j] == Concat(f, Batches(task.texts, task.size)[j])
      {
        assert next.answers[j] == task.answers[j];
      }
      assert next.answers[k] == flat;
      RightBatch(f, d, task.texts, task.size, k, task.records);
    }
  }

  lemma RightNext(f: string -> Vector, d: nat, s: State, e: Event)
    requires (forall t :: |f(t)| == d) && Inv(s) && Enabled(s, e) && AllRight(f, d, s)
    ensures AllRight(f, d, Next(s, e))
  {
    hide Received, TaskOk, RightSoFar, Batches, Awaited, ValidDimension;
    var s' := Next(s, e);
    if s'.kept == None || s'.kept == Some(Whole(d)) {
      forall t | 0 <= t < |s'.tasks|
        ensures RightSoFar(f, d, s'.tasks[t])
      {
        if e.Enter? {
          NothingYetRight(f, d, e.texts, e.size);
        } else {
          assert TaskOk(s.kept, s.tasks[t]) && RightSoFar(f, d, s.tasks[t]);
          OutcomeAside(f, d, s.tasks[t], Some(Err(PipelineFailed)));
          OutcomeAside(f, d, s.tasks[t], Some(Err(NoDimension)));
          if t == e.t && e.raw.Some? { ReceivedRight(f, d, s.kept, s.tasks[t], e.raw.value); }
        }
      }
    }
  }

  lemma NothingYetRight(f: string -> Vector, d: nat, texts: seq<string>, size: int)
    ensures RightSoFar(f, d, Task(texts, size, [], [], if texts == [] then Some(Ok([])) else None))
  {
    hide Batches;
  }

  lemma OutcomeAside(f: string -> Vector, d: nat, task: Task, outcome: Option<Result<seq<Record>, TransformersEmbedder.Error>>)
    requires RightSoFar(f, d, task)
    ensures RightSoFar(f, d, task.(outcome := outcome))
  {
    hide Batches, Right;
  }

  lemma {:induction false} RightReachable(f: string -> Vector, d: nat, run: seq<Event>)
    requires (forall t :: |f(t)| == d) && Exec(INIT, run).Some?
    ensures AllRight(f, d, Exec(INIT, run).value)
    decreases |run|
  {
    hide Next, Enabled, AllRight, Inv;
    if run == [] {
      assert AllRight(f, d, INIT) by { NoTasks(f, d); }
    } else {
      var n := |run| - 1;
      RightReachable(f, d, run[..n]);
      InvReachable(run[..n]);
      RightNext(f, d, Exec(INIT, run[..n]).value, run[n]);
    }
  }

  lemma NoTasks(f: string -> Vector, d: nat)
    ensures AllRight(f, d, INIT)
  {
  }

  /**
   However calls overlap, one that returned, was answered pointwise in `d`
   dimensions and has texts returned the right records exactly when the first
   vector of all calls had `d` values a text.
   */
  lemma RightIffFirstVector(f: string -> Vector, d: nat, run: seq<Event>, t: nat)
    requires (forall x :: |f(x)| == d) && Exec(INIT, run).Some? && t < |Exec(INIT, run).value.tasks|
    requires var task := Exec(INIT, run).value.tasks[t];
             task.texts != [] && task.outcome.Some? && task.outcome.value.Ok? && Pointwise(f, task)
    ensures var task := Exec(INIT, run).value.tasks[t];
            Right(f, d, task.texts, task.outcome.value.value) <==> FirstVector(run) == Some(Whole(d))
  {
    hide Exec, FirstVector, Batches, Right, Pointwise;
    InvReachable(run);
    KeptIsFirstVector(run);
    RightReachable(f, d, run);
    var s := Exec(INIT, run).value;
    var task := s.tasks[t];
    assert TaskOk(s.kept, task);
    BatchesCover(task.texts, task.size);
    assert s.kept == Some(task.records[0].dimensions);
    if s.kept == Some(Whole(d)) {
      assert RightSoFar(f, d, task);
    } else {
      WrongDimension(f, d, task.texts, task.records);
    }
  }
}
