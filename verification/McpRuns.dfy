/** Requests of the MCP server that overlap, over all interleavings. */
module McpRuns {
  import opened Optional
  import opened Text
  import opened JsonFormat
  import opened McpTools
  import opened McpServer

  // What runs between two awaits is one event.  The timeout answers the request
  // and cancels nothing: the tool call goes on, and what it does next may come
  // after calls of later requests.

  /** `Settled` is the answer to the question at that place of the trace; `Replied` answers a request of a tool. */
  datatype Happening =
    | Made(call: Call)
    | Settled(question: nat, verdict: Verdict)
    | Replied(number: nat, reply: Result<ToolReply, Error>)

  type Trace = seq<Happening>

  datatype Phase = Asking | Cleared | Running | Over

  /** A request of a tool; `question`, `answer` and `position` are places in the trace. */
  datatype ToolCall = ToolCall(
    name: Text,
    plan: Result<(Tool, Validated), Error>,
    phase: Phase,
    question: Option<nat>,
    answer: Option<nat>,
    position: Option<nat>,
    replied: bool)

  datatype State = State(trace: Trace, calls: seq<ToolCall>)

  const INIT := State([], [])

  /** `Begin` is a message, or an item of a batch, whose turn has come. */
  datatype Event =
    | Begin(message: Json)
    | Settle(t: nat, verdict: Verdict)
    | Execute(t: nat)
    | Return(t: nat, answer: Answer)
    | TimeOut(t: nat)

  /** The checks that precede the first await. */
  function Plan(env: Env, name: Text, rawArgs: Option<Json>): Result<(Tool, Validated), Error> {
    var args := if rawArgs.None? then Object([]) else rawArgs.value;
    if !env.checks.payload(args) then Err(INVALID)
    else
      var planned :- ValidateToolArguments(env, name, args);
      if env.readOnly && planned.1.safety != Read then Err(Authorization) else Ok(planned)
  }

  function Question(name: Text, v: Validated): Happening {
    Made(Authorize(name, v.safety, v.workspaceId, v.fields))
  }

  function Admit(env: Env, s: State, name: Text, rawArgs: Option<Json>): State {
    var plan := Plan(env, name, rawArgs);
    match plan
    case Err(e) =>
      State(s.trace + [Replied(|s.calls|, Limited(env, Err(e)))], s.calls + [ToolCall(name, plan, Over, None, None, None, true)])
    case Ok((_, v)) =>
      if env.authorize.None? then State(s.trace, s.calls + [ToolCall(name, plan, Cleared, None, None, None, false)])
      else State(s.trace + [Question(name, v)], s.calls + [ToolCall(name, plan, Asking, Some(|s.trace|), None, None, false)])
  }

  function MadeAll(calls: History): Trace {
    if calls == [] then [] else MadeAll(calls[..|calls| - 1]) + [Made(calls[|calls| - 1])]
  }

  /** Reading a resource calls the runtime at once, if at all. */
  function Start(server: Server, s: State, message: Json): State {
    match ValidateRequest(message)
    case Err(_) => s
    case Ok(request) =>
      if request.id.None? then s
      else
        var params := if request.params.Some? then request.params.value else [];
        match MethodNamed(request.name)
        case ToolsCall =>
          (match TextParam(params, NameKey())
           case None => s
           case Some(name) => Admit(server.env, s, name, Lookup(params, ArgumentsKey())))
        case ResourcesRead =>
          (match TextParam(params, UriKey())
           case None => s
           case Some(uri) => s.(trace := s.trace + MadeAll(ReadResource(server, uri, []).history)))
        case _ => s
  }

  /** The call is over; its request is answered unless it has timed out before. */
  function Conclude(env: Env, s: State, t: nat, result: Result<ToolReply, Error>): State
    requires t < |s.calls|
  {
    var call := s.calls[t];
    State(s.trace + (if call.replied then [] else [Replied(t, Limited(env, result))]),
          s.calls[t := call.(phase := Over, replied := true)])
  }

  predicate Enabled(s: State, e: Event) {
    match e
    case Begin(_) => true
    case Settle(t, _) => t < |s.calls| && s.calls[t].phase.Asking? && s.calls[t].question.Some?
    case Execute(t) => t < |s.calls| && s.calls[t].phase.Cleared? && s.calls[t].plan.Ok?
    case Return(t, _) => t < |s.calls| && s.calls[t].phase.Running?
    case TimeOut(t) => t < |s.calls| && !s.calls[t].replied
  }

  function Next(server: Server, s: State, e: Event): State
    requires Enabled(s, e)
  {
    var env := server.env;
    match e
    case Begin(message) => Start(server, s, message)
    case Settle(t, verdict) =>
      var call := s.calls[t];
      var settled := State(s.trace + [Settled(call.question.value, verdict)], s.calls[t := call.(phase := Cleared, answer := Some(|s.trace|))]);
      (match verdict
       case Allowed => settled
       case Denied => Conclude(env, settled, t, Err(Authorization))
       case Refused(error) => Conclude(env, settled, t, Err(error)))
    case Execute(t) =>
      var call := s.calls[t];
      var (tool, v) := call.plan.value;
      if OperationOf(tool) !in env.supports then Conclude(env, s, t, Err(INVALID))
      else
        State(s.trace + [Made(Invoke(OperationOf(tool), v.fields))], s.calls[t := call.(phase := Running, position := Some(|s.trace|))])
    case Return(t, answer) => Conclude(env, s, t, Outcome(env, answer))
    case TimeOut(t) =>
      State(s.trace + [Replied(t, Limited(env, Err(Timeout)))], s.calls[t := s.calls[t].(replied := true)])
  }

  function Exec(server: Server, s: State, run: seq<Event>): Option<State>
    decreases |run|
  {
    if run == [] then Some(s)
    else
      match Exec(server, s, run[..|run| - 1])
      case None => None
      case Some(m) => if Enabled(m, run[|run| - 1]) then Some(Next(server, m, run[|run| - 1])) else None
  }

  // ------------------------------------------------------------ the invariant

  predicate At(trace: Trace, k: nat, h: Happening) {
    k < |trace| && trace[k] == h
  }

  /** A call of the runtime that may change memory or sessions. */
  predicate Writes(h: Happening) {
    h.Made? && h.call.Invoke? && !Harmless(h.call)
  }

  ghost predicate CallOk(env: Env, trace: Trace, c: ToolCall) {
    match c.plan
    case Err(_) => c.phase.Over? && c.question.None? && c.answer.None? && c.position.None?
    case Ok((tool, v)) =>
      && ToolNamed(c.name) == Some(tool)
      && (env.readOnly ==> v.safety.Read?)
      && (v.safety.Read? <==> Harmless(Invoke(OperationOf(tool), v.fields)))
      && (env.authorize.Some? <==> c.question.Some?)
      && (c.question.Some? ==> At(trace, c.question.value, Question(c.name, v)))
      && (c.answer.Some? ==> c.question.Some? && c.question.value < c.answer.value < |trace|)
      && (c.phase.Asking? ==> c.question.Some? && c.answer.None? && c.position.None?)
      && (c.phase.Cleared? ==> c.position.None?)
      && (c.phase.Running? ==> c.position.Some?)
      && ((c.phase.Cleared? || c.position.Some?) && c.question.Some? ==>
            c.answer.Some? && At(trace, c.answer.value, Settled(c.question.value, Allowed)))
      && (c.position.Some? ==>
            At(trace, c.position.value, Made(Invoke(OperationOf(tool), v.fields)))
            && (c.answer.Some? ==> c.answer.value < c.position.value))
  }

  /** No two calls share a question or a call of the runtime. */
  ghost predicate Own(calls: seq<ToolCall>) {
    forall t, u :: 0 <= t < u < |calls| ==>
      && (calls[t].question.Some? ==> calls[t].question != calls[u].question)
      && (calls[t].position.Some? ==> calls[t].position != calls[u].position)
  }

  predicate MadeBy(calls: seq<ToolCall>, t: nat, k: nat) {
    t < |calls| && calls[t].position == Some(k)
  }

  ghost predicate Covered(s: State) {
    forall k: nat :: k < |s.trace| && Writes(s.trace[k]) ==> exists t: nat :: MadeBy(s.calls, t, k)
  }

  ghost predicate AllOk(env: Env, trace: Trace, calls: seq<ToolCall>) {
    forall t :: 0 <= t < |calls| ==> CallOk(env, trace, calls[t])
  }

  ghost predicate Inv(env: Env, s: State) {
    AllOk(env, s.trace, s.calls) && Own(s.calls) && Covered(s)
  }

  lemma CallOkGrows(env: Env, trace: Trace, more: Trace, c: ToolCall)
    requires CallOk(env, trace, c)
    ensures CallOk(env, trace + more, c)
  {
    hide Harmless;
  }

  lemma AllOkGrows(env: Env, trace: Trace, more: Trace, calls: seq<ToolCall>)
    requires AllOk(env, trace, calls)
    ensures AllOk(env, trace + more, calls)
  {
    hide CallOk;
    forall t | 0 <= t < |calls|
      ensures CallOk(env, trace + more, calls[t])
    {
      CallOkGrows(env, trace, more, calls[t]);
    }
  }

  /** Places of the calls are inside the trace. */
  lemma Inside(env: Env, s: State, t: nat)
    requires Inv(env, s) && t < |s.calls|
    ensures s.calls[t].question.Some? ==> s.calls[t].question.value < |s.trace|
    ensures s.calls[t].position.Some? ==> s.calls[t].position.value < |s.trace|
  {
    hide Harmless;
    assert CallOk(env, s.trace, s.calls[t]);
  }

  ghost predicate NoWrites(more: Trace) {
    forall k :: 0 <= k < |more| ==> !Writes(more[k])
  }

  lemma WrittenBefore(trace: Trace, more: Trace, k: nat)
    requires k < |trace + more| && NoWrites(more)
    ensures Writes((trace + more)[k]) ==> k < |trace| && Writes(trace[k])
  {
    hide Writes;
    if k >= |trace| { assert (trace + more)[k] == more[k - |trace|]; }
  }

  /** Call `t` goes on; a write among what happens is its own. */
  lemma InvUpdate(env: Env, s: State, t: nat, c: ToolCall, more: Trace)
    requires Inv(env, s) && t < |s.calls| && CallOk(env, s.trace + more, c)
    requires c.question == s.calls[t].question
    requires c.position == s.calls[t].position || (s.calls[t].position.None? && c.position == Some(|s.trace|))
    requires forall k :: 0 <= k < |more| && Writes(more[k]) ==> c.position == Some(|s.trace| + k)
    ensures Inv(env, State(s.trace + more, s.calls[t := c]))
  {
    hide CallOk, Writes;
    var s' := State(s.trace + more, s.calls[t := c]);
    AllOkGrows(env, s.trace, more, s.calls);
    forall u | 0 <= u < |s.calls|
      ensures s.calls[u].position != Some(|s.trace|)
    {
      Inside(env, s, u);
    }
    forall k: nat | k < |s'.trace| && Writes(s'.trace[k])
      ensures exists u: nat :: MadeBy(s'.calls, u, k)
    {
      if k < |s.trace| {
        var u: nat :| MadeBy(s.calls, u, k);
        assert MadeBy(s'.calls, u, k);
      } else {
        assert more[k - |s.trace|] == s'.trace[k];
        assert MadeBy(s'.calls, t, k);
      }
    }
  }

  /** A new call, which has made none yet. */
  lemma InvAppend(env: Env, s: State, c: ToolCall, more: Trace)
    requires Inv(env, s) && CallOk(env, s.trace + more, c)
    requires c.position.None? && (c.question.Some? ==> c.question.value == |s.trace|)
    requires NoWrites(more)
    ensures Inv(env, State(s.trace + more, s.calls + [c]))
  {
    hide CallOk, Writes;
    var s' := State(s.trace + more, s.calls + [c]);
    AllOkGrows(env, s.trace, more, s.calls);
    forall u | 0 <= u < |s.calls|
      ensures s.calls[u].question.Some? ==> s.calls[u].question != c.question
    {
      Inside(env, s, u);
    }
    forall k: nat | k < |s'.trace| && Writes(s'.trace[k])
      ensures exists u: nat :: MadeBy(s'.calls, u, k)
    {
      WrittenBefore(s.trace, more, k);
      var u: nat :| MadeBy(s.calls, u, k);
      assert MadeBy(s'.calls, u, k);
    }
  }

  lemma InvQuiet(env: Env, s: State, more: Trace)
    requires Inv(env, s)
    requires NoWrites(more)
    ensures Inv(env, s.(trace := s.trace + more))
  {
    hide CallOk, Writes;
    var s' := s.(trace := s.trace + more);
    AllOkGrows(env, s.trace, more, s.calls);
    forall k: nat | k < |s'.trace| && Writes(s'.trace[k])
      ensures exists u: nat :: MadeBy(s'.calls, u, k)
    {
      WrittenBefore(s.trace, more, k);
      var u: nat :| MadeBy(s.calls, u, k);
    }
  }

  lemma PlanOk(env: Env, name: Text, rawArgs: Option<Json>)
    requires Plan(env, name, rawArgs).Ok?
    ensures var (tool, v) := Plan(env, name, rawArgs).value;
            && ToolNamed(name) == Some(tool)
            && (env.readOnly ==> v.safety.Read?)
            && (v.safety.Read? <==> Harmless(Invoke(OperationOf(tool), v.fields)))
  {
    hide ValidateTool, Harmless, ToolNamed, OperationOf;
    var args := if rawArgs.None? then Object([]) else rawArgs.value;
    var (tool, v) := Plan(env, name, rawArgs).value;
    assert ValidateTool(tool, args.members, env.maxPageSize, env.checks) == Ok(v);
    ReadsAreHarmless(tool, args.members, env.maxPageSize, env.checks);
  }

  lemma InvAdmit(env: Env, s: State, name: Text, rawArgs: Option<Json>)
    requires Inv(env, s)
    ensures Inv(env, Admit(env, s, name, rawArgs))
  {
    hide Plan, Inv, Harmless, ToolNamed;
    var s' := Admit(env, s, name, rawArgs);
    var c := s'.calls[|s.calls|];
    if c.plan.Ok? { PlanOk(env, name, rawArgs); }
    var more := s'.trace[|s.trace|..];
    assert s'.trace == s.trace + more;
    InvAppend(env, s, c, more);
  }

  lemma ReadMakesNoWrite(server: Server, uri: Text)
    ensures NoWrites(MadeAll(ReadResource(server, uri, []).history))
  {
    hide Harmless;
    var parsed := Locate(server, uri);
    if parsed.Some? && SourceOperation(parsed.value.source).Some? {
      var operation := SourceOperation(parsed.value.source).value;
      assert Harmless(Invoke(operation, parsed.value.args)) by { SourcesAreHarmless(parsed.value.source, parsed.value.args); }
      assert ReadResource(server, uri, []).history in {[], [] + [Invoke(operation, parsed.value.args)]};
      assert MadeAll([Invoke(operation, parsed.value.args)]) == [Made(Invoke(operation, parsed.value.args))];
    }
  }

  lemma SourcesAreHarmless(source: Source, args: Args)
    requires SourceOperation(source).Some?
    ensures Harmless(Invoke(SourceOperation(source).value, args))
  {
  }

  lemma InvStart(server: Server, s: State, message: Json)
    requires Inv(server.env, s)
    ensures Inv(server.env, Start(server, s, message))
  {
    hide Inv, Admit, ReadResource, MadeAll, NoWrites, MethodNamed, ValidateRequest, Lookup, TextParam;
    match ValidateRequest(message)
    case Err(_) =>
    case Ok(request) =>
      var params := if request.params.Some? then request.params.value else [];
      var name, uri := TextParam(params, NameKey()), TextParam(params, UriKey());
      if name.Some? { InvAdmit(server.env, s, name.value, Lookup(params, ArgumentsKey())); }
      if uri.Some? {
        ReadMakesNoWrite(server, uri.value);
        InvQuiet(server.env, s, MadeAll(ReadResource(server, uri.value, []).history));
      }
  }

  lemma InvConclude(env: Env, s: State, t: nat, result: Result<ToolReply, Error>)
    requires Inv(env, s) && t < |s.calls|
    ensures Inv(env, Conclude(env, s, t, result))
  {
    hide Inv, Harmless, Limited, ToolNamed;
    var more: Trace := if s.calls[t].replied then [] else [Replied(t, Limited(env, result))];
    assert CallOk(env, s.trace, s.calls[t]) by { EachOk(env, s, t); }
    CallOkGrows(env, s.trace, more, s.calls[t]);
    InvUpdate(env, s, t, s.calls[t].(phase := Over, replied := true), more);
  }

  lemma EachOk(env: Env, s: State, t: nat)
    requires Inv(env, s) && t < |s.calls|
    ensures CallOk(env, s.trace, s.calls[t])
  {
  }

  lemma InvSettle(server: Server, s: State, t: nat, verdict: Verdict)
    requires Inv(server.env, s) && Enabled(s, Settle(t, verdict))
    ensures Inv(server.env, Next(server, s, Settle(t, verdict)))
  {
    hide Inv, Harmless, Limited, ToolNamed;
    var env, c := server.env, s.calls[t];
    var more: Trace := [Settled(c.question.value, verdict)];
    EachOk(env, s, t);
    CallOkGrows(env, s.trace, more, c);
    if verdict.Allowed? {
      InvUpdate(env, s, t, c.(phase := Cleared, answer := Some(|s.trace|)), more);
    } else {
      var error := if verdict.Denied? then Authorization else verdict.error;
      var more' := more + (if c.replied then [] else [Replied(t, Limited(env, Err(error)))]);
      CallOkGrows(env, s.trace, more', c);
      InvUpdate(env, s, t, c.(phase := Over, answer := Some(|s.trace|), replied := true), more');
      var s' := Next(server, s, Settle(t, verdict));
      assert s'.trace == s.trace + more';
      assert s'.calls == s.calls[t := c.(phase := Over, answer := Some(|s.trace|), replied := true)];
    }
  }

  lemma InvExecute(server: Server, s: State, t: nat)
    requires Inv(server.env, s) && Enabled(s, Execute(t))
    ensures Inv(server.env, Next(server, s, Execute(t)))
  {
    hide Inv, Harmless, Limited, ToolNamed;
    var env, c := server.env, s.calls[t];
    var (tool, v) := c.plan.value;
    EachOk(env, s, t);
    if OperationOf(tool) !in env.supports {
      InvConclude(env, s, t, Err(INVALID));
    } else {
      var more: Trace := [Made(Invoke(OperationOf(tool), v.fields))];
      CallOkGrows(env, s.trace, more, c);
      InvUpdate(env, s, t, c.(phase := Running, position := Some(|s.trace|)), more);
    }
  }

  lemma InvTimeOut(server: Server, s: State, t: nat)
    requires Inv(server.env, s) && Enabled(s, TimeOut(t))
    ensures Inv(server.env, Next(server, s, TimeOut(t)))
  {
    hide Inv, Harmless, Limited, ToolNamed;
    var more: Trace := [Replied(t, Limited(server.env, Err(Timeout)))];
    EachOk(server.env, s, t);
    CallOkGrows(server.env, s.trace, more, s.calls[t]);
    InvUpdate(server.env, s, t, s.calls[t].(replied := true), more);
  }

  lemma InvNext(server: Server, s: State, e: Event)
    requires Inv(server.env, s) && Enabled(s, e)
    ensures Inv(server.env, Next(server, s, e))
  {
    match e
    case Begin(message) =>
      hide *;
      InvStart(server, s, message);
      assert Next(server, s, e) == Start(server, s, message) by { BeginIsStart(server, s, message); }
    case Settle(t, verdict) => hide *; InvSettle(server, s, t, verdict);
    case Execute(t) => hide *; InvExecute(server, s, t);
    case Return(t, answer) => hide Inv; InvConclude(server.env, s, t, Outcome(server.env, answer));
    case TimeOut(t) => hide *; InvTimeOut(server, s, t);
  }

  lemma BeginIsStart(server: Server, s: State, message: Json)
    ensures Next(server, s, Begin(message)) == Start(server, s, message)
  {
  }

  /** After any interleaving every call is where its own question, answer and call of the runtime put it. */
  lemma {:induction false} InvReachable(server: Server, run: seq<Event>)
    requires Exec(server, INIT, run).Some?
    ensures Inv(server.env, Exec(server, INIT, run).value)
    decreases |run|
  {
    hide Next, Enabled, Inv;
    if run == [] {
      assert Inv(server.env, INIT) by { InvInit(server.env); }
    } else {
      InvReachable(server, run[..|run| - 1]);
      InvNext(server, Exec(server, INIT, run[..|run| - 1]).value, run[|run| - 1]);
    }
  }

  lemma InvInit(env: Env)
    ensures Inv(env, INIT)
  {
  }

  // -------------------------------------------------------------- guarantees

  /** The question at `q` was put for the tool and the arguments of the write at `k`, and allowed before it. */
  ghost predicate Permits(trace: Trace, q: nat, k: nat)
    requires k < |trace| && Writes(trace[k])
  {
    && q < k && trace[q].Made? && trace[q].call.Authorize?
    && trace[q].call.safety == Write && trace[q].call.args == trace[k].call.args
    && ToolNamed(trace[q].call.tool).Some? && OperationOf(ToolNamed(trace[q].call.tool).value) == trace[k].call.operation
    && exists a :: q < a < k && trace[a] == Settled(q, Allowed)
  }

  ghost function WriterOf(s: State, k: nat): (t: nat)
    requires exists t: nat :: MadeBy(s.calls, t, k)
    ensures MadeBy(s.calls, t, k)
  {
    var t: nat :| MadeBy(s.calls, t, k);
    t
  }

  lemma WritePermitted(env: Env, s: State, t: nat, k: nat)
    requires Inv(env, s) && MadeBy(s.calls, t, k) && k < |s.trace| && Writes(s.trace[k]) && env.authorize.Some?
    ensures s.calls[t].question.Some? && Permits(s.trace, s.calls[t].question.value, k)
  {
    hide Harmless, ToolNamed;
    EachOk(env, s, t);
  }

  /**
   With an authorization callback, after any interleaving, every call that may
   write has its own permission: a question for a write with the same arguments,
   answered `Allowed` before it, which serves no other write.
   */
  lemma EveryWriteIsPermitted(server: Server, run: seq<Event>) returns (permission: map<nat, nat>)
    requires Exec(server, INIT, run).Some? && server.env.authorize.Some?
    ensures var trace := Exec(server, INIT, run).value.trace;
            && (forall k: nat :: k in permission <==> k < |trace| && Writes(trace[k]))
            && (forall k :: k in permission ==> Permits(trace, permission[k], k))
            && (forall k, l :: k in permission && l in permission && k != l ==> permission[k] != permission[l])
  {
    hide Exec, Writes, CallOk, AllOk, Permits;
    InvReachable(server, run);
    var s := Exec(server, INIT, run).value;
    forall k: nat | k < |s.trace| && Writes(s.trace[k])
      ensures exists t: nat :: MadeBy(s.calls, t, k)
      ensures s.calls[WriterOf(s, k)].question.Some? && Permits(s.trace, s.calls[WriterOf(s, k)].question.value, k)
    {
      WritePermitted(server.env, s, WriterOf(s, k), k);
    }
    permission := map k: nat | 0 <= k < |s.trace| && Writes(s.trace[k]) :: s.calls[WriterOf(s, k)].question.value;
    forall k, l | k in permission && l in permission && k != l
      ensures permission[k] != permission[l]
    {
      var t, u := WriterOf(s, k), WriterOf(s, l);
      assert t != u;
    }
  }

  /** After any interleaving a read-only server has made harmless calls only. */
  lemma ReadOnlyAlways(server: Server, run: seq<Event>)
    requires Exec(server, INIT, run).Some? && server.env.readOnly
    ensures var trace := Exec(server, INIT, run).value.trace;
            forall k :: 0 <= k < |trace| && trace[k].Made? ==> Harmless(trace[k].call)
  {
    hide Exec, Harmless, AllOk;
    InvReachable(server, run);
    var s := Exec(server, INIT, run).value;
    forall k | 0 <= k < |s.trace| && s.trace[k].Made?
      ensures Harmless(s.trace[k].call)
    {
      if s.trace[k].call.Authorize? {
        AskingIsHarmless(server.env, [], Validated([], Read, None), []);
      } else if Writes(s.trace[k]) {
        NotWhenReadOnly(server.env, s, WriterOf(s, k), k);
      }
    }
  }

  lemma NotWhenReadOnly(env: Env, s: State, t: nat, k: nat)
    requires Inv(env, s) && MadeBy(s.calls, t, k) && k < |s.trace| && env.readOnly
    ensures !Writes(s.trace[k])
  {
    hide Harmless, ToolNamed;
    EachOk(env, s, t);
  }

  // ---------------------------------------------------------- when it is next

  /** Nothing was asked of the host between the question and the call it was put for. */
  ghost predicate Adjacent(trace: Trace, c: ToolCall)
    requires c.question.Some? && c.position.Some? && c.position.value <= |trace|
  {
    forall i :: c.question.value < i < c.position.value ==> !trace[i].Made?
  }

  /** Asked for, but neither made nor refused so far. */
  predicate Waits(c: ToolCall) {
    c.position.None? && !c.phase.Over?
  }

  ghost predicate CallsHost(server: Server, s: State, e: Event)
    requires Enabled(s, e)
  {
    exists k :: |s.trace| <= k < |Next(server, s, e).trace| && Next(server, s, e).trace[k].Made?
  }

  /** In the course of the run some other request called the host while `t` waited. */
  ghost predicate Overlapped(server: Server, run: seq<Event>, t: nat)
    requires Exec(server, INIT, run).Some?
    decreases |run|
  {
    run != [] &&
    (var n := |run| - 1;
     var m := Exec(server, INIT, run[..n]).value;
     || Overlapped(server, run[..n], t)
     || (t < |m.calls| && Waits(m.calls[t]) && run[n] != Execute(t) && CallsHost(server, m, run[n])))
  }

  /** What an event does to a call that is there, and to the trace. */
  lemma NextShape(server: Server, s: State, e: Event, t: nat)
    requires Enabled(s, e)
    ensures s.trace <= Next(server, s, e).trace
    ensures |s.calls| <= |Next(server, s, e).calls|
    ensures t < |s.calls| ==>
              var c, c' := s.calls[t], Next(server, s, e).calls[t];
              && c'.question == c.question
              && (c'.position == c.position || (e == Execute(t) && c.phase.Cleared? && c'.position == Some(|s.trace|)))
              && (Waits(c') ==> Waits(c))
              && (e == Execute(t) ==> !Waits(c'))
    ensures |s.calls| <= t < |Next(server, s, e).calls| ==>
              var c' := Next(server, s, e).calls[t];
              c'.position.None? && (c'.question.Some? ==>
                t == |s.calls| && c'.question == Some(|s.trace|) && |Next(server, s, e).trace| == |s.trace| + 1)
  {
    hide Plan, Limited, ReadResource, MadeAll, MethodNamed, ValidateRequest, Lookup, TextParam, Outcome;
  }

  lemma {:induction false} OverlappedIsThere(server: Server, run: seq<Event>, t: nat)
    requires Exec(server, INIT, run).Some? && Overlapped(server, run, t)
    ensures t < |Exec(server, INIT, run).value.calls|
    decreases |run|
  {
    hide Next, Enabled, CallsHost;
    var n := |run| - 1;
    NextShape(server, Exec(server, INIT, run[..n]).value, run[n], t);
    if Overlapped(server, run[..n], t) { OverlappedIsThere(server, run[..n], t); }
  }

  /** Something was asked of the host after the question of `c`, and before its own call if it has made it. */
  ghost predicate Crossed(trace: Trace, c: ToolCall)
    requires c.question.Some?
  {
    exists i :: c.question.value < i < |trace| && (c.position.Some? ==> i < c.position.value) && trace[i].Made?
  }

  /** One event crosses a call that waits exactly when it calls the host for another. */
  lemma CrossedStep(server: Server, s: State, e: Event, t: nat)
    requires Inv(server.env, s) && Enabled(s, e) && t < |s.calls| && s.calls[t].question.Some?
    requires var c' := Next(server, s, e).calls; t < |c'| && (Waits(c'[t]) || c'[t].position.Some?)
    ensures var s' := Next(server, s, e);
            && s'.calls[t].question.Some?
            && (Crossed(s'.trace, s'.calls[t]) <==>
                  || Crossed(s.trace, s.calls[t])
                  || (Waits(s.calls[t]) && e != Execute(t) && CallsHost(server, s, e)))
  {
    hide Inv, Next, Enabled;
    NextShape(server, s, e, t);
    Inside(server.env, s, t);
    ClearedWaits(server.env, s, t);
    var s', c := Next(server, s, e), s.calls[t];
    if Crossed(s.trace, c) {
      var i :| c.question.value < i < |s.trace| && (c.position.Some? ==> i < c.position.value) && s.trace[i].Made?;
      assert s'.trace[i].Made?;
    }
    if Crossed(s'.trace, s'.calls[t]) {
      var i :| c.question.value < i < |s'.trace| && (s'.calls[t].position.Some? ==> i < s'.calls[t].position.value) && s'.trace[i].Made?;
      if i < |s.trace| { assert s.trace[i].Made?; }
    }
  }

  lemma {:induction false} CrossedIffOverlapped(server: Server, run: seq<Event>, t: nat)
    requires Exec(server, INIT, run).Some?
    requires var s := Exec(server, INIT, run).value;
             t < |s.calls| && s.calls[t].question.Some? && (Waits(s.calls[t]) || s.calls[t].position.Some?)
    ensures var s := Exec(server, INIT, run).value; Crossed(s.trace, s.calls[t]) <==> Overlapped(server, run, t)
    decreases |run|
  {
    hide Next, Enabled, Inv, Crossed, CallsHost;
    var n := |run| - 1;
    var m := Exec(server, INIT, run[..n]).value;
    NextShape(server, m, run[n], t);
    if t < |m.calls| {
      InvReachable(server, run[..n]);
      CrossedStep(server, m, run[n], t);
      CrossedIffOverlapped(server, run[..n], t);
    } else {
      if Overlapped(server, run[..n], t) { OverlappedIsThere(server, run[..n], t); }
      assert !Crossed(Next(server, m, run[n]).trace, Next(server, m, run[n]).calls[t]) by { NewIsUncrossed(server, m, run[n], t); }
    }
  }

  lemma NewIsUncrossed(server: Server, s: State, e: Event, t: nat)
    requires Enabled(s, e) && |s.calls| <= t < |Next(server, s, e).calls| && Next(server, s, e).calls[t].question.Some?
    ensures !Crossed(Next(server, s, e).trace, Next(server, s, e).calls[t])
  {
    hide Next, Enabled;
    NextShape(server, s, e, t);
  }

  /**
   A call of the runtime comes right after its own permission exactly when no
   other request called the host while it waited for it.
   */
  lemma AdjacentIffAlone(server: Server, run: seq<Event>, t: nat)
    requires Exec(server, INIT, run).Some? && server.env.authorize.Some?
    requires var s := Exec(server, INIT, run).value; t < |s.calls| && s.calls[t].position.Some?
    ensures var s := Exec(server, INIT, run).value;
            && s.calls[t].question.Some? && s.calls[t].position.value <= |s.trace|
            && (Adjacent(s.trace, s.calls[t]) <==> !Overlapped(server, run, t))
  {
    hide Exec, Overlapped, Inv;
    InvReachable(server, run);
    var s := Exec(server, INIT, run).value;
    Inside(server.env, s, t);
    assert s.calls[t].question.Some? by { HasQuestion(server.env, s, t); }
    CrossedIffOverlapped(server, run, t);
  }

  lemma ClearedWaits(env: Env, s: State, t: nat)
    requires Inv(env, s) && t < |s.calls|
    ensures s.calls[t].phase.Cleared? ==> Waits(s.calls[t])
  {
    hide Harmless, ToolNamed;
    EachOk(env, s, t);
  }

  lemma HasQuestion(env: Env, s: State, t: nat)
    requires Inv(env, s) && env.authorize.Some? && t < |s.calls| && s.calls[t].position.Some?
    ensures s.calls[t].question.Some?
  {
    hide Harmless, ToolNamed;
    EachOk(env, s, t);
  }

  /**
   Whenever another request calls the host while a permitted tool call waits for
   its permission, that permission, given next, lets the call come out of turn.
   */
  lemma OverlapBreaksAdjacency(server: Server, run: seq<Event>, t: nat, e: Event) returns (longer: seq<Event>)
    requires Exec(server, INIT, run).Some?
    requires var s := Exec(server, INIT, run).value;
             && t < |s.calls| && s.calls[t].phase.Asking? && s.calls[t].plan.Ok?
             && OperationOf(s.calls[t].plan.value.0) in server.env.supports
             && Enabled(s, e) && !(e.Settle? && e.t == t) && CallsHost(server, s, e)
    ensures Exec(server, INIT, longer).Some? && run <= longer
    ensures var s := Exec(server, INIT, longer).value;
            && t < |s.calls| && s.calls[t].question.Some? && s.calls[t].position.Some? && s.calls[t].position.value <= |s.trace|
            && !Adjacent(s.trace, s.calls[t])
  {
    hide Exec, Overlapped, Inv, CallsHost, Next, Adjacent;
    var s := Exec(server, INIT, run).value;
    InvReachable(server, run);
    AskingHasQuestion(server.env, s, t);
    var s1 := Next(server, s, e);
    ExecStep(server, run, s, e);
    OtherWaits(server, s, e, t);
    var s2 := Next(server, s1, Settle(t, Allowed));
    ExecStep(server, run + [e], s1, Settle(t, Allowed));
    AllowedIsMade(server, s1, t);
    var s3 := Next(server, s2, Execute(t));
    ExecStep(server, run + [e] + [Settle(t, Allowed)], s2, Execute(t));
    longer := run + [e] + [Settle(t, Allowed)] + [Execute(t)];
    OverlapStays(server, run, s, e, t);
    OverlapGrows(server, run + [e], Settle(t, Allowed), t);
    OverlapGrows(server, run + [e] + [Settle(t, Allowed)], Execute(t), t);
    Asked(server, longer, t);
    AdjacentIffAlone(server, longer, t);
  }

  lemma ExecStep(server: Server, run: seq<Event>, s: State, e: Event)
    requires Exec(server, INIT, run) == Some(s) && Enabled(s, e)
    ensures Exec(server, INIT, run + [e]) == Some(Next(server, s, e))
  {
    hide Next, Enabled;
    assert (run + [e])[..|run|] == run;
  }

  lemma AskingHasQuestion(env: Env, s: State, t: nat)
    requires Inv(env, s) && t < |s.calls| && s.calls[t].phase.Asking?
    ensures s.calls[t].question.Some? && s.calls[t].position.None? && env.authorize.Some?
  {
    hide Harmless, ToolNamed;
    EachOk(env, s, t);
  }

  lemma Asked(server: Server, run: seq<Event>, t: nat)
    requires Exec(server, INIT, run).Some? && t < |Exec(server, INIT, run).value.calls|
    requires Exec(server, INIT, run).value.calls[t].question.Some?
    ensures server.env.authorize.Some?
  {
    hide Harmless, ToolNamed, Exec;
    InvReachable(server, run);
    EachOk(server.env, Exec(server, INIT, run).value, t);
  }

  lemma OtherWaits(server: Server, s: State, e: Event, t: nat)
    requires Enabled(s, e) && t < |s.calls| && s.calls[t].phase.Asking? && s.calls[t].question.Some?
    requires !(e.Settle? && e.t == t)
    ensures var s' := Next(server, s, e);
            && t < |s'.calls| && s'.calls[t].phase.Asking? && s'.calls[t].question.Some? && s'.calls[t].plan == s.calls[t].plan
  {
    hide Plan, Limited, ReadResource, MadeAll, MethodNamed, ValidateRequest, Lookup, TextParam, Outcome;
  }

  lemma AllowedIsMade(server: Server, s: State, t: nat)
    requires Enabled(s, Settle(t, Allowed)) && s.calls[t].plan.Ok? && OperationOf(s.calls[t].plan.value.0) in server.env.supports
    ensures var s' := Next(server, s, Settle(t, Allowed));
            && Enabled(s', Execute(t))
            && var s2 := Next(server, s', Execute(t));
               t < |s2.calls| && s2.calls[t].question.Some? && s2.calls[t].position.Some? && s2.calls[t].position.value < |s2.trace|
  {
  }

  lemma OverlapStays(server: Server, run: seq<Event>, s: State, e: Event, t: nat)
    requires Exec(server, INIT, run) == Some(s) && Enabled(s, e) && Exec(server, INIT, run + [e]).Some?
    requires t < |s.calls| && Waits(s.calls[t]) && e != Execute(t) && CallsHost(server, s, e)
    ensures Overlapped(server, run + [e], t)
  {
    hide Next, Enabled, CallsHost;
    assert (run + [e])[..|run|] == run;
  }

  lemma OverlapGrows(server: Server, run: seq<Event>, e: Event, t: nat)
    requires Exec(server, INIT, run).Some? && Exec(server, INIT, run + [e]).Some? && Overlapped(server, run, t)
    ensures Overlapped(server, run + [e], t)
  {
    hide Next, Enabled, CallsHost;
    assert (run + [e])[..|run|] == run;
  }

  // ------------------------------------------------------------------ answers

  predicate Answers(h: Happening, t: nat) {
    h.Replied? && h.number == t
  }

  /** Every answer belongs to a call answered, which has just the one; what is over is answered. */
  ghost predicate AnsweredOnce(s: State) {
    && (forall i :: 0 <= i < |s.trace| && s.trace[i].Replied? ==> s.trace[i].number < |s.calls| && s.calls[s.trace[i].number].replied)
    && (forall i, j :: 0 <= i < j < |s.trace| && s.trace[i].Replied? && s.trace[j].Replied? ==> s.trace[i].number != s.trace[j].number)
    && (forall t: nat :: t < |s.calls| && s.calls[t].replied ==> exists i: nat :: i < |s.trace| && Answers(s.trace[i], t))
    && (forall t: nat :: t < |s.calls| && s.calls[t].phase.Over? ==> s.calls[t].replied)
  }

  ghost predicate NoAnswers(more: Trace) {
    forall k :: 0 <= k < |more| ==> !more[k].Replied?
  }

  lemma AnswerPlace(trace: Trace, more: Trace, reply: Trace, i: nat)
    requires NoAnswers(more) && i < |trace + more + reply|
    ensures (trace + more + reply)[i].Replied? ==> i < |trace| || |trace| + |more| <= i
  {
    if |trace| <= i < |trace| + |more| { assert (trace + more + reply)[i] == more[i - |trace|]; }
  }

  /** Call `t`, which may be a new one, changes; the answer is its first if there is one among what happens. */
  lemma AnsweredUpdate(s: State, s': State, t: nat, more: Trace, reply: Trace)
    requires AnsweredOnce(s) && NoAnswers(more) && s'.trace == s.trace + more + reply
    requires t < |s'.calls| && |s.calls| <= |s'.calls| && |s'.calls| <= if t < |s.calls| then |s.calls| else t + 1
    requires forall u :: 0 <= u < |s.calls| && u != t ==> s'.calls[u] == s.calls[u]
    requires s'.calls[t].phase.Over? ==> s'.calls[t].replied
    requires if t < |s.calls| && s.calls[t].replied then reply == [] && s'.calls[t].replied
             else if s'.calls[t].replied then |reply| == 1 && Answers(reply[0], t) else reply == []
    requires t <= |s.calls|
    ensures AnsweredOnce(s')
  {
    forall i | 0 <= i < |s'.trace| && s'.trace[i].Replied?
      ensures i < |s.trace| || (i == |s'.trace| - 1 && |reply| == 1)
    {
      AnswerPlace(s.trace, more, reply, i);
    }
    forall u: nat | u < |s'.calls| && s'.calls[u].replied
      ensures exists i: nat :: i < |s'.trace| && Answers(s'.trace[i], u)
    {
      if u < |s.calls| && s.calls[u].replied {
        var i: nat :| i < |s.trace| && Answers(s.trace[i], u);
        assert Answers(s'.trace[i], u);
      } else {
        assert Answers(s'.trace[|s'.trace| - 1], u);
      }
    }
  }

  lemma AnsweredQuiet(s: State, more: Trace)
    requires AnsweredOnce(s) && NoAnswers(more)
    ensures AnsweredOnce(s.(trace := s.trace + more))
  {
    var s' := s.(trace := s.trace + more);
    forall i | 0 <= i < |s'.trace| && s'.trace[i].Replied?
      ensures i < |s.trace|
    {
      AnswerPlace(s.trace, more, [], i);
      assert s.trace + more + [] == s'.trace;
    }
    forall u: nat | u < |s'.calls| && s'.calls[u].replied
      ensures exists i: nat :: i < |s'.trace| && Answers(s'.trace[i], u)
    {
      var i: nat :| i < |s.trace| && Answers(s.trace[i], u);
      assert Answers(s'.trace[i], u);
    }
  }

  lemma AnsweredConclude(env: Env, s: State, t: nat, result: Result<ToolReply, Error>)
    requires AnsweredOnce(s) && t < |s.calls|
    ensures AnsweredOnce(Conclude(env, s, t, result))
  {
    hide Limited, AnsweredOnce;
    var reply: Trace := if s.calls[t].replied then [] else [Replied(t, Limited(env, result))];
    assert s.trace + [] + reply == s.trace + reply;
    AnsweredUpdate(s, Conclude(env, s, t, result), t, [], reply);
  }

  /** The call goes on without an answer. */
  lemma AnsweredOnward(s: State, t: nat, c: ToolCall, more: Trace)
    requires AnsweredOnce(s) && t < |s.calls| && NoAnswers(more) && !c.phase.Over? && c.replied == s.calls[t].replied
    ensures AnsweredOnce(State(s.trace + more, s.calls[t := c]))
  {
    hide AnsweredOnce;
    assert s.trace + more + [] == s.trace + more;
    AnsweredUpdate(s, State(s.trace + more, s.calls[t := c]), t, more, []);
  }

  lemma AnsweredAdmit(env: Env, s: State, name: Text, rawArgs: Option<Json>)
    requires AnsweredOnce(s)
    ensures AnsweredOnce(Admit(env, s, name, rawArgs))
  {
    hide Plan, AnsweredOnce, Limited;
    var s' := Admit(env, s, name, rawArgs);
    var more := s'.trace[|s.trace|..];
    assert s.trace + [] + more == s.trace + more + [] == s'.trace;
    if Plan(env, name, rawArgs).Err? {
      AnsweredUpdate(s, s', |s.calls|, [], more);
    } else {
      AnsweredUpdate(s, s', |s.calls|, more, []);
    }
  }

  lemma {:induction false} CallsAreNoAnswers(calls: History)
    ensures NoAnswers(MadeAll(calls))
  {
    if calls != [] { CallsAreNoAnswers(calls[..|calls| - 1]); }
  }

  lemma AnsweredStart(server: Server, s: State, message: Json)
    requires AnsweredOnce(s)
    ensures AnsweredOnce(Start(server, s, message))
  {
    hide AnsweredOnce, Admit, ReadResource, MadeAll, NoAnswers, MethodNamed, ValidateRequest, Lookup, TextParam;
    match ValidateRequest(message)
    case Err(_) =>
    case Ok(request) =>
      var params := if request.params.Some? then request.params.value else [];
      var name, uri := TextParam(params, NameKey()), TextParam(params, UriKey());
      if name.Some? { AnsweredAdmit(server.env, s, name.value, Lookup(params, ArgumentsKey())); }
      if uri.Some? {
        var calls := ReadResource(server, uri.value, []).history;
        CallsAreNoAnswers(calls);
        AnsweredQuiet(s, MadeAll(calls));
      }
  }

  lemma AnsweredNext(server: Server, s: State, e: Event)
    requires AnsweredOnce(s) && Enabled(s, e)
    ensures AnsweredOnce(Next(server, s, e))
  {
    hide AnsweredOnce, Start, Conclude, Limited, Outcome;
    var env := server.env;
    match e
    case Begin(message) => AnsweredStart(server, s, message);
    case Settle(t, verdict) =>
      var more: Trace := [Settled(s.calls[t].question.value, verdict)];
      var c := s.calls[t].(phase := Cleared, answer := Some(|s.trace|));
      AnsweredOnward(s, t, c, more);
      var settled := State(s.trace + more, s.calls[t := c]);
      if verdict.Denied? { AnsweredConclude(env, settled, t, Err(Authorization)); }
      if verdict.Refused? { AnsweredConclude(env, settled, t, Err(verdict.error)); }
    case Execute(t) =>
      var (tool, v) := s.calls[t].plan.value;
      AnsweredConclude(env, s, t, Err(INVALID));
      AnsweredOnward(s, t, s.calls[t].(phase := Running, position := Some(|s.trace|)), [Made(Invoke(OperationOf(tool), v.fields))]);
    case Return(t, answer) => AnsweredConclude(env, s, t, Outcome(env, answer));
    case TimeOut(t) => AnsweredTimeOut(server, s, t);
  }

  lemma AnsweredTimeOut(server: Server, s: State, t: nat)
    requires AnsweredOnce(s) && Enabled(s, TimeOut(t))
    ensures AnsweredOnce(Next(server, s, TimeOut(t)))
  {
    hide Limited;
    var reply: Trace := [Replied(t, Limited(server.env, Err(Timeout)))];
    assert s.trace + [] + reply == s.trace + reply;
    AnsweredUpdate(s, Next(server, s, TimeOut(t)), t, [], reply);
  }

  /** Whatever the interleaving, no request of a tool is answered twice, and each one is once its call is over. */
  lemma {:induction false} EachAnsweredOnce(server: Server, run: seq<Event>)
    requires Exec(server, INIT, run).Some?
    ensures AnsweredOnce(Exec(server, INIT, run).value)
    decreases |run|
  {
    hide Next, Enabled, AnsweredOnce;
    if run == [] {
      assert AnsweredOnce(INIT) by { NoneAnswered(); }
    } else {
      EachAnsweredOnce(server, run[..|run| - 1]);
      AnsweredNext(server, Exec(server, INIT, run[..|run| - 1]).value, run[|run| - 1]);
    }
  }

  lemma NoneAnswered()
    ensures AnsweredOnce(INIT)
  {
  }

  /** What the event has to say of call `t`, within the limit: why it is refused, what the runtime answered, or that it took too long. */
  predicate Tells(server: Server, s: State, e: Event, t: nat, reply: Result<ToolReply, Error>)
    requires Enabled(s, e)
  {
    var env := server.env;
    match e
    case Begin(_) =>
      var calls := Next(server, s, e).calls;
      t == |s.calls| < |calls| && calls[t].plan.Err? && reply == Limited(env, Err(calls[t].plan.error))
    case Settle(u, verdict) =>
      u == t && !verdict.Allowed? && reply == Limited(env, Err(if verdict.Refused? then verdict.error else Authorization))
    case Execute(u) =>
      u == t && OperationOf(s.calls[t].plan.value.0) !in env.supports && reply == Limited(env, Err(INVALID))
    case Return(u, answer) => u == t && reply == Limited(env, Outcome(env, answer))
    case TimeOut(u) => u == t && reply == Limited(env, Err(Timeout))
  }

  ghost predicate ToldAt(server: Server, run: seq<Event>, i: nat, t: nat, reply: Result<ToolReply, Error>) {
    && i < |run| && Exec(server, INIT, run[..i]).Some?
    && var m := Exec(server, INIT, run[..i]).value;
       Enabled(m, run[i]) && Tells(server, m, run[i], t, reply)
  }

  ghost predicate Told(server: Server, run: seq<Event>, t: nat, reply: Result<ToolReply, Error>) {
    exists i :: 0 <= i < |run| && ToldAt(server, run, i, t, reply)
  }

  lemma ToldStill(server: Server, run: seq<Event>, e: Event, t: nat, reply: Result<ToolReply, Error>)
    requires Told(server, run, t, reply)
    ensures Told(server, run + [e], t, reply)
  {
    hide Exec, Tells;
    var i :| 0 <= i < |run| && ToldAt(server, run, i, t, reply);
    assert (run + [e])[..i] == run[..i] && (run + [e])[i] == run[i];
    assert ToldAt(server, run + [e], i, t, reply);
  }

  lemma NewAnswersTell(server: Server, s: State, e: Event, k: nat)
    requires Enabled(s, e) && |s.trace| <= k < |Next(server, s, e).trace| && Next(server, s, e).trace[k].Replied?
    ensures var h := Next(server, s, e).trace[k]; Tells(server, s, e, h.number, h.reply)
  {
    hide Limited, Outcome, ValidateRequest, MethodNamed, TextParam, Lookup, ReadResource, Plan, MadeAll;
    if e.Begin? { StartAnswers(server, s, e.message, k); }
  }

  lemma StartAnswers(server: Server, s: State, message: Json, k: nat)
    requires |s.trace| <= k < |Start(server, s, message).trace| && Start(server, s, message).trace[k].Replied?
    ensures var h, calls := Start(server, s, message).trace[k], Start(server, s, message).calls;
            && h.number == |s.calls| < |calls| && calls[h.number].plan.Err?
            && h.reply == Limited(server.env, Err(calls[h.number].plan.error))
  {
    hide Limited, MethodNamed, TextParam, Lookup, ReadResource, Plan, MadeAll;
    match ValidateRequest(message)
    case Err(_) =>
    case Ok(request) =>
      var params := if request.params.Some? then request.params.value else [];
      var uri := TextParam(params, UriKey());
      if uri.Some? { CallsAreNoAnswers(ReadResource(server, uri.value, []).history); }
  }

  /** Whatever the interleaving, every answer is what some event of the run had to say of that very call. */
  lemma {:induction false} AnswersAreTold(server: Server, run: seq<Event>, k: nat)
    requires Exec(server, INIT, run).Some? && k < |Exec(server, INIT, run).value.trace|
    ensures var h := Exec(server, INIT, run).value.trace[k]; h.Replied? ==> Told(server, run, h.number, h.reply)
    decreases |run|
  {
    hide Tells, Enabled, Next;
    if run != [] {
      var n := |run| - 1;
      var front, e := run[..n], run[n];
      var m := Exec(server, INIT, front).value;
      assert run == front + [e];
      NextShape(server, m, e, 0);
      var h := Exec(server, INIT, run).value.trace[k];
      if h.Replied? {
        if k < |m.trace| {
          AnswersAreTold(server, front, k);
          ToldStill(server, front, e, h.number, h.reply);
        } else {
          NewAnswersTell(server, m, e, k);
          assert ToldAt(server, run, n, h.number, h.reply);
          assert Told(server, run, h.number, h.reply);
        }
      }
    }
  }

  // -------------------------------------------------- what the run asked for

  /** The call of a tool that a message asks for, if it does: its name and its arguments. */
  function ToolCallOf(message: Json): Option<(Text, Option<Json>)> {
    if !IsCall(message) || !CallMethod(message).ToolsCall? then None
    else
      match Lookup(CallParams(message), NameKey())
      case Some(String(name)) => Some((name, Lookup(CallParams(message), ArgumentsKey())))
      case _ => None
  }

  /** The tool calls that the run asks for, in order. */
  function Requested(run: seq<Event>): seq<(Text, Option<Json>)> {
    if run == [] then []
    else
      var n := |run| - 1;
      Requested(run[..n]) +
      (match run[n]
       case Begin(message) => (match ToolCallOf(message) case Some(call) => [call] case None => [])
       case _ => [])
  }

  predicate MadeFor(env: Env, c: ToolCall, call: (Text, Option<Json>)) {
    c.name == call.0 && c.plan == Plan(env, call.0, call.1)
  }

  ghost predicate AllMadeFor(env: Env, calls: seq<ToolCall>, requested: seq<(Text, Option<Json>)>) {
    |calls| == |requested| && forall t :: 0 <= t < |calls| ==> MadeFor(env, calls[t], requested[t])
  }

  lemma StartMakes(server: Server, s: State, message: Json)
    ensures var calls := Start(server, s, message).calls;
            match ToolCallOf(message)
            case None => calls == s.calls
            case Some(call) => |calls| == |s.calls| + 1 && calls[..|s.calls|] == s.calls && MadeFor(server.env, calls[|s.calls|], call)
  {
    hide Lookup, Plan, Limited, MethodNamed, ReadResource, MadeAll, Malformed, ParamsAreNoObject;
    CodesOfRefusal(message);
  }

  lemma NextMakes(server: Server, s: State, e: Event, requested: seq<(Text, Option<Json>)>)
    requires Enabled(s, e) && !e.Begin? && AllMadeFor(server.env, s.calls, requested)
    ensures AllMadeFor(server.env, Next(server, s, e).calls, requested)
  {
    hide Plan, Limited, Outcome;
  }

  /** After any run the t-th tool call is the t-th that was asked for: its name, and what its arguments validate to. */
  lemma {:induction false} CallsAsRequested(server: Server, run: seq<Event>)
    requires Exec(server, INIT, run).Some?
    ensures AllMadeFor(server.env, Exec(server, INIT, run).value.calls, Requested(run))
    decreases |run|
  {
    hide MadeFor, Start, ToolCallOf;
    if run != [] {
      var n := |run| - 1;
      var m := Exec(server, INIT, run[..n]).value;
      CallsAsRequested(server, run[..n]);
      if run[n].Begin? {
        StartMakes(server, m, run[n].message);
        var calls := Start(server, m, run[n].message).calls;
        assert forall t :: 0 <= t < |m.calls| ==> calls[t] == calls[..|m.calls|][t];
      } else {
        NextMakes(server, m, run[n], Requested(run[..n]));
      }
    }
  }

  /** The call is what one of the tool calls asked for comes to. */
  ghost predicate AskedFor(env: Env, c: Call, requested: seq<(Text, Option<Json>)>) {
    exists t :: 0 <= t < |requested| && ComesTo(env, requested[t], c)
  }

  predicate ComesTo(env: Env, call: (Text, Option<Json>), c: Call) {
    match ValidateToolArguments(env, call.0, if call.1.None? then Object([]) else call.1.value)
    case Err(_) => false
    case Ok((tool, v)) => c == Invoke(OperationOf(tool), v.fields)
  }

  /** Nothing is written but what a message of the run asked for, by the tool it named and with the arguments it gave. */
  lemma WritesAreRequested(server: Server, run: seq<Event>, k: nat)
    requires Exec(server, INIT, run).Some? && k < |Exec(server, INIT, run).value.trace| && Writes(Exec(server, INIT, run).value.trace[k])
    ensures AskedFor(server.env, Exec(server, INIT, run).value.trace[k].call, Requested(run))
  {
    hide Exec, Writes, ValidateToolArguments, OperationOf, Harmless, ToolNamed;
    InvReachable(server, run);
    CallsAsRequested(server, run);
    var s := Exec(server, INIT, run).value;
    var t: nat :| MadeBy(s.calls, t, k);
    EachOk(server.env, s, t);
    assert MadeFor(server.env, s.calls[t], Requested(run)[t]);
    assert ComesTo(server.env, Requested(run)[t], s.trace[k].call);
  }

  /** The callback answered this question so. */
  ghost predicate AnsweredAt(server: Server, run: seq<Event>, i: nat, question: nat, verdict: Verdict) {
    && i < |run| && run[i].Settle? && run[i].verdict == verdict && Exec(server, INIT, run[..i]).Some?
    && var calls := Exec(server, INIT, run[..i]).value.calls;
       run[i].t < |calls| && calls[run[i].t].question == Some(question)
  }

  ghost predicate AnsweredSo(server: Server, run: seq<Event>, question: nat, verdict: Verdict) {
    exists i :: 0 <= i < |run| && AnsweredAt(server, run, i, question, verdict)
  }

  lemma AnsweredStill(server: Server, run: seq<Event>, e: Event, question: nat, verdict: Verdict)
    requires AnsweredSo(server, run, question, verdict)
    ensures AnsweredSo(server, run + [e], question, verdict)
  {
    hide Exec;
    var i :| 0 <= i < |run| && AnsweredAt(server, run, i, question, verdict);
    assert (run + [e])[..i] == run[..i] && (run + [e])[i] == run[i];
    assert AnsweredAt(server, run + [e], i, question, verdict);
  }

  lemma NewSettled(server: Server, s: State, e: Event, k: nat)
    requires Enabled(s, e) && |s.trace| <= k < |Next(server, s, e).trace| && Next(server, s, e).trace[k].Settled?
    ensures var h := Next(server, s, e).trace[k]; e.Settle? && e.verdict == h.verdict && s.calls[e.t].question == Some(h.question)
  {
    hide Limited, Outcome, ValidateRequest, MethodNamed, TextParam, Lookup, ReadResource, Plan, MadeAll;
    if e.Begin? { NothingSettled(server, s, e.message, k); }
  }

  lemma NothingSettled(server: Server, s: State, message: Json, k: nat)
    requires |s.trace| <= k < |Start(server, s, message).trace|
    ensures !Start(server, s, message).trace[k].Settled?
  {
    hide Limited, MethodNamed, TextParam, Lookup, ReadResource, Plan, MadeAll;
    match ValidateRequest(message)
    case Err(_) =>
    case Ok(request) =>
      var params := if request.params.Some? then request.params.value else [];
      var uri := TextParam(params, UriKey());
      if uri.Some? { OnlyMade(ReadResource(server, uri.value, []).history); }
  }

  lemma {:induction false} OnlyMade(calls: History)
    ensures forall k :: 0 <= k < |MadeAll(calls)| ==> MadeAll(calls)[k].Made?
  {
    if calls != [] { OnlyMade(calls[..|calls| - 1]); }
  }

  /** No answer of the callback is made up: each one in the trace is of an event of the run that answered just that question so. */
  lemma {:induction false} PermissionsAreGiven(server: Server, run: seq<Event>, k: nat)
    requires Exec(server, INIT, run).Some? && k < |Exec(server, INIT, run).value.trace|
    ensures var h := Exec(server, INIT, run).value.trace[k]; h.Settled? ==> AnsweredSo(server, run, h.question, h.verdict)
    decreases |run|
  {
    hide Enabled, Next;
    if run != [] {
      var n := |run| - 1;
      var front, e := run[..n], run[n];
      var m := Exec(server, INIT, front).value;
      assert run == front + [e];
      NextShape(server, m, e, 0);
      var h := Exec(server, INIT, run).value.trace[k];
      if h.Settled? {
        if k < |m.trace| {
          PermissionsAreGiven(server, front, k);
          AnsweredStill(server, front, e, h.question, h.verdict);
        } else {
          NewSettled(server, m, e, k);
          SettleInRange(m, e);
          assert AnsweredAt(server, run, n, h.question, h.verdict);
        }
      }
    }
  }

  lemma SettleInRange(s: State, e: Event)
    requires Enabled(s, e) && e.Settle?
    ensures e.t < |s.calls|
  {
  }
}
