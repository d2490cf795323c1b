/**
 Requests one at a time: when the server of `McpServer` is what `McpRuns` does,
 what a client has to do so that permissions come right before what they permit,
 and the run in which a write comes after its request has timed out.
 */
module McpSequential {
  import opened Optional
  import opened Text
  import opened JsonFormat
  import opened McpTools
  import opened McpServer
  import opened McpRuns

  // ---------------------------------------------------- nothing else goes on

  predicate AllOver(calls: seq<ToolCall>) {
    forall t :: 0 <= t < |calls| ==> calls[t].phase.Over?
  }

  predicate AllReplied(calls: seq<ToolCall>) {
    forall t :: 0 <= t < |calls| ==> calls[t].replied
  }

  /** No request begins while a tool call goes on. */
  ghost predicate Solitary(server: Server, run: seq<Event>)
    requires Exec(server, INIT, run).Some?
    decreases |run|
  {
    run != [] ==>
      var n := |run| - 1;
      Solitary(server, run[..n]) && (run[n].Begin? ==> AllOver(Exec(server, INIT, run[..n]).value.calls))
  }

  /** No request begins before the ones before it have been answered. */
  ghost predicate Awaited(server: Server, run: seq<Event>)
    requires Exec(server, INIT, run).Some?
    decreases |run|
  {
    run != [] ==>
      var n := |run| - 1;
      Awaited(server, run[..n]) && (run[n].Begin? ==> AllReplied(Exec(server, INIT, run[..n]).value.calls))
  }

  predicate OneLeft(calls: seq<ToolCall>) {
    forall t :: 0 <= t < |calls| - 1 ==> calls[t].phase.Over?
  }

  lemma OverStays(server: Server, s: State, e: Event)
    requires Enabled(s, e)
    ensures var s' := Next(server, s, e);
            && |s.calls| <= |s'.calls| <= |s.calls| + (if e.Begin? then 1 else 0)
            && (forall t :: 0 <= t < |s.calls| && s.calls[t].phase.Over? ==> s'.calls[t].phase.Over?)
            && (!e.TimeOut? && (forall t :: 0 <= t < |s.calls| ==> (s.calls[t].replied <==> s.calls[t].phase.Over?)) ==>
                  forall t :: 0 <= t < |s'.calls| ==> (s'.calls[t].replied <==> s'.calls[t].phase.Over?))
  {
    hide Plan, Limited, ReadResource, MadeAll, MethodNamed, ValidateRequest, Lookup, TextParam, Outcome;
  }

  lemma {:induction false} SolitaryLeavesOne(server: Server, run: seq<Event>)
    requires Exec(server, INIT, run).Some? && Solitary(server, run)
    ensures OneLeft(Exec(server, INIT, run).value.calls)
    decreases |run|
  {
    hide Next, Enabled;
    if run != [] {
      SolitaryLeavesOne(server, run[..|run| - 1]);
      OverStays(server, Exec(server, INIT, run[..|run| - 1]).value, run[|run| - 1]);
    }
  }

  /** The only tool call that goes on is not crossed by anything but a new request. */
  lemma LastIsAlone(server: Server, s: State, e: Event, t: nat)
    requires Enabled(s, e) && OneLeft(s.calls) && (e.Begin? ==> AllOver(s.calls))
    ensures t < |s.calls| && Waits(s.calls[t]) && e != Execute(t) ==> !CallsHost(server, s, e)
  {
    hide Limited, Start, Outcome;
  }

  lemma {:induction false} SolitaryIsNotOverlapped(server: Server, run: seq<Event>, t: nat)
    requires Exec(server, INIT, run).Some? && Solitary(server, run)
    ensures !Overlapped(server, run, t)
    decreases |run|
  {
    hide Next, Enabled, CallsHost, OneLeft, AllOver;
    if run != [] {
      var n := |run| - 1;
      SolitaryIsNotOverlapped(server, run[..n], t);
      SolitaryLeavesOne(server, run[..n]);
      LastIsAlone(server, Exec(server, INIT, run[..n]).value, run[n], t);
    }
  }

  /** One request at a time, every write comes right after its own permission. */
  lemma SolitaryWritesAreAdjacent(server: Server, run: seq<Event>, k: nat) returns (q: nat)
    requires Exec(server, INIT, run).Some? && Solitary(server, run) && server.env.authorize.Some?
    requires var trace := Exec(server, INIT, run).value.trace; k < |trace| && Writes(trace[k])
    ensures var trace := Exec(server, INIT, run).value.trace;
            Permits(trace, q, k) && forall i :: q < i < k ==> !trace[i].Made?
  {
    hide Exec, Solitary, Overlapped, Permits, CallOk, AllOk, Writes;
    InvReachable(server, run);
    var s := Exec(server, INIT, run).value;
    var t := WriterOf(s, k);
    WritePermitted(server.env, s, t, k);
    SolitaryIsNotOverlapped(server, run, t);
    AdjacentIffAlone(server, run, t);
    q := s.calls[t].question.value;
  }

  lemma {:induction false} RepliedIffOver(server: Server, run: seq<Event>)
    requires Exec(server, INIT, run).Some? && forall e :: e in run ==> !e.TimeOut?
    ensures forall t :: 0 <= t < |Exec(server, INIT, run).value.calls| ==>
              var c := Exec(server, INIT, run).value.calls[t]; c.replied <==> c.phase.Over?
    decreases |run|
  {
    hide Next, Enabled;
    if run != [] {
      RepliedIffOver(server, run[..|run| - 1]);
      OverStays(server, Exec(server, INIT, run[..|run| - 1]).value, run[|run| - 1]);
    }
  }

  /** A client that awaits every answer sends one request at a time as long as none times out. */
  lemma {:induction false} AwaitedIsSolitary(server: Server, run: seq<Event>)
    requires Exec(server, INIT, run).Some? && Awaited(server, run)
    requires forall e :: e in run ==> !e.TimeOut?
    ensures Solitary(server, run)
    decreases |run|
  {
    hide Next, Enabled;
    if run != [] {
      AwaitedIsSolitary(server, run[..|run| - 1]);
      RepliedIffOver(server, run[..|run| - 1]);
    }
  }

  // -------------------------------------------------------- after a timeout

  function ToolMessage(name: Text, args: Args): Json {
    Object([
      Member(JsonRpcKey(), String(JsonRpcVersion())), Member(IdKey(), String(IdKey())), Member(MethodKey(), String(Ascii("tools/call"))),
      Member(ParamsKey(), Object([Member(NameKey(), String(name)), Member(ArgumentsKey(), Object(args))]))
    ])
  }

  lemma ToolMessageIsValid(name: Text, args: Args)
    ensures var message := ToolMessage(name, args);
            && ValidateRequest(message).Ok?
            && var request := ValidateRequest(message).value;
               && request.id.Some? && MethodNamed(request.name) == ToolsCall
               && request.params.Some? && TextParam(request.params.value, NameKey()) == Some(name)
               && Lookup(request.params.value, ArgumentsKey()) == Some(Object(args))
  {
    var message := ToolMessage(name, args);
    var members := message.members;
    LookupAt(members, 0, JsonRpcKey());
    LookupAt(members, 1, IdKey());
    assert MethodKey()[0] != ParamsKey()[0];
    LookupAt(members, 2, MethodKey());
    LookupAt(members, 3, ParamsKey());
    var params := members[3].value.members;
    LookupAt(params, 0, NameKey());
    LookupAt(params, 1, ArgumentsKey());
    assert Ascii("tools/call")[0] != Ascii("initialize")[0];
    assert Ascii("tools/call")[6] != Ascii("tools/list")[6];
  }

  lemma ToolMessageAdmits(server: Server, s: State, name: Text, args: Args)
    ensures Enabled(s, Begin(ToolMessage(name, args)))
    ensures Next(server, s, Begin(ToolMessage(name, args))) == Admit(server.env, s, name, Some(Object(args)))
  {
    hide ToolMessage, ValidateRequest, MethodNamed, Lookup, Admit, ReadResource;
    ToolMessageIsValid(name, args);
  }

  /** The run of a tool call that is permitted only when it has timed out and another has come and gone. */
  function LateRun(first: Json, second: Json): seq<Event> {
    [Begin(first)] + [TimeOut(0)] + [Begin(second)] + [Settle(1, Allowed)] + [Execute(1)] + [Settle(0, Allowed)] + [Execute(0)]
  }

  function LateTrace(env: Env, name0: Text, tool0: Tool, v0: Validated, name1: Text, tool1: Tool, v1: Validated): Trace {
    [Question(name0, v0), Replied(0, Limited(env, Err(Timeout))), Question(name1, v1),
     Settled(2, Allowed), Made(Invoke(OperationOf(tool1), v1.fields)),
     Settled(0, Allowed), Made(Invoke(OperationOf(tool0), v0.fields))]
  }

  /** With any two tool calls, the first is made after its request was answered and after the second. */
  lemma LateCall(server: Server, name0: Text, args0: Args, name1: Text, args1: Args)
    requires server.env.authorize.Some?
    requires Plan(server.env, name0, Some(Object(args0))).Ok? && Plan(server.env, name1, Some(Object(args1))).Ok?
    requires OperationOf(Plan(server.env, name0, Some(Object(args0))).value.0) in server.env.supports
    requires OperationOf(Plan(server.env, name1, Some(Object(args1))).value.0) in server.env.supports
    ensures var run := LateRun(ToolMessage(name0, args0), ToolMessage(name1, args1));
            var (tool0, v0) := Plan(server.env, name0, Some(Object(args0))).value;
            var (tool1, v1) := Plan(server.env, name1, Some(Object(args1))).value;
            && Exec(server, INIT, run).Some? && Awaited(server, run)
            && Exec(server, INIT, run).value.trace == LateTrace(server.env, name0, tool0, v0, name1, tool1, v1)
  {
    hide Plan, ToolMessage, Limited, Exec, Awaited, Start, OperationOf;
    var env := server.env;
    var first, second := ToolMessage(name0, args0), ToolMessage(name1, args1);
    ToolMessageAdmits(server, INIT, name0, args0);
    var s1 := Next(server, INIT, Begin(first));
    NothingYet(server);
    Later(server, [], INIT, Begin(first));
    assert [] + [Begin(first)] == [Begin(first)];
    var s2 := Next(server, s1, TimeOut(0));
    Later(server, [Begin(first)], s1, TimeOut(0));
    ToolMessageAdmits(server, s2, name1, args1);
    var s3 := Next(server, s2, Begin(second));
    Later(server, [Begin(first)] + [TimeOut(0)], s2, Begin(second));
    var s4 := Next(server, s3, Settle(1, Allowed));
    Later(server, [Begin(first)] + [TimeOut(0)] + [Begin(second)], s3, Settle(1, Allowed));
    var s5 := Next(server, s4, Execute(1));
    Later(server, [Begin(first)] + [TimeOut(0)] + [Begin(second)] + [Settle(1, Allowed)], s4, Execute(1));
    var s6 := Next(server, s5, Settle(0, Allowed));
    Later(server, [Begin(first)] + [TimeOut(0)] + [Begin(second)] + [Settle(1, Allowed)] + [Execute(1)], s5, Settle(0, Allowed));
    Later(server, [Begin(first)] + [TimeOut(0)] + [Begin(second)] + [Settle(1, Allowed)] + [Execute(1)] + [Settle(0, Allowed)], s6, Execute(0));
  }

  lemma NothingYet(server: Server)
    ensures Exec(server, INIT, []) == Some(INIT) && Awaited(server, []) && Solitary(server, [])
  {
  }

  lemma Later(server: Server, run: seq<Event>, s: State, e: Event)
    requires Exec(server, INIT, run) == Some(s) && Enabled(s, e) && Awaited(server, run) && (e.Begin? ==> AllReplied(s.calls))
    ensures Exec(server, INIT, run + [e]) == Some(Next(server, s, e)) && Awaited(server, run + [e])
  {
    hide Next, Enabled;
    assert (run + [e])[..|run|] == run;
  }

  /** The calls in the trace, in order. */
  function CallsOf(trace: Trace): History {
    if trace == [] then []
    else CallsOf(trace[..|trace| - 1]) + (if trace[|trace| - 1].Made? then [trace[|trace| - 1].call] else [])
  }

  lemma {:induction false} CallsOfConcat(a: Trace, b: Trace)
    ensures CallsOf(a + b) == CallsOf(a) + CallsOf(b)
    decreases |b|
  {
    if b == [] {
      assert a + b == a;
    } else {
      var n := |b| - 1;
      CallsOfConcat(a, b[..n]);
      assert (a + b)[..|a + b| - 1] == a + b[..n];
    }
  }

  lemma CallsOfOne(h: Happening)
    ensures CallsOf([h]) == if h.Made? then [h.call] else []
  {
    assert [h][..0] == [];
  }

  lemma NextCall(trace: Trace, i: nat)
    requires i < |trace|
    ensures CallsOf(trace[..i + 1]) == CallsOf(trace[..i]) + (if trace[i].Made? then [trace[i].call] else [])
  {
    hide CallsOf;
    CallsOfConcat(trace[..i], [trace[i]]);
    CallsOfOne(trace[i]);
    assert trace[..i] + [trace[i]] == trace[..i + 1];
  }

  lemma LateHistory(env: Env, name0: Text, tool0: Tool, v0: Validated, name1: Text, tool1: Tool, v1: Validated)
    ensures CallsOf(LateTrace(env, name0, tool0, v0, name1, tool1, v1))
         == [Question(name0, v0).call, Question(name1, v1).call, Invoke(OperationOf(tool1), v1.fields), Invoke(OperationOf(tool0), v0.fields)]
  {
    hide CallsOf, Limited, OperationOf;
    var trace := LateTrace(env, name0, tool0, v0, name1, tool1, v1);
    NextCall(trace, 0);
    NextCall(trace, 1);
    NextCall(trace, 2);
    NextCall(trace, 3);
    NextCall(trace, 4);
    NextCall(trace, 5);
    NextCall(trace, 6);
    assert CallsOf([]) == [] by { NoCallsInNothing(); }
    assert trace[..0] == [] && trace[..7] == trace;
  }

  lemma NoCallsInNothing()
    ensures CallsOf([]) == []
  {
  }

  function ContentArgs(content: Text): Args { [Member(ContentKey(), String(content))] }

  function QueryArgs(query: Text): Args { [Member(QueryKey(), String(query))] }

  lemma OneField(key: Text, v: Json, other: Text)
    ensures Lookup([Member(key, v)], key) == Some(v)
    ensures other != key ==> Lookup([Member(key, v)], other) == None
  {
    LookupAt([Member(key, v)], 0, key);
    if other != key { LookupNone([Member(key, v)], other); }
  }

  lemma RememberValid(checks: Checks, content: Text)
    requires 0 < |Trim(content)| <= 100_000
    ensures ValidateRemember(ContentArgs(content), checks)
         == Ok(Validated([Member(ContentKey(), String(Trim(content)))], Write, None))
  {
    hide Lookup, Trim;
    var v := String(content);
    OneField(ContentKey(), v, WorkspaceIdKey());
    OneField(ContentKey(), v, ProjectIdKey());
    OneField(ContentKey(), v, TitleKey());
    OneField(ContentKey(), v, KindKey());
    OneField(ContentKey(), v, ConfidenceKey());
    OneField(ContentKey(), v, SourceKey());
    OneField(ContentKey(), v, TagsKey());
    OneField(ContentKey(), v, SourceRefsKey());
    OneField(ContentKey(), v, MetadataKey());
    assert ValidateRemember(ContentArgs(content), checks).value.fields == [Member(ContentKey(), String(Trim(content)))];
  }

  lemma RecallValid(maxPageSize: int, checks: Checks, query: Text)
    requires 0 < |Trim(query)| <= 4096
    ensures ValidateRecall(QueryArgs(query), maxPageSize, checks)
         == Ok(Validated([Member(QueryKey(), String(Trim(query)))], Read, None))
  {
    hide Lookup, Trim;
    var v := String(query);
    OneField(QueryKey(), v, WorkspaceIdKey());
    OneField(QueryKey(), v, ProjectIdKey());
    assert LimitKey()[0] != QueryKey()[0];
    OneField(QueryKey(), v, LimitKey());
    OneField(QueryKey(), v, IncludeGraphKey());
    OneField(QueryKey(), v, IncludeSourcesKey());
    OneField(QueryKey(), v, FiltersKey());
    assert ValidateRecall(QueryArgs(query), maxPageSize, checks).value.fields == [Member(QueryKey(), String(Trim(query)))];
  }

  lemma ToolsAreNamed()
    ensures ToolNamed(RememberName()) == Some(Remember)
    ensures ToolNamed(RecallName()) == Some(RecallTool)
  {
  }

  lemma PlansOf(env: Env, content: Text)
    requires !env.readOnly && 0 < |Trim(content)| <= 4096
    requires env.checks.payload(Object(ContentArgs(content))) && env.checks.payload(Object(QueryArgs(content)))
    ensures Plan(env, RememberName(), Some(Object(ContentArgs(content))))
         == Ok((Remember, Validated([Member(ContentKey(), String(Trim(content)))], Write, None)))
    ensures Plan(env, RecallName(), Some(Object(QueryArgs(content))))
         == Ok((RecallTool, Validated([Member(QueryKey(), String(Trim(content)))], Read, None)))
  {
    hide ToolNamed, ValidateRemember, ValidateRecall, Trim;
    ToolsAreNamed();
    RememberValid(env.checks, content);
    RecallValid(env.maxPageSize, env.checks, content);
  }

  /**
   A client that awaits every answer sends `tekmemo.remember`, is told that it
   timed out, and sends `tekmemo.recall`; only then is the first one allowed.
   The memory is written after the timeout was answered and after the recall.
   */
  lemma WriteAfterTimeout(server: Server, content: Text) returns (run: seq<Event>)
    requires server.env.authorize.Some? && !server.env.readOnly && 0 < |Trim(content)| <= 4096
    requires server.env.checks.payload(Object(ContentArgs(content))) && server.env.checks.payload(Object(QueryArgs(content)))
    requires WriteMemory in server.env.supports && Recall in server.env.supports
    ensures Exec(server, INIT, run).Some? && Awaited(server, run)
    ensures var trace := Exec(server, INIT, run).value.trace;
            var written: Args := [Member(ContentKey(), String(Trim(content)))];
            var recalled: Args := [Member(QueryKey(), String(Trim(content)))];
            && |trace| == 7
            && trace[1] == Replied(0, Limited(server.env, Err(Timeout)))
            && trace[6] == Made(Invoke(WriteMemory, written))
            && CallsOf(trace) == [Authorize(RememberName(), Write, None, written), Authorize(RecallName(), Read, None, recalled),
                                  Invoke(Recall, recalled), Invoke(WriteMemory, written)]
  {
    hide Exec, Awaited, Trim, Limited, CallsOf, ToolMessage, Plan;
    PlansOf(server.env, content);
    var v0 := Validated([Member(ContentKey(), String(Trim(content)))], Write, None);
    var v1 := Validated([Member(QueryKey(), String(Trim(content)))], Read, None);
    run := LateRun(ToolMessage(RememberName(), ContentArgs(content)), ToolMessage(RecallName(), QueryArgs(content)));
    LateCall(server, RememberName(), ContentArgs(content), RecallName(), QueryArgs(content));
    LateHistory(server.env, RememberName(), Remember, v0, RecallName(), RecallTool, v1);
  }

  // ------------------------------------------------------ one after the other

  /** A run that has come to rest, with what has been asked of the host. */
  ghost predicate Rested(server: Server, run: seq<Event>, history: History) {
    && Exec(server, INIT, run).Some? && Solitary(server, run)
    && AllOver(Exec(server, INIT, run).value.calls)
    && CallsOf(Exec(server, INIT, run).value.trace) == history
  }

  lemma Further(server: Server, run: seq<Event>, s: State, e: Event)
    requires Exec(server, INIT, run) == Some(s) && Enabled(s, e) && Solitary(server, run) && (e.Begin? ==> AllOver(s.calls))
    ensures Exec(server, INIT, run + [e]) == Some(Next(server, s, e)) && Solitary(server, run + [e])
  {
    hide Next, Enabled, AllOver;
    assert (run + [e])[..|run|] == run;
  }

  /** Concluding adds no call. */
  lemma ConcludeRests(env: Env, s: State, t: nat, result: Result<ToolReply, Error>)
    requires t < |s.calls| && OneLeft(s.calls) && t == |s.calls| - 1
    ensures AllOver(Conclude(env, s, t, result).calls)
    ensures CallsOf(Conclude(env, s, t, result).trace) == CallsOf(s.trace)
  {
    hide CallsOf, Limited;
    var more: Trace := if s.calls[t].replied then [] else [Replied(t, Limited(env, result))];
    CallsOfConcat(s.trace, more);
    if !s.calls[t].replied { CallsOfOne(more[0]); }
    NoCallsInNothing();
  }

  /** A call cleared to go, with nothing else going on, ends as `ExecuteTool` does. */
  lemma ExecuteRests(server: Server, run: seq<Event>, s: State, history: History) returns (longer: seq<Event>)
    requires Exec(server, INIT, run) == Some(s) && Solitary(server, run) && CallsOf(s.trace) == history
    requires s.calls != [] && OneLeft(s.calls)
    requires var c := s.calls[|s.calls| - 1]; c.phase.Cleared? && c.plan.Ok?
    ensures var (tool, v) := s.calls[|s.calls| - 1].plan.value;
            Rested(server, longer, ExecuteTool(server.env, OperationOf(tool), v.fields, history).history)
  {
    hide Exec, Solitary, CallsOf, Limited, Outcome, OperationOf;
    var env, t := server.env, |s.calls| - 1;
    var (tool, v) := s.calls[t].plan.value;
    var s1 := Next(server, s, Execute(t));
    Further(server, run, s, Execute(t));
    if OperationOf(tool) !in env.supports {
      longer := run + [Execute(t)];
      ConcludeRests(env, s, t, Err(INVALID));
    } else {
      var call := Invoke(OperationOf(tool), v.fields);
      CallsOfConcat(s.trace, [Made(call)]);
      CallsOfOne(Made(call));
      var answer := env.runtime(history + [call]);
      Further(server, run + [Execute(t)], s1, Return(t, answer));
      ConcludeRests(env, s1, t, Outcome(env, answer));
      longer := run + [Execute(t)] + [Return(t, answer)];
    }
  }

  /** What `CallTool` asks of the host, in terms of the plan. */
  lemma CallToolByPlan(env: Env, name: Text, rawArgs: Option<Json>, history: History)
    ensures var after := CallTool(env, name, rawArgs, history).history;
            match Plan(env, name, rawArgs)
            case Err(_) => after == history
            case Ok((tool, v)) =>
              var asked := history + [Authorize(name, v.safety, v.workspaceId, v.fields)];
              if env.authorize.None? then after == ExecuteTool(env, OperationOf(tool), v.fields, history).history
              else if env.authorize.value(asked) == Allowed then after == ExecuteTool(env, OperationOf(tool), v.fields, asked).history
              else after == asked
  {
    hide ValidateToolArguments, OperationOf, ExecuteTool, Limited, TimedOut;
  }

  /** Admitted when nothing goes on, a call comes to rest having asked what `CallTool` asks. */
  lemma AdmittedRests(server: Server, run: seq<Event>, s: State, name: Text, rawArgs: Option<Json>, message: Json, history: History)
    returns (longer: seq<Event>)
    requires Rested(server, run, history) && Exec(server, INIT, run) == Some(s)
    requires Next(server, s, Begin(message)) == Admit(server.env, s, name, rawArgs)
    ensures Rested(server, longer, CallTool(server.env, name, rawArgs, history).history)
  {
    hide Exec, Solitary, CallsOf, Limited, Outcome, OperationOf, Plan, CallTool, ExecuteTool, Start;
    var env := server.env;
    CallToolByPlan(env, name, rawArgs, history);
    var s1 := Next(server, s, Begin(message));
    Further(server, run, s, Begin(message));
    var run1 := run + [Begin(message)];
    var t := |s.calls|;
    match Plan(env, name, rawArgs)
    case Err(e) =>
      CallsOfConcat(s.trace, [Replied(t, Limited(env, Err(e)))]);
      CallsOfOne(Replied(t, Limited(env, Err(e))));
      longer := run1;
    case Ok((tool, v)) =>
      if env.authorize.None? {
        longer := ExecuteRests(server, run1, s1, history);
      } else {
        CallsOfConcat(s.trace, [Question(name, v)]);
        CallsOfOne(Question(name, v));
        longer := SettledRests(server, run1, s1, history + [Question(name, v).call]);
      }
  }

  /** A call that has asked, with nothing else going on, is allowed or not as `authorize` says. */
  lemma SettledRests(server: Server, run: seq<Event>, s: State, history: History) returns (longer: seq<Event>)
    requires Exec(server, INIT, run) == Some(s) && Solitary(server, run) && CallsOf(s.trace) == history
    requires s.calls != [] && OneLeft(s.calls) && server.env.authorize.Some?
    requires var c := s.calls[|s.calls| - 1]; c.phase.Asking? && c.question.Some? && c.plan.Ok?
    ensures var (tool, v) := s.calls[|s.calls| - 1].plan.value;
            if server.env.authorize.value(history) == Allowed
            then Rested(server, longer, ExecuteTool(server.env, OperationOf(tool), v.fields, history).history)
            else Rested(server, longer, history)
  {
    hide Exec, Solitary, CallsOf, Limited, OperationOf, ExecuteTool;
    var env, t := server.env, |s.calls| - 1;
    var verdict := env.authorize.value(history);
    var settled := Settled(s.calls[t].question.value, verdict);
    CallsOfConcat(s.trace, [settled]);
    CallsOfOne(settled);
    var e := Settle(t, verdict);
    Further(server, run, s, e);
    var s0 := State(s.trace + [settled], s.calls[t := s.calls[t].(phase := Cleared, answer := Some(|s.trace|))]);
    match verdict
    case Allowed => longer := ExecuteRests(server, run + [e], s0, history);
    case Denied =>
      ConcludeRests(env, s0, t, Err(Authorization));
      longer := run + [e];
    case Refused(error) =>
      ConcludeRests(env, s0, t, Err(error));
      longer := run + [e];
  }

  lemma ReadAppends(server: Server, uri: Text, history: History)
    ensures ReadResource(server, uri, history).history == history + ReadResource(server, uri, []).history
  {
  }

  lemma {:induction false} CallsOfMade(calls: History)
    ensures CallsOf(MadeAll(calls)) == calls
  {
    if calls != [] {
      var n := |calls| - 1;
      CallsOfMade(calls[..n]);
      assert MadeAll(calls)[..|MadeAll(calls)| - 1] == MadeAll(calls[..n]);
    }
  }

  /** A message that comes when nothing goes on is handled as `HandleSingle` does. */
  lemma MessageRests(server: Server, run: seq<Event>, message: Json, history: History) returns (longer: seq<Event>)
    requires Rested(server, run, history)
    ensures Rested(server, longer, HandleSingle(server, message, history).0)
  {
    hide Exec, Solitary, CallsOf, ReadResource, MadeAll, MethodNamed, ValidateRequest, Lookup, TextParam, CallTool, Admit, List, GetPrompt, NegotiateVersion;
    var s := Exec(server, INIT, run).value;
    var s1 := Next(server, s, Begin(message));
    Further(server, run, s, Begin(message));
    longer := run + [Begin(message)];
    var request := ValidateRequest(message);
    if request.Ok? && request.value.id.Some? {
      var params := if request.value.params.Some? then request.value.params.value else [];
      var name, uri := TextParam(params, NameKey()), TextParam(params, UriKey());
      if MethodNamed(request.value.name).ToolsCall? && name.Some? {
        longer := AdmittedRests(server, run, s, name.value, Lookup(params, ArgumentsKey()), message, history);
      } else if MethodNamed(request.value.name).ResourcesRead? && uri.Some? {
        var made := ReadResource(server, uri.value, []).history;
        ReadAppends(server, uri.value, history);
        CallsOfConcat(s.trace, MadeAll(made));
        CallsOfMade(made);
      }
    }
  }

  lemma {:induction false} ItemsRest(server: Server, run: seq<Event>, items: seq<Json>, history: History) returns (longer: seq<Event>)
    requires Rested(server, run, history)
    ensures Rested(server, longer, HandleItems(server, items, history).0)
    decreases |items|
  {
    hide Rested, HandleSingle;
    if items == [] {
      longer := run;
    } else {
      var n := |items| - 1;
      var before := ItemsRest(server, run, items[..n], history);
      longer := MessageRests(server, before, items[n], HandleItems(server, items[..n], history).0);
    }
  }

  /**
   Messages handled one after the other: what `Serve` asks of the host is what
   a run asks in which no request begins while a tool call goes on.
   */
  lemma {:induction false} ServeIsARun(server: Server, messages: seq<Json>) returns (run: seq<Event>)
    ensures Rested(server, run, Serve(server, messages))
    decreases |messages|
  {
    hide Rested, HandleSingle, HandleItems;
    if messages == [] {
      run := [];
      assert Rested(server, [], []) by { RestedAtFirst(server); }
    } else {
      var n := |messages| - 1;
      var before := ServeIsARun(server, messages[..n]);
      var history := Serve(server, messages[..n]);
      if messages[n].Array? {
        run := ItemsRest(server, before, messages[n].items, history);
        assert HandleMessage(server, messages[n], history).0 == HandleItems(server, messages[n].items, history).0 by {
          BatchHistory(server, messages[n].items, history);
        }
      } else {
        run := MessageRests(server, before, messages[n], history);
      }
    }
  }

  lemma BatchHistory(server: Server, items: seq<Json>, history: History)
    ensures HandleMessage(server, Array(items), history).0 == HandleItems(server, items, history).0
  {
    hide HandleSingle;
  }

  lemma RestedAtFirst(server: Server)
    ensures Rested(server, [], [])
  {
  }
}
