/** What the MCP server does with a request, by the texts on the wire. */
module McpRequests {
  import opened Optional
  import opened Text
  import opened JsonFormat
  import opened McpArguments
  import opened McpServer
  import opened McpTools
  import Lists
  import PageWalk
  import Pagination

  // ----------------------------------------------------------------- methods

  lemma ListsSpelled(name: Text)
    ensures MethodNamed(name).ToolsList? <==> Spells(name, "tools/list")
    ensures MethodNamed(name).ResourcesList? <==> Spells(name, "resources/list")
    ensures MethodNamed(name).PromptsList? <==> Spells(name, "prompts/list")
  {
    assert Spells(name, "tools/list") ==> name == Ascii("tools/list");
    assert Spells(name, "resources/list") ==> name == Ascii("resources/list");
    assert Spells(name, "prompts/list") ==> name == Ascii("prompts/list");
    assert Ascii("tools/list")[0] != Ascii("initialize")[0] && Ascii("tools/list")[6] != Ascii("tools/call")[6];
    assert Ascii("resources/list")[10] != Ascii("resources/read")[10];
  }

  lemma GetsSpelled(name: Text)
    ensures MethodNamed(name).ToolsCall? <==> Spells(name, "tools/call")
    ensures MethodNamed(name).ResourcesRead? <==> Spells(name, "resources/read")
    ensures MethodNamed(name).PromptsGet? <==> Spells(name, "prompts/get")
  {
    assert Spells(name, "tools/call") ==> name == Ascii("tools/call");
    assert Spells(name, "resources/read") ==> name == Ascii("resources/read");
    assert Spells(name, "prompts/get") ==> name == Ascii("prompts/get");
    assert Ascii("tools/call")[0] != Ascii("initialize")[0] && Ascii("tools/list")[6] != Ascii("tools/call")[6];
    assert Ascii("resources/list")[10] != Ascii("resources/read")[10];
  }

  lemma OthersSpelled(name: Text)
    ensures MethodNamed(name).Initialize? <==> Spells(name, "initialize")
    ensures MethodNamed(name).Ping? <==> Spells(name, "ping")
    ensures MethodNamed(name).SetLevel? <==> Spells(name, "logging/setLevel")
  {
    assert Spells(name, "initialize") ==> name == Ascii("initialize");
    assert Spells(name, "ping") ==> name == Ascii("ping");
    assert Spells(name, "logging/setLevel") ==> name == Ascii("logging/setLevel");
  }

  predicate KnownVersion(t: Text) {
    Spells(t, "2025-11-25") || Spells(t, "2025-06-18") || Spells(t, "2025-03-26") || Spells(t, "2024-11-05")
  }

  /** The client's version where the server knows it, and else the latest. */
  lemma VersionAnswered(client: Option<Json>)
    ensures var v := NegotiateVersion(client);
            if client.Some? && client.value.String? && KnownVersion(client.value.s) then v == client.value.s else Spells(v, "2025-11-25")
  {
    if client.Some? && client.value.String? {
      var s := client.value.s;
      assert Spells(s, "2025-11-25") ==> s == Ascii("2025-11-25");
      assert Spells(s, "2025-06-18") ==> s == Ascii("2025-06-18");
      assert Spells(s, "2025-03-26") ==> s == Ascii("2025-03-26");
      assert Spells(s, "2024-11-05") ==> s == Ascii("2024-11-05");
    }
  }

  /** The names on the wire of the members of a request, and the version it has to give. */
  lemma MembersSpelled()
    ensures Spells(JsonRpcKey(), "jsonrpc") && Spells(JsonRpcVersion(), "2.0") && Spells(McpServer.IdKey(), "id")
    ensures Spells(MethodKey(), "method") && Spells(ParamsKey(), "params") && Spells(NameKey(), "name")
    ensures Spells(ArgumentsKey(), "arguments") && Spells(UriKey(), "uri") && Spells(CursorKey(), "cursor")
    ensures Spells(ProtocolVersionKey(), "protocolVersion")
  {
  }

  /** What a request asks for by its name; a name that is none of these is not found. */
  lemma RequestsByName(server: Server, request: Request, history: History)
    ensures var done, name := Dispatch(server, request, history), request.name;
            var params := if request.params.Some? then request.params.value else [];
            && (Spells(name, "ping") || Spells(name, "logging/setLevel") ==> done == Step(history, Ok(Empty)))
            && (Spells(name, "initialize") ==>
                  done == Step(history, Ok(Initialized(NegotiateVersion(Lookup(params, ProtocolVersionKey()))))))
            && (Spells(name, "tools/list") ==> done == Step(history, List(server, ToolDefinitions(), params, ToolsNamespace())))
            && (Spells(name, "resources/list") ==> done == Step(history, List(server, ResourceDefinitions(), params, ResourcesNamespace())))
            && (Spells(name, "prompts/list") ==> done == Step(history, List(server, PromptDefinitions(), params, PromptsNamespace())))
            && (Spells(name, "tools/call") ==> done == CallNamedTool(server, params, history))
            && (Spells(name, "resources/read") && TextParam(params, UriKey()).Some? ==>
                  done == ReadResource(server, TextParam(params, UriKey()).value, history))
            && (Spells(name, "prompts/get") && TextParam(params, NameKey()).Some? ==>
                  done == Step(history, GetPrompt(TextParam(params, NameKey()).value, Lookup(params, ArgumentsKey()))))
            && (MethodNamed(name).UnknownMethod? ==> done == Step(history, Err(NotFound)))
  {
    hide MethodNamed, Spells, List, ReadResource, CallNamedTool, GetPrompt, NegotiateVersion, TextParam, Lookup, Ascii;
    hide ToolDefinitions, ResourceDefinitions, PromptDefinitions;
    ListsSpelled(request.name);
    GetsSpelled(request.name);
    OthersSpelled(request.name);
  }

  // ----------------------------------------------------------------- listing

  /** The lists that are shown: the resources that need no parameter and two of a session, and both prompts. */
  lemma DefinitionsComplete(source: Source)
    ensures !source.SessionSource? && !source.UnknownSource? ==> ResourceDefinition(source) in ResourceDefinitions()
    ensures SessionCoreDefinition in ResourceDefinitions() && SessionOutputDefinition in ResourceDefinitions()
    ensures |ResourceDefinitions()| == 9 && forall i, j :: 0 <= i < j < 9 ==> ResourceDefinitions()[i] != ResourceDefinitions()[j]
    ensures PromptDefinitions() == [PromptDefinition(RecallPrompt), PromptDefinition(ReviewPrompt)]
  {
    var ds := ResourceDefinitions();
    assert ds[0] == SessionCoreDefinition && ds[1] == SessionOutputDefinition;
    assert ds[2] == ResourceDefinition(HealthSource) && ds[3] == ResourceDefinition(ContextSource) && ds[4] == ResourceDefinition(CoreSource);
    assert ds[5] == ResourceDefinition(NotesSource) && ds[6] == ResourceDefinition(RecentSource);
    assert ds[7] == ResourceDefinition(NodesSource) && ds[8] == ResourceDefinition(EdgesSource);
  }

  // --------------------------------------------------------------- resources

  /** What is read under a path, and by which call; a path that is none of these is not found. */
  predicate ReadBy(pathname: Text, operation: Operation) {
    || (Spells(pathname, "health") && operation.Health?)
    || (Spells(pathname, "context") && operation.Context?)
    || (Spells(pathname, "memory/core") && operation.ReadCoreMemory?)
    || (Spells(pathname, "memory/notes") && operation.ReadNotesMemory?)
    || (Spells(pathname, "memory/recent") && operation.ListRecentMemories?)
    || (Spells(pathname, "graph/nodes") && operation.ListGraphNodes?)
    || (Spells(pathname, "graph/edges") && operation.ListGraphEdges?)
    || (InSessions(pathname) && operation.ReadAgentSessionFile?)
  }

  predicate InSessions(pathname: Text) {
    |pathname| >= 15 && Spells(pathname[..15], "agent-sessions/")
  }

  lemma MemoryPaths(pathname: Text)
    ensures SourceNamed(pathname).CoreSource? <==> Spells(pathname, "memory/core")
    ensures SourceNamed(pathname).NotesSource? <==> Spells(pathname, "memory/notes")
    ensures SourceNamed(pathname).RecentSource? <==> Spells(pathname, "memory/recent")
  {
    assert Spells(pathname, "memory/core") ==> pathname == Ascii("memory/core");
    assert Spells(pathname, "memory/notes") ==> pathname == Ascii("memory/notes");
    assert Spells(pathname, "memory/recent") ==> pathname == Ascii("memory/recent");
  }

  lemma NodesPath(pathname: Text)
    ensures SourceNamed(pathname).NodesSource? <==> Spells(pathname, "graph/nodes")
  {
    assert pathname == Ascii("graph/nodes") <==> Spells(pathname, "graph/nodes");
    assert Ascii("memory/core")[0] != Ascii("graph/nodes")[0];
  }

  lemma EdgesPath(pathname: Text)
    ensures SourceNamed(pathname).EdgesSource? <==> Spells(pathname, "graph/edges")
  {
    assert pathname == Ascii("graph/edges") <==> Spells(pathname, "graph/edges");
    assert Ascii("memory/core")[0] != Ascii("graph/edges")[0] && Ascii("graph/nodes")[6] != Ascii("graph/edges")[6];
  }

  lemma OtherPaths(pathname: Text)
    ensures SourceNamed(pathname).HealthSource? <==> Spells(pathname, "health")
    ensures SourceNamed(pathname).ContextSource? <==> Spells(pathname, "context")
    ensures SourceNamed(pathname).SessionSource? <==> InSessions(pathname)
  {
    assert Spells(pathname, "health") ==> pathname == Ascii("health");
    assert Spells(pathname, "context") ==> pathname == Ascii("context");
    if InSessions(pathname) {
      assert pathname[..15] == SessionsPrefix();
      assert pathname[0] == 97;
    }
  }

  /** The call that reads what is under a path: there is one, or nothing is there. */
  lemma ReadByPath(pathname: Text)
    ensures forall operation :: ReadBy(pathname, operation) <==> SourceOperation(SourceNamed(pathname)) == Some(operation)
  {
    hide SourceNamed, Spells, InSessions;
    MemoryPaths(pathname);
    NodesPath(pathname);
    EdgesPath(pathname);
    OtherPaths(pathname);
  }

  predicate DistinctParameters(parameters: seq<Parameter>) {
    forall i, j :: 0 <= i < j < |parameters| ==> parameters[i].key != parameters[j].key
  }

  lemma {:induction false} FieldsLookup(parameters: seq<Parameter>, key: Text)
    requires DistinctParameters(parameters)
    ensures forall i :: 0 <= i < |parameters| && parameters[i].key == key ==> Lookup(Fields(parameters), key) == parameters[i].value
    ensures (forall i :: 0 <= i < |parameters| ==> parameters[i].key != key) ==> Lookup(Fields(parameters), key) == None
  {
    if parameters == [] {
      NoFields(key);
    } else {
      var n := |parameters| - 1;
      FieldsLookup(parameters[..n], key);
      OneField(parameters[n], key);
      hide Lookup, Field;
      LookupConcat(Fields(parameters[..n]), Field(parameters[n].key, parameters[n].value), key);
    }
  }

  lemma OneField(p: Parameter, key: Text)
    ensures Lookup(Field(p.key, p.value), key) == if p.key == key then p.value else None
  {
  }

  predicate Passes(args: Args, key: Text, value: Option<Json>) {
    Lookup(args, key) == value
  }

  lemma ParametersDistinct(source: Source, address: Address)
    ensures DistinctParameters(ResourceParameters(source, address))
  {
    SameLengths();
  }

  /** The parameter with this key is passed on as it is here. */
  lemma Passed(source: Source, address: Address, k: nat)
    requires k < |ResourceParameters(source, address)|
    ensures var p := ResourceParameters(source, address)[k]; Passes(ResourceArgs(source, address), p.key, p.value)
  {
    hide ResourceParameters, Lookup, Fields;
    ParametersDistinct(source, address);
    FieldsLookup(ResourceParameters(source, address), ResourceParameters(source, address)[k].key);
  }

  // What each path passes on of the query, by the names of its parameters; nothing else.

  predicate OnlyKeys(args: Args, keys: set<Text>) {
    forall m :: m in args ==> m.key in keys
  }

  predicate MemoryArgs(search: Search, args: Args) {
    && Passes(args, Ascii("workspaceId"), TextValue(search.workspaceId)) && Passes(args, Ascii("projectId"), TextValue(search.projectId))
    && Passes(args, Ascii("query"), TextValue(search.query)) && Passes(args, Ascii("cursor"), TextValue(search.cursor))
    && Passes(args, Ascii("limit"), search.limit) && Passes(args, Ascii("maxBytes"), search.maxBytes)
    && OnlyKeys(args, {Ascii("workspaceId"), Ascii("projectId"), Ascii("query"), Ascii("cursor"), Ascii("limit"), Ascii("maxBytes")})
  }

  predicate ContextArgs(search: Search, args: Args) {
    && Passes(args, Ascii("query"), Some(String(if search.query.Some? then search.query.value else Ascii("current task"))))
    && Passes(args, Ascii("workspaceId"), TextValue(search.workspaceId)) && Passes(args, Ascii("projectId"), TextValue(search.projectId))
    && Passes(args, Ascii("limit"), search.limit) && Passes(args, Ascii("maxBytes"), search.maxBytes)
    && OnlyKeys(args, {Ascii("query"), Ascii("workspaceId"), Ascii("projectId"), Ascii("limit"), Ascii("maxBytes")})
  }

  predicate RecentArgs(search: Search, args: Args) {
    && Passes(args, Ascii("workspaceId"), TextValue(search.workspaceId)) && Passes(args, Ascii("projectId"), TextValue(search.projectId))
    && Passes(args, Ascii("limit"), search.limit) && OnlyKeys(args, {Ascii("workspaceId"), Ascii("projectId"), Ascii("limit")})
  }

  predicate GraphArgs(search: Search, args: Args) {
    && Passes(args, Ascii("workspaceId"), TextValue(search.workspaceId)) && Passes(args, Ascii("cursor"), TextValue(search.cursor))
    && Passes(args, Ascii("limit"), search.limit) && OnlyKeys(args, {Ascii("workspaceId"), Ascii("cursor"), Ascii("limit")})
  }

  predicate SessionArgs(pathname: Text, args: Args)
    requires InSessions(pathname)
  {
    && Passes(args, Ascii("sessionId"), Some(String(UpToSlash(pathname[15..]))))
    && Passes(args, Ascii("path"), Some(String([47] + pathname))) && OnlyKeys(args, {Ascii("sessionId"), Ascii("path")})
  }

  lemma {:induction false} FieldKeys(parameters: seq<Parameter>, keys: set<Text>)
    requires forall i :: 0 <= i < |parameters| ==> parameters[i].key in keys
    ensures OnlyKeys(Fields(parameters), keys)
  {
    if parameters != [] { FieldKeys(parameters[..|parameters| - 1], keys); }
  }

  lemma MemoryPassed(source: Source, address: Address)
    requires source.CoreSource? || source.NotesSource?
    ensures MemoryArgs(address.search, ResourceArgs(source, address))
  {
    hide Passes, OnlyKeys, ResourceArgs;
    Passed(source, address, 0);
    Passed(source, address, 1);
    Passed(source, address, 2);
    Passed(source, address, 3);
    Passed(source, address, 4);
    Passed(source, address, 5);
    OnlyThese(source, address, {WorkspaceIdKey(), ProjectIdKey(), QueryKey(), CursorKey(), LimitKey(), MaxBytesKey()});
  }

  lemma OnlyThese(source: Source, address: Address, keys: set<Text>)
    requires forall i :: 0 <= i < |ResourceParameters(source, address)| ==> ResourceParameters(source, address)[i].key in keys
    ensures OnlyKeys(ResourceArgs(source, address), keys)
  {
    hide ResourceParameters, OnlyKeys;
    FieldKeys(ResourceParameters(source, address), keys);
  }

  lemma ContextPassed(address: Address)
    ensures ContextArgs(address.search, ResourceArgs(ContextSource, address))
  {
    hide Passes, OnlyKeys, ResourceArgs;
    Passed(ContextSource, address, 0);
    Passed(ContextSource, address, 1);
    Passed(ContextSource, address, 2);
    Passed(ContextSource, address, 3);
    Passed(ContextSource, address, 4);
    OnlyThese(ContextSource, address, {QueryKey(), WorkspaceIdKey(), ProjectIdKey(), LimitKey(), MaxBytesKey()});
  }

  lemma RecentPassed(address: Address)
    ensures RecentArgs(address.search, ResourceArgs(RecentSource, address))
  {
    hide Passes, OnlyKeys, ResourceArgs;
    Passed(RecentSource, address, 0);
    Passed(RecentSource, address, 1);
    Passed(RecentSource, address, 2);
    OnlyThese(RecentSource, address, {WorkspaceIdKey(), ProjectIdKey(), LimitKey()});
  }

  lemma GraphPassed(source: Source, address: Address)
    requires source.NodesSource? || source.EdgesSource?
    ensures GraphArgs(address.search, ResourceArgs(source, address))
  {
    hide Passes, OnlyKeys, ResourceArgs;
    Passed(source, address, 0);
    Passed(source, address, 1);
    Passed(source, address, 2);
    OnlyThese(source, address, {WorkspaceIdKey(), CursorKey(), LimitKey()});
  }

  lemma SessionPassed(address: Address)
    requires InSessions(address.pathname)
    ensures var source := SourceNamed(address.pathname);
            source == SessionSource(UpToSlash(address.pathname[15..])) && SessionArgs(address.pathname, ResourceArgs(source, address))
  {
    hide Passes, OnlyKeys, ResourceArgs, UpToSlash;
    OtherPaths(address.pathname);
    var source := SourceNamed(address.pathname);
    assert |SessionsPrefix()| == 15;
    Passed(source, address, 0);
    Passed(source, address, 1);
    OnlyThese(source, address, {SessionIdKey(), PathKey()});
  }

  /** What a path asks of the runtime, with what arguments. */
  predicate AskedBy(address: Address, c: Call) {
    && c.Invoke? && ReadBy(address.pathname, c.operation)
    && (c.operation.Health? ==> c.args == [])
    && (c.operation.Context? ==> ContextArgs(address.search, c.args))
    && (c.operation.ReadCoreMemory? || c.operation.ReadNotesMemory? ==> MemoryArgs(address.search, c.args))
    && (c.operation.ListRecentMemories? ==> RecentArgs(address.search, c.args))
    && (c.operation.ListGraphNodes? || c.operation.ListGraphEdges? ==> GraphArgs(address.search, c.args))
    && (c.operation.ReadAgentSessionFile? ==> InSessions(address.pathname) && SessionArgs(address.pathname, c.args))
  }

  lemma LocatedAsks(address: Address)
    ensures var source := SourceNamed(address.pathname);
            SourceOperation(source).Some? ==> AskedBy(address, Invoke(SourceOperation(source).value, ResourceArgs(source, address)))
  {
    hide ContextArgs, MemoryArgs, RecentArgs, GraphArgs, SessionArgs, InSessions, ReadBy, ResourceParameters, UpToSlash, SourceNamed;
    var source := SourceNamed(address.pathname);
    ReadByPath(address.pathname);
    OtherPaths(address.pathname);
    match source
    case ContextSource => ContextPassed(address);
    case CoreSource | NotesSource => MemoryPassed(source, address);
    case RecentSource => RecentPassed(address);
    case NodesSource | EdgesSource => GraphPassed(source, address);
    case SessionSource(_) => SessionPassed(address);
    case HealthSource => NothingPassed(address);
    case UnknownSource =>
  }

  lemma NothingPassed(address: Address)
    ensures ResourceArgs(HealthSource, address) == []
  {
  }

  /** A path may be read if there is something there that the runtime supports, and a session has a name. */
  ghost predicate Readable(env: Env, pathname: Text) {
    && (exists operation :: ReadBy(pathname, operation) && (operation.Health? || operation in env.supports))
    && (InSessions(pathname) ==> UpToSlash(pathname[15..]) != [])
  }

  /** Reading a resource calls the runtime once, by the path and with the parameters of the URI, or not at all. */
  lemma ResourcesByPath(server: Server, uri: Text, history: History)
    requires |uri| <= 2048 && server.parseUri(uri).Some?
    ensures var address, after := server.parseUri(uri).value, ReadResource(server, uri, history).history;
            if Readable(server.env, address.pathname)
            then |after| == |history| + 1 && after[..|history|] == history && AskedBy(address, after[|history|])
            else after == history
  {
    var address := server.parseUri(uri).value;
    LocatedAsks(address);
    ReadByPath(address.pathname);
    OtherPaths(address.pathname);
    if InSessions(address.pathname) { SessionPassed(address); }
    hide SourceNamed, AskedBy, ResourceArgs, InSessions, UpToSlash, ReadBy;
  }

  // ----------------------------------------------------------------- prompts

  lemma PromptsSpelled(name: Text)
    ensures PromptNamed(name) == Some(RecallPrompt) <==> Spells(name, "tekmemo-recall-context")
    ensures PromptNamed(name) == Some(ReviewPrompt) <==> Spells(name, "tekmemo-memory-review")
  {
    assert Spells(name, "tekmemo-recall-context") ==> name == Ascii("tekmemo-recall-context");
    assert Spells(name, "tekmemo-memory-review") ==> name == Ascii("tekmemo-memory-review");
  }

  predicate FitFields(rules: seq<Rule>, args: Args) {
    forall i :: 0 <= i < |rules| ==> Fits(rules[i], Lookup(args, rules[i].key))
  }

  lemma FitEach(a: Rule, b: Rule, c: Rule, args: Args)
    ensures FitFields([a, b, c], args) <==> Fits(a, Lookup(args, a.key)) && Fits(b, Lookup(args, b.key)) && Fits(c, Lookup(args, c.key))
    ensures FitFields([a, b], args) <==> Fits(a, Lookup(args, a.key)) && Fits(b, Lookup(args, b.key))
  {
    hide Fits, Lookup;
    var three, two := [a, b, c], [a, b];
    assert three[0] == a && three[1] == b && three[2] == c && two[0] == a && two[1] == b;
  }

  /** A prompt is given by its name, exactly when the fields it takes fit; of another name there is none. */
  lemma PromptsByName(name: Text, args: Args)
    ensures var r := GetPrompt(name, Some(Object(args)));
            if Spells(name, "tekmemo-recall-context") then
              r == if FitFields([Must(Ascii("query"), 4096), WorkspaceRule(), May(Ascii("includeGraph"), Flag)], args)
                   then Ok(Prompt(RecallPrompt)) else Err(INVALID)
            else if Spells(name, "tekmemo-memory-review") then
              r == if FitFields([Must(Ascii("content"), 100_000), WorkspaceRule()], args) then Ok(Prompt(ReviewPrompt)) else Err(INVALID)
            else r == Err(NotFound)
  {
    PromptsSpelled(name);
    WordsRule(args, QueryKey(), 4096);
    WordsRule(args, ContentKey(), 100_000);
    WordsRule(args, WorkspaceIdKey(), 256);
    FlagRule(args, IncludeGraphKey());
    FitEach(Must(QueryKey(), 4096), WorkspaceRule(), May(IncludeGraphKey(), Flag), args);
    FitEach(Must(ContentKey(), 100_000), WorkspaceRule(), WorkspaceRule(), args);
    hide FitFields, PromptNamed, Spells, Fits, Lookup, Ascii, OptionalString, RequiredString, OptionalBoolean;
  }

  // ------------------------------------------------------------------- codes

  /** A text that is no JSON and a batch of nothing are refused each with its code, and no call is made. */
  lemma UnreadableRefused(server: Server, text: Text, history: History)
    ensures Parse(text).None? ==> HandleText(server, text, history) == (history, One(Failure(Null, -32700)))
    ensures Parse(text) == Some(Array([])) ==> HandleText(server, text, history) == (history, One(Failure(Null, -32600)))
  {
    hide Parse;
  }
}
