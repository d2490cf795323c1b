/**
 The JSON-RPC side of the MCP server:
 `packages/tekmemo-mcp-server/src/protocol/server.ts`, `protocol/json-rpc.ts`,
 and the resources and prompts it dispatches to.
 */
module McpServer {
  import opened Optional
  import opened Text
  import opened JsonFormat
  import opened McpTools
  import JsonRoundTrip
  import Lists
  import PageWalk
  import Pagination

  // Messages are JSON values; the text of error messages and their data are left
  // out of the responses.

  const PARSE_ERROR := -32700
  const INVALID_REQUEST := -32600
  const METHOD_NOT_FOUND := -32601
  const INVALID_PARAMS := -32602
  const INTERNAL_ERROR := -32603

  /** Without an `id` a request is a notification. */
  datatype Request = Request(id: Option<Json>, name: Text, params: Option<seq<Member>>)

  datatype Reply =
    | Initialized(version: Text)
    | Empty
    | Listed(items: seq<Definition>, nextCursor: Option<Text>)
    | ToolResult(reply: ToolReply)
    | Resource(content: Result<Json, Error>)
    | Prompt(kind: PromptKind)

  datatype Response = Success(id: Json, reply: Reply) | Failure(id: Json, code: int)

  datatype Output = Nothing | One(response: Response) | Many(responses: seq<Response>)

  datatype Source =
    | HealthSource | ContextSource | CoreSource | NotesSource | RecentSource | NodesSource | EdgesSource
    | SessionSource(sessionId: Text)
    | UnknownSource

  /** The parameters of the query of a URI that are there and not empty, the numbers normalised. */
  datatype Search = Search(
    workspaceId: Option<Text>, projectId: Option<Text>, query: Option<Text>, cursor: Option<Text>, limit: Option<Json>, maxBytes: Option<Json>)

  /** A URI taken apart: what stands between `tekmemo://` and the query, and the query. */
  datatype Address = Address(pathname: Text, search: Search)

  /** The resource that a URI is of, with the arguments of the call that reads it. */
  datatype Uri = Uri(source: Source, args: Args)

  /** What can be listed; resources are named by what they read. */
  datatype Definition =
    | ToolDefinition(tool: Tool)
    | SessionCoreDefinition
    | SessionOutputDefinition
    | ResourceDefinition(source: Source)
    | PromptDefinition(kind: PromptKind)

  type Listing = (seq<Definition>, Option<Text>, Text) -> Result<PageWalk.Page<Definition, Text>, Pagination.Error>

  /** `listing` pages definitions from a cursor under a namespace. */
  datatype Server = Server(env: Env, listing: Listing, parseUri: Text -> Option<Address>)

  /** The server with its page size; its maximum is that of the tools. */
  function NewServer(env: Env, defaultPageSize: int, parseUri: Text -> Option<Address>): Server {
    Server(env,
           (definitions, cursor, namespace) =>
             Pagination.PaginateArray(
               definitions, Pagination.Options(cursor, Pagination.Undefined, defaultPageSize, env.maxPageSize), namespace),
           parseUri)
  }

  // ------------------------------------------------------------------ names

  function IdKey(): Text { Ascii("id") }
  function MethodKey(): Text { Ascii("method") }
  function ParamsKey(): Text { Ascii("params") }
  function JsonRpcKey(): Text { Ascii("jsonrpc") }
  function JsonRpcVersion(): Text { Ascii("2.0") }
  function NameKey(): Text { Ascii("name") }
  function ArgumentsKey(): Text { Ascii("arguments") }
  function UriKey(): Text { Ascii("uri") }
  function CursorKey(): Text { Ascii("cursor") }
  function ProtocolVersionKey(): Text { Ascii("protocolVersion") }
  function ToolsNamespace(): Text { Ascii("tools") }
  function ResourcesNamespace(): Text { Ascii("resources") }
  function PromptsNamespace(): Text { Ascii("prompts") }

  // ------------------------------------------------------------ json-rpc.ts

  function Refuse(code: int): Result<Request, Error> {
    Err(Validation(Some(code)))
  }

  function ValidateRequest(message: Json): Result<Request, Error> {
    if !message.Object? then Refuse(INVALID_REQUEST)
    else
      var value := message.members;
      var id, name, params := Lookup(value, IdKey()), Lookup(value, MethodKey()), Lookup(value, ParamsKey());
      if Lookup(value, JsonRpcKey()) != Some(String(JsonRpcVersion())) then Refuse(INVALID_REQUEST)
      else if !(name.Some? && name.value.String?) || name.value.s == [] then Refuse(INVALID_REQUEST)
      else if id.Some? && !id.value.String? && !id.value.Number? && !id.value.Null? then Refuse(INVALID_REQUEST)
      else if params.Some? && !params.value.Object? then Refuse(INVALID_PARAMS)
      else Ok(Request(id, name.value.s, if params.Some? then Some(params.value.members) else None))
  }

  function ErrorCodeFrom(e: Error): int {
    match e
    case Validation(Some(code)) => code
    case Validation(None) => INVALID_PARAMS
    case NotFound => METHOD_NOT_FOUND
    case _ => INTERNAL_ERROR
  }

  // -------------------------------------------------------------- resources

  function SourceOperation(source: Source): Option<Operation> {
    match source
    case HealthSource => Some(Health)
    case ContextSource => Some(Context)
    case CoreSource => Some(ReadCoreMemory)
    case NotesSource => Some(ReadNotesMemory)
    case RecentSource => Some(ListRecentMemories)
    case NodesSource => Some(ListGraphNodes)
    case EdgesSource => Some(ListGraphEdges)
    case SessionSource(_) => Some(ReadAgentSessionFile)
    case UnknownSource => None
  }

  /** The second part of a path that begins with `agent-sessions/`: what follows up to the next slash. */
  function UpToSlash(t: Text): Text {
    if t == [] || t[0] == 47 then [] else [t[0]] + UpToSlash(t[1..])
  }

  function SessionsPrefix(): Text { Ascii("agent-sessions/") }

  function SourceNamed(pathname: Text): Source {
    if pathname == Ascii("health") then HealthSource
    else if pathname == Ascii("context") then ContextSource
    else if pathname == Ascii("memory/core") then CoreSource
    else if pathname == Ascii("memory/notes") then NotesSource
    else if pathname == Ascii("memory/recent") then RecentSource
    else if pathname == Ascii("graph/nodes") then NodesSource
    else if pathname == Ascii("graph/edges") then EdgesSource
    else if SessionsPrefix() <= pathname then SessionSource(UpToSlash(pathname[|SessionsPrefix()|..]))
    else UnknownSource
  }

  function DefaultQuery(): Text { Ascii("current task") }

  datatype Parameter = Parameter(key: Text, value: Option<Json>)

  function TextValue(t: Option<Text>): Option<Json> {
    if t.Some? then Some(String(t.value)) else None
  }

  /** What the call that reads the resource may be given. */
  function ResourceParameters(source: Source, address: Address): seq<Parameter> {
    var Address(pathname, search) := address;
    var workspaceId := Parameter(WorkspaceIdKey(), TextValue(search.workspaceId));
    var projectId := Parameter(ProjectIdKey(), TextValue(search.projectId));
    var query, cursor := Parameter(QueryKey(), TextValue(search.query)), Parameter(CursorKey(), TextValue(search.cursor));
    var limit, maxBytes := Parameter(LimitKey(), search.limit), Parameter(MaxBytesKey(), search.maxBytes);
    match source
    case HealthSource | UnknownSource => []
    case ContextSource =>
      [if search.query.Some? then query else Parameter(QueryKey(), Some(String(DefaultQuery()))), workspaceId, projectId, limit, maxBytes]
    case CoreSource | NotesSource => [workspaceId, projectId, query, cursor, limit, maxBytes]
    case RecentSource => [workspaceId, projectId, limit]
    case NodesSource | EdgesSource => [workspaceId, cursor, limit]
    case SessionSource(sessionId) =>
      [Parameter(SessionIdKey(), Some(String(sessionId))), Parameter(PathKey(), Some(String([47] + pathname)))]
  }

  function Fields(parameters: seq<Parameter>): Args {
    if parameters == [] then []
    else
      var last := parameters[|parameters| - 1];
      Fields(parameters[..|parameters| - 1]) + Field(last.key, last.value)
  }

  /** The arguments of the call that reads the resource. */
  function ResourceArgs(source: Source, address: Address): Args {
    Fields(ResourceParameters(source, address))
  }

  /** What a URI stands for, if it is valid. */
  function Locate(server: Server, uri: Text): Option<Uri> {
    match server.parseUri(uri)
    case None => None
    case Some(address) => Some(Uri(SourceNamed(address.pathname), ResourceArgs(SourceNamed(address.pathname), address)))
  }

  function Ask(env: Env, operation: Operation, args: Args, history: History): Step<Json> {
    if operation != Health && operation !in env.supports then Step(history, Err(NotFound))
    else
      var called := history + [Invoke(operation, args)];
      Step(called, match env.runtime(called)
                   case Returned(v) => if ReadsContent(operation) && v.Null? then Err(Unexpected) else Ok(v)
                   case Thrown(e) => Err(e))
  }

  /** The field `content` is read of the result, which throws if that is null. */
  predicate ReadsContent(operation: Operation) {
    operation.ReadCoreMemory? || operation.ReadNotesMemory? || operation.ReadAgentSessionFile?
  }

  /**
   An error is caught and put into the content, except for an agent session:
   its promise is returned without being awaited inside the `try`.
   */
  function ReadResource(server: Server, uri: Text, history: History): Step<Reply> {
    if |uri| > 2048 then Step(history, Err(INVALID))
    else match Locate(server, uri)
      case None => Step(history, Err(INVALID))
      case Some(parsed) =>
        match SourceOperation(parsed.source)
        case None => Step(history, Ok(Resource(Err(NotFound))))
        case Some(operation) =>
          if parsed.source.SessionSource? then
            if operation in server.env.supports && parsed.source.sessionId == [] then Step(history, Err(NotFound))
            else
              var asked := Ask(server.env, operation, parsed.args, history);
              Step(asked.history, match asked.result case Ok(v) => Ok(Resource(Ok(v))) case Err(e) => Err(e))
          else
            var asked := Ask(server.env, operation, parsed.args, history);
            Step(asked.history, Ok(Resource(asked.result)))
  }

  // ---------------------------------------------------------------- prompts

  datatype PromptKind = RecallPrompt | ReviewPrompt

  function PromptNamed(name: Text): Option<PromptKind> {
    if name == Ascii("tekmemo-recall-context") then Some(RecallPrompt)
    else if name == Ascii("tekmemo-memory-review") then Some(ReviewPrompt)
    else None
  }

  function GetPrompt(name: Text, rawArgs: Option<Json>): Result<Reply, Error> {
    if rawArgs.Some? && !rawArgs.value.Object? then Err(INVALID)
    else
      var args := if rawArgs.None? then [] else rawArgs.value.members;
      match PromptNamed(name)
      case Some(RecallPrompt) =>
        var query :- RequiredString(args, QueryKey(), 4096);
        var workspaceId :- OptionalString(args, WorkspaceIdKey(), 256);
        var includeGraph :- OptionalBoolean(args, IncludeGraphKey());
        Ok(Prompt(RecallPrompt))
      case Some(ReviewPrompt) =>
        var content :- RequiredString(args, ContentKey(), 100_000);
        var workspaceId :- OptionalString(args, WorkspaceIdKey(), 256);
        Ok(Prompt(ReviewPrompt))
      case None => Err(NotFound)
  }

  // --------------------------------------------------------------- dispatch

  function LatestVersion(): Text { Ascii("2025-11-25") }

  function NegotiateVersion(client: Option<Json>): Text {
    if client.Some? && client.value.String?
       && client.value.s in {LatestVersion(), Ascii("2025-06-18"), Ascii("2025-03-26"), Ascii("2024-11-05")}
    then client.value.s
    else LatestVersion()
  }

  function ToolDefinitions(): seq<Definition> {
    [
      ToolDefinition(SessionStart), ToolDefinition(SessionRead), ToolDefinition(SessionWrite),
      ToolDefinition(SessionAppend), ToolDefinition(SessionExtract), ToolDefinition(SessionComplete),
      ToolDefinition(ContextTool), ToolDefinition(RecallTool), ToolDefinition(Remember), ToolDefinition(Consolidate)
    ]
  }

  function ResourceDefinitions(): seq<Definition> {
    [
      SessionCoreDefinition, SessionOutputDefinition,
      ResourceDefinition(HealthSource), ResourceDefinition(ContextSource), ResourceDefinition(CoreSource),
      ResourceDefinition(NotesSource), ResourceDefinition(RecentSource), ResourceDefinition(NodesSource),
      ResourceDefinition(EdgesSource)
    ]
  }

  function PromptDefinitions(): seq<Definition> {
    [PromptDefinition(RecallPrompt), PromptDefinition(ReviewPrompt)]
  }

  /** A page of the definitions. */
  function List(server: Server, definitions: seq<Definition>, params: seq<Member>, namespace: Text): Result<Reply, Error> {
    var cursor := Lookup(params, CursorKey());
    if cursor.Some? && !cursor.value.String? then Err(INVALID)
    else
      match server.listing(definitions, if cursor.Some? then Some(cursor.value.s) else None, namespace)
      case Err(_) => Err(INVALID)
      case Ok(page) => Ok(Listed(page.items, page.nextCursor))
  }

  function TextParam(params: seq<Member>, key: Text): Option<Text> {
    match Lookup(params, key)
    case Some(String(s)) => Some(s)
    case _ => None
  }

  datatype Method =
    | Initialize | Ping | ToolsList | ToolsCall | ResourcesList | ResourcesRead | PromptsList | PromptsGet | SetLevel
    | UnknownMethod

  function MethodNamed(name: Text): Method {
    if name == Ascii("initialize") then Initialize
    else if name == Ascii("ping") then Ping
    else if name == Ascii("tools/list") then ToolsList
    else if name == Ascii("tools/call") then ToolsCall
    else if name == Ascii("resources/list") then ResourcesList
    else if name == Ascii("resources/read") then ResourcesRead
    else if name == Ascii("prompts/list") then PromptsList
    else if name == Ascii("prompts/get") then PromptsGet
    else if name == Ascii("logging/setLevel") then SetLevel
    else UnknownMethod
  }

  function CallNamedTool(server: Server, params: seq<Member>, history: History): Step<Reply> {
    match TextParam(params, NameKey())
    case None => Step(history, Err(INVALID))
    case Some(name) =>
      var called := CallTool(server.env, name, Lookup(params, ArgumentsKey()), history);
      Step(called.history, match called.result case Ok(r) => Ok(ToolResult(r)) case Err(e) => Err(e))
  }

  function Dispatch(server: Server, request: Request, history: History): Step<Reply> {
    var params := if request.params.Some? then request.params.value else [];
    match MethodNamed(request.name)
    case Initialize => Step(history, Ok(Initialized(NegotiateVersion(Lookup(params, ProtocolVersionKey())))))
    case Ping | SetLevel => Step(history, Ok(Empty))
    case ToolsList => Step(history, List(server, ToolDefinitions(), params, ToolsNamespace()))
    case ToolsCall => CallNamedTool(server, params, history)
    case ResourcesList => Step(history, List(server, ResourceDefinitions(), params, ResourcesNamespace()))
    case ResourcesRead =>
      (match TextParam(params, UriKey())
       case None => Step(history, Err(INVALID))
       case Some(uri) => ReadResource(server, uri, history))
    case PromptsList => Step(history, List(server, PromptDefinitions(), params, PromptsNamespace()))
    case PromptsGet =>
      (match TextParam(params, NameKey())
       case None => Step(history, Err(INVALID))
       case Some(name) => Step(history, GetPrompt(name, Lookup(params, ArgumentsKey()))))
    case UnknownMethod => Step(history, Err(NotFound))
  }

  // --------------------------------------------------------------- messages

  function HandleSingle(server: Server, message: Json, history: History): (History, Option<Response>) {
    match ValidateRequest(message)
    case Err(e) => (history, Some(Failure(Null, ErrorCodeFrom(e))))
    case Ok(request) =>
      match request.id
      case None => (history, None)
      case Some(id) =>
        var done := Dispatch(server, request, history);
        (done.history,
         Some(match done.result case Ok(reply) => Success(id, reply) case Err(e) => Failure(id, ErrorCodeFrom(e))))
  }

  /** The items of a batch are handled one after the other; no call of a tool outlasts its item here (they may in `McpRuns`). */
  function HandleItems(server: Server, items: seq<Json>, history: History): (History, seq<Response>) {
    if items == [] then (history, [])
    else
      var n := |items| - 1;
      var before := HandleItems(server, items[..n], history);
      var last := HandleSingle(server, items[n], before.0);
      (last.0, before.1 + (if last.1.Some? then [last.1.value] else []))
  }

  function HandleMessage(server: Server, message: Json, history: History): (History, Output) {
    if message.Array? then
      if message.items == [] then (history, One(Failure(Null, INVALID_REQUEST)))
      else
        var handled := HandleItems(server, message.items, history);
        (handled.0, if handled.1 == [] then Nothing else Many(handled.1))
    else
      var handled := HandleSingle(server, message, history);
      (handled.0, if handled.1.Some? then One(handled.1.value) else Nothing)
  }

  function HandleText(server: Server, text: Text, history: History): (History, Output) {
    match Parse(text)
    case None => (history, One(Failure(Null, PARSE_ERROR)))
    case Some(message) => HandleMessage(server, message, history)
  }

  lemma ItemsNext(server: Server, items: seq<Json>, i: nat, history: History)
    requires i < |items|
    ensures var before := HandleItems(server, items[..i], history);
            var last := HandleSingle(server, items[i], before.0);
            HandleItems(server, items[..i + 1], history)
            == (last.0, before.1 + (if last.1.Some? then [last.1.value] else []))
  {
    hide HandleSingle;
    assert items[..i + 1][..i] == items[..i];
  }

  /** The server's own object; `history` is what it has asked of the host so far. */
  class ProtocolServer {
    const server: Server
    var history: History

    constructor (s: Server)
      ensures server == s && history == []
    {
      server, history := s, [];
    }

    method Single(message: Json) returns (response: Option<Response>)
      modifies this
      ensures (history, response) == HandleSingle(server, message, old(history))
    {
      var request := ValidateRequest(message);
      if request.Err? {
        return Some(Failure(Null, ErrorCodeFrom(request.error)));
      }
      if request.value.id.None? {
        return None;
      }
      var done := Dispatch(server, request.value, history);
      history := done.history;
      response := Some(
        if done.result.Ok? then Success(request.value.id.value, done.result.value)
        else Failure(request.value.id.value, ErrorCodeFrom(done.result.error)));
    }

    method HandleJsonRpcMessage(message: Json) returns (output: Output)
      modifies this
      ensures (history, output) == HandleMessage(server, message, old(history))
    {
      if message.Array? {
        if |message.items| == 0 {
          return One(Failure(Null, INVALID_REQUEST));
        }
        var responses: seq<Response> := [];
        for i := 0 to |message.items|
          invariant (history, responses) == HandleItems(server, message.items[..i], old(history))
        {
          ghost var before, given := history, responses;
          var response := Single(message.items[i]);
          if response.Some? {
            responses := responses + [response.value];
          }
          assert responses == given + (if response.Some? then [response.value] else []);
          assert HandleSingle(server, message.items[i], before) == (history, response);
          ItemsNext(server, message.items, i, old(history));
        }
        assert message.items[..|message.items|] == message.items;
        return if |responses| > 0 then Many(responses) else Nothing;
      }
      var response := Single(message);
      return if response.Some? then One(response.value) else Nothing;
    }
  }

  // ------------------------------------------------------------ whole runs

  /** The history after any sequence of messages. */
  function Serve(server: Server, messages: seq<Json>): History {
    if messages == [] then []
    else HandleMessage(server, messages[|messages| - 1], Serve(server, messages[..|messages| - 1])).0
  }

  ghost predicate AllGuarded(env: Env, history: History) {
    forall k :: 0 <= k < |history| ==> Guarded(env, history, k)
  }

  /** One more call, harmless, keeps every call guarded. */
  lemma HarmlessCallKeeps(env: Env, history: History, c: Call)
    requires AllGuarded(env, history) && Harmless(c)
    ensures AllGuarded(env, history + [c])
  {
    hide Harmless;
    forall k | 0 <= k < |history + [c]|
      ensures Guarded(env, history + [c], k)
    {
      if k < |history| {
        assert Guarded(env, history, k);
        assert (history + [c])[..k] == history[..k];
      }
    }
  }

  lemma AskKeeps(env: Env, operation: Operation, args: Args, history: History)
    requires AllGuarded(env, history) && Harmless(Invoke(operation, args))
    ensures AllGuarded(env, Ask(env, operation, args, history).history)
  {
    hide AllGuarded, Harmless;
    HarmlessCallKeeps(env, history, Invoke(operation, args));
  }

  lemma ReadResourceKeeps(server: Server, uri: Text, history: History)
    requires AllGuarded(server.env, history)
    ensures AllGuarded(server.env, ReadResource(server, uri, history).history)
  {
    hide AllGuarded, Ask;
    var parsed := Locate(server, uri);
    if parsed.Some? && SourceOperation(parsed.value.source).Some? {
      AskKeeps(server.env, SourceOperation(parsed.value.source).value, parsed.value.args, history);
    }
  }

  lemma DispatchKeeps(server: Server, request: Request, history: History)
    requires AllGuarded(server.env, history)
    ensures AllGuarded(server.env, Dispatch(server, request, history).history)
  {
    hide CallTool, ReadResource, List, GetPrompt, MethodNamed, NegotiateVersion, Lookup;
    var params := if request.params.Some? then request.params.value else [];
    var name, uri := TextParam(params, NameKey()), TextParam(params, UriKey());
    if name.Some? { ToolCallsAreGuarded(server.env, name.value, Lookup(params, ArgumentsKey()), history); }
    if uri.Some? { ReadResourceKeeps(server, uri.value, history); }
  }

  lemma SingleKeeps(server: Server, message: Json, history: History)
    requires AllGuarded(server.env, history)
    ensures AllGuarded(server.env, HandleSingle(server, message, history).0)
  {
    hide AllGuarded, Dispatch, ValidateRequest;
    var request := ValidateRequest(message);
    if request.Ok? { DispatchKeeps(server, request.value, history); }
  }

  lemma {:induction false} ItemsKeep(server: Server, items: seq<Json>, history: History)
    requires AllGuarded(server.env, history)
    ensures AllGuarded(server.env, HandleItems(server, items, history).0)
  {
    hide AllGuarded, HandleSingle;
    if items != [] {
      var n := |items| - 1;
      ItemsKeep(server, items[..n], history);
      SingleKeeps(server, items[n], HandleItems(server, items[..n], history).0);
    }
  }

  lemma {:induction false} ServeKeeps(server: Server, messages: seq<Json>)
    ensures AllGuarded(server.env, Serve(server, messages))
  {
    hide HandleItems, HandleSingle, AllGuarded;
    if messages == [] {
      assert AllGuarded(server.env, []) by { NoCalls(server.env); }
    } else {
      var n := |messages| - 1;
      var before := Serve(server, messages[..n]);
      ServeKeeps(server, messages[..n]);
      var message := messages[n];
      if message.Array? {
        ItemsKeep(server, message.items, before);
      } else {
        SingleKeeps(server, message, before);
      }
    }
  }

  lemma NoCalls(env: Env)
    ensures AllGuarded(env, [])
  {
  }

  /**
   Over any sequence of messages, whatever the host answers, a read-only server
   makes harmless calls only.
   */
  lemma ReadOnlyServer(server: Server, messages: seq<Json>)
    requires server.env.readOnly
    ensures forall c :: c in Serve(server, messages) ==> Harmless(c)
  {
    hide Serve, Harmless;
    ServeKeeps(server, messages);
    var history := Serve(server, messages);
    forall c | c in history
      ensures Harmless(c)
    {
      var k :| 0 <= k < |history| && history[k] == c;
      assert Guarded(server.env, history, k);
      if c.Authorize? { AskingIsHarmless(server.env, [], Validated([], Read, None), []); }
    }
  }

  /**
   With an authorization callback and no tool call in progress when a message is
   taken up, every call that may write follows its permission, given for the
   same arguments.  `McpRuns` has what is left of it when requests overlap.
   */
  lemma WritesAreAuthorized(server: Server, messages: seq<Json>, k: nat)
    requires server.env.authorize.Some?
    requires k < |Serve(server, messages)| && Serve(server, messages)[k].Invoke? && !Harmless(Serve(server, messages)[k])
    ensures var history := Serve(server, messages);
            && k > 0 && history[k - 1].Authorize?
            && history[k - 1].safety == Write && history[k - 1].args == history[k].args
            && server.env.authorize.value(history[..k]) == Allowed
  {
    hide Serve, Harmless;
    ServeKeeps(server, messages);
    assert Guarded(server.env, Serve(server, messages), k);
  }

  // --------------------------------------------------------------- responses

  predicate IsNotification(message: Json) {
    ValidateRequest(message).Ok? && ValidateRequest(message).value.id.None?
  }

  /** The id a response has to carry: that of the request, or null when there is none to be told. */
  function AnswerId(message: Json): Json {
    match ValidateRequest(message)
    case Err(_) => Null
    case Ok(request) => if request.id.Some? then request.id.value else Null
  }

  /** The items that are due a response, in order. */
  function Answerable(items: seq<Json>): seq<Json> {
    if items == [] then []
    else Answerable(items[..|items| - 1]) + (if IsNotification(items[|items| - 1]) then [] else [items[|items| - 1]])
  }

  /** A notification calls nothing and is not answered; anything else is answered under its id. */
  lemma SingleAnswer(server: Server, message: Json, history: History)
    ensures var (after, response) := HandleSingle(server, message, history);
            if IsNotification(message) then after == history && response == None
            else response.Some? && response.value.id == AnswerId(message)
    ensures ValidateRequest(message).Err? ==> HandleSingle(server, message, history).0 == history
  {
    hide ValidateRequest, Dispatch;
  }

  lemma {:induction false} ItemAnswers(server: Server, items: seq<Json>, history: History)
    ensures var responses := HandleItems(server, items, history).1;
            && |responses| == |Answerable(items)|
            && forall k :: 0 <= k < |responses| ==> responses[k].id == AnswerId(Answerable(items)[k])
  {
    hide HandleSingle, IsNotification, AnswerId;
    if items != [] {
      var n := |items| - 1;
      ItemAnswers(server, items[..n], history);
      SingleAnswer(server, items[n], HandleItems(server, items[..n], history).0);
    }
  }

  /**
   Section 6 of the JSON-RPC 2.0 Specification: a batch is answered by one
   response for each item that is not a notification, an empty batch by a single
   error, a batch of notifications not at all.  The responses are in order.
   */
  lemma {:induction false} BatchAnswers(server: Server, items: seq<Json>, history: History)
    ensures var output := HandleMessage(server, Array(items), history).1;
            var due := Answerable(items);
            if items == [] then output == One(Failure(Null, INVALID_REQUEST))
            else if due == [] then output == Nothing
            else && output.Many? && |output.responses| == |due|
                 && forall k :: 0 <= k < |due| ==> output.responses[k].id == AnswerId(due[k])
  {
    hide HandleItems, AnswerId, Answerable;
    ItemAnswers(server, items, history);
  }

  lemma {:induction false} NotificationBatchCallsNothing(server: Server, items: seq<Json>, history: History)
    requires forall item :: item in items ==> IsNotification(item)
    ensures HandleItems(server, items, history) == (history, [])
  {
    hide HandleSingle, IsNotification;
    if items == [] {
      assert HandleItems(server, items, history) == (history, []);
    } else {
      var n := |items| - 1;
      NotificationBatchCallsNothing(server, items[..n], history);
      SingleAnswer(server, items[n], history);
      assert HandleSingle(server, items[n], history) == (history, None);
      assert HandleItems(server, items[..n], history).1 + [] == [];
    }
  }

  /**
   A call of a tool that names it is answered by a result, which tells of the
   error if there was one; it is a failure only where the output limit has no room
   for an error, be it the one that says that the result has no room.
   */
  lemma ToolErrorsAreResults(server: Server, params: seq<Member>, history: History)
    requires TextParam(params, NameKey()).Some?
    ensures var said := Unlimited(server.env, TextParam(params, NameKey()).value, Lookup(params, ArgumentsKey()), history);
            CallNamedTool(server, params, history).result ==
              if server.env.fits(said) then Ok(ToolResult(said))
              else if said.ToolOk? && server.env.fits(ToolError(OutputLimit)) then Ok(ToolResult(ToolError(OutputLimit)))
              else Err(OutputLimit)
  {
    hide CallTool, Unlimited, Lookup, TextParam;
    AnswerWithinLimit(server.env, TextParam(params, NameKey()).value, Lookup(params, ArgumentsKey()), history);
  }

  predicate IsText(v: Option<Json>) {
    v.Some? && v.value.String?
  }

  /** No request at all, whatever its parameters. */
  predicate Malformed(message: Json) {
    !message.Object? ||
    (var id, name := Lookup(message.members, IdKey()), Lookup(message.members, MethodKey());
     || Lookup(message.members, JsonRpcKey()) != Some(String(JsonRpcVersion()))
     || !IsText(name) || name.value.s == []
     || (id.Some? && !id.value.String? && !id.value.Number? && !id.value.Null?))
  }

  predicate ParamsAreNoObject(message: Json) {
    !Malformed(message) && Lookup(message.members, ParamsKey()).Some? && !Lookup(message.members, ParamsKey()).value.Object?
  }

  /** A request that is dispatched. */
  predicate IsCall(message: Json) {
    !Malformed(message) && !ParamsAreNoObject(message) && Lookup(message.members, IdKey()).Some?
  }

  function CallMethod(message: Json): Method
    requires IsCall(message)
  {
    MethodNamed(Lookup(message.members, MethodKey()).value.s)
  }

  function CallParams(message: Json): seq<Member>
    requires IsCall(message)
  {
    match Lookup(message.members, ParamsKey()) case Some(Object(members)) => members case _ => []
  }

  predicate WrongCursor(server: Server, definitions: seq<Definition>, params: seq<Member>, namespace: Text) {
    match Lookup(params, CursorKey())
    case None => server.listing(definitions, None, namespace).Err?
    case Some(String(cursor)) => server.listing(definitions, Some(cursor), namespace).Err?
    case Some(_) => true
  }

  predicate WrongPromptArgs(name: Text, args: Option<Json>) {
    if args.Some? && !args.value.Object? then true
    else
      var members := if args.Some? then args.value.members else [];
      match PromptNamed(name)
      case None => false
      case Some(RecallPrompt) =>
        RequiredString(members, QueryKey(), 4096).Err? || OptionalString(members, WorkspaceIdKey(), 256).Err?
        || OptionalBoolean(members, IncludeGraphKey()).Err?
      case Some(ReviewPrompt) =>
        RequiredString(members, ContentKey(), 100_000).Err? || OptionalString(members, WorkspaceIdKey(), 256).Err?
  }

  predicate WrongParams(server: Server, called: Method, params: seq<Member>) {
    match called
    case ToolsCall => !IsText(Lookup(params, NameKey()))
    case PromptsGet =>
      !IsText(Lookup(params, NameKey())) || WrongPromptArgs(Lookup(params, NameKey()).value.s, Lookup(params, ArgumentsKey()))
    case ResourcesRead =>
      (var uri := Lookup(params, UriKey()); !IsText(uri) || |uri.value.s| > 2048 || Locate(server, uri.value.s).None?)
    case ToolsList => WrongCursor(server, ToolDefinitions(), params, ToolsNamespace())
    case ResourcesList => WrongCursor(server, ResourceDefinitions(), params, ResourcesNamespace())
    case PromptsList => WrongCursor(server, PromptDefinitions(), params, PromptsNamespace())
    case _ => false
  }

  /** A method, a prompt or a session that is not there. */
  predicate NotThere(server: Server, called: Method, params: seq<Member>) {
    && !WrongParams(server, called, params)
    && match called
       case UnknownMethod => true
       case PromptsGet => PromptNamed(Lookup(params, NameKey()).value.s).None?
       case ResourcesRead =>
         (var source := Locate(server, Lookup(params, UriKey()).value.s).value.source;
          source.SessionSource? && (source.sessionId == [] || ReadAgentSessionFile !in server.env.supports))
       case _ => false
  }

  /** What the runtime throws while a session is read is not caught on its way to the client, nor is what a null result makes the server throw. */
  predicate HostThrows(server: Server, called: Method, params: seq<Member>, history: History, code: int) {
    && called.ResourcesRead? && !WrongParams(server, called, params) && !NotThere(server, called, params)
    && var Uri(source, args) := Locate(server, Lookup(params, UriKey()).value.s).value;
       && source.SessionSource?
       && match server.env.runtime(history + [Invoke(ReadAgentSessionFile, args)])
          case Thrown(e) => ErrorCodeFrom(e) == code
          case Returned(v) => v.Null? && code == INTERNAL_ERROR
  }

  /** What the tool has to say does not fit the output limit, and it is an error, or not even the error that says so fits. */
  predicate NoRoom(server: Server, called: Method, params: seq<Member>, history: History) {
    && called.ToolsCall? && !WrongParams(server, called, params)
    && var reply := Unlimited(server.env, Lookup(params, NameKey()).value.s, Lookup(params, ArgumentsKey()), history);
       !server.env.fits(reply) && (reply.ToolError? || !server.env.fits(ToolError(OutputLimit)))
  }

  predicate FailsWith(response: Option<Response>, code: int) {
    response.Some? && response.value.Failure? && response.value.code == code
  }

  /**
   Section 5.1 of the JSON-RPC 2.0 Specification, code by code: which messages
   are answered by each of them.  The rest are answered by a result, or not at all.
   */
  lemma CodesTell(server: Server, message: Json, history: History)
    ensures var response := HandleSingle(server, message, history).1;
            && (FailsWith(response, -32600) <==>
                  || Malformed(message)
                  || (IsCall(message) && HostThrows(server, CallMethod(message), CallParams(message), history, -32600)))
            && (FailsWith(response, -32601) <==>
                  && IsCall(message)
                  && (|| NotThere(server, CallMethod(message), CallParams(message))
                      || HostThrows(server, CallMethod(message), CallParams(message), history, -32601)))
            && (FailsWith(response, -32602) <==>
                  || ParamsAreNoObject(message)
                  || (&& IsCall(message)
                      && (|| WrongParams(server, CallMethod(message), CallParams(message))
                          || HostThrows(server, CallMethod(message), CallParams(message), history, -32602))))
            && (FailsWith(response, -32603) <==>
                  && IsCall(message)
                  && (|| NoRoom(server, CallMethod(message), CallParams(message), history)
                      || HostThrows(server, CallMethod(message), CallParams(message), history, -32603)))
  {
    hide Dispatch, MethodNamed, WrongParams, NotThere, HostThrows, NoRoom, Lookup, Malformed;
    CodesOfRefusal(message);
    if IsCall(message) {
      var request := ValidateRequest(message).value;
      DispatchCodes(server, request, CallParams(message), history, INVALID_REQUEST);
      DispatchCodes(server, request, CallParams(message), history, METHOD_NOT_FOUND);
      DispatchCodes(server, request, CallParams(message), history, INVALID_PARAMS);
      DispatchCodes(server, request, CallParams(message), history, INTERNAL_ERROR);
    }
  }

  lemma CodesOfRefusal(message: Json)
    ensures match ValidateRequest(message)
            case Err(e) =>
              if Malformed(message) then ErrorCodeFrom(e) == INVALID_REQUEST
              else ParamsAreNoObject(message) && ErrorCodeFrom(e) == INVALID_PARAMS
            case Ok(request) =>
              && !Malformed(message) && !ParamsAreNoObject(message)
              && request.id == Lookup(message.members, IdKey())
              && Some(String(request.name)) == Lookup(message.members, MethodKey())
              && (if request.params.Some? then Some(Object(request.params.value)) else None) == Lookup(message.members, ParamsKey())
  {
    hide Lookup;
  }

  /** A dispatch that fails with this code. */
  predicate Fault(server: Server, called: Method, params: seq<Member>, history: History, code: int) {
    || (code == METHOD_NOT_FOUND && NotThere(server, called, params))
    || (code == INVALID_PARAMS && WrongParams(server, called, params))
    || (code == INTERNAL_ERROR && NoRoom(server, called, params, history))
    || HostThrows(server, called, params, history, code)
  }

  /** The failure is with this code. */
  predicate Yields(result: Result<Reply, Error>, code: int) {
    result.Err? && ErrorCodeFrom(result.error) == code
  }

  lemma ToolCodes(server: Server, params: seq<Member>, history: History, code: int)
    ensures Yields(CallNamedTool(server, params, history).result, code) <==> Fault(server, ToolsCall, params, history, code)
  {
    hide Lookup, CallTool, Unlimited;
    var name := TextParam(params, NameKey());
    if name.Some? { AnswerWithinLimit(server.env, name.value, Lookup(params, ArgumentsKey()), history); }
  }

  lemma PromptCodes(name: Text, args: Option<Json>, code: int)
    ensures Yields(GetPrompt(name, args), code) <==>
              || (code == INVALID_PARAMS && WrongPromptArgs(name, args))
              || (code == METHOD_NOT_FOUND && PromptNamed(name).None? && !WrongPromptArgs(name, args))
  {
    hide OptionalString, OptionalBoolean, PromptNamed, Ascii;
    if !(args.Some? && !args.value.Object?) && PromptNamed(name).Some? {
      var members := if args.Some? then args.value.members else [];
      StringFaults(members, WorkspaceIdKey(), 256);
      StringFaults(members, QueryKey(), 4096);
      StringFaults(members, ContentKey(), 100_000);
      BooleanFaults(members, IncludeGraphKey());
    }
  }

  lemma StringFaults(args: Args, key: Text, max: nat)
    ensures OptionalString(args, key, max).Err? ==> OptionalString(args, key, max) == Err(INVALID)
    ensures RequiredString(args, key, max).Err? ==> RequiredString(args, key, max) == Err(INVALID)
  {
    hide Lookup, Trim;
  }

  lemma BooleanFaults(args: Args, key: Text)
    ensures OptionalBoolean(args, key).Err? ==> OptionalBoolean(args, key) == Err(INVALID)
  {
    hide Lookup;
  }

  lemma PromptsGetCodes(server: Server, params: seq<Member>, history: History, code: int)
    ensures var result := match TextParam(params, NameKey())
                          case None => Err(INVALID)
                          case Some(name) => GetPrompt(name, Lookup(params, ArgumentsKey()));
            Yields(result, code) <==> Fault(server, PromptsGet, params, history, code)
  {
    hide Lookup, GetPrompt, WrongPromptArgs, PromptNamed;
    var name := Lookup(params, NameKey());
    if IsText(name) { PromptCodes(name.value.s, Lookup(params, ArgumentsKey()), code); }
  }

  lemma ListCodes(server: Server, called: Method, definitions: seq<Definition>, params: seq<Member>, namespace: Text, history: History, code: int)
    requires (called, definitions, namespace) in {
               (ToolsList, ToolDefinitions(), ToolsNamespace()),
               (ResourcesList, ResourceDefinitions(), ResourcesNamespace()),
               (PromptsList, PromptDefinitions(), PromptsNamespace())}
    ensures Yields(List(server, definitions, params, namespace), code) <==> Fault(server, called, params, history, code)
  {
    hide Lookup, ToolDefinitions, ResourceDefinitions, PromptDefinitions, Ascii;
  }

  lemma ResourceCodes(server: Server, params: seq<Member>, history: History, code: int)
    ensures var result := match TextParam(params, UriKey())
                          case None => Err(INVALID)
                          case Some(uri) => ReadResource(server, uri, history).result;
            Yields(result, code) <==> Fault(server, ResourcesRead, params, history, code)
  {
    hide Lookup;
  }

  /** The error of a dispatch, if any, and where it comes from. */
  lemma DispatchCodes(server: Server, request: Request, params: seq<Member>, history: History, code: int)
    requires params == if request.params.Some? then request.params.value else []
    ensures Yields(Dispatch(server, request, history).result, code) <==> Fault(server, MethodNamed(request.name), params, history, code)
  {
    hide MethodNamed, Lookup, List, GetPrompt, ReadResource, CallTool, CallNamedTool, NegotiateVersion, Fault, Yields;
    hide ToolDefinitions, ResourceDefinitions, PromptDefinitions, ErrorCodeFrom, TextParam;
    match MethodNamed(request.name)
    case ToolsCall => ToolCodes(server, params, history, code);
    case ToolsList => ListCodes(server, ToolsList, ToolDefinitions(), params, ToolsNamespace(), history, code);
    case ResourcesList => ListCodes(server, ResourcesList, ResourceDefinitions(), params, ResourcesNamespace(), history, code);
    case PromptsList => ListCodes(server, PromptsList, PromptDefinitions(), params, PromptsNamespace(), history, code);
    case PromptsGet => PromptsGetCodes(server, params, history, code);
    case ResourcesRead => ResourceCodes(server, params, history, code);
    case _ => OtherCodes(server, request, params, history, code);
  }

  lemma OtherCodes(server: Server, request: Request, params: seq<Member>, history: History, code: int)
    requires var called := MethodNamed(request.name); called.Initialize? || called.Ping? || called.SetLevel? || called.UnknownMethod?
    ensures Yields(Dispatch(server, request, history).result, code) <==> Fault(server, MethodNamed(request.name), params, history, code)
  {
    hide MethodNamed, Lookup, NegotiateVersion;
  }

  /** A request that has an id is answered under it exactly when the rest of it is valid. */
  lemma IdReturnedIffValid(server: Server, members: seq<Member>, id: Json, history: History)
    requires Lookup(members, IdKey()) == Some(id) && (id.String? || id.Number?)
    ensures var response := HandleSingle(server, Object(members), history).1;
            response.Some? && (response.value.id == id <==> ValidateRequest(Object(members)).Ok?)
  {
    hide Lookup, Dispatch;
  }

  /**
   Parameters by position, which JSON-RPC allows, are refused; the answer has no
   id even if the request has one, and a notification is answered as well.
   */
  lemma PositionalParamsRefused(server: Server, members: seq<Member>, history: History)
    requires ValidateRequest(Object(members)) != Refuse(INVALID_REQUEST)
    requires Lookup(members, ParamsKey()).Some? && !Lookup(members, ParamsKey()).value.Object?
    ensures HandleSingle(server, Object(members), history) == (history, Some(Failure(Null, INVALID_PARAMS)))
  {
    hide Lookup, Dispatch;
  }

  /** Of the resources only those of an agent session let an error through; those of the others become content. */
  lemma ResourceFailsIff(server: Server, uri: Text, history: History)
    requires |uri| <= 2048 && Locate(server, uri).Some?
    ensures var Uri(source, args) := Locate(server, uri).value;
            ReadResource(server, uri, history).result.Err? <==>
              && source.SessionSource?
              && (|| ReadAgentSessionFile !in server.env.supports
                  || source.sessionId == []
                  || server.env.runtime(history + [Invoke(ReadAgentSessionFile, args)]).Thrown?
                  || server.env.runtime(history + [Invoke(ReadAgentSessionFile, args)]) == Returned(Null))
  {
  }

  /** The text of a message is handled as the message. */
  lemma TextIsMessage(server: Server, message: Json, history: History)
    requires Valid(message)
    ensures HandleText(server, Stringify(message), history) == HandleMessage(server, message, history)
  {
    hide Parse, Stringify, HandleMessage, Valid;
    JsonRoundTrip.ParseStringify(message);
  }

  /** Following the cursors of `tools/list` shows every tool once, in order, on max(1, ceil(10 / size)) pages. */
  lemma ListingShowsEveryTool(env: Env, defaultPageSize: nat, parseUri: Text -> Option<Address>) returns (pages: seq<seq<Definition>>)
    requires defaultPageSize > 0
    ensures PageWalk.IsPageCount(|pages|, 10, defaultPageSize) && Lists.Flatten(pages) == ToolDefinitions()
    ensures var options := Pagination.Options(None, Pagination.Undefined, defaultPageSize, env.maxPageSize);
            var fetch := Pagination.FetchPage(ToolDefinitions(), options, ToolsNamespace());
            && (forall cursor :: NewServer(env, defaultPageSize, parseUri).listing(ToolDefinitions(), cursor, ToolsNamespace()) == fetch(cursor))
            && (forall k :: 0 <= k < |pages| ==> PageWalk.Shows(fetch, k, pages[k]))
            && PageWalk.Follow(fetch, |pages|) == None
  {
    hide Pagination.PaginateArray, Pagination.CursorText, PageWalk.IsPageCount;
    var options := Pagination.Options(None, Pagination.Undefined, defaultPageSize, env.maxPageSize);
    forall offset {:trigger Pagination.CursorText(offset, ToolsNamespace())} | 0 <= offset < 10
      ensures |Pagination.CursorText(offset, ToolsNamespace())| <= 512
    {
      Pagination.ServerCursorsFit(offset, ToolsNamespace());
    }
    pages := Pagination.PagesCoverTheList(ToolDefinitions(), options, ToolsNamespace(), defaultPageSize);
  }
}
