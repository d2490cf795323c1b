/**
 Tool calls of the MCP server: `packages/tekmemo-mcp-server/src/tools/handlers.ts`.

 The runtime and the authorization callback belong to the host.  Here they are
 functions of the history of calls made to them, so that they may do anything;
 the history is what the properties are about.
 */
module McpTools {
  import opened Optional
  import opened Text
  import opened JsonFormat
  import Pagination

  datatype Safety = Read | Write

  datatype Tool =
    | SessionStart | SessionRead | SessionWrite | SessionAppend | SessionExtract | SessionComplete
    | ContextTool | RecallTool | Remember | Consolidate

  /** The methods of the runtime that the server may call. */
  datatype Operation =
    | StartAgentSession | ReadAgentSessionFile | WriteAgentSessionFile | AppendAgentSessionFile
    | ExtractAgentSession | CompleteAgentSession
    | Context | Recall | WriteMemory | ConsolidateMemory
    | Health | ReadCoreMemory | ReadNotesMemory | ListRecentMemories | ListGraphNodes | ListGraphEdges

  /** `Validation` may carry the JSON-RPC code to answer with. */
  datatype Error = Validation(jsonRpcCode: Option<int>) | Authorization | NotFound | Timeout | OutputLimit | Unexpected

  const INVALID: Error := Validation(None)

  type Args = seq<Member>

  datatype Call =
    | Authorize(tool: Text, safety: Safety, workspaceId: Option<Text>, args: Args)
    | Invoke(operation: Operation, args: Args)

  type History = seq<Call>

  datatype Verdict = Allowed | Denied | Refused(error: Error)

  datatype Answer = Returned(value: Json) | Thrown(error: Error)

  datatype ToolReply = ToolOk(structured: Json) | ToolError(error: Error)

  /** Checks of single fields that are not spelled out here. */
  datatype Checks = Checks(
    payload: Json -> bool,
    jsonObject: Json -> bool,
    memoryKind: Json -> bool,
    confidence: Json -> bool,
    tags: Json -> Option<Json>,
    sourceRefs: Json -> Option<Json>)

  /**
   The options of the server.  `authorize` and `runtime` answer the last call of
   the history they are given, `late` tells whether the request times out while
   that call is awaited, and `fits` whether the output limit leaves room to
   return a reply, cut short or not.
   */
  datatype Env = Env(
    readOnly: bool,
    authorize: Option<History -> Verdict>,
    runtime: History -> Answer,
    supports: set<Operation>,
    late: History -> bool,
    fits: ToolReply -> bool,
    maxPageSize: int,
    checks: Checks)

  // ----------------------------------------------------------------- fields

  function WorkspaceIdKey(): Text { Ascii("workspaceId") }
  function ProjectIdKey(): Text { Ascii("projectId") }
  function SessionIdKey(): Text { Ascii("sessionId") }
  function ActorIdKey(): Text { Ascii("actorId") }
  function TaskKey(): Text { Ascii("task") }
  function PathKey(): Text { Ascii("path") }
  function ContentKey(): Text { Ascii("content") }
  function ExtractKey(): Text { Ascii("extractDurableMemory") }
  function LabelKey(): Text { Ascii("checkpointLabel") }
  function QueryKey(): Text { Ascii("query") }
  function LimitKey(): Text { Ascii("limit") }
  function MaxBytesKey(): Text { Ascii("maxBytes") }
  function DetailKey(): Text { Ascii("detail") }
  function SectionKey(): Text { Ascii("section") }
  function ExpandKey(): Text { Ascii("expand") }
  function IncludeCoreKey(): Text { Ascii("includeCore") }
  function IncludeNotesKey(): Text { Ascii("includeNotes") }
  function IncludeRecentKey(): Text { Ascii("includeRecent") }
  function IncludeGraphKey(): Text { Ascii("includeGraph") }
  function IncludeSourcesKey(): Text { Ascii("includeSources") }
  function FiltersKey(): Text { Ascii("filters") }
  function TitleKey(): Text { Ascii("title") }
  function KindKey(): Text { Ascii("kind") }
  function ConfidenceKey(): Text { Ascii("confidence") }
  function SourceKey(): Text { Ascii("source") }
  function TagsKey(): Text { Ascii("tags") }
  function SourceRefsKey(): Text { Ascii("sourceRefs") }
  function MetadataKey(): Text { Ascii("metadata") }
  function ApplyKey(): Text { Ascii("apply") }
  function NowKey(): Text { Ascii("now") }
  function EdgeTypeKey(): Text { Ascii("supersedingEdgeType") }

  function OptionalString(args: Args, key: Text, max: nat): Result<Option<Text>, Error> {
    match Lookup(args, key)
    case None => Ok(None)
    case Some(String(s)) =>
      var trimmed := Trim(s);
      if trimmed == [] then Ok(None)
      else if |trimmed| > max then Err(INVALID)
      else Ok(Some(trimmed))
    case Some(_) => Err(INVALID)
  }

  function RequiredString(args: Args, key: Text, max: nat): Result<Text, Error> {
    match OptionalString(args, key, max)
    case Ok(Some(s)) => Ok(s)
    case _ => Err(INVALID)
  }

  function OptionalOf(args: Args, key: Text, options: set<Text>, max: nat): Result<Option<Text>, Error> {
    var text :- OptionalString(args, key, max);
    if text.Some? && text.value !in options then Err(INVALID) else Ok(text)
  }

  function OptionalBoolean(args: Args, key: Text): Result<Option<bool>, Error> {
    match Lookup(args, key)
    case None => Ok(None)
    case Some(Bool(b)) => Ok(Some(b))
    case Some(_) => Err(INVALID)
  }

  function OptionalInteger(args: Args, key: Text, min: int, max: int): Result<Option<Json>, Error> {
    var v := Lookup(args, key);
    if v.None? then Ok(None)
    else match Pagination.IntegerOf(v)
      case Some(n) => if min <= n <= max then Ok(v) else Err(INVALID)
      case None => Err(INVALID)
  }

  function OptionalChecked(args: Args, key: Text, check: Json -> bool): Result<Option<Json>, Error> {
    match Lookup(args, key)
    case None => Ok(None)
    case Some(v) => if check(v) then Ok(Some(v)) else Err(INVALID)
  }

  function OptionalRead(args: Args, key: Text, read: Json -> Option<Json>): Result<Option<Json>, Error> {
    match Lookup(args, key)
    case None => Ok(None)
    case Some(v) => if read(v).Some? then Ok(read(v)) else Err(INVALID)
  }

  function Field(key: Text, v: Option<Json>): Args {
    if v.None? then [] else [Member(key, v.value)]
  }

  function TextField(key: Text, v: Option<Text>): Args {
    if v.None? then [] else [Member(key, String(v.value))]
  }

  function BoolField(key: Text, v: Option<bool>): Args {
    if v.None? then [] else [Member(key, Bool(v.value))]
  }

  datatype Scope = Scope(workspaceId: Option<Text>, projectId: Option<Text>)

  function ScopeArgs(args: Args): Result<Scope, Error> {
    var workspaceId :- OptionalString(args, WorkspaceIdKey(), 256);
    var projectId :- OptionalString(args, ProjectIdKey(), 256);
    Ok(Scope(workspaceId, projectId))
  }

  function ScopeFields(scope: Scope): Args {
    TextField(WorkspaceIdKey(), scope.workspaceId) + TextField(ProjectIdKey(), scope.projectId)
  }

  // -------------------------------------------------------------- validation

  /** `fields` is the argument object built for the runtime. */
  datatype Validated = Validated(fields: Args, safety: Safety, workspaceId: Option<Text>)

  function ValidateStart(args: Args): Result<Validated, Error> {
    var scope :- ScopeArgs(args);
    var actorId :- OptionalString(args, ActorIdKey(), 256);
    var sessionId :- OptionalString(args, SessionIdKey(), 256);
    var task :- RequiredString(args, TaskKey(), 4096);
    Ok(Validated(
      [Member(TaskKey(), String(task))] + ScopeFields(scope) + TextField(ActorIdKey(), actorId) + TextField(SessionIdKey(), sessionId),
      Write, scope.workspaceId))
  }

  function ValidateRead(args: Args): Result<Validated, Error> {
    var scope :- ScopeArgs(args);
    var sessionId :- RequiredString(args, SessionIdKey(), 256);
    var path :- RequiredString(args, PathKey(), 2048);
    Ok(Validated(
      [Member(SessionIdKey(), String(sessionId)), Member(PathKey(), String(path))] + ScopeFields(scope),
      Read, scope.workspaceId))
  }

  function ValidateWrite(args: Args): Result<Validated, Error> {
    var scope :- ScopeArgs(args);
    var sessionId :- RequiredString(args, SessionIdKey(), 256);
    var path :- RequiredString(args, PathKey(), 2048);
    var content :- RequiredString(args, ContentKey(), 200_000);
    Ok(Validated(
      [Member(SessionIdKey(), String(sessionId)), Member(PathKey(), String(path)), Member(ContentKey(), String(content))] + ScopeFields(scope),
      Write, scope.workspaceId))
  }

  function ValidateExtract(args: Args): Result<Validated, Error> {
    var scope :- ScopeArgs(args);
    var sessionId :- RequiredString(args, SessionIdKey(), 256);
    Ok(Validated([Member(SessionIdKey(), String(sessionId))] + ScopeFields(scope), Read, scope.workspaceId))
  }

  function ValidateComplete(args: Args): Result<Validated, Error> {
    var scope :- ScopeArgs(args);
    var extract :- OptionalBoolean(args, ExtractKey());
    var checkpointLabel :- OptionalString(args, LabelKey(), 128);
    var sessionId :- RequiredString(args, SessionIdKey(), 256);
    Ok(Validated(
      [Member(SessionIdKey(), String(sessionId))] + ScopeFields(scope) + BoolField(ExtractKey(), extract) + TextField(LabelKey(), checkpointLabel),
      Write, scope.workspaceId))
  }

  function ValidateContext(args: Args, maxPageSize: int, checks: Checks): Result<Validated, Error> {
    var scope :- ScopeArgs(args);
    var limit :- OptionalInteger(args, LimitKey(), 1, maxPageSize);
    var maxBytes :- OptionalInteger(args, MaxBytesKey(), 1024, 262144);
    var detail :- OptionalOf(args, DetailKey(), {Ascii("compact"), Ascii("full")}, 16);
    var section :- OptionalOf(args, SectionKey(), {Ascii("entities"), Ascii("recall"), Ascii("recent"), Ascii("notes")}, 32);
    var expand :- OptionalString(args, ExpandKey(), 512);
    var includeCore :- OptionalBoolean(args, IncludeCoreKey());
    var includeNotes :- OptionalBoolean(args, IncludeNotesKey());
    var includeRecent :- OptionalBoolean(args, IncludeRecentKey());
    var includeGraph :- OptionalBoolean(args, IncludeGraphKey());
    var includeSources :- OptionalBoolean(args, IncludeSourcesKey());
    var filters :- OptionalChecked(args, FiltersKey(), checks.jsonObject);
    var query :- RequiredString(args, QueryKey(), 4096);
    Ok(Validated(
      [Member(QueryKey(), String(query))] + ScopeFields(scope) + Field(LimitKey(), limit) + Field(MaxBytesKey(), maxBytes)
      + TextField(DetailKey(), detail) + TextField(SectionKey(), section) + TextField(ExpandKey(), expand)
      + BoolField(IncludeCoreKey(), includeCore) + BoolField(IncludeNotesKey(), includeNotes) + BoolField(IncludeRecentKey(), includeRecent)
      + BoolField(IncludeGraphKey(), includeGraph) + BoolField(IncludeSourcesKey(), includeSources) + Field(FiltersKey(), filters),
      Read, scope.workspaceId))
  }

  function ValidateRecall(args: Args, maxPageSize: int, checks: Checks): Result<Validated, Error> {
    var scope :- ScopeArgs(args);
    var limit :- OptionalInteger(args, LimitKey(), 1, maxPageSize);
    var includeGraph :- OptionalBoolean(args, IncludeGraphKey());
    var includeSources :- OptionalBoolean(args, IncludeSourcesKey());
    var filters :- OptionalChecked(args, FiltersKey(), checks.jsonObject);
    var query :- RequiredString(args, QueryKey(), 4096);
    Ok(Validated(
      [Member(QueryKey(), String(query))] + ScopeFields(scope) + Field(LimitKey(), limit)
      + BoolField(IncludeGraphKey(), includeGraph) + BoolField(IncludeSourcesKey(), includeSources) + Field(FiltersKey(), filters),
      Read, scope.workspaceId))
  }

  function ValidateRemember(args: Args, checks: Checks): Result<Validated, Error> {
    var scope :- ScopeArgs(args);
    var title :- OptionalString(args, TitleKey(), 512);
    var kind :- OptionalChecked(args, KindKey(), checks.memoryKind);
    var confidence :- OptionalChecked(args, ConfidenceKey(), checks.confidence);
    var source :- OptionalString(args, SourceKey(), 512);
    var tags :- OptionalRead(args, TagsKey(), checks.tags);
    var sourceRefs :- OptionalRead(args, SourceRefsKey(), checks.sourceRefs);
    var metadata :- OptionalChecked(args, MetadataKey(), checks.jsonObject);
    var content :- RequiredString(args, ContentKey(), 100_000);
    Ok(Validated(
      [Member(ContentKey(), String(content))] + TextField(TitleKey(), title) + Field(KindKey(), kind) + Field(ConfidenceKey(), confidence)
      + TextField(SourceKey(), source) + ScopeFields(scope) + Field(TagsKey(), tags) + Field(SourceRefsKey(), sourceRefs) + Field(MetadataKey(), metadata),
      Write, scope.workspaceId))
  }

  /** A preview (`apply` false) is a read; an applied pass, the default, is a write. */
  function ValidateConsolidate(args: Args): Result<Validated, Error> {
    var scope :- ScopeArgs(args);
    var apply :- OptionalBoolean(args, ApplyKey());
    var now :- OptionalString(args, NowKey(), 64);
    var edgeType :- OptionalString(args, EdgeTypeKey(), 128);
    Ok(Validated(
      ScopeFields(scope) + (BoolField(ApplyKey(), apply) + TextField(NowKey(), now) + TextField(EdgeTypeKey(), edgeType)),
      if apply == Some(false) then Read else Write, scope.workspaceId))
  }

  function ValidateTool(tool: Tool, args: Args, maxPageSize: int, checks: Checks): Result<Validated, Error> {
    match tool
    case SessionStart => ValidateStart(args)
    case SessionRead => ValidateRead(args)
    case SessionWrite | SessionAppend => ValidateWrite(args)
    case SessionExtract => ValidateExtract(args)
    case SessionComplete => ValidateComplete(args)
    case ContextTool => ValidateContext(args, maxPageSize, checks)
    case RecallTool => ValidateRecall(args, maxPageSize, checks)
    case Remember => ValidateRemember(args, checks)
    case Consolidate => ValidateConsolidate(args)
  }

  function OperationOf(tool: Tool): Operation {
    match tool
    case SessionStart => StartAgentSession
    case SessionRead => ReadAgentSessionFile
    case SessionWrite => WriteAgentSessionFile
    case SessionAppend => AppendAgentSessionFile
    case SessionExtract => ExtractAgentSession
    case SessionComplete => CompleteAgentSession
    case ContextTool => Context
    case RecallTool => Recall
    case Remember => WriteMemory
    case Consolidate => ConsolidateMemory
  }

  function SessionStartName(): Text { Ascii("tekmemo_agent_session_start") }
  function SessionReadName(): Text { Ascii("tekmemo_agent_session_read") }
  function SessionWriteName(): Text { Ascii("tekmemo_agent_session_write") }
  function SessionAppendName(): Text { Ascii("tekmemo_agent_session_append") }
  function SessionExtractName(): Text { Ascii("tekmemo_agent_session_extract") }
  function SessionCompleteName(): Text { Ascii("tekmemo_agent_session_complete") }
  function ContextName(): Text { Ascii("tekmemo.context") }
  function RecallName(): Text { Ascii("tekmemo.recall") }
  function RememberName(): Text { Ascii("tekmemo.remember") }
  function ConsolidateName(): Text { Ascii("tekmemo.consolidate") }

  function ToolNamed(name: Text): Option<Tool> {
    if name == SessionStartName() then Some(SessionStart)
    else if name == SessionReadName() then Some(SessionRead)
    else if name == SessionWriteName() then Some(SessionWrite)
    else if name == SessionAppendName() then Some(SessionAppend)
    else if name == SessionExtractName() then Some(SessionExtract)
    else if name == SessionCompleteName() then Some(SessionComplete)
    else if name == ContextName() then Some(ContextTool)
    else if name == RecallName() then Some(RecallTool)
    else if name == RememberName() then Some(Remember)
    else if name == ConsolidateName() then Some(Consolidate)
    else None
  }

  function ValidateToolArguments(env: Env, name: Text, args: Json): Result<(Tool, Validated), Error> {
    if !args.Object? then Err(INVALID)
    else match ToolNamed(name)
      case None => Err(INVALID)
      case Some(tool) =>
        var v :- ValidateTool(tool, args.members, env.maxPageSize, env.checks);
        Ok((tool, v))
  }

  // ----------------------------------------------------------------- calling

  /** A step adds calls to the history and yields a result. */
  datatype Step<T> = Step(history: History, result: Result<T, Error>)

  function AuthorizeTool(env: Env, name: Text, v: Validated, history: History): Step<()> {
    if env.readOnly && v.safety != Read then Step(history, Err(Authorization))
    else match env.authorize
      case None => Step(history, Ok(()))
      case Some(decide) =>
        var asked := history + [Authorize(name, v.safety, v.workspaceId, v.fields)];
        match decide(asked)
        case Allowed => Step(asked, Ok(()))
        case Denied => Step(asked, Err(Authorization))
        case Refused(e) => Step(asked, Err(e))
  }

  /** What the runtime's answer makes of a call. */
  function Outcome(env: Env, answer: Answer): Result<ToolReply, Error> {
    match answer
    case Thrown(e) => Err(e)
    case Returned(v) => if v.Object? && env.checks.jsonObject(v) then Ok(ToolOk(v)) else Err(INVALID)
  }

  function ExecuteTool(env: Env, operation: Operation, args: Args, history: History): Step<ToolReply> {
    if operation !in env.supports then Step(history, Err(INVALID))
    else
      var called := history + [Invoke(operation, args)];
      Step(called, Outcome(env, env.runtime(called)))
  }

  /** Validation, authorization and execution, in this order. */
  function RunTool(env: Env, name: Text, args: Json, history: History): Step<ToolReply> {
    match ValidateToolArguments(env, name, args)
    case Err(e) => Step(history, Err(e))
    case Ok((tool, v)) =>
      var asked := AuthorizeTool(env, name, v, history);
      match asked.result
      case Err(e) => Step(asked.history, Err(e))
      case Ok(_) => ExecuteTool(env, OperationOf(tool), v.fields, asked.history)
  }

  /**
   The request timed out while one of its calls was awaited; the call goes on
   regardless.  Here it ends before anything else is asked of the host.
   */
  predicate TimedOut(env: Env, before: nat, after: History) {
    exists k :: before < k <= |after| && env.late(after[..k])
  }

  /** What reaches `enforceToolResultLimit`, and then what comes out of it. */
  function Limited(env: Env, result: Result<ToolReply, Error>): Result<ToolReply, Error> {
    var reply := match result case Ok(r) => r case Err(e) => ToolError(e);
    if env.fits(reply) then Ok(reply)
    else if reply.ToolOk? && env.fits(ToolError(OutputLimit)) then Ok(ToolError(OutputLimit))
    else Err(OutputLimit)
  }

  /** What a call of a tool has to say before the output limit: the error of what stops it first, or the runtime's object. */
  function Unlimited(env: Env, name: Text, rawArgs: Option<Json>, history: History): ToolReply {
    var args := if rawArgs.None? then Object([]) else rawArgs.value;
    if !env.checks.payload(args) then ToolError(INVALID)
    else match ValidateToolArguments(env, name, args)
      case Err(e) => ToolError(e)
      case Ok((tool, v)) =>
        if env.readOnly && v.safety.Write? then ToolError(Authorization)
        else
          var asked := history + (if env.authorize.None? then [] else [Authorize(name, v.safety, v.workspaceId, v.fields)]);
          var verdict := if env.authorize.None? then Allowed else env.authorize.value(asked);
          var called := asked + [Invoke(OperationOf(tool), v.fields)];
          if env.authorize.Some? && env.late(asked) then ToolError(Timeout)
          else if verdict.Denied? then ToolError(Authorization)
          else if verdict.Refused? then ToolError(verdict.error)
          else if OperationOf(tool) !in env.supports then ToolError(INVALID)
          else if env.late(called) then ToolError(Timeout)
          else match Outcome(env, env.runtime(called))
            case Ok(reply) => reply
            case Err(e) => ToolError(e)
  }

  function CallTool(env: Env, name: Text, rawArgs: Option<Json>, history: History): Step<ToolReply> {
    var args := if rawArgs.None? then Object([]) else rawArgs.value;
    if !env.checks.payload(args) then Step(history, Limited(env, Err(INVALID)))
    else
      var ran := RunTool(env, name, args, history);
      Step(ran.history, Limited(env, if TimedOut(env, |history|, ran.history) then Err(Timeout) else ran.result))
  }

  // -------------------------------------------------------------- guarantees

  /** A call that leaves the memory and the sessions as they are. */
  predicate Harmless(c: Call) {
    match c
    case Authorize(_, _, _, _) => true
    case Invoke(operation, args) =>
      match operation
      case WriteMemory | StartAgentSession | WriteAgentSessionFile | AppendAgentSessionFile | CompleteAgentSession => false
      case ConsolidateMemory => Lookup(args, ApplyKey()) == Some(Bool(false))
      case _ => true
  }

  /** The call was allowed with nothing in between: asked for just before, with the same arguments, as a write if it is one. */
  predicate Guarded(env: Env, history: History, k: nat)
    requires k < |history|
  {
    history[k].Invoke? && !Harmless(history[k]) ==>
      && !env.readOnly
      && (env.authorize.Some? ==>
            && k > 0 && history[k - 1].Authorize?
            && history[k - 1].safety == Write
            && history[k - 1].args == history[k].args
            && env.authorize.value(history[..k]) == Allowed)
  }

  lemma StartSafety(args: Args)
    ensures ValidateStart(args).Ok? ==> ValidateStart(args).value.safety == Write
  {
  }

  lemma ReadSafety(args: Args)
    ensures ValidateRead(args).Ok? ==> ValidateRead(args).value.safety == Read
  {
  }

  lemma WriteSafety(args: Args)
    ensures ValidateWrite(args).Ok? ==> ValidateWrite(args).value.safety == Write
  {
  }

  lemma ExtractSafety(args: Args)
    ensures ValidateExtract(args).Ok? ==> ValidateExtract(args).value.safety == Read
  {
  }

  lemma CompleteSafety(args: Args)
    ensures ValidateComplete(args).Ok? ==> ValidateComplete(args).value.safety == Write
  {
  }

  lemma ContextSafety(args: Args, maxPageSize: int, checks: Checks)
    ensures ValidateContext(args, maxPageSize, checks).Ok? ==> ValidateContext(args, maxPageSize, checks).value.safety == Read
  {
  }

  lemma RecallSafety(args: Args, maxPageSize: int, checks: Checks)
    ensures ValidateRecall(args, maxPageSize, checks).Ok? ==> ValidateRecall(args, maxPageSize, checks).value.safety == Read
  {
  }

  lemma RememberSafety(args: Args, checks: Checks)
    ensures ValidateRemember(args, checks).Ok? ==> ValidateRemember(args, checks).value.safety == Write
  {
  }

  lemma ConsolidateSafety(args: Args)
    ensures ValidateConsolidate(args).Ok? ==>
              var v := ValidateConsolidate(args).value;
              v.safety.Read? <==> Lookup(v.fields, ApplyKey()) == Some(Bool(false))
  {
    hide OptionalString, OptionalBoolean;
    if ValidateConsolidate(args).Ok? {
      var scope := ScopeArgs(args).value;
      var apply := OptionalBoolean(args, ApplyKey()).value;
      var rest := TextField(NowKey(), OptionalString(args, NowKey(), 64).value) + TextField(EdgeTypeKey(), OptionalString(args, EdgeTypeKey(), 128).value);
      var v := ValidateConsolidate(args).value;
      assert v.fields == ScopeFields(scope) + (BoolField(ApplyKey(), apply) + rest);
      LookupSkips(ScopeFields(scope), BoolField(ApplyKey(), apply) + rest, ApplyKey());
      LookupSkips(rest, [], ApplyKey());
      assert rest + [] == rest;
      if apply.None? {
        assert BoolField(ApplyKey(), apply) + rest == rest;
      } else {
        assert (BoolField(ApplyKey(), apply) + rest)[0] == Member(ApplyKey(), Bool(apply.value));
      }
    }
  }

  /** What a tool validated as a read does leaves the memory as it is. */
  lemma ReadsAreHarmless(tool: Tool, args: Args, maxPageSize: int, checks: Checks)
    requires ValidateTool(tool, args, maxPageSize, checks).Ok?
    ensures var v := ValidateTool(tool, args, maxPageSize, checks).value;
            v.safety.Read? <==> Harmless(Invoke(OperationOf(tool), v.fields))
  {
    hide ValidateStart, ValidateRead, ValidateWrite, ValidateExtract, ValidateComplete, ValidateContext, ValidateRecall, ValidateRemember, ValidateConsolidate;
    match tool
    case SessionStart => StartSafety(args);
    case SessionRead => ReadSafety(args);
    case SessionWrite | SessionAppend => WriteSafety(args);
    case SessionExtract => ExtractSafety(args);
    case SessionComplete => CompleteSafety(args);
    case ContextTool => ContextSafety(args, maxPageSize, checks);
    case RecallTool => RecallSafety(args, maxPageSize, checks);
    case Remember => RememberSafety(args, checks);
    case Consolidate => ConsolidateSafety(args);
  }

  /** What a call of a tool adds to the history: nothing, a question, a call, or a question and then a call. */
  lemma RunToolShape(env: Env, name: Text, args: Json, history: History)
    ensures var after := RunTool(env, name, args, history).history;
            && history <= after
            && (forall k :: |history| <= k < |after| ==> Guarded(env, after, k))
            && |after| <= |history| + 2
  {
    hide ValidateTool, ToolNamed, Harmless, Lookup;
    match ValidateToolArguments(env, name, args)
    case Err(_) =>
    case Ok((tool, v)) =>
      ReadsAreHarmless(tool, args.members, env.maxPageSize, env.checks);
      var asked := AuthorizeTool(env, name, v, history);
      var after := RunTool(env, name, args, history).history;
      AskingIsHarmless(env, name, v, history);
      if asked.result.Ok? && |after| > |asked.history| {
        assert after[..|asked.history|] == asked.history;
      }
  }

  lemma AskingIsHarmless(env: Env, name: Text, v: Validated, history: History)
    ensures var asked := AuthorizeTool(env, name, v, history).history;
            asked == history || (asked == history + [Authorize(name, v.safety, v.workspaceId, v.fields)])
    ensures forall c: Call :: c.Authorize? ==> Harmless(c)
  {
  }

  /** No call of a tool that nothing overlaps gets round the guards, whatever the host does. */
  lemma ToolCallsAreGuarded(env: Env, name: Text, rawArgs: Option<Json>, history: History)
    requires forall k :: 0 <= k < |history| ==> Guarded(env, history, k)
    ensures var after := CallTool(env, name, rawArgs, history).history;
            history <= after && forall k :: 0 <= k < |after| ==> Guarded(env, after, k)
  {
    hide RunTool, Harmless;
    var args := if rawArgs.None? then Object([]) else rawArgs.value;
    RunToolShape(env, name, args, history);
    var after := RunTool(env, name, args, history).history;
    forall k | 0 <= k < |history|
      ensures Guarded(env, after, k)
    {
      assert Guarded(env, history, k);
      assert after[..k] == history[..k];
    }
  }

  /**
   The runtime is called exactly when the arguments are valid, the guards let
   the call pass and the runtime has the operation; and then only once, last.
   */
  lemma CalledIffAllowed(env: Env, name: Text, args: Json, history: History)
    ensures var after := RunTool(env, name, args, history).history;
            (exists k :: |history| <= k < |after| && after[k].Invoke?) <==>
              && ValidateToolArguments(env, name, args).Ok?
              && var (tool, v) := ValidateToolArguments(env, name, args).value;
                 && !(env.readOnly && v.safety.Write?)
                 && (env.authorize.Some? ==> env.authorize.value(history + [Authorize(name, v.safety, v.workspaceId, v.fields)]) == Allowed)
                 && OperationOf(tool) in env.supports
  {
    hide ValidateToolArguments;
    match ValidateToolArguments(env, name, args)
    case Err(_) =>
    case Ok((tool, v)) =>
      AskingIsHarmless(env, name, v, history);
      var asked := AuthorizeTool(env, name, v, history);
      var after := RunTool(env, name, args, history).history;
      if asked.result.Ok? && OperationOf(tool) in env.supports {
        assert after[|after| - 1].Invoke?;
      }
  }

  /**
   A tool has an answer exactly when the last call it made is one of the runtime
   that returned an object of plain JSON, and that object is the answer. What the
   runtime throws is the error; what is no such object is invalid.
   */
  lemma AnswersAreReturned(env: Env, name: Text, args: Json, history: History)
    ensures var ran := RunTool(env, name, args, history);
            var called := |ran.history| > |history| && ran.history[|ran.history| - 1].Invoke?;
            && (ran.result.Ok? <==> called && exists v :: env.runtime(ran.history) == Returned(v) && v.Object? && env.checks.jsonObject(v))
            && (ran.result.Ok? ==> ran.result.value.ToolOk? && env.runtime(ran.history) == Returned(ran.result.value.structured))
            && (called && ran.result.Err? ==>
                  ran.result.error == match env.runtime(ran.history) case Thrown(e) => e case Returned(_) => INVALID)
  {
    hide ValidateToolArguments, OperationOf;
  }

  /** A tool call answers what it has to say if that fits, and else, if it is no error, an error that says so. */
  lemma AnswerWithinLimit(env: Env, name: Text, rawArgs: Option<Json>, history: History)
    ensures var reply := Unlimited(env, name, rawArgs, history);
            CallTool(env, name, rawArgs, history).result ==
              if env.fits(reply) then Ok(reply)
              else if reply.ToolOk? && env.fits(ToolError(OutputLimit)) then Ok(ToolError(OutputLimit))
              else Err(OutputLimit)
  {
    hide ValidateToolArguments, OperationOf, TimedOut;
    var args := if rawArgs.None? then Object([]) else rawArgs.value;
    NotLate(env, history);
    if env.checks.payload(args) && ValidateToolArguments(env, name, args).Ok? {
      var v := ValidateToolArguments(env, name, args).value.1;
      var asked := AuthorizeTool(env, name, v, history).history;
      var after := RunTool(env, name, args, history).history;
      LateAmong(env, |history|, after);
      assert history + [] == history;
      assert after[..|asked|] == asked;
    }
  }

  lemma NotLate(env: Env, history: History)
    ensures !TimedOut(env, |history|, history)
  {
  }

  /** One or two calls were awaited. */
  lemma LateAmong(env: Env, before: nat, after: History)
    requires before <= |after| <= before + 2
    ensures TimedOut(env, before, after) <==>
              || (before < |after| && env.late(after))
              || (before + 1 < |after| && env.late(after[..before + 1]))
  {
    assert after[..|after|] == after;
  }

  /** A call of an unknown tool, or with bad arguments, reaches neither the host's callback nor its runtime. */
  lemma InvalidCallsReachNobody(env: Env, name: Text, rawArgs: Option<Json>, history: History)
    requires ValidateToolArguments(env, name, if rawArgs.None? then Object([]) else rawArgs.value).Err?
    ensures CallTool(env, name, rawArgs, history).history == history
    ensures CallTool(env, name, rawArgs, history).result.Ok? ==> CallTool(env, name, rawArgs, history).result.value.ToolError?
  {
    hide ValidateToolArguments;
  }
}
