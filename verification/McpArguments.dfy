/** What the tools of the MCP server accept, pass on and call. */
module McpArguments {
  import opened Optional
  import opened Text
  import opened JsonFormat
  import opened McpTools
  import Pagination

  /** What a field of the arguments may hold. */
  datatype Kind =
    | Words(max: nat)
    | Choice(options: set<Text>)
    | Flag
    | Whole(low: int, high: int)
    | Checked(check: Json -> bool)
    | Converted(read: Json -> Option<Json>)

  datatype Rule = Rule(key: Text, required: bool, kind: Kind)

  function Must(key: Text, max: nat): Rule { Rule(key, true, Words(max)) }

  function May(key: Text, kind: Kind): Rule { Rule(key, false, kind) }

  function WorkspaceRule(): Rule { May(Ascii("workspaceId"), Words(256)) }

  function ProjectRule(): Rule { May(Ascii("projectId"), Words(256)) }

  // The fields of each tool, in the order in which they are passed on.

  function StartRules(): seq<Rule> {
    [Must(Ascii("task"), 4096), WorkspaceRule(), ProjectRule(), May(Ascii("actorId"), Words(256)), May(Ascii("sessionId"), Words(256))]
  }

  function ReadRules(): seq<Rule> {
    [Must(Ascii("sessionId"), 256), Must(Ascii("path"), 2048), WorkspaceRule(), ProjectRule()]
  }

  function WriteRules(): seq<Rule> {
    [Must(Ascii("sessionId"), 256), Must(Ascii("path"), 2048), Must(Ascii("content"), 200_000), WorkspaceRule(), ProjectRule()]
  }

  function ExtractRules(): seq<Rule> {
    [Must(Ascii("sessionId"), 256), WorkspaceRule(), ProjectRule()]
  }

  function CompleteRules(): seq<Rule> {
    [Must(Ascii("sessionId"), 256), WorkspaceRule(), ProjectRule(), May(Ascii("extractDurableMemory"), Flag),
     May(Ascii("checkpointLabel"), Words(128))]
  }

  function DetailRule(): Rule {
    May(Ascii("detail"), Choice({Ascii("compact"), Ascii("full")}))
  }

  function SectionRule(): Rule {
    May(Ascii("section"), Choice({Ascii("entities"), Ascii("recall"), Ascii("recent"), Ascii("notes")}))
  }

  function ContextHead(maxPageSize: int): seq<Rule> {
    [Must(Ascii("query"), 4096), WorkspaceRule(), ProjectRule(), May(Ascii("limit"), Whole(1, maxPageSize)),
     May(Ascii("maxBytes"), Whole(1024, 262144)), DetailRule(), SectionRule(), May(Ascii("expand"), Words(512))]
  }

  function ContextTail(checks: Checks): seq<Rule> {
    [May(Ascii("includeCore"), Flag), May(Ascii("includeNotes"), Flag), May(Ascii("includeRecent"), Flag),
     May(Ascii("includeGraph"), Flag), May(Ascii("includeSources"), Flag), May(Ascii("filters"), Checked(checks.jsonObject))]
  }

  function ContextRules(maxPageSize: int, checks: Checks): seq<Rule> {
    ContextHead(maxPageSize) + ContextTail(checks)
  }

  function RecallRules(maxPageSize: int, checks: Checks): seq<Rule> {
    [Must(Ascii("query"), 4096), WorkspaceRule(), ProjectRule(), May(Ascii("limit"), Whole(1, maxPageSize)),
     May(Ascii("includeGraph"), Flag), May(Ascii("includeSources"), Flag), May(Ascii("filters"), Checked(checks.jsonObject))]
  }

  function RememberRules(checks: Checks): seq<Rule> {
    [Must(Ascii("content"), 100_000), May(Ascii("title"), Words(512)), May(Ascii("kind"), Checked(checks.memoryKind)),
     May(Ascii("confidence"), Checked(checks.confidence)), May(Ascii("source"), Words(512)), WorkspaceRule(), ProjectRule(),
     May(Ascii("tags"), Converted(checks.tags)), May(Ascii("sourceRefs"), Converted(checks.sourceRefs)),
     May(Ascii("metadata"), Checked(checks.jsonObject))]
  }

  function ConsolidateRules(): seq<Rule> {
    [WorkspaceRule(), ProjectRule(), May(Ascii("apply"), Flag), May(Ascii("now"), Words(64)), May(Ascii("supersedingEdgeType"), Words(128))]
  }

  function Rules(tool: Tool, maxPageSize: int, checks: Checks): seq<Rule> {
    match tool
    case SessionStart => StartRules()
    case SessionRead => ReadRules()
    case SessionWrite | SessionAppend => WriteRules()
    case SessionExtract => ExtractRules()
    case SessionComplete => CompleteRules()
    case ContextTool => ContextRules(maxPageSize, checks)
    case RecallTool => RecallRules(maxPageSize, checks)
    case Remember => RememberRules(checks)
    case Consolidate => ConsolidateRules()
  }

  /** A blank string counts as none. */
  predicate Fits(rule: Rule, given: Option<Json>) {
    match given
    case None => !rule.required
    case Some(v) =>
      match rule.kind
      case Words(max) => v.String? && |Trim(v.s)| <= max && (rule.required ==> Trim(v.s) != [])
      case Choice(options) => v.String? && (Trim(v.s) == [] || Trim(v.s) in options)
      case Flag => v.Bool?
      case Whole(low, high) => Pagination.IntegerOf(given).Some? && low <= Pagination.IntegerOf(given).value <= high
      case Checked(check) => check(v)
      case Converted(read) => read(v).Some?
  }

  /** What is passed on for it: a string trimmed, tags and references as read, anything else as it is. */
  function Wanted(rule: Rule, given: Option<Json>): Option<Json> {
    match given
    case None => None
    case Some(v) =>
      match rule.kind
      case Words(_) | Choice(_) => if v.String? && Trim(v.s) != [] then Some(String(Trim(v.s))) else None
      case Flag | Whole(_, _) | Checked(_) => given
      case Converted(read) => read(v)
  }

  predicate AllFit(rules: seq<Rule>, args: Args) {
    rules == [] || (AllFit(rules[..|rules| - 1], args) && Fits(rules[|rules| - 1], Lookup(args, rules[|rules| - 1].key)))
  }

  function Piece(rule: Rule, args: Args): Args {
    Field(rule.key, Wanted(rule, Lookup(args, rule.key)))
  }

  function Build(rules: seq<Rule>, args: Args): Args {
    if rules == [] then [] else Build(rules[..|rules| - 1], args) + Piece(rules[|rules| - 1], args)
  }

  lemma Next(rules: seq<Rule>, k: nat, args: Args)
    requires k < |rules|
    ensures AllFit(rules[..k + 1], args) <==> AllFit(rules[..k], args) && Fits(rules[k], Lookup(args, rules[k].key))
    ensures Build(rules[..k + 1], args) == Build(rules[..k], args) + Piece(rules[k], args)
    ensures k == 0 ==> AllFit(rules[..k], args) && Build(rules[..k + 1], args) == Piece(rules[k], args)
    ensures k + 1 == |rules| ==> rules[..k + 1] == rules
  {
    hide Fits, Piece;
    assert rules[..k + 1][..k] == rules[..k];
  }

  lemma WordsRule(args: Args, key: Text, max: nat)
    ensures var rule := Rule(key, false, Words(max)); var r := OptionalString(args, key, max);
            && (r.Ok? <==> Fits(rule, Lookup(args, key))) && (r.Err? ==> r == Err(INVALID))
            && (r.Ok? ==> TextField(key, r.value) == Piece(rule, args))
    ensures var rule := Rule(key, true, Words(max)); var r := RequiredString(args, key, max);
            && (r.Ok? <==> Fits(rule, Lookup(args, key))) && (r.Err? ==> r == Err(INVALID))
            && (r.Ok? ==> [Member(key, String(r.value))] == Piece(rule, args))
  {
    hide Lookup, Trim;
  }

  lemma ChoiceRule(args: Args, key: Text, options: set<Text>, max: nat)
    requires forall o :: o in options ==> |o| <= max
    ensures var rule := Rule(key, false, Choice(options)); var r := OptionalOf(args, key, options, max);
            && (r.Ok? <==> Fits(rule, Lookup(args, key))) && (r.Err? ==> r == Err(INVALID))
            && (r.Ok? ==> TextField(key, r.value) == Piece(rule, args))
  {
    hide Lookup, Trim;
  }

  lemma FlagRule(args: Args, key: Text)
    ensures var rule := Rule(key, false, Flag); var r := OptionalBoolean(args, key);
            && (r.Ok? <==> Fits(rule, Lookup(args, key))) && (r.Err? ==> r == Err(INVALID))
            && (r.Ok? ==> BoolField(key, r.value) == Piece(rule, args))
  {
    hide Lookup;
  }

  lemma WholeRule(args: Args, key: Text, min: int, max: int)
    ensures var rule := Rule(key, false, Whole(min, max)); var r := OptionalInteger(args, key, min, max);
            && (r.Ok? <==> Fits(rule, Lookup(args, key))) && (r.Err? ==> r == Err(INVALID))
            && (r.Ok? ==> Field(key, r.value) == Piece(rule, args))
  {
    hide Lookup, Pagination.IntegerOf;
  }

  lemma CheckedRule(args: Args, key: Text, check: Json -> bool)
    ensures var rule := Rule(key, false, Checked(check)); var r := OptionalChecked(args, key, check);
            && (r.Ok? <==> Fits(rule, Lookup(args, key))) && (r.Err? ==> r == Err(INVALID))
            && (r.Ok? ==> Field(key, r.value) == Piece(rule, args))
  {
    hide Lookup;
  }

  lemma ConvertedRule(args: Args, key: Text, read: Json -> Option<Json>)
    ensures var rule := Rule(key, false, Converted(read)); var r := OptionalRead(args, key, read);
            && (r.Ok? <==> Fits(rule, Lookup(args, key))) && (r.Err? ==> r == Err(INVALID))
            && (r.Ok? ==> Field(key, r.value) == Piece(rule, args))
  {
    hide Lookup;
  }

  /** Validation by these rules. */
  predicate ByRules(rules: seq<Rule>, args: Args, r: Result<Validated, Error>) {
    && (r.Ok? <==> AllFit(rules, args))
    && (r.Err? ==> r == Err(INVALID))
    && (r.Ok? ==> r.value.fields == Build(rules, args))
  }

  /** The two fields of the scope, after others. */
  lemma ScopeRules(args: Args, front: Args)
    ensures var r := ScopeArgs(args);
            && (r.Ok? <==> Fits(WorkspaceRule(), Lookup(args, WorkspaceRule().key)) && Fits(ProjectRule(), Lookup(args, ProjectRule().key)))
            && (r.Err? ==> r == Err(INVALID))
            && (r.Ok? ==> front + ScopeFields(r.value) == (front + Piece(WorkspaceRule(), args)) + Piece(ProjectRule(), args))
            && (r.Ok? ==> ScopeFields(r.value) == Piece(WorkspaceRule(), args) + Piece(ProjectRule(), args))
  {
    hide Lookup, Fits, Piece, OptionalString, TextField;
    WordsRule(args, WorkspaceIdKey(), 256);
    WordsRule(args, ProjectIdKey(), 256);
    assert ScopeArgs(args).Ok? ==>
      front + ScopeFields(ScopeArgs(args).value) == (front + Piece(WorkspaceRule(), args)) + Piece(ProjectRule(), args);
  }

  lemma StartByRules(args: Args)
    ensures ByRules(StartRules(), args, ValidateStart(args))
  {
    hide Lookup, AllFit, Build, Fits, Piece, ScopeArgs, ScopeFields, Ascii, OptionalString, RequiredString, TextField;
    var rules := StartRules();
    WordsRule(args, TaskKey(), 4096);
    ScopeRules(args, Build(rules[..1], args));
    WordsRule(args, ActorIdKey(), 256);
    WordsRule(args, SessionIdKey(), 256);
    Next(rules, 0, args);
    Next(rules, 1, args);
    Next(rules, 2, args);
    Next(rules, 3, args);
    Next(rules, 4, args);
  }

  lemma ReadByRules(args: Args)
    ensures ByRules(ReadRules(), args, ValidateRead(args))
  {
    hide Lookup, AllFit, Build, Fits, Piece, ScopeArgs, ScopeFields, Ascii, OptionalString, RequiredString, TextField;
    var rules := ReadRules();
    WordsRule(args, SessionIdKey(), 256);
    WordsRule(args, PathKey(), 2048);
    ScopeRules(args, Build(rules[..2], args));
    Next(rules, 0, args);
    Next(rules, 1, args);
    Next(rules, 2, args);
    Next(rules, 3, args);
  }

  lemma WriteByRules(args: Args)
    ensures ByRules(WriteRules(), args, ValidateWrite(args))
  {
    hide Lookup, AllFit, Build, Fits, Piece, ScopeArgs, ScopeFields, Ascii, OptionalString, RequiredString, TextField;
    var rules := WriteRules();
    WordsRule(args, SessionIdKey(), 256);
    WordsRule(args, PathKey(), 2048);
    WordsRule(args, ContentKey(), 200_000);
    ScopeRules(args, Build(rules[..3], args));
    Next(rules, 0, args);
    Next(rules, 1, args);
    Next(rules, 2, args);
    Next(rules, 3, args);
    Next(rules, 4, args);
  }

  lemma ExtractByRules(args: Args)
    ensures ByRules(ExtractRules(), args, ValidateExtract(args))
  {
    hide Lookup, AllFit, Build, Fits, Piece, ScopeArgs, ScopeFields, Ascii, OptionalString, RequiredString, TextField;
    var rules := ExtractRules();
    WordsRule(args, SessionIdKey(), 256);
    ScopeRules(args, Build(rules[..1], args));
    Next(rules, 0, args);
    Next(rules, 1, args);
    Next(rules, 2, args);
  }

  lemma CompleteByRules(args: Args)
    ensures ByRules(CompleteRules(), args, ValidateComplete(args))
  {
    hide Lookup, AllFit, Build, Fits, Piece, ScopeArgs, ScopeFields, Ascii, OptionalString, RequiredString, TextField, OptionalBoolean, BoolField;
    var rules := CompleteRules();
    WordsRule(args, SessionIdKey(), 256);
    ScopeRules(args, Build(rules[..1], args));
    FlagRule(args, ExtractKey());
    WordsRule(args, LabelKey(), 128);
    Next(rules, 0, args);
    Next(rules, 1, args);
    Next(rules, 2, args);
    Next(rules, 3, args);
    Next(rules, 4, args);
  }

  lemma {:induction false} RulesConcat(a: seq<Rule>, b: seq<Rule>, args: Args)
    ensures AllFit(a + b, args) <==> AllFit(a, args) && AllFit(b, args)
    ensures Build(a + b, args) == Build(a, args) + Build(b, args)
  {
    hide Fits, Piece;
    if b == [] {
      assert a + b == a;
    } else {
      hide AllFit, Build;
      var c, n := a + b, |b| - 1;
      RulesConcat(a, b[..n], args);
      Next(c, |a| + n, args);
      Next(b, n, args);
      assert c[..|a| + n] == a + b[..n];
    }
  }

  function ContextFlags(args: Args, checks: Checks): Result<Args, Error> {
    var core :- OptionalBoolean(args, IncludeCoreKey());
    var notes :- OptionalBoolean(args, IncludeNotesKey());
    var recent :- OptionalBoolean(args, IncludeRecentKey());
    var graph :- OptionalBoolean(args, IncludeGraphKey());
    var sources :- OptionalBoolean(args, IncludeSourcesKey());
    var filters :- OptionalChecked(args, FiltersKey(), checks.jsonObject);
    Ok(BoolField(IncludeCoreKey(), core) + BoolField(IncludeNotesKey(), notes) + BoolField(IncludeRecentKey(), recent)
       + BoolField(IncludeGraphKey(), graph) + BoolField(IncludeSourcesKey(), sources) + Field(FiltersKey(), filters))
  }

  lemma TailByRules(args: Args, checks: Checks)
    ensures var r := ContextFlags(args, checks);
            && (r.Ok? <==> AllFit(ContextTail(checks), args)) && (r.Err? ==> r == Err(INVALID))
            && (r.Ok? ==> r.value == Build(ContextTail(checks), args))
  {
    hide Lookup, AllFit, Build, Fits, Piece, Ascii, OptionalBoolean, BoolField, OptionalChecked, Field;
    var rules := ContextTail(checks);
    FlagRule(args, IncludeCoreKey());
    FlagRule(args, IncludeNotesKey());
    FlagRule(args, IncludeRecentKey());
    FlagRule(args, IncludeGraphKey());
    FlagRule(args, IncludeSourcesKey());
    CheckedRule(args, FiltersKey(), checks.jsonObject);
    Next(rules, 0, args);
    Next(rules, 1, args);
    Next(rules, 2, args);
    Next(rules, 3, args);
    Next(rules, 4, args);
    Next(rules, 5, args);
  }

  function ContextFields(args: Args, maxPageSize: int): Result<Validated, Error> {
    var scope :- ScopeArgs(args);
    var limit :- OptionalInteger(args, LimitKey(), 1, maxPageSize);
    var maxBytes :- OptionalInteger(args, MaxBytesKey(), 1024, 262144);
    var detail :- OptionalOf(args, DetailKey(), {Ascii("compact"), Ascii("full")}, 16);
    var section :- OptionalOf(args, SectionKey(), {Ascii("entities"), Ascii("recall"), Ascii("recent"), Ascii("notes")}, 32);
    var expand :- OptionalString(args, ExpandKey(), 512);
    var query :- RequiredString(args, QueryKey(), 4096);
    Ok(Validated(
      [Member(QueryKey(), String(query))] + ScopeFields(scope) + Field(LimitKey(), limit) + Field(MaxBytesKey(), maxBytes)
      + TextField(DetailKey(), detail) + TextField(SectionKey(), section) + TextField(ExpandKey(), expand), Read, scope.workspaceId))
  }

  lemma HeadByRules(args: Args, maxPageSize: int)
    ensures ByRules(ContextHead(maxPageSize), args, ContextFields(args, maxPageSize))
  {
    hide Lookup, AllFit, Build, Fits, Piece, ScopeArgs, ScopeFields, Ascii, OptionalString, RequiredString, TextField;
    hide OptionalOf, OptionalInteger, Field, DetailRule, SectionRule;
    var rules := ContextHead(maxPageSize);
    WordsRule(args, QueryKey(), 4096);
    ScopeRules(args, Build(rules[..1], args));
    WholeRule(args, LimitKey(), 1, maxPageSize);
    WholeRule(args, MaxBytesKey(), 1024, 262144);
    DetailsByRule(args);
    WordsRule(args, ExpandKey(), 512);
    Next(rules, 0, args);
    Next(rules, 1, args);
    Next(rules, 2, args);
    Next(rules, 3, args);
    Next(rules, 4, args);
    Next(rules, 5, args);
    Next(rules, 6, args);
    Next(rules, 7, args);
  }

  lemma Regrouped(h: Args, a: Args, b: Args, c: Args, d: Args, e: Args, f: Args)
    ensures h + a + b + c + d + e + f == h + (a + b + c + d + e + f)
  {
  }

  /** The context tool validates its two groups of fields. */
  lemma ContextInParts(args: Args, maxPageSize: int, checks: Checks)
    ensures var r, head, tail := ValidateContext(args, maxPageSize, checks), ContextFields(args, maxPageSize), ContextFlags(args, checks);
            && (r.Ok? <==> head.Ok? && tail.Ok?)
            && (r.Err? && (head.Err? ==> head == Err(INVALID)) && (tail.Err? ==> tail == Err(INVALID)) ==> r == Err(INVALID))
            && (r.Ok? ==> r.value.fields == head.value.fields + tail.value)
  {
    hide ScopeArgs, ScopeFields, Ascii, OptionalString, RequiredString, TextField;
    hide OptionalOf, OptionalBoolean, BoolField, OptionalInteger, OptionalChecked, Field;
    var r := ValidateContext(args, maxPageSize, checks);
    if r.Ok? {
      Regrouped(ContextFields(args, maxPageSize).value.fields,
                BoolField(IncludeCoreKey(), OptionalBoolean(args, IncludeCoreKey()).value),
                BoolField(IncludeNotesKey(), OptionalBoolean(args, IncludeNotesKey()).value),
                BoolField(IncludeRecentKey(), OptionalBoolean(args, IncludeRecentKey()).value),
                BoolField(IncludeGraphKey(), OptionalBoolean(args, IncludeGraphKey()).value),
                BoolField(IncludeSourcesKey(), OptionalBoolean(args, IncludeSourcesKey()).value),
                Field(FiltersKey(), OptionalChecked(args, FiltersKey(), checks.jsonObject).value));
    }
  }

  lemma ContextByRules(args: Args, maxPageSize: int, checks: Checks)
    ensures ByRules(ContextRules(maxPageSize, checks), args, ValidateContext(args, maxPageSize, checks))
  {
    hide AllFit, Build, ValidateContext, ContextFields, ContextFlags, ContextHead, ContextTail;
    ContextInParts(args, maxPageSize, checks);
    HeadByRules(args, maxPageSize);
    TailByRules(args, checks);
    RulesConcat(ContextHead(maxPageSize), ContextTail(checks), args);
  }

  lemma RecallByRules(args: Args, maxPageSize: int, checks: Checks)
    ensures ByRules(RecallRules(maxPageSize, checks), args, ValidateRecall(args, maxPageSize, checks))
  {
    hide Lookup, AllFit, Build, Fits, Piece, ScopeArgs, ScopeFields, Ascii, OptionalString, RequiredString, TextField, OptionalBoolean, BoolField, OptionalInteger, OptionalChecked, Field;
    var rules := RecallRules(maxPageSize, checks);
    WordsRule(args, QueryKey(), 4096);
    ScopeRules(args, Build(rules[..1], args));
    WholeRule(args, LimitKey(), 1, maxPageSize);
    FlagRule(args, IncludeGraphKey());
    FlagRule(args, IncludeSourcesKey());
    CheckedRule(args, FiltersKey(), checks.jsonObject);
    Next(rules, 0, args);
    Next(rules, 1, args);
    Next(rules, 2, args);
    Next(rules, 3, args);
    Next(rules, 4, args);
    Next(rules, 5, args);
    Next(rules, 6, args);
  }

  lemma FirstFive(rules: seq<Rule>, args: Args)
    requires 5 <= |rules|
    ensures AllFit(rules[..5], args) <==>
              && Fits(rules[0], Lookup(args, rules[0].key)) && Fits(rules[1], Lookup(args, rules[1].key))
              && Fits(rules[2], Lookup(args, rules[2].key)) && Fits(rules[3], Lookup(args, rules[3].key))
              && Fits(rules[4], Lookup(args, rules[4].key))
    ensures Build(rules[..5], args) ==
            Piece(rules[0], args) + Piece(rules[1], args) + Piece(rules[2], args) + Piece(rules[3], args) + Piece(rules[4], args)
  {
    hide AllFit, Build, Fits, Piece, Lookup;
    Next(rules, 0, args);
    Next(rules, 1, args);
    Next(rules, 2, args);
    Next(rules, 3, args);
    Next(rules, 4, args);
  }

  lemma LastFive(rules: seq<Rule>, args: Args)
    requires |rules| == 10
    ensures AllFit(rules, args) <==>
              && AllFit(rules[..5], args)
              && Fits(rules[5], Lookup(args, rules[5].key)) && Fits(rules[6], Lookup(args, rules[6].key))
              && Fits(rules[7], Lookup(args, rules[7].key)) && Fits(rules[8], Lookup(args, rules[8].key))
              && Fits(rules[9], Lookup(args, rules[9].key))
    ensures Build(rules, args) ==
            Build(rules[..5], args) + Piece(rules[5], args) + Piece(rules[6], args) + Piece(rules[7], args)
            + Piece(rules[8], args) + Piece(rules[9], args)
  {
    hide AllFit, Build, Fits, Piece, Lookup;
    Next(rules, 5, args);
    Next(rules, 6, args);
    Next(rules, 7, args);
    Next(rules, 8, args);
    Next(rules, 9, args);
  }

  lemma RememberByRules(args: Args, checks: Checks)
    ensures ByRules(RememberRules(checks), args, ValidateRemember(args, checks))
  {
    hide Lookup, AllFit, Build, Fits, Piece, ScopeArgs, ScopeFields, Ascii, OptionalString, RequiredString, TextField, OptionalChecked, OptionalRead, Field;
    var rules := RememberRules(checks);
    WordsRule(args, ContentKey(), 100_000);
    WordsRule(args, TitleKey(), 512);
    CheckedRule(args, KindKey(), checks.memoryKind);
    CheckedRule(args, ConfidenceKey(), checks.confidence);
    WordsRule(args, SourceKey(), 512);
    ScopeRules(args, Build(rules[..5], args));
    ConvertedRule(args, TagsKey(), checks.tags);
    ConvertedRule(args, SourceRefsKey(), checks.sourceRefs);
    CheckedRule(args, MetadataKey(), checks.jsonObject);
    FirstFive(rules, args);
    LastFive(rules, args);
  }

  lemma ConsolidateByRules(args: Args)
    ensures ByRules(ConsolidateRules(), args, ValidateConsolidate(args))
  {
    hide Lookup, AllFit, Build, Fits, Piece, ScopeArgs, ScopeFields, Ascii, OptionalString, TextField, OptionalBoolean, BoolField;
    var rules := ConsolidateRules();
    ScopeRules(args, []);
    FlagRule(args, ApplyKey());
    WordsRule(args, NowKey(), 64);
    WordsRule(args, EdgeTypeKey(), 128);
    Next(rules, 0, args);
    Next(rules, 1, args);
    Next(rules, 2, args);
    Next(rules, 3, args);
    Next(rules, 4, args);
  }

  lemma DetailsByRule(args: Args)
    ensures var r := OptionalOf(args, DetailKey(), {Ascii("compact"), Ascii("full")}, 16);
            && (r.Ok? <==> Fits(DetailRule(), Lookup(args, DetailRule().key))) && (r.Err? ==> r == Err(INVALID))
            && (r.Ok? ==> TextField(DetailKey(), r.value) == Piece(DetailRule(), args))
    ensures var r := OptionalOf(args, SectionKey(), {Ascii("entities"), Ascii("recall"), Ascii("recent"), Ascii("notes")}, 32);
            && (r.Ok? <==> Fits(SectionRule(), Lookup(args, SectionRule().key))) && (r.Err? ==> r == Err(INVALID))
            && (r.Ok? ==> TextField(SectionKey(), r.value) == Piece(SectionRule(), args))
  {
    hide Lookup, Fits, Piece, OptionalOf, TextField;
    ChoiceRule(args, DetailKey(), {Ascii("compact"), Ascii("full")}, 16);
    ChoiceRule(args, SectionKey(), {Ascii("entities"), Ascii("recall"), Ascii("recent"), Ascii("notes")}, 32);
  }

  // ---------------------------------------------------------- what this means

  lemma LookupConcat(a: Args, b: Args, key: Text)
    ensures Lookup(a + b, key) == if Lookup(a, key).Some? then Lookup(a, key) else Lookup(b, key)
    decreases |a|
  {
    if a == [] {
      assert a + b == b;
    } else {
      LookupConcat(a[1..], b, key);
      assert (a + b)[1..] == a[1..] + b;
    }
  }

  predicate DistinctKeys(rules: seq<Rule>) {
    forall i, j :: 0 <= i < j < |rules| ==> rules[i].key != rules[j].key
  }

  lemma {:induction false} AllFitMeans(rules: seq<Rule>, args: Args)
    ensures AllFit(rules, args) <==> forall i :: 0 <= i < |rules| ==> Fits(rules[i], Lookup(args, rules[i].key))
  {
    hide Fits, Lookup;
    if rules != [] { AllFitMeans(rules[..|rules| - 1], args); }
  }

  lemma PieceLookup(rule: Rule, args: Args, key: Text)
    ensures Lookup(Piece(rule, args), key) == if key == rule.key then Wanted(rule, Lookup(args, rule.key)) else None
  {
    hide Wanted;
    var w := Wanted(rule, Lookup(args, rule.key));
    if w.Some? { assert Piece(rule, args) == [Member(rule.key, w.value)]; }
  }

  /** Every field passed on is what its rule wants, and there are no others. */
  lemma {:induction false} BuildLookup(rules: seq<Rule>, args: Args, key: Text)
    requires DistinctKeys(rules)
    ensures forall i :: 0 <= i < |rules| && rules[i].key == key ==> Lookup(Build(rules, args), key) == Wanted(rules[i], Lookup(args, key))
    ensures (forall i :: 0 <= i < |rules| ==> rules[i].key != key) ==> Lookup(Build(rules, args), key) == None
  {
    hide Wanted, Piece, Lookup;
    if rules == [] {
      assert Lookup([], key) == None by { NoFields(key); }
    } else {
      var n := |rules| - 1;
      BuildLookup(rules[..n], args, key);
      PieceLookup(rules[n], args, key);
      LookupConcat(Build(rules[..n], args), Piece(rules[n], args), key);
    }
  }

  lemma NoFields(key: Text)
    ensures Lookup([], key) == None
  {
  }

  /** Keys of one length differ in their first letter, but for two which differ in the eighth. */
  lemma SameLengths()
    ensures QueryKey() != LimitKey() && DetailKey() != ExpandKey() && SectionKey() != FiltersKey()
    ensures WorkspaceIdKey() != IncludeCoreKey() && IncludeNotesKey() != IncludeGraphKey()
    ensures ProjectIdKey() != SessionIdKey() && KindKey() != TagsKey() && ConfidenceKey() != SourceRefsKey()
  {
    assert QueryKey()[0] != LimitKey()[0] && DetailKey()[0] != ExpandKey()[0];
    assert SectionKey()[0] != FiltersKey()[0] && WorkspaceIdKey()[0] != IncludeCoreKey()[0];
    assert IncludeNotesKey()[7] != IncludeGraphKey()[7] && ProjectIdKey()[0] != SessionIdKey()[0];
    assert KindKey()[0] != TagsKey()[0] && ConfidenceKey()[0] != SourceRefsKey()[0];
  }

  /** The key comes nowhere before. */
  predicate Unused(rules: seq<Rule>, j: nat)
    requires j < |rules|
  {
    forall i :: 0 <= i < j ==> rules[i].key != rules[j].key
  }

  lemma DistinctIfUnused(rules: seq<Rule>)
    requires forall j: nat :: j < |rules| ==> Unused(rules, j)
    ensures DistinctKeys(rules)
  {
    forall i, j | 0 <= i < j < |rules|
      ensures rules[i].key != rules[j].key
    {
      assert Unused(rules, j);
    }
  }

  lemma ContextKeysDistinct(maxPageSize: int, checks: Checks)
    ensures DistinctKeys(ContextRules(maxPageSize, checks))
  {
    SameLengths();
    var rules := ContextRules(maxPageSize, checks);
    forall j: nat | j < |rules|
      ensures Unused(rules, j)
    {
      if j < 7 { EarlyKeys(maxPageSize, checks, j); } else { LateKeys(maxPageSize, checks, j); }
    }
    DistinctIfUnused(rules);
  }

  lemma EarlyKeys(maxPageSize: int, checks: Checks, j: nat)
    requires j < 7
    ensures Unused(ContextRules(maxPageSize, checks), j)
  {
    SameLengths();
  }

  lemma LateKeys(maxPageSize: int, checks: Checks, j: nat)
    requires 7 <= j < 14
    ensures Unused(ContextRules(maxPageSize, checks), j)
  {
    SameLengths();
  }

  lemma KeysDistinct(tool: Tool, maxPageSize: int, checks: Checks)
    ensures DistinctKeys(Rules(tool, maxPageSize, checks))
  {
    hide DistinctKeys, StartRules, ReadRules, WriteRules, ExtractRules, CompleteRules, ContextRules, RecallRules, RememberRules, ConsolidateRules;
    match tool
    case SessionStart => StartKeys();
    case SessionRead | SessionExtract => ReadKeys();
    case SessionWrite | SessionAppend => WriteKeys();
    case SessionComplete => CompleteKeys();
    case ContextTool => ContextKeysDistinct(maxPageSize, checks);
    case RecallTool => RecallKeys(maxPageSize, checks);
    case Remember => RememberKeys(checks);
    case Consolidate => ConsolidateKeys();
  }

  lemma StartKeys()
    ensures DistinctKeys(StartRules())
  {
    SameLengths();
  }

  lemma ReadKeys()
    ensures DistinctKeys(ReadRules()) && DistinctKeys(ExtractRules())
  {
    SameLengths();
  }

  lemma WriteKeys()
    ensures DistinctKeys(WriteRules())
  {
    SameLengths();
  }

  lemma CompleteKeys()
    ensures DistinctKeys(CompleteRules())
  {
    SameLengths();
  }

  lemma ConsolidateKeys()
    ensures DistinctKeys(ConsolidateRules())
  {
    SameLengths();
  }

  lemma RecallKeys(maxPageSize: int, checks: Checks)
    ensures DistinctKeys(RecallRules(maxPageSize, checks))
  {
    SameLengths();
  }

  lemma RememberKeys(checks: Checks)
    ensures DistinctKeys(RememberRules(checks))
  {
    SameLengths();
  }

  lemma ToolByRules(tool: Tool, args: Args, maxPageSize: int, checks: Checks)
    ensures ByRules(Rules(tool, maxPageSize, checks), args, ValidateTool(tool, args, maxPageSize, checks))
  {
    hide ByRules, StartRules, ReadRules, WriteRules, ExtractRules, CompleteRules, ContextRules, RecallRules, RememberRules, ConsolidateRules;
    hide ValidateStart, ValidateRead, ValidateWrite, ValidateExtract, ValidateComplete, ValidateContext, ValidateRecall;
    hide ValidateRemember, ValidateConsolidate;
    match tool
    case SessionStart => StartByRules(args);
    case SessionRead => ReadByRules(args);
    case SessionWrite | SessionAppend => WriteByRules(args);
    case SessionExtract => ExtractByRules(args);
    case SessionComplete => CompleteByRules(args);
    case ContextTool => ContextByRules(args, maxPageSize, checks);
    case RecallTool => RecallByRules(args, maxPageSize, checks);
    case Remember => RememberByRules(args, checks);
    case Consolidate => ConsolidateByRules(args);
  }

  /**
   The arguments of a tool are accepted exactly when each of its fields fits its
   rule, and then exactly these fields are passed on that are given, as their rules
   want them; whatever else the caller gave is not.
   */
  lemma ArgumentsPassedOn(tool: Tool, args: Args, maxPageSize: int, checks: Checks)
    ensures var r, rules := ValidateTool(tool, args, maxPageSize, checks), Rules(tool, maxPageSize, checks);
            && (r.Ok? <==> forall i :: 0 <= i < |rules| ==> Fits(rules[i], Lookup(args, rules[i].key)))
            && (r.Err? ==> r == Err(INVALID))
            && (r.Ok? ==>
                  && (forall i :: 0 <= i < |rules| ==> Lookup(r.value.fields, rules[i].key) == Wanted(rules[i], Lookup(args, rules[i].key)))
                  && (forall key :: (forall i :: 0 <= i < |rules| ==> rules[i].key != key) ==> Lookup(r.value.fields, key) == None))
  {
    hide Rules, ValidateTool, Fits, Wanted, Lookup, AllFit, Build, DistinctKeys;
    var rules := Rules(tool, maxPageSize, checks);
    ToolByRules(tool, args, maxPageSize, checks);
    AllFitMeans(rules, args);
    KeysDistinct(tool, maxPageSize, checks);
    forall key
      ensures forall i :: 0 <= i < |rules| && rules[i].key == key ==> Lookup(Build(rules, args), key) == Wanted(rules[i], Lookup(args, key))
      ensures (forall i :: 0 <= i < |rules| ==> rules[i].key != key) ==> Lookup(Build(rules, args), key) == None
    {
      BuildLookup(rules, args, key);
    }
  }

  /** The value of a field is the caller's under the same name: a string trimmed, tags and references as read. */
  predicate FromCaller(args: Args, checks: Checks, m: Member) {
    match Lookup(args, m.key)
    case None => false
    case Some(v) =>
      || m.value == v
      || (v.String? && m.value == String(Trim(v.s)))
      || checks.tags(v) == Some(m.value)
      || checks.sourceRefs(v) == Some(m.value)
  }

  predicate AllFromCaller(args: Args, checks: Checks, fields: Args) {
    forall m :: m in fields ==> FromCaller(args, checks, m)
  }

  /** Tags and references are all that is read into something else. */
  ghost predicate Plain(rule: Rule, checks: Checks) {
    rule.kind.Converted? ==> rule.kind.read == checks.tags || rule.kind.read == checks.sourceRefs
  }

  lemma RulesArePlain(tool: Tool, maxPageSize: int, checks: Checks)
    ensures forall i :: 0 <= i < |Rules(tool, maxPageSize, checks)| ==> Plain(Rules(tool, maxPageSize, checks)[i], checks)
  {
    hide Ascii;
  }

  lemma {:induction false} BuiltFromCaller(rules: seq<Rule>, args: Args, checks: Checks)
    requires forall i :: 0 <= i < |rules| ==> Plain(rules[i], checks)
    ensures AllFromCaller(args, checks, Build(rules, args))
  {
    hide Lookup, Trim, FromCaller;
    if rules != [] {
      var n := |rules| - 1;
      BuiltFromCaller(rules[..n], args, checks);
      PieceFromCaller(rules[n], args, checks);
    }
  }

  lemma PieceFromCaller(rule: Rule, args: Args, checks: Checks)
    requires Plain(rule, checks)
    ensures AllFromCaller(args, checks, Piece(rule, args))
  {
    hide Lookup, Trim;
  }

  /** What a tool passes on to the runtime is what its caller gave, under the same names. */
  lemma FieldsAreTheCallers(tool: Tool, args: Args, maxPageSize: int, checks: Checks)
    requires ValidateTool(tool, args, maxPageSize, checks).Ok?
    ensures AllFromCaller(args, checks, ValidateTool(tool, args, maxPageSize, checks).value.fields)
  {
    hide Rules, ValidateTool, AllFit, Build, AllFromCaller, Plain;
    ToolByRules(tool, args, maxPageSize, checks);
    RulesArePlain(tool, maxPageSize, checks);
    BuiltFromCaller(Rules(tool, maxPageSize, checks), args, checks);
  }

  lemma ScopeOfStart(args: Args)
    ensures ValidateStart(args).Ok? ==> OptionalString(args, WorkspaceIdKey(), 256) == Ok(ValidateStart(args).value.workspaceId)
    ensures ValidateRead(args).Ok? ==> OptionalString(args, WorkspaceIdKey(), 256) == Ok(ValidateRead(args).value.workspaceId)
    ensures ValidateWrite(args).Ok? ==> OptionalString(args, WorkspaceIdKey(), 256) == Ok(ValidateWrite(args).value.workspaceId)
    ensures ValidateExtract(args).Ok? ==> OptionalString(args, WorkspaceIdKey(), 256) == Ok(ValidateExtract(args).value.workspaceId)
    ensures ValidateComplete(args).Ok? ==> OptionalString(args, WorkspaceIdKey(), 256) == Ok(ValidateComplete(args).value.workspaceId)
    ensures ValidateConsolidate(args).Ok? ==> OptionalString(args, WorkspaceIdKey(), 256) == Ok(ValidateConsolidate(args).value.workspaceId)
  {
    hide OptionalString, RequiredString, OptionalBoolean, Ascii, TextField, BoolField, ScopeFields;
  }

  lemma ScopeOfMemory(args: Args, maxPageSize: int, checks: Checks)
    ensures ValidateContext(args, maxPageSize, checks).Ok? ==>
              OptionalString(args, WorkspaceIdKey(), 256) == Ok(ValidateContext(args, maxPageSize, checks).value.workspaceId)
    ensures ValidateRecall(args, maxPageSize, checks).Ok? ==>
              OptionalString(args, WorkspaceIdKey(), 256) == Ok(ValidateRecall(args, maxPageSize, checks).value.workspaceId)
    ensures ValidateRemember(args, checks).Ok? ==>
              OptionalString(args, WorkspaceIdKey(), 256) == Ok(ValidateRemember(args, checks).value.workspaceId)
  {
    hide OptionalString, RequiredString, OptionalBoolean, OptionalInteger, OptionalOf, OptionalChecked, OptionalRead, Ascii;
    hide TextField, BoolField, ScopeFields, Field;
  }

  /** The workspace that permission is asked for is the caller's, trimmed. */
  lemma WorkspaceIsTheCallers(tool: Tool, args: Args, maxPageSize: int, checks: Checks)
    requires ValidateTool(tool, args, maxPageSize, checks).Ok?
    ensures var workspaceId := ValidateTool(tool, args, maxPageSize, checks).value.workspaceId;
            (if workspaceId.Some? then Some(String(workspaceId.value)) else None) == Wanted(WorkspaceRule(), Lookup(args, Ascii("workspaceId")))
  {
    hide ValidateStart, ValidateRead, ValidateWrite, ValidateExtract, ValidateComplete, ValidateContext, ValidateRecall;
    hide ValidateRemember, ValidateConsolidate, Lookup, Trim;
    ScopeOfStart(args);
    ScopeOfMemory(args, maxPageSize, checks);
  }

  /** What is not called because of its name or its arguments is answered as invalid, whatever is wrong. */
  lemma InvalidAnswered(env: Env, name: Text, rawArgs: Option<Json>, history: History)
    requires var args := if rawArgs.None? then Object([]) else rawArgs.value;
             !env.checks.payload(args) || !args.Object? || ToolNamed(name).None?
             || !AllFit(Rules(ToolNamed(name).value, env.maxPageSize, env.checks), args.members)
    ensures CallTool(env, name, rawArgs, history) == Step(history, Limited(env, Err(INVALID)))
  {
    hide ValidateTool, Rules, AllFit, ToolNamed, Limited, Build;
    var args := if rawArgs.None? then Object([]) else rawArgs.value;
    NotLate(env, history);
    if args.Object? && ToolNamed(name).Some? { ToolByRules(ToolNamed(name).value, args.members, env.maxPageSize, env.checks); }
  }

  // ------------------------------------------------------------------- names

  lemma SessionTools(name: Text)
    ensures Spells(name, "tekmemo_agent_session_start") ==> ToolNamed(name) == Some(SessionStart)
    ensures Spells(name, "tekmemo_agent_session_read") ==> ToolNamed(name) == Some(SessionRead)
    ensures Spells(name, "tekmemo_agent_session_write") ==> ToolNamed(name) == Some(SessionWrite)
    ensures Spells(name, "tekmemo_agent_session_append") ==> ToolNamed(name) == Some(SessionAppend)
    ensures Spells(name, "tekmemo_agent_session_extract") ==> ToolNamed(name) == Some(SessionExtract)
    ensures Spells(name, "tekmemo_agent_session_complete") ==> ToolNamed(name) == Some(SessionComplete)
  {
    assert SessionWriteName()[22] != SessionStartName()[22] && SessionAppendName()[22] != SessionExtractName()[22];
  }

  lemma MemoryTools(name: Text)
    ensures Spells(name, "tekmemo.context") ==> ToolNamed(name) == Some(ContextTool)
    ensures Spells(name, "tekmemo.recall") ==> ToolNamed(name) == Some(RecallTool)
    ensures Spells(name, "tekmemo.remember") ==> ToolNamed(name) == Some(Remember)
    ensures Spells(name, "tekmemo.consolidate") ==> ToolNamed(name) == Some(Consolidate)
  {
  }

  /** What a call of a tool calls on the runtime, if it gets that far: the method by the name of the tool. */
  lemma MethodsByName(env: Env, name: Text, args: Json, history: History, k: nat)
    requires |history| <= k < |RunTool(env, name, args, history).history| && RunTool(env, name, args, history).history[k].Invoke?
    ensures var operation := RunTool(env, name, args, history).history[k].operation;
            && (Spells(name, "tekmemo_agent_session_start") ==> operation == StartAgentSession)
            && (Spells(name, "tekmemo_agent_session_read") ==> operation == ReadAgentSessionFile)
            && (Spells(name, "tekmemo_agent_session_write") ==> operation == WriteAgentSessionFile)
            && (Spells(name, "tekmemo_agent_session_append") ==> operation == AppendAgentSessionFile)
            && (Spells(name, "tekmemo_agent_session_extract") ==> operation == ExtractAgentSession)
            && (Spells(name, "tekmemo_agent_session_complete") ==> operation == CompleteAgentSession)
            && (Spells(name, "tekmemo.context") ==> operation == Context)
            && (Spells(name, "tekmemo.recall") ==> operation == Recall)
            && (Spells(name, "tekmemo.remember") ==> operation == WriteMemory)
            && (Spells(name, "tekmemo.consolidate") ==> operation == ConsolidateMemory)
  {
    hide ToolNamed, ValidateTool, Ascii, Outcome, Spells;
    SessionTools(name);
    MemoryTools(name);
    assert args.Object? && ToolNamed(name).Some?;
    assert RunTool(env, name, args, history).history[k].operation == OperationOf(ToolNamed(name).value);
  }

  /** ... with the fields that its rules want, and no others. */
  lemma FieldsByName(env: Env, name: Text, args: Json, history: History, k: nat)
    requires |history| <= k < |RunTool(env, name, args, history).history|
    ensures args.Object? && ToolNamed(name).Some?
    ensures var made, tool := RunTool(env, name, args, history).history[k], ToolNamed(name).value;
            var rules := Rules(tool, env.maxPageSize, env.checks);
            && (forall i :: 0 <= i < |rules| ==> Lookup(made.args, rules[i].key) == Wanted(rules[i], Lookup(args.members, rules[i].key)))
            && (forall key :: (forall i :: 0 <= i < |rules| ==> rules[i].key != key) ==> Lookup(made.args, key) == None)
  {
    hide ToolNamed, ValidateTool, Ascii, Outcome, Rules, Wanted, Lookup;
    assert args.Object? && ToolNamed(name).Some?;
    var tool := ToolNamed(name).value;
    ArgumentsPassedOn(tool, args.members, env.maxPageSize, env.checks);
    assert RunTool(env, name, args, history).history[k].args == ValidateTool(tool, args.members, env.maxPageSize, env.checks).value.fields;
  }
}
