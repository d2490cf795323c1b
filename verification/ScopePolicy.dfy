/**
 `packages/tekmemo-adapter-ai-sdk/src/scope/scope-policy.ts`: which scopes of
 memory a context may write to, what it may read of what was written in the same
 or in another context, and what it asks for when it recalls.
 */
module ScopePolicy {
  import opened Optional
  import opened Text

  datatype Scope = Project | Workspace | Tenant | User | Conversation | ParticipantShared

  datatype Error = InvalidScope | ScopeNotAllowed | UserIdRequired | ConversationIdRequired | ParticipantIdsRequired

  /** The ids of a context; an id that is absent or empty counts as none. */
  datatype Ids = Ids(
    tenantId: Option<Text>, workspaceId: Option<Text>, projectId: Option<Text>,
    userId: Option<Text>, conversationId: Option<Text>, actorId: Option<Text>)

  datatype Flags<T> = Flags(user: T, conversation: T, project: T, shared: T)

  datatype Context = Context(ids: Ids, participantIds: Option<seq<Text>>, allowedScopes: Option<seq<Text>>, flags: Flags<Option<bool>>)

  datatype Normalized = Normalized(ids: Ids, participantIds: seq<Text>, allowedScopes: seq<Scope>, flags: Flags<bool>)

  // ------------------------------------------------------------------ scopes

  function ScopeName(scope: Scope): Text {
    match scope
    case Project => Ascii("project")
    case Workspace => Ascii("workspace")
    case Tenant => Ascii("tenant")
    case User => Ascii("user")
    case Conversation => Ascii("conversation")
    case ParticipantShared => Ascii("participant-shared")
  }

  function ParseScope(name: Text): Option<Scope> {
    if name == ScopeName(Project) then Some(Project)
    else if name == ScopeName(Workspace) then Some(Workspace)
    else if name == ScopeName(Tenant) then Some(Tenant)
    else if name == ScopeName(User) then Some(User)
    else if name == ScopeName(Conversation) then Some(Conversation)
    else if name == ScopeName(ParticipantShared) then Some(ParticipantShared)
    else None
  }

  lemma ScopeRoundTrip(scope: Scope)
    ensures ParseScope(ScopeName(scope)) == Some(scope)
  {
  }

  function ParseScopes(names: seq<Text>): (r: Result<seq<Scope>, Error>)
    ensures r.Err? ==> r.error == InvalidScope
  {
    if names == [] then Ok([])
    else
      var front :- ParseScopes(names[..|names| - 1]);
      match ParseScope(names[|names| - 1])
      case None => Err(InvalidScope)
      case Some(scope) => Ok(front + [scope])
  }

  function ScopeNames(scopes: seq<Scope>): seq<Text> {
    seq(|scopes|, i requires 0 <= i < |scopes| => ScopeName(scopes[i]))
  }

  // ------------------------------------------------------------ normalization

  /** `[...new Set(values)]`: every value where it first occurs. */
  function Unique<T(==)>(values: seq<T>): seq<T> {
    if values == [] then []
    else
      var front := Unique(values[..|values| - 1]);
      if values[|values| - 1] in front then front else front + [values[|values| - 1]]
  }

  function TrimAll(values: seq<Text>): seq<Text> {
    if values == [] then []
    else TrimAll(values[..|values| - 1]) + (if Trim(values[|values| - 1]) == [] then [] else [Trim(values[|values| - 1])])
  }

  function UniqueStrings(values: seq<Text>): seq<Text> {
    Unique(TrimAll(values))
  }

  predicate Given(id: Option<Text>) {
    id.Some? && id.value != []
  }

  function Push(scopes: seq<Scope>, when: bool, scope: Scope): seq<Scope> {
    if when then scopes + [scope] else scopes
  }

  function DerivedScopes(ids: Ids, participantIds: seq<Text>): seq<Scope> {
    var tenant := Push([Project, Workspace], Given(ids.tenantId), Tenant);
    var user := Push(tenant, Given(ids.userId), User);
    var conversation := Push(user, Given(ids.conversationId), Conversation);
    Push(conversation, participantIds != [], ParticipantShared)
  }

  function OrElse(flag: Option<bool>, otherwise: bool): bool {
    if flag.Some? then flag.value else otherwise
  }

  predicate Explicit(c: Context) {
    c.allowedScopes.Some? && c.allowedScopes.value != []
  }

  function Normalize(c: Context): Result<Normalized, Error> {
    var participantIds := UniqueStrings(if c.participantIds.Some? then c.participantIds.value else []);
    var explicit :- if Explicit(c) then ParseScopes(c.allowedScopes.value) else Ok(DerivedScopes(c.ids, participantIds));
    Ok(Normalized(
      c.ids, participantIds, Unique(explicit),
      Flags(OrElse(c.flags.user, Given(c.ids.userId)),
            OrElse(c.flags.conversation, Given(c.ids.conversationId)),
            OrElse(c.flags.project, true),
            OrElse(c.flags.shared, participantIds != []))))
  }

  method NormalizeAccessContext(c: Context) returns (r: Result<Normalized, Error>)
    ensures r == Normalize(c)
  {
    hide Trim, ScopeName, ParseScope;
    var participantIds := UniqueStrings(if c.participantIds.Some? then c.participantIds.value else []);
    var derived := [Project, Workspace];
    if Given(c.ids.tenantId) { derived := derived + [Tenant]; }
    if Given(c.ids.userId) { derived := derived + [User]; }
    if Given(c.ids.conversationId) { derived := derived + [Conversation]; }
    if |participantIds| > 0 { derived := derived + [ParticipantShared]; }
    var explicit := derived;
    if Explicit(c) {
      var names := c.allowedScopes.value;
      explicit := [];
      for i := 0 to |names|
        invariant ParseScopes(names[..i]) == Ok(explicit)
      {
        assert names[..i + 1][..i] == names[..i];
        var scope := ParseScope(names[i]);
        if scope.None? {
          ParseFails(names, i);
          return Err(InvalidScope);
        }
        explicit := explicit + [scope.value];
      }
      assert names[..|names|] == names;
    }
    r := Ok(Normalized(
      c.ids, participantIds, Unique(explicit),
      Flags(OrElse(c.flags.user, Given(c.ids.userId)),
            OrElse(c.flags.conversation, Given(c.ids.conversationId)),
            OrElse(c.flags.project, true),
            OrElse(c.flags.shared, participantIds != []))));
  }

  lemma {:induction false} ParseFails(names: seq<Text>, i: nat)
    requires i < |names| && ParseScope(names[i]) == None
    ensures ParseScopes(names) == Err(InvalidScope)
  {
    hide ParseScope;
    if i < |names| - 1 { ParseFails(names[..|names| - 1], i); }
  }

  /** A normalized context is a context as well. */
  function AsContext(n: Normalized): Context {
    Context(n.ids, Some(n.participantIds), Some(ScopeNames(n.allowedScopes)),
            Flags(Some(n.flags.user), Some(n.flags.conversation), Some(n.flags.project), Some(n.flags.shared)))
  }

  predicate Distinct<T(==)>(values: seq<T>) {
    forall i, j :: 0 <= i < j < |values| ==> values[i] != values[j]
  }

  lemma {:induction false} UniqueMeaning<T>(values: seq<T>)
    ensures Distinct(Unique(values))
    ensures forall v :: v in Unique(values) <==> v in values
    ensures values != [] ==> Unique(values) != []
  {
    if values != [] {
      var front, last := values[..|values| - 1], values[|values| - 1];
      UniqueMeaning(front);
      assert values == front + [last];
    }
  }

  lemma {:induction false} UniqueIdle<T>(values: seq<T>)
    requires Distinct(values)
    ensures Unique(values) == values
  {
    if values != [] {
      var front, last := values[..|values| - 1], values[|values| - 1];
      UniqueIdle(front);
      assert values == front + [last];
    }
  }

  lemma {:induction false} TrimAllMeaning(values: seq<Text>)
    ensures forall v :: v in TrimAll(values) ==> v != [] && Trim(v) == v
  {
    hide Trim;
    if values != [] {
      TrimAllMeaning(values[..|values| - 1]);
      TrimIdempotent(values[|values| - 1]);
    }
  }

  lemma {:induction false} TrimAllIdle(values: seq<Text>)
    requires forall i :: 0 <= i < |values| ==> values[i] != [] && Trim(values[i]) == values[i]
    ensures TrimAll(values) == values
  {
    hide Trim;
    if values != [] {
      var front, last := values[..|values| - 1], values[|values| - 1];
      TrimAllIdle(front);
      assert values == front + [last];
    }
  }

  lemma UniqueStringsIdempotent(values: seq<Text>)
    ensures UniqueStrings(UniqueStrings(values)) == UniqueStrings(values)
  {
    hide Trim, TrimAll, Unique;
    var once := UniqueStrings(values);
    UniqueMeaning(TrimAll(values));
    TrimAllMeaning(values);
    assert forall i :: 0 <= i < |once| ==> once[i] in once;
    TrimAllIdle(once);
    UniqueIdle(once);
  }

  lemma {:induction false} ParseNames(scopes: seq<Scope>)
    ensures ParseScopes(ScopeNames(scopes)) == Ok(scopes)
  {
    hide ScopeName, ParseScope;
    if scopes != [] {
      var front, last := scopes[..|scopes| - 1], scopes[|scopes| - 1];
      ParseNames(front);
      ScopeRoundTrip(last);
      assert ScopeNames(scopes)[..|scopes| - 1] == ScopeNames(front);
      assert scopes == front + [last];
    }
  }

  /** What every normalized context is like. */
  predicate Normal(n: Normalized) {
    n.allowedScopes != [] && Distinct(n.allowedScopes) && UniqueStrings(n.participantIds) == n.participantIds
  }

  lemma NormalizeGivesNormal(c: Context)
    requires Normalize(c).Ok?
    ensures Normal(Normalize(c).value)
  {
    hide Distinct, Unique, UniqueStrings, ParseScopes;
    UniqueStringsIdempotent(if c.participantIds.Some? then c.participantIds.value else []);
    if Explicit(c) {
      ParsedLength(c.allowedScopes.value);
      UniqueMeaning(ParseScopes(c.allowedScopes.value).value);
    } else {
      UniqueMeaning(DerivedScopes(c.ids, Normalize(c).value.participantIds));
    }
  }

  lemma {:induction false} ParsedLength(names: seq<Text>)
    requires ParseScopes(names).Ok?
    ensures |ParseScopes(names).value| == |names|
  {
    hide ParseScope;
    if names != [] { ParsedLength(names[..|names| - 1]); }
  }

  /** Normalizing what is normalized changes nothing. */
  lemma NormalizeIdempotent(c: Context)
    requires Normalize(c).Ok?
    ensures Normalize(AsContext(Normalize(c).value)) == Normalize(c)
  {
    hide Distinct, Unique, UniqueStrings, ParseScopes, ScopeName;
    NormalizeGivesNormal(c);
    var n := Normalize(c).value;
    ParseNames(n.allowedScopes);
    UniqueIdle(n.allowedScopes);
  }

  // -------------------------------------------------------------- write side

  function AssertScopeAllowed(scope: Scope, n: Normalized): Result<Scope, Error> {
    if scope !in n.allowedScopes then Err(ScopeNotAllowed)
    else if scope == User && !Given(n.ids.userId) then Err(UserIdRequired)
    else if scope == Conversation && !Given(n.ids.conversationId) then Err(ConversationIdRequired)
    else if scope == ParticipantShared && n.participantIds == [] then Err(ParticipantIdsRequired)
    else Ok(scope)
  }

  predicate Permitted(scope: Scope, n: Normalized) {
    AssertScopeAllowed(scope, n).Ok?
  }

  function InferWriteScope(n: Normalized, requested: Option<Text>): Result<Scope, Error> {
    if requested.Some? && requested.value != [] then
      match ParseScope(requested.value)
      case None => Err(InvalidScope)
      case Some(scope) => AssertScopeAllowed(scope, n)
    else if Given(n.ids.conversationId) && Conversation in n.allowedScopes then Ok(Conversation)
    else if Given(n.ids.userId) && User in n.allowedScopes then Ok(User)
    else if Project in n.allowedScopes then Ok(Project)
    else if Workspace in n.allowedScopes then Ok(Workspace)
    else if n.allowedScopes != [] then Ok(n.allowedScopes[0])
    else Ok(Project)
  }

  /** Without explicit scopes, the scope inferred may always be written to. */
  lemma InferredIsPermitted(c: Context)
    requires Normalize(c).Ok? && !Explicit(c)
    ensures InferWriteScope(Normalize(c).value, None).Ok?
    ensures Permitted(InferWriteScope(Normalize(c).value, None).value, Normalize(c).value)
  {
    hide Unique, UniqueStrings;
    var n := Normalize(c).value;
    UniqueMeaning(DerivedScopes(n.ids, n.participantIds));
    assert Project in DerivedScopes(n.ids, n.participantIds);
  }

  lemma ScopesSpelled(scope: Scope)
    ensures Spells(ScopeName(scope),
                   match scope
                   case Project => "project" case Workspace => "workspace" case Tenant => "tenant" case User => "user"
                   case Conversation => "conversation" case ParticipantShared => "participant-shared")
  {
  }

  /** What nobody asks for in particular goes to the first of these that may be written to. */
  const WRITE_ORDER := [Conversation, User, Project, Workspace]

  /** A scope asked for by its name is it, or it is refused; else it is the first of the order that may be written to. */
  lemma InferredIsFirst(n: Normalized, requested: Option<Text>)
    ensures var r := InferWriteScope(n, requested);
            if requested.Some? && requested.value != [] then
              && (forall scope :: r == Ok(scope) <==> requested.value == ScopeName(scope) && Permitted(scope, n))
              && (r == Err(InvalidScope) <==> forall scope :: requested.value != ScopeName(scope))
            else
              && (forall i :: 0 <= i < 4 && Permitted(WRITE_ORDER[i], n) && (forall j :: 0 <= j < i ==> !Permitted(WRITE_ORDER[j], n)) ==>
                    r == Ok(WRITE_ORDER[i]))
              && ((forall i :: 0 <= i < 4 ==> !Permitted(WRITE_ORDER[i], n)) ==>
                    r == Ok(if n.allowedScopes == [] then Project else n.allowedScopes[0]))
  {
    hide ParseScope, ScopeName;
    if requested.Some? && requested.value != [] {
      forall scope
        ensures ParseScope(requested.value) == Some(scope) <==> requested.value == ScopeName(scope)
      {
        ParsedName(requested.value, scope);
      }
    } else {
      assert WRITE_ORDER[0] == Conversation && WRITE_ORDER[1] == User && WRITE_ORDER[2] == Project && WRITE_ORDER[3] == Workspace;
    }
  }

  /** With explicit scopes, the last resort, the first of them, may lack what it requires. */
  lemma InferredPermittedIff(c: Context)
    requires Normalize(c).Ok?
    ensures var n := Normalize(c).value;
            Permitted(InferWriteScope(n, None).value, n) <==>
              || (Given(n.ids.conversationId) && Conversation in n.allowedScopes)
              || (Given(n.ids.userId) && User in n.allowedScopes)
              || Project in n.allowedScopes
              || Workspace in n.allowedScopes
              || n.allowedScopes[0] == Tenant
              || (n.allowedScopes[0] == ParticipantShared && n.participantIds != [])
  {
    hide Unique, UniqueStrings, Normalize, Distinct;
    NormalizeGivesNormal(c);
    var n := Normalize(c).value;
    assert n.allowedScopes[0] in n.allowedScopes;
  }

  // ---------------------------------------------------------------- metadata

  /** The names of the fields that the policy knows; `Named` is any other. */
  datatype Key =
    | ScopeKey | VisibilityKey | TenantIdKey | WorkspaceIdKey | ProjectIdKey | UserIdKey | ConversationIdKey
    | ParticipantIdsKey | ActorIdKey | CreatedByKey | ScopesKey
    | Named(name: Text)

  datatype Value = Undefined | Str(s: Text) | List(items: seq<Value>) | Other(n: int)

  type Object = map<Key, Value>

  function Get(o: Object, key: Key): Value {
    if key in o then o[key] else Undefined
  }

  /** Fields that are undefined, or an empty array, are dropped. */
  function CompactObject(o: Object): Object {
    map key | key in o && o[key] != Undefined && o[key] != List([]) :: o[key]
  }

  function Id(id: Option<Text>): Value {
    if id.None? then Undefined else Str(id.value)
  }

  function Strings(values: seq<Text>): Value {
    List(seq(|values|, i requires 0 <= i < |values| => Str(values[i])))
  }

  function DefaultVisibility(scope: Scope): Text {
    match scope
    case User => Ascii("private")
    case Conversation | ParticipantShared => Ascii("shared")
    case _ => Ascii("system")
  }

  /** What the policy itself puts under a key. */
  function OwnField(n: Normalized, scope: Scope, visibility: Option<Text>, key: Key): Value {
    match key
    case ScopeKey => Str(ScopeName(scope))
    case VisibilityKey => Str(if visibility.Some? then visibility.value else DefaultVisibility(scope))
    case TenantIdKey => Id(n.ids.tenantId)
    case WorkspaceIdKey => Id(n.ids.workspaceId)
    case ProjectIdKey => Id(n.ids.projectId)
    case UserIdKey => if scope == User then Id(n.ids.userId) else Undefined
    case ConversationIdKey => if scope == Conversation || scope == ParticipantShared then Id(n.ids.conversationId) else Undefined
    case ParticipantIdsKey => if scope == ParticipantShared then Strings(n.participantIds) else Undefined
    case ActorIdKey => Id(n.ids.actorId)
    case CreatedByKey => Str(Ascii("@tekbreed/tekmemo-adapter-ai-sdk"))
    case _ => Undefined
  }

  function OwnFields(n: Normalized, scope: Scope, visibility: Option<Text>): Object {
    map key | key in {ScopeKey, VisibilityKey, TenantIdKey, WorkspaceIdKey, ProjectIdKey, UserIdKey, ConversationIdKey,
                      ParticipantIdsKey, ActorIdKey, CreatedByKey}
      :: OwnField(n, scope, visibility, key)
  }

  function CreateScopeMetadata(n: Normalized, scope: Scope, visibility: Option<Text>, metadata: Object): Result<Object, Error> {
    var permitted :- AssertScopeAllowed(scope, n);
    Ok(CompactObject(metadata + OwnFields(n, scope, visibility)))
  }

  // --------------------------------------------------------------- read side

  function TextItems(v: Value): seq<Text> {
    if v.List? then Texts(v.items) else []
  }

  function Texts(items: seq<Value>): seq<Text> {
    if items == [] then []
    else Texts(items[..|items| - 1]) + (if items[|items| - 1].Str? then [items[|items| - 1].s] else [])
  }

  /** The decision once the context is normalized. */
  predicate Reads(n: Normalized, m: Object) {
    var scope := if Get(m, ScopeKey).Str? then ParseScope(Get(m, ScopeKey).s) else None;
    match scope
    case None => n.flags.project
    case Some(s) =>
      && s in n.allowedScopes
      && match s
         case Project | Workspace | Tenant => n.flags.project
         case User => n.flags.user && Get(m, UserIdKey) == Id(n.ids.userId)
         case Conversation => n.flags.conversation && Get(m, ConversationIdKey) == Id(n.ids.conversationId)
         case ParticipantShared =>
           && n.flags.shared && Get(m, ConversationIdKey) == Id(n.ids.conversationId)
           && forall id :: id in TextItems(Get(m, ParticipantIdsKey)) ==> id in n.participantIds
  }

  function CanReadMemoryMetadata(metadata: Option<Object>, c: Context): Result<bool, Error> {
    if metadata.None? then Ok(true)
    else
      var n :- Normalize(c);
      Ok(Reads(n, metadata.value))
  }

  function FlagOf(scope: Scope, flags: Flags<bool>): bool {
    match scope
    case User => flags.user
    case Conversation => flags.conversation
    case ParticipantShared => flags.shared
    case _ => flags.project
  }

  // --------------------------------------------------- both sides together

  lemma {:induction false} TextsOfStrings(values: seq<Text>)
    ensures TextItems(Strings(values)) == values
  {
    if values != [] {
      var front, last := values[..|values| - 1], values[|values| - 1];
      TextsOfStrings(front);
      assert Strings(values).items[..|values| - 1] == Strings(front).items;
      assert values == front + [last];
    }
  }

  /** The fields that decide are the policy's own, whatever the caller's metadata holds. */
  lemma OwnFieldsWin(n: Normalized, scope: Scope, visibility: Option<Text>, metadata: Object)
    requires Permitted(scope, n)
    ensures var m := CreateScopeMetadata(n, scope, visibility, metadata).value;
            && Get(m, ScopeKey) == Str(ScopeName(scope))
            && Get(m, UserIdKey) == (if scope == User then Id(n.ids.userId) else Undefined)
            && Get(m, ConversationIdKey) == (if scope == Conversation || scope == ParticipantShared then Id(n.ids.conversationId) else Undefined)
            && Get(m, ParticipantIdsKey) == (if scope == ParticipantShared then Strings(n.participantIds) else Undefined)
            && Get(m, TenantIdKey) == Id(n.ids.tenantId) && Get(m, WorkspaceIdKey) == Id(n.ids.workspaceId)
            && Get(m, ProjectIdKey) == Id(n.ids.projectId) && Get(m, ActorIdKey) == Id(n.ids.actorId)
            && Get(m, VisibilityKey) == Str(if visibility.Some? then visibility.value else DefaultVisibility(scope))
    ensures forall name :: Get(CreateScopeMetadata(n, scope, visibility, metadata).value, Named(name)) == Get(CompactObject(metadata), Named(name))
  {
    OwnValues(n, scope, visibility);
    hide ScopeName, DefaultVisibility, Strings, CompactObject, Get, OwnFields;
    var own := OwnFields(n, scope, visibility);
    forall key | key in own
      ensures Get(CompactObject(metadata + own), key) == own[key]
    {
      Compacted(metadata, own, key);
    }
    forall name
      ensures Get(CompactObject(metadata + own), Named(name)) == Get(CompactObject(metadata), Named(name))
    {
      Compacted(metadata, own, Named(name));
    }
  }

  /** What is written without a visibility gets that of its scope, and always the name of the package. */
  lemma WrittenMarks(n: Normalized, scope: Scope, metadata: Object)
    requires Permitted(scope, n)
    ensures var m := CreateScopeMetadata(n, scope, None, metadata).value;
            && Get(m, VisibilityKey).Str?
            && Spells(Get(m, VisibilityKey).s,
                      match scope case User => "private" case Conversation | ParticipantShared => "shared" case _ => "system")
            && Get(m, CreatedByKey).Str? && Spells(Get(m, CreatedByKey).s, "@tekbreed/tekmemo-adapter-ai-sdk")
  {
    var own := OwnFields(n, scope, None);
    OwnFieldsWin(n, scope, None, metadata);
    DefaultsSpelled(scope);
    OwnerMark(n, scope);
    hide DefaultVisibility, OwnFields, ScopeName, CompactObject, Strings, Spells;
    Compacted(metadata, own, CreatedByKey);
  }

  lemma DefaultsSpelled(scope: Scope)
    ensures Spells(DefaultVisibility(scope),
                   match scope case User => "private" case Conversation | ParticipantShared => "shared" case _ => "system")
  {
  }

  lemma OwnerMark(n: Normalized, scope: Scope)
    ensures var own := OwnFields(n, scope, None);
            CreatedByKey in own && own[CreatedByKey].Str? && Spells(own[CreatedByKey].s, "@tekbreed/tekmemo-adapter-ai-sdk")
  {
    hide DefaultVisibility, ScopeName, Strings;
  }

  /** None of the policy's own fields is dropped but those that are undefined. */
  lemma OwnValues(n: Normalized, scope: Scope, visibility: Option<Text>)
    requires Permitted(scope, n)
    ensures var own := OwnFields(n, scope, visibility);
            && (forall key :: key in own <==> !key.Named? && key != ScopesKey)
            && (forall key :: key in own ==> own[key] != List([]))
            && own[ScopeKey] == Str(ScopeName(scope))
            && own[UserIdKey] == (if scope == User then Id(n.ids.userId) else Undefined)
            && own[ConversationIdKey] == (if scope == Conversation || scope == ParticipantShared then Id(n.ids.conversationId) else Undefined)
            && own[ParticipantIdsKey] == (if scope == ParticipantShared then Strings(n.participantIds) else Undefined)
            && own[TenantIdKey] == Id(n.ids.tenantId) && own[WorkspaceIdKey] == Id(n.ids.workspaceId)
            && own[ProjectIdKey] == Id(n.ids.projectId) && own[ActorIdKey] == Id(n.ids.actorId)
            && own[VisibilityKey] == Str(if visibility.Some? then visibility.value else DefaultVisibility(scope))
  {
    hide ScopeName, DefaultVisibility, Strings;
    OwnKeys(n, scope, visibility);
  }

  lemma OwnKeys(n: Normalized, scope: Scope, visibility: Option<Text>)
    requires Permitted(scope, n)
    ensures var own := OwnFields(n, scope, visibility);
            && (forall key :: key in own <==> !key.Named? && key != ScopesKey)
            && (forall key :: key in own ==> own[key] != List([]))
  {
    hide ScopeName, DefaultVisibility, Strings;
    if scope == ParticipantShared { StringsNotEmpty(n.participantIds); }
  }

  lemma Compacted(metadata: Object, own: Object, key: Key)
    ensures key in own && own[key] != List([]) ==> Get(CompactObject(metadata + own), key) == own[key]
    ensures key !in own ==> Get(CompactObject(metadata + own), key) == Get(CompactObject(metadata), key)
  {
  }

  lemma StringsNotEmpty(values: seq<Text>)
    requires values != []
    ensures Strings(values) != List([])
  {
    assert |Strings(values).items| == |values|;
  }

  /**
   What may be written may be read back in the same context, exactly when the
   flag of its scope is on; the caller's metadata and visibility have no say.
   */
  lemma ReadableIffIncluded(c: Context, scope: Scope, visibility: Option<Text>, metadata: Object)
    requires Normalize(c).Ok? && Permitted(scope, Normalize(c).value)
    ensures var n := Normalize(c).value;
            CanReadMemoryMetadata(Some(CreateScopeMetadata(n, scope, visibility, metadata).value), c)
            == Ok(FlagOf(scope, n.flags))
  {
    hide Normalize, ScopeName, ParseScope, Strings, TextItems, CreateScopeMetadata;
    var n := Normalize(c).value;
    OwnFieldsWin(n, scope, visibility, metadata);
    ScopeRoundTrip(scope);
    TextsOfStrings(n.participantIds);
  }

  // ------------------------------------------------------------ two contexts

  /** The id is one of the participants of the context, whatever blanks surround it. */
  predicate Participates(c: Context, id: Text) {
    id != [] && c.participantIds.Some? && exists p :: p in c.participantIds.value && Trim(p) == id
  }

  ghost predicate HasParticipants(c: Context) {
    exists id :: Participates(c, id)
  }

  /** The scope is listed, or, without a list, there is what it goes by. */
  ghost predicate Allows(c: Context, scope: Scope) {
    if Explicit(c) then ScopeName(scope) in c.allowedScopes.value
    else
      match scope
      case Project | Workspace => true
      case Tenant => Given(c.ids.tenantId)
      case User => Given(c.ids.userId)
      case Conversation => Given(c.ids.conversationId)
      case ParticipantShared => HasParticipants(c)
  }

  /** The flag of the scope, which is on by default where there is what it goes by. */
  ghost predicate Includes(c: Context, scope: Scope) {
    match scope
    case Project | Workspace | Tenant => c.flags.project != Some(false)
    case User => if c.flags.user.Some? then c.flags.user.value else Given(c.ids.userId)
    case Conversation => if c.flags.conversation.Some? then c.flags.conversation.value else Given(c.ids.conversationId)
    case ParticipantShared => if c.flags.shared.Some? then c.flags.shared.value else HasParticipants(c)
  }

  lemma {:induction false} TrimAllMembers(values: seq<Text>, id: Text)
    ensures id in TrimAll(values) <==> id != [] && exists p :: p in values && Trim(p) == id
  {
    hide Trim;
    if values != [] {
      var front, last := values[..|values| - 1], values[|values| - 1];
      TrimAllMembers(front, id);
      assert values == front + [last];
      assert last in values;
    }
  }

  lemma ParticipantsIff(c: Context, id: Text)
    requires Normalize(c).Ok?
    ensures id in Normalize(c).value.participantIds <==> Participates(c, id)
  {
    hide Trim, TrimAll, Unique, ParseScopes;
    var values := if c.participantIds.Some? then c.participantIds.value else [];
    UniqueMeaning(TrimAll(values));
    TrimAllMembers(values, id);
  }

  lemma ParticipantsExist(c: Context)
    requires Normalize(c).Ok?
    ensures Normalize(c).value.participantIds != [] <==> HasParticipants(c)
  {
    hide Normalize, Participates;
    var ids := Normalize(c).value.participantIds;
    if ids != [] { ParticipantsIff(c, ids[0]); }
    if id :| Participates(c, id) { ParticipantsIff(c, id); }
  }

  lemma ParsedName(name: Text, scope: Scope)
    ensures ParseScope(name) == Some(scope) <==> name == ScopeName(scope)
  {
    ScopeRoundTrip(scope);
  }

  lemma {:induction false} ParsedMembers(names: seq<Text>, scope: Scope)
    requires ParseScopes(names).Ok?
    ensures scope in ParseScopes(names).value <==> ScopeName(scope) in names
  {
    hide ParseScope, ScopeName;
    if names != [] {
      var front, last := names[..|names| - 1], names[|names| - 1];
      ParsedMembers(front, scope);
      ParsedName(last, scope);
      assert names == front + [last];
    }
  }

  lemma AllowsIff(c: Context, scope: Scope)
    requires Normalize(c).Ok?
    ensures scope in Normalize(c).value.allowedScopes <==> Allows(c, scope)
  {
    hide Unique, UniqueStrings, ParseScopes, ScopeName, HasParticipants;
    ParticipantsExist(c);
    if Explicit(c) {
      ParsedMembers(c.allowedScopes.value, scope);
      UniqueMeaning(ParseScopes(c.allowedScopes.value).value);
    } else {
      UniqueMeaning(DerivedScopes(c.ids, Normalize(c).value.participantIds));
    }
  }

  lemma IncludesIff(c: Context, scope: Scope)
    requires Normalize(c).Ok?
    ensures FlagOf(scope, Normalize(c).value.flags) <==> Includes(c, scope)
  {
    hide Unique, UniqueStrings, ParseScopes, HasParticipants;
    ParticipantsExist(c);
  }

  /** A scope may be written to exactly when it is allowed and there is the id, or somebody, it goes by. */
  lemma PermittedIff(c: Context, scope: Scope)
    requires Normalize(c).Ok?
    ensures Permitted(scope, Normalize(c).value) <==>
              && Allows(c, scope)
              && (scope == User ==> c.ids.userId.Some? && |c.ids.userId.value| > 0)
              && (scope == Conversation ==> c.ids.conversationId.Some? && |c.ids.conversationId.value| > 0)
              && (scope == ParticipantShared ==> HasParticipants(c))
    ensures !Permitted(scope, Normalize(c).value) ==>
              AssertScopeAllowed(scope, Normalize(c).value).error ==
              if !Allows(c, scope) then ScopeNotAllowed
              else if scope == User then UserIdRequired
              else if scope == Conversation then ConversationIdRequired
              else ParticipantIdsRequired
  {
    hide Unique, UniqueStrings, ParseScopes, Allows, HasParticipants;
    AllowsIff(c, scope);
    ParticipantsExist(c);
  }

  /** What the scope goes by is the same in both contexts; of participants all are there. */
  ghost predicate SameOwner(writer: Context, reader: Context, scope: Scope) {
    match scope
    case Project | Workspace | Tenant => true
    case User => writer.ids.userId == reader.ids.userId
    case Conversation => writer.ids.conversationId == reader.ids.conversationId
    case ParticipantShared =>
      && writer.ids.conversationId == reader.ids.conversationId
      && forall id :: Participates(writer, id) ==> Participates(reader, id)
  }

  /**
   Memory written in one context is readable in another exactly when its scope is
   allowed and included there and belongs to the same user, to the same
   conversation, or to the same conversation with every participant listed.
   */
  lemma ReadableByOwners(writer: Context, reader: Context, scope: Scope, visibility: Option<Text>, metadata: Object)
    requires Normalize(writer).Ok? && Normalize(reader).Ok? && Permitted(scope, Normalize(writer).value)
    ensures var m := CreateScopeMetadata(Normalize(writer).value, scope, visibility, metadata).value;
            CanReadMemoryMetadata(Some(m), reader) == Ok(Allows(reader, scope) && Includes(reader, scope) && SameOwner(writer, reader, scope))
  {
    hide Normalize, ScopeName, ParseScope, Strings, TextItems, CreateScopeMetadata, Allows, Includes, Participates, Permitted;
    var n := Normalize(writer).value;
    OwnFieldsWin(n, scope, visibility, metadata);
    ScopeRoundTrip(scope);
    TextsOfStrings(n.participantIds);
    AllowsIff(reader, scope);
    IncludesIff(reader, scope);
    SameIds(writer);
    SameIds(reader);
    forall id
      ensures id in n.participantIds <==> Participates(writer, id)
      ensures id in Normalize(reader).value.participantIds <==> Participates(reader, id)
    {
      ParticipantsIff(writer, id);
      ParticipantsIff(reader, id);
    }
  }

  lemma SameIds(c: Context)
    requires Normalize(c).Ok?
    ensures Normalize(c).value.ids == c.ids
  {
    hide Unique, UniqueStrings, ParseScopes;
  }

  /** Memory without a scope that is known is readable exactly where project memory is included. */
  lemma UnscopedReadable(c: Context, m: Object)
    requires Normalize(c).Ok? && forall scope :: Get(m, ScopeKey) != Str(ScopeName(scope))
    ensures CanReadMemoryMetadata(Some(m), c) == Ok(c.flags.project != Some(false))
  {
    hide Normalize, ScopeName, ParseScope;
    IncludesIff(c, Project);
    var v := Get(m, ScopeKey);
    if v.Str? && ParseScope(v.s).Some? { ParsedName(v.s, ParseScope(v.s).value); }
  }

  /** With the default flags everything that may be written may be read back. */
  lemma WrittenIsReadable(c: Context, scope: Scope, visibility: Option<Text>, metadata: Object)
    requires Normalize(c).Ok? && Permitted(scope, Normalize(c).value)
    requires c.flags == Flags(None, None, None, None)
    ensures var n := Normalize(c).value;
            CanReadMemoryMetadata(Some(CreateScopeMetadata(n, scope, visibility, metadata).value), c) == Ok(true)
  {
    hide CreateScopeMetadata, CanReadMemoryMetadata, Unique, UniqueStrings;
    ReadableIffIncluded(c, scope, visibility, metadata);
  }

  // ------------------------------------------------------------------ recall

  /** Of the scopes of a project, those that are allowed. */
  function ProjectScopes(n: Normalized): seq<Scope> {
    var project := Push([], Project in n.allowedScopes, Project);
    var workspace := Push(project, Workspace in n.allowedScopes, Workspace);
    Push(workspace, Tenant in n.allowedScopes, Tenant)
  }

  function RecallScopes(n: Normalized): seq<Scope> {
    var project := if n.flags.project then ProjectScopes(n) else [];
    var user := Push(project, n.flags.user && Given(n.ids.userId) && User in n.allowedScopes, User);
    var conversation :=
      Push(user, n.flags.conversation && Given(n.ids.conversationId) && Conversation in n.allowedScopes, Conversation);
    Push(conversation, n.flags.shared && n.participantIds != [] && ParticipantShared in n.allowedScopes, ParticipantShared)
  }

  function RecallFields(n: Normalized, scopes: seq<Scope>): Object {
    map[
      ProjectIdKey := Id(n.ids.projectId),
      WorkspaceIdKey := Id(n.ids.workspaceId),
      TenantIdKey := Id(n.ids.tenantId),
      ScopesKey := Strings(ScopeNames(Unique(scopes))),
      UserIdKey := if n.flags.user then Id(n.ids.userId) else Undefined,
      ConversationIdKey := if n.flags.conversation then Id(n.ids.conversationId) else Undefined,
      ParticipantIdsKey := if n.flags.shared then Strings(n.participantIds) else Undefined
    ]
  }

  function RecallFilters(c: Context, extra: Object): Result<Object, Error> {
    var n :- Normalize(c);
    Ok(CompactObject(extra + RecallFields(n, RecallScopes(n))))
  }

  method CollectScopes(n: Normalized) returns (scopes: seq<Scope>)
    ensures scopes == RecallScopes(n)
  {
    hide ProjectScopes, Given;
    scopes := [];
    if n.flags.project {
      scopes := CollectProjectScopes(n);
    }
    if n.flags.user && Given(n.ids.userId) && User in n.allowedScopes { scopes := scopes + [User]; }
    if n.flags.conversation && Given(n.ids.conversationId) && Conversation in n.allowedScopes { scopes := scopes + [Conversation]; }
    if n.flags.shared && |n.participantIds| > 0 && ParticipantShared in n.allowedScopes { scopes := scopes + [ParticipantShared]; }
  }

  method CollectProjectScopes(n: Normalized) returns (scopes: seq<Scope>)
    ensures scopes == ProjectScopes(n)
  {
    scopes := [];
    if Project in n.allowedScopes { scopes := scopes + [Project]; }
    if Workspace in n.allowedScopes { scopes := scopes + [Workspace]; }
    if Tenant in n.allowedScopes { scopes := scopes + [Tenant]; }
  }

  method CreateRecallFilters(c: Context, extra: Object) returns (r: Result<Object, Error>)
    ensures r == RecallFilters(c, extra)
  {
    hide RecallFields, CompactObject, Normalize, RecallScopes;
    var normalized := NormalizeAccessContext(c);
    if normalized.Err? {
      return Err(normalized.error);
    }
    var scopes := CollectScopes(normalized.value);
    r := Ok(CompactObject(extra + RecallFields(normalized.value, scopes)));
  }

  /** Recall asks for exactly the scopes that may be written and are included. */
  lemma RecallScopesExact(n: Normalized, scope: Scope)
    ensures scope in RecallScopes(n) <==> Permitted(scope, n) && FlagOf(scope, n.flags)
  {
    ProjectScopesExact(n, scope);
    hide Push, ProjectScopes;
    var project := if n.flags.project then ProjectScopes(n) else [];
    var withUser := n.flags.user && Given(n.ids.userId) && User in n.allowedScopes;
    var withConversation := n.flags.conversation && Given(n.ids.conversationId) && Conversation in n.allowedScopes;
    var user := Push(project, withUser, User);
    PushMember(project, withUser, User, scope);
    PushMember(user, withConversation, Conversation, scope);
    PushMember(Push(user, withConversation, Conversation),
               n.flags.shared && n.participantIds != [] && ParticipantShared in n.allowedScopes, ParticipantShared, scope);
  }

  lemma PushMember(scopes: seq<Scope>, when: bool, added: Scope, scope: Scope)
    ensures scope in Push(scopes, when, added) <==> scope in scopes || (when && scope == added)
  {
  }

  lemma ProjectScopesExact(n: Normalized, scope: Scope)
    ensures scope in ProjectScopes(n) <==> scope in [Project, Workspace, Tenant] && scope in n.allowedScopes
  {
  }

  /** Recall, reading and writing agree: of what may be written, recall asks for what may be read back. */
  lemma RecallAgreesWithRead(c: Context, scope: Scope, visibility: Option<Text>, metadata: Object)
    requires Normalize(c).Ok? && Permitted(scope, Normalize(c).value)
    ensures var n := Normalize(c).value;
            scope in RecallScopes(n)
            <==> CanReadMemoryMetadata(Some(CreateScopeMetadata(n, scope, visibility, metadata).value), c) == Ok(true)
  {
    hide CreateScopeMetadata, CanReadMemoryMetadata, RecallScopes, Normalize, Permitted;
    ReadableIffIncluded(c, scope, visibility, metadata);
    RecallScopesExact(Normalize(c).value, scope);
  }

  /**
   Where no id is given, reading is wider than recall: memory of a user scope
   without a user id can be read exactly when the scope is allowed and its flag
   is set, although such memory can be neither written nor recalled.
   */
  lemma OwnerlessMemoryReadable(c: Context, m: Object)
    requires Normalize(c).Ok? && c.ids.userId == None
    requires Get(m, ScopeKey) == Str(ScopeName(User)) && Get(m, UserIdKey) == Undefined
    ensures var n := Normalize(c).value;
            && (CanReadMemoryMetadata(Some(m), c) == Ok(true) <==> User in n.allowedScopes && c.flags.user == Some(true))
            && !Permitted(User, n) && User !in RecallScopes(n)
  {
    hide ScopeName, ParseScope, Unique, UniqueStrings, ParseScopes;
    ScopeRoundTrip(User);
    RecallScopesExact(Normalize(c).value, User);
  }

  /** Recall goes by the context's own ids, each as far as its flag is on; extra filters cannot name those. */
  lemma RecallIsOwn(c: Context, extra: Object)
    requires Normalize(c).Ok?
    ensures var filters := RecallFilters(c, extra).value;
            && Get(filters, ProjectIdKey) == Id(c.ids.projectId) && Get(filters, WorkspaceIdKey) == Id(c.ids.workspaceId)
            && Get(filters, TenantIdKey) == Id(c.ids.tenantId)
            && Get(filters, UserIdKey) == (if Includes(c, User) then Id(c.ids.userId) else Undefined)
            && Get(filters, ConversationIdKey) == (if Includes(c, Conversation) then Id(c.ids.conversationId) else Undefined)
            && (forall id :: id in TextItems(Get(filters, ParticipantIdsKey)) <==> Includes(c, ParticipantShared) && Participates(c, id))
    ensures forall name :: Get(RecallFilters(c, extra).value, Named(name)) == Get(CompactObject(extra), Named(name))
  {
    hide Normalize, RecallScopes, Unique, ScopeNames, Participates, Includes, TextItems, Strings, CompactObject, Get, RecallFields;
    var n := Normalize(c).value;
    var own := RecallFields(n, RecallScopes(n));
    SameIds(c);
    IncludesIff(c, User);
    IncludesIff(c, Conversation);
    IncludesIff(c, ParticipantShared);
    RecallValues(n, RecallScopes(n));
    FilteredValue(extra, own, ProjectIdKey);
    FilteredValue(extra, own, WorkspaceIdKey);
    FilteredValue(extra, own, TenantIdKey);
    FilteredValue(extra, own, UserIdKey);
    FilteredValue(extra, own, ConversationIdKey);
    FilteredValue(extra, own, ParticipantIdsKey);
    forall name
      ensures Get(CompactObject(extra + own), Named(name)) == Get(CompactObject(extra), Named(name))
    {
      FilteredValue(extra, own, Named(name));
    }
    TextsOfStrings(n.participantIds);
    NoTexts();
    forall id
      ensures id in n.participantIds <==> Participates(c, id)
    {
      ParticipantsIff(c, id);
    }
  }

  lemma NoTexts()
    ensures TextItems(Undefined) == [] && TextItems(List([])) == []
  {
  }

  lemma FilteredValue(extra: Object, own: Object, key: Key)
    ensures key in own ==> Get(CompactObject(extra + own), key) == if own[key] == List([]) then Undefined else own[key]
    ensures key !in own ==> Get(CompactObject(extra + own), key) == Get(CompactObject(extra), key)
  {
  }

  lemma RecallValues(n: Normalized, scopes: seq<Scope>)
    ensures var own := RecallFields(n, scopes);
            && (forall name :: Named(name) !in own)
            && ProjectIdKey in own && own[ProjectIdKey] == Id(n.ids.projectId)
            && WorkspaceIdKey in own && own[WorkspaceIdKey] == Id(n.ids.workspaceId)
            && TenantIdKey in own && own[TenantIdKey] == Id(n.ids.tenantId)
            && UserIdKey in own && own[UserIdKey] == (if n.flags.user then Id(n.ids.userId) else Undefined)
            && ConversationIdKey in own && own[ConversationIdKey] == (if n.flags.conversation then Id(n.ids.conversationId) else Undefined)
            && ParticipantIdsKey in own && own[ParticipantIdsKey] == (if n.flags.shared then Strings(n.participantIds) else Undefined)
  {
    hide Strings, ScopeNames, Unique;
  }

  /** Extra filters cannot name scopes, and no scope at all leaves recall without a filter on scopes. */
  lemma ScopesFilter(c: Context, extra: Object)
    requires Normalize(c).Ok?
    ensures var scopes := Unique(RecallScopes(Normalize(c).value));
            var filters := RecallFilters(c, extra).value;
            Get(filters, ScopesKey) == if scopes == [] then Undefined else Strings(ScopeNames(scopes))
  {
    hide Normalize, RecallScopes, Unique, ScopeName;
    var scopes := Unique(RecallScopes(Normalize(c).value));
    assert |Strings(ScopeNames(scopes)).items| == |scopes|;
  }
}
