/**
 The connectors file: its validation and selection in
 `packages/tekmemo-connectors/src/config.ts`, and the commands that add and
 remove connectors in `packages/tekmemo-cli/src/commands/connectors.ts`.
 */
module ConnectorConfig {
  import opened Optional
  import opened Text
  import opened JsonFormat

  datatype Config = Config(
    id: Text, ctype: Text, enabled: bool, schedule: Option<Text>, sourceMapping: Option<seq<Member>>, secretRef: Text)

  datatype Error =
    | BadFile | BadRow | TokenLeak | MissingString | EmptySecretRef | BadField
    | UsageError | DuplicateId | NoSuchId

  function ConnectorsKey(): Text { Ascii("connectors") }
  function IdKey(): Text { Ascii("id") }
  function TypeKey(): Text { Ascii("type") }
  function EnabledKey(): Text { Ascii("enabled") }
  function ScheduleKey(): Text { Ascii("schedule") }
  function SourceMappingKey(): Text { Ascii("sourceMapping") }
  function SecretRefKey(): Text { Ascii("secretRef") }

  predicate LeakKey(key: Text) {
    key in [Ascii("token"), Ascii("secret"), Ascii("apiKey"), Ascii("apikey"), Ascii("access_token")]
  }

  // -------------------------------------------------------------- validation

  predicate Leaks(row: seq<Member>) {
    exists i :: 0 <= i < |row| && LeakKey(row[i].key)
  }

  function RequireString(row: seq<Member>, key: Text): Result<Text, Error> {
    match Lookup(row, key)
    case Some(String(s)) => Ok(s)
    case _ => Err(MissingString)
  }

  function OptionalBoolean(v: Option<Json>, otherwise: bool): Result<bool, Error> {
    match v
    case None => Ok(otherwise)
    case Some(Bool(b)) => Ok(b)
    case Some(_) => Err(BadField)
  }

  function OptionalString(v: Option<Json>): Result<Option<Text>, Error> {
    match v
    case None => Ok(None)
    case Some(String(s)) => Ok(Some(s))
    case Some(_) => Err(BadField)
  }

  function OptionalObject(v: Option<Json>): Result<Option<seq<Member>>, Error> {
    match v
    case None => Ok(None)
    case Some(Object(members)) => Ok(Some(members))
    case Some(_) => Err(BadField)
  }

  function ValidateRow(entry: Json): Result<Config, Error> {
    if !entry.Object? then Err(BadRow)
    else if Leaks(entry.members) then Err(TokenLeak)
    else
      var row := entry.members;
      var id :- RequireString(row, IdKey());
      var ctype :- RequireString(row, TypeKey());
      var secretRef :- RequireString(row, SecretRefKey());
      if secretRef == [] then Err(EmptySecretRef)
      else
        var enabled :- OptionalBoolean(Lookup(row, EnabledKey()), true);
        var schedule :- OptionalString(Lookup(row, ScheduleKey()));
        var sourceMapping :- OptionalObject(Lookup(row, SourceMappingKey()));
        Ok(Config(id, ctype, enabled, schedule, sourceMapping, secretRef))
  }

  function ValidateRows(rows: seq<Json>): Result<seq<Config>, Error> {
    if rows == [] then Ok([])
    else
      var front :- ValidateRows(rows[..|rows| - 1]);
      var last :- ValidateRow(rows[|rows| - 1]);
      Ok(front + [last])
  }

  function ValidateConnectorsFile(raw: Json): Result<seq<Config>, Error> {
    if !raw.Object? then Err(BadFile)
    else match Lookup(raw.members, ConnectorsKey())
      case Some(Array(rows)) => ValidateRows(rows)
      case _ => Err(BadFile)
  }

  /** A row as it is written. */
  function Row(c: Config): Json {
    Object(
      [Member(IdKey(), String(c.id)), Member(TypeKey(), String(c.ctype)), Member(EnabledKey(), Bool(c.enabled))]
      + (if c.schedule.Some? then [Member(ScheduleKey(), String(c.schedule.value))] else [])
      + (if c.sourceMapping.Some? then [Member(SourceMappingKey(), Object(c.sourceMapping.value))] else [])
      + [Member(SecretRefKey(), String(c.secretRef))])
  }

  function Rows(connectors: seq<Config>): seq<Json> {
    seq(|connectors|, i requires 0 <= i < |connectors| => Row(connectors[i]))
  }

  function File(connectors: seq<Config>): Json {
    Object([Member(ConnectorsKey(), Array(Rows(connectors)))])
  }

  lemma KeyLengths()
    ensures |IdKey()| == 2 && |TypeKey()| == 4 && |EnabledKey()| == 7 && |ScheduleKey()| == 8
    ensures |SecretRefKey()| == 9 && |SourceMappingKey()| == 13
    ensures forall key | LeakKey(key) :: |key| in {5, 6, 12}
  {
  }

  lemma RowShape(c: Config)
    ensures var row := Row(c).members;
            var s := if c.schedule.Some? then 1 else 0;
            var m := if c.sourceMapping.Some? then 1 else 0;
            && Row(c).Object? && |row| == 4 + s + m
            && row[0] == Member(IdKey(), String(c.id)) && row[1] == Member(TypeKey(), String(c.ctype))
            && row[2] == Member(EnabledKey(), Bool(c.enabled)) && row[3 + s + m] == Member(SecretRefKey(), String(c.secretRef))
            && (s == 1 ==> row[3] == Member(ScheduleKey(), String(c.schedule.value)))
            && (m == 1 ==> row[3 + s] == Member(SourceMappingKey(), Object(c.sourceMapping.value)))
  {
    hide IdKey, TypeKey, EnabledKey, ScheduleKey, SourceMappingKey, SecretRefKey;
  }

  /** The row of a connector, field by field. */
  lemma RowFields(c: Config)
    ensures var row := Row(c).members;
            && Lookup(row, IdKey()) == Some(String(c.id))
            && Lookup(row, TypeKey()) == Some(String(c.ctype))
            && Lookup(row, EnabledKey()) == Some(Bool(c.enabled))
            && Lookup(row, ScheduleKey()) == (if c.schedule.Some? then Some(String(c.schedule.value)) else None)
            && Lookup(row, SourceMappingKey()) == (if c.sourceMapping.Some? then Some(Object(c.sourceMapping.value)) else None)
            && Lookup(row, SecretRefKey()) == Some(String(c.secretRef))
            && !Leaks(row)
  {
    KeyLengths();
    RowShape(c);
    hide Row, Lookup, IdKey, TypeKey, EnabledKey, ScheduleKey, SourceMappingKey, SecretRefKey, LeakKey;
    var row := Row(c).members;
    LookupAt(row, 0, IdKey());
    LookupAt(row, 1, TypeKey());
    LookupAt(row, 2, EnabledKey());
    var next := if c.schedule.Some? then 4 else 3;
    if c.schedule.Some? { LookupAt(row, 3, ScheduleKey()); } else { LookupNone(row, ScheduleKey()); }
    if c.sourceMapping.Some? { LookupAt(row, next, SourceMappingKey()); } else { LookupNone(row, SourceMappingKey()); }
    LookupAt(row, |row| - 1, SecretRefKey());
  }

  predicate AllHaveSecrets(connectors: seq<Config>) {
    forall i :: 0 <= i < |connectors| ==> connectors[i].secretRef != []
  }

  lemma RowValidates(c: Config)
    requires c.secretRef != []
    ensures ValidateRow(Row(c)) == Ok(c)
  {
    RowFields(c);
    hide Lookup, Leaks;
  }

  lemma {:induction false} RowsValidate(connectors: seq<Config>)
    requires AllHaveSecrets(connectors)
    ensures ValidateRows(Rows(connectors)) == Ok(connectors)
  {
    hide Row, ValidateRow;
    if connectors != [] {
      var n := |connectors| - 1;
      RowsValidate(connectors[..n]);
      RowValidates(connectors[n]);
      assert Rows(connectors)[..n] == Rows(connectors[..n]);
      assert connectors == connectors[..n] + [connectors[n]];
    }
  }

  lemma {:induction false} ValidatedRows(rows: seq<Json>)
    requires ValidateRows(rows).Ok?
    ensures var connectors := ValidateRows(rows).value;
            && |connectors| == |rows| && AllHaveSecrets(connectors)
            && forall i :: 0 <= i < |rows| ==> ValidateRow(rows[i]) == Ok(connectors[i])
  {
    hide Lookup, Leaks;
    if rows != [] { ValidatedRows(rows[..|rows| - 1]); }
  }

  lemma FileValidates(connectors: seq<Config>)
    requires AllHaveSecrets(connectors)
    ensures ValidateConnectorsFile(File(connectors)) == Ok(connectors)
  {
    hide Rows;
    RowsValidate(connectors);
    LookupAt([Member(ConnectorsKey(), Array(Rows(connectors)))], 0, ConnectorsKey());
  }

  lemma {:induction false} RowsAccepted(rows: seq<Json>)
    ensures ValidateRows(rows).Ok? <==> forall i :: 0 <= i < |rows| ==> ValidateRow(rows[i]).Ok?
  {
    hide ValidateRow;
    if rows != [] { RowsAccepted(rows[..|rows| - 1]); }
  }

  /** A file is an object whose connectors are a list of rows, each of them acceptable; they are read one by one. */
  lemma FileAcceptedIff(raw: Json)
    ensures ValidateConnectorsFile(raw).Ok? <==>
              && raw.Object? && Lookup(raw.members, Ascii("connectors")).Some? && Lookup(raw.members, Ascii("connectors")).value.Array?
              && forall row :: row in Lookup(raw.members, Ascii("connectors")).value.items ==> ValidateRow(row).Ok?
    ensures ValidateConnectorsFile(raw).Ok? ==>
              var rows, connectors := Lookup(raw.members, Ascii("connectors")).value.items, ValidateConnectorsFile(raw).value;
              |connectors| == |rows| && forall i :: 0 <= i < |rows| ==> ValidateRow(rows[i]) == Ok(connectors[i])
  {
    hide Lookup, ValidateRow, Ascii;
    if raw.Object? {
      match Lookup(raw.members, ConnectorsKey())
      case Some(Array(rows)) =>
        RowsAccepted(rows);
        if ValidateRows(rows).Ok? { ValidatedRows(rows); }
      case _ =>
    }
  }

  /** What was validated, written and read again is what was validated. */
  lemma ValidateIdempotent(raw: Json)
    requires ValidateConnectorsFile(raw).Ok?
    ensures ValidateConnectorsFile(File(ValidateConnectorsFile(raw).value)) == ValidateConnectorsFile(raw)
  {
    hide File, Lookup, ConnectorsKey;
    ValidatedRows(Lookup(raw.members, ConnectorsKey()).value.items);
    FileValidates(ValidateConnectorsFile(raw).value);
  }

  /** A row is accepted exactly when nothing in it looks like a token and its fields have their types; ids may be empty. */
  lemma RowAcceptedIff(row: seq<Member>)
    ensures ValidateRow(Object(row)).Ok? <==>
              && (forall m :: m in row ==> !LeakKey(m.key))
              && (exists id, ctype, secretRef :: secretRef != []
                    && Lookup(row, IdKey()) == Some(String(id)) && Lookup(row, TypeKey()) == Some(String(ctype))
                    && Lookup(row, SecretRefKey()) == Some(String(secretRef)))
              && (Lookup(row, EnabledKey()).Some? ==> Lookup(row, EnabledKey()).value.Bool?)
              && (Lookup(row, ScheduleKey()).Some? ==> Lookup(row, ScheduleKey()).value.String?)
              && (Lookup(row, SourceMappingKey()).Some? ==> Lookup(row, SourceMappingKey()).value.Object?)
  {
    hide Lookup, LeakKey, IdKey, TypeKey, SecretRefKey, EnabledKey, ScheduleKey, SourceMappingKey;
    if forall m :: m in row ==> !LeakKey(m.key) {
      assert !Leaks(row);
    } else {
      var m :| m in row && LeakKey(m.key);
      var i :| 0 <= i < |row| && row[i] == m;
      assert Leaks(row);
    }
  }

  /** These, and no others, are taken for a token in the wrong place. */
  lemma LeaksSpelled(key: Text)
    ensures LeakKey(key) <==>
              Spells(key, "token") || Spells(key, "secret") || Spells(key, "apiKey") || Spells(key, "apikey") || Spells(key, "access_token")
  {
    assert Spells(key, "token") ==> key == Ascii("token");
    assert Spells(key, "secret") ==> key == Ascii("secret");
    assert Spells(key, "apiKey") ==> key == Ascii("apiKey");
    assert Spells(key, "apikey") ==> key == Ascii("apikey");
    assert Spells(key, "access_token") ==> key == Ascii("access_token");
  }

  /** What an accepted row says; a connector is enabled unless its row says otherwise. */
  lemma RowRead(row: seq<Member>)
    requires ValidateRow(Object(row)).Ok?
    ensures var c := ValidateRow(Object(row)).value;
            && Lookup(row, Ascii("id")) == Some(String(c.id))
            && Lookup(row, Ascii("type")) == Some(String(c.ctype))
            && Lookup(row, Ascii("secretRef")) == Some(String(c.secretRef))
            && (c.enabled <==> Lookup(row, Ascii("enabled")) != Some(Bool(false)))
            && Lookup(row, Ascii("schedule")) == (if c.schedule.Some? then Some(String(c.schedule.value)) else None)
            && Lookup(row, Ascii("sourceMapping")) == (if c.sourceMapping.Some? then Some(Object(c.sourceMapping.value)) else None)
  {
    hide Lookup, Leaks, Ascii;
  }

  // ------------------------------------------------------------------ default

  function Numbered(ctype: Text, n: nat): Text {
    ctype + [45] + Digits(n)
  }

  lemma NumberedInjective(ctype: Text, a: nat, b: nat)
    requires Numbered(ctype, a) == Numbered(ctype, b)
    ensures a == b
  {
    assert Numbered(ctype, a)[|ctype| + 1..] == Digits(a);
    assert Numbered(ctype, b)[|ctype| + 1..] == Digits(b);
    DigitsInjective(a, b);
  }

  function Ids(connectors: seq<Config>): set<Text> {
    set i | 0 <= i < |connectors| :: connectors[i].id
  }

  /** The type itself if it is free, or else with the least free number from 2 on. */
  ghost predicate IsDefaultId(ctype: Text, existing: set<Text>, id: Text) {
    && id !in existing
    && if ctype !in existing then id == ctype
       else exists n: nat {:trigger Numbered(ctype, n)} :: n >= 2 && id == Numbered(ctype, n)
              && forall m: nat {:trigger Numbered(ctype, m)} :: 2 <= m < n ==> Numbered(ctype, m) in existing
  }

  lemma DefaultIdUnique(ctype: Text, existing: set<Text>, a: Text, b: Text)
    requires IsDefaultId(ctype, existing, a) && IsDefaultId(ctype, existing, b)
    ensures a == b
  {
    hide Numbered;
    if ctype in existing {
      var m: nat :| m >= 2 && a == Numbered(ctype, m)
        && forall k: nat {:trigger Numbered(ctype, k)} :: 2 <= k < m ==> Numbered(ctype, k) in existing;
      var n: nat :| n >= 2 && b == Numbered(ctype, n)
        && forall k: nat {:trigger Numbered(ctype, k)} :: 2 <= k < n ==> Numbered(ctype, k) in existing;
      assert m == n;
    }
  }

  /** The search ends because only so many names can be taken. */
  method DeriveDefaultId(ctype: Text, connectors: seq<Config>) returns (id: Text)
    ensures IsDefaultId(ctype, Ids(connectors), id)
    ensures ctype != [] ==> id != []
  {
    hide Numbered;
    var existing := Ids(connectors);
    if ctype !in existing {
      return ctype;
    }
    var n := 2;
    ghost var taken: set<Text> := {};
    while Numbered(ctype, n) in existing
      invariant n >= 2 && taken <= existing && |taken| == n - 2
      invariant forall m: nat {:trigger Numbered(ctype, m)} :: 2 <= m < n ==> Numbered(ctype, m) in existing
      invariant forall t :: t in taken ==> exists m: nat {:trigger Numbered(ctype, m)} :: m < n && t == Numbered(ctype, m)
      decreases |existing| - |taken|
    {
      NotTaken(ctype, n, taken);
      taken := taken + {Numbered(ctype, n)};
      SubsetSize(taken, existing);
      n := n + 1;
    }
    NumberedNotEmpty(ctype, n);
    return Numbered(ctype, n);
  }

  lemma NumberedNotEmpty(ctype: Text, n: nat)
    ensures Numbered(ctype, n) != []
  {
  }

  lemma NotTaken(ctype: Text, n: nat, taken: set<Text>)
    requires forall t :: t in taken ==> exists m: nat {:trigger Numbered(ctype, m)} :: m < n && t == Numbered(ctype, m)
    ensures Numbered(ctype, n) !in taken
  {
    if Numbered(ctype, n) in taken {
      var m: nat :| m < n && Numbered(ctype, n) == Numbered(ctype, m);
      NumberedInjective(ctype, n, m);
      assert false;
    }
  }

  lemma {:induction false} SubsetSize<T>(a: set<T>, b: set<T>)
    requires a <= b
    ensures |a| <= |b|
  {
    if a != {} {
      var x :| x in a;
      SubsetSize(a - {x}, b - {x});
    }
  }

  // ----------------------------------------------------------------- commands

  datatype AddOptions = AddOptions(
    id: Option<Text>, ctype: Text, secretRef: Text, enabled: Option<bool>, schedule: Option<Text>, sourceMapping: Option<Text>)

  /** The row of a new connector, before validation. */
  function NewRow(id: Text, o: AddOptions, mapping: Option<Json>): Json {
    Object(
      [Member(IdKey(), String(id)), Member(TypeKey(), String(o.ctype)),
       Member(EnabledKey(), Bool(if o.enabled.Some? then o.enabled.value else true)), Member(SecretRefKey(), String(o.secretRef))]
      + (if o.schedule.Some? then [Member(ScheduleKey(), String(o.schedule.value))] else [])
      + (if mapping.Some? then [Member(SourceMappingKey(), mapping.value)] else []))
  }

  function MappingOption(o: AddOptions): Result<Option<Json>, Error> {
    if o.sourceMapping.None? || o.sourceMapping.value == [] then Ok(None)
    else match Parse(o.sourceMapping.value)
      case None => Err(UsageError)
      case Some(v) => Ok(Some(v))
  }

  /** Adding under an id: the new list is what validating the old rows and the new one gives. */
  function Added(connectors: seq<Config>, id: Text, o: AddOptions): Result<seq<Config>, Error> {
    if id in Ids(connectors) then Err(DuplicateId)
    else
      var mapping :- MappingOption(o);
      ValidateRows(Rows(connectors) + [NewRow(id, o, mapping)])
  }

  function Without(connectors: seq<Config>, id: Text): seq<Config> {
    if connectors == [] then []
    else
      var front := Without(connectors[..|connectors| - 1], id);
      if connectors[|connectors| - 1].id == id then front else front + [connectors[|connectors| - 1]]
  }

  function Removed(connectors: seq<Config>, id: Text): Result<seq<Config>, Error> {
    if id == [] then Err(UsageError)
    else if |Without(connectors, id)| == |connectors| then Err(NoSuchId)
    else Ok(Without(connectors, id))
  }

  /** The file, kept as what it validates to; a command that fails leaves it as it is. */
  class ConnectorsFile {
    var connectors: seq<Config>

    constructor ()
      ensures connectors == []
    {
      connectors := [];
    }

    method Add(o: AddOptions) returns (r: Result<Text, Error>)
      modifies this
      ensures o.ctype == [] || o.secretRef == [] ==> r == Err(UsageError)
      ensures r.Err? ==> connectors == old(connectors)
      ensures r.Ok? ==> Added(old(connectors), r.value, o) == Ok(connectors)
      ensures r.Ok? ==> if o.id.Some? then r.value == o.id.value else IsDefaultId(o.ctype, Ids(old(connectors)), r.value)
      ensures r == Err(DuplicateId) <==> o.ctype != [] && o.secretRef != [] && o.id.Some? && o.id.value in Ids(old(connectors))
      ensures r == Err(UsageError) <==> r != Err(DuplicateId) && (o.ctype == [] || o.secretRef == [] || MappingOption(o).Err?)
    {
      hide ValidateRows, Rows, NewRow, IsDefaultId;
      if o.ctype == [] || o.secretRef == [] {
        return Err(UsageError);
      }
      var id;
      if o.id.Some? {
        id := o.id.value;
      } else {
        id := DeriveDefaultId(o.ctype, connectors);
        DefaultIdIsFree(o.ctype, Ids(connectors), id);
      }
      if id in Ids(connectors) {
        return Err(DuplicateId);
      }
      var mapping := MappingOption(o);
      if mapping.Err? {
        return Err(UsageError);
      }
      var validated := ValidateRows(Rows(connectors) + [NewRow(id, o, mapping.value)]);
      if validated.Err? {
        return Err(BadFile);
      }
      connectors := validated.value;
      return Ok(id);
    }

    method Remove(id: Text) returns (r: Result<nat, Error>)
      modifies this
      ensures match Removed(old(connectors), id)
              case Ok(remaining) => connectors == remaining && r == Ok(|remaining|)
              case Err(e) => connectors == old(connectors) && r == Err(e)
    {
      if id == [] {
        return Err(UsageError);
      }
      var remaining := Without(connectors, id);
      if |remaining| == |connectors| {
        return Err(NoSuchId);
      }
      connectors := remaining;
      return Ok(|remaining|);
    }
  }

  lemma DefaultIdIsFree(ctype: Text, existing: set<Text>, id: Text)
    requires IsDefaultId(ctype, existing, id)
    ensures id !in existing
  {
  }

  // -------------------------------------------------------------- guarantees

  predicate DistinctIds(connectors: seq<Config>) {
    forall i, j :: 0 <= i < j < |connectors| ==> connectors[i].id != connectors[j].id
  }

  /** What the commands keep of the file. */
  predicate Sound(connectors: seq<Config>) {
    DistinctIds(connectors) && AllHaveSecrets(connectors)
  }

  /** An addition keeps every connector and puts the new one last. */
  lemma AddedAppends(connectors: seq<Config>, id: Text, o: AddOptions)
    requires AllHaveSecrets(connectors) && Added(connectors, id, o).Ok?
    ensures var next := Added(connectors, id, o).value;
            && |next| == |connectors| + 1 && next[..|connectors|] == connectors && AllHaveSecrets(next)
            && MappingOption(o).Ok? && OptionalObject(MappingOption(o).value).Ok?
            && next[|connectors|] == Config(id, o.ctype, if o.enabled.Some? then o.enabled.value else true, o.schedule,
                                            OptionalObject(MappingOption(o).value).value, o.secretRef)
  {
    hide Row, ValidateRow, NewRow;
    var mapping := MappingOption(o).value;
    var rows := Rows(connectors) + [NewRow(id, o, mapping)];
    RowsValidate(connectors);
    assert rows[..|connectors|] == Rows(connectors);
    ValidatedRows(rows);
    NewRowId(id, o, mapping);
  }

  lemma NewRowShape(id: Text, o: AddOptions, mapping: Option<Json>)
    ensures var row := NewRow(id, o, mapping).members;
            var s := if o.schedule.Some? then 1 else 0;
            var m := if mapping.Some? then 1 else 0;
            && NewRow(id, o, mapping).Object? && |row| == 4 + s + m
            && row[0] == Member(IdKey(), String(id)) && row[1] == Member(TypeKey(), String(o.ctype))
            && row[2] == Member(EnabledKey(), Bool(if o.enabled.Some? then o.enabled.value else true))
            && row[3] == Member(SecretRefKey(), String(o.secretRef))
            && (s == 1 ==> row[4] == Member(ScheduleKey(), String(o.schedule.value)))
            && (m == 1 ==> row[4 + s] == Member(SourceMappingKey(), mapping.value))
  {
    hide IdKey, TypeKey, EnabledKey, ScheduleKey, SourceMappingKey, SecretRefKey;
  }

  lemma NewRowFields(id: Text, o: AddOptions, mapping: Option<Json>)
    ensures var row := NewRow(id, o, mapping).members;
            && Lookup(row, IdKey()) == Some(String(id))
            && Lookup(row, TypeKey()) == Some(String(o.ctype))
            && Lookup(row, EnabledKey()) == Some(Bool(if o.enabled.Some? then o.enabled.value else true))
            && Lookup(row, ScheduleKey()) == (if o.schedule.Some? then Some(String(o.schedule.value)) else None)
            && Lookup(row, SourceMappingKey()) == mapping
            && Lookup(row, SecretRefKey()) == Some(String(o.secretRef))
  {
    KeyLengths();
    NewRowShape(id, o, mapping);
    hide NewRow, Lookup, IdKey, TypeKey, EnabledKey, ScheduleKey, SourceMappingKey, SecretRefKey, LeakKey;
    var row := NewRow(id, o, mapping).members;
    LookupAt(row, 0, IdKey());
    LookupAt(row, 1, TypeKey());
    LookupAt(row, 2, EnabledKey());
    LookupAt(row, 3, SecretRefKey());
    var next := if o.schedule.Some? then 5 else 4;
    if o.schedule.Some? { LookupAt(row, 4, ScheduleKey()); } else { LookupNone(row, ScheduleKey()); }
    if mapping.Some? { LookupAt(row, next, SourceMappingKey()); } else { LookupNone(row, SourceMappingKey()); }
  }

  lemma NewRowId(id: Text, o: AddOptions, mapping: Option<Json>)
    ensures ValidateRow(NewRow(id, o, mapping)).Ok? ==>
              && OptionalObject(mapping).Ok?
              && ValidateRow(NewRow(id, o, mapping)).value
                 == Config(id, o.ctype, if o.enabled.Some? then o.enabled.value else true, o.schedule,
                           OptionalObject(mapping).value, o.secretRef)
  {
    NewRowFields(id, o, mapping);
    NewRowShape(id, o, mapping);
    hide NewRow, Lookup, Leaks;
  }

  /** The mapping asked for is absent, blank, or the text of a JSON object. */
  predicate MappingUsable(o: AddOptions) {
    o.sourceMapping.None? || o.sourceMapping.value == [] || (Parse(o.sourceMapping.value).Some? && Parse(o.sourceMapping.value).value.Object?)
  }

  /** An addition succeeds exactly when the id is free and the mapping usable; a text that is no JSON is a usage error. */
  lemma AddedIff(connectors: seq<Config>, id: Text, o: AddOptions)
    requires AllHaveSecrets(connectors) && o.secretRef != []
    ensures Added(connectors, id, o).Ok? <==> id !in Ids(connectors) && MappingUsable(o)
    ensures id in Ids(connectors) ==> Added(connectors, id, o) == Err(DuplicateId)
    ensures id !in Ids(connectors) && !MappingUsable(o) ==>
              Added(connectors, id, o) == Err(if Parse(o.sourceMapping.value).None? then UsageError else BadField)
  {
    if MappingOption(o).Ok? {
      hide Parse, Lookup, LeakKey, Leaks;
      var mapping := MappingOption(o).value;
      var row, rows := NewRow(id, o, mapping), Rows(connectors);
      NewRowShape(id, o, mapping);
      NewRowFields(id, o, mapping);
      NewRowClean(id, o, mapping);
      assert ValidateRow(row).Ok? <==> mapping.None? || mapping.value.Object?;
      assert ValidateRow(row).Err? ==> ValidateRow(row).error == BadField;
      hide ValidateRow;
      RowsValidate(connectors);
      assert (rows + [row])[..|rows|] == rows;
    }
  }

  lemma NewRowClean(id: Text, o: AddOptions, mapping: Option<Json>)
    ensures !Leaks(NewRow(id, o, mapping).members)
  {
    KeyLengths();
    NewRowShape(id, o, mapping);
    hide NewRow, LeakKey, IdKey, TypeKey, EnabledKey, ScheduleKey, SourceMappingKey, SecretRefKey;
  }

  lemma AddKeepsSound(connectors: seq<Config>, id: Text, o: AddOptions)
    requires Sound(connectors) && Added(connectors, id, o).Ok?
    ensures Sound(Added(connectors, id, o).value)
  {
    hide ValidateRows, NewRow, Rows;
    AddedAppends(connectors, id, o);
    var next := Added(connectors, id, o).value;
    forall i | 0 <= i < |connectors|
      ensures next[i].id != id
    {
      assert next[i] == next[..|connectors|][i] == connectors[i];
    }
    forall i, j | 0 <= i < j < |connectors|
      ensures next[i].id != next[j].id
    {
      assert next[i] == next[..|connectors|][i] && next[j] == next[..|connectors|][j];
    }
  }

  lemma {:induction false} WithoutMeaning(connectors: seq<Config>, id: Text)
    ensures |Without(connectors, id)| <= |connectors|
    ensures forall c :: c in Without(connectors, id) <==> c in connectors && c.id != id
    ensures id !in Ids(connectors) ==> Without(connectors, id) == connectors
    ensures DistinctIds(connectors) ==> DistinctIds(Without(connectors, id))
  {
    if connectors != [] {
      var front, last := connectors[..|connectors| - 1], connectors[|connectors| - 1];
      WithoutMeaning(front, id);
      assert connectors == front + [last];
      assert id !in Ids(connectors) ==> id !in Ids(front) && last.id != id by { IdsSnoc(front, last); }
      if DistinctIds(connectors) {
        DistinctFront(front, last, Without(front, id));
      }
    }
  }

  lemma IdsSnoc(front: seq<Config>, last: Config)
    ensures Ids(front + [last]) == Ids(front) + {last.id}
  {
    assert (front + [last])[|front|] == last;
    assert forall i :: 0 <= i < |front| ==> (front + [last])[i] == front[i];
  }

  lemma DistinctFront(front: seq<Config>, last: Config, kept: seq<Config>)
    requires DistinctIds(front + [last]) && (forall c :: c in kept ==> c in front) && (DistinctIds(front) ==> DistinctIds(kept))
    ensures DistinctIds(front) && DistinctIds(kept) && DistinctIds(kept + [last])
  {
    assert forall i, j :: 0 <= i < j < |front| ==> (front + [last])[i] == front[i] && (front + [last])[j] == front[j];
    forall i | 0 <= i < |kept|
      ensures kept[i].id != last.id
    {
      assert kept[i] in kept;
      var k :| 0 <= k < |front| && front[k] == kept[i];
      assert (front + [last])[k].id != (front + [last])[|front|].id;
    }
  }

  lemma RemoveKeepsSound(connectors: seq<Config>, id: Text)
    requires Sound(connectors) && Removed(connectors, id).Ok?
    ensures Sound(Removed(connectors, id).value)
  {
    hide Ids, DistinctIds;
    WithoutMeaning(connectors, id);
    var remaining := Without(connectors, id);
    forall i | 0 <= i < |remaining|
      ensures remaining[i].secretRef != []
    {
      assert remaining[i] in remaining;
      assert remaining[i] in connectors;
    }
  }

  datatype Command = AddCommand(id: Text, options: AddOptions) | RemoveCommand(id: Text)

  function Apply(connectors: seq<Config>, command: Command): seq<Config> {
    var r := match command
      case AddCommand(id, o) => Added(connectors, id, o)
      case RemoveCommand(id) => Removed(connectors, id);
    if r.Ok? then r.value else connectors
  }

  function ApplyAll(connectors: seq<Config>, commands: seq<Command>): seq<Config> {
    if commands == [] then connectors
    else Apply(ApplyAll(connectors, commands[..|commands| - 1]), commands[|commands| - 1])
  }

  /** Over any sequence of additions and removals, ids stay distinct and the file stays valid. */
  lemma {:induction false} CommandsKeepSound(connectors: seq<Config>, commands: seq<Command>)
    requires Sound(connectors)
    ensures Sound(ApplyAll(connectors, commands))
    ensures ValidateConnectorsFile(File(ApplyAll(connectors, commands))) == Ok(ApplyAll(connectors, commands))
  {
    hide DistinctIds, AllHaveSecrets, Added, Removed, File, ValidateConnectorsFile;
    if commands != [] {
      var n := |commands| - 1;
      CommandsKeepSound(connectors, commands[..n]);
      var before := ApplyAll(connectors, commands[..n]);
      match commands[n]
      case AddCommand(id, o) => if Added(before, id, o).Ok? { AddKeepsSound(before, id, o); }
      case RemoveCommand(id) => if Removed(before, id).Ok? { RemoveKeepsSound(before, id); }
    }
    FileValidates(ApplyAll(connectors, commands));
  }

  /** Removing what was just added restores the list, exactly when the id is not empty. */
  lemma RemoveUndoesAdd(connectors: seq<Config>, id: Text, o: AddOptions)
    requires AllHaveSecrets(connectors) && Added(connectors, id, o).Ok?
    ensures Removed(Added(connectors, id, o).value, id) == Ok(connectors) <==> id != []
  {
    hide ValidateRows, NewRow, Rows, Ids;
    AddedAppends(connectors, id, o);
    var next := Added(connectors, id, o).value;
    assert next == connectors + [next[|connectors|]];
    WithoutMeaning(connectors, id);
  }

  /** An id that is empty can be added; it can then be removed by no id at all. */
  lemma EmptyIdStays(connectors: seq<Config>, o: AddOptions, id: Text)
    requires AllHaveSecrets(connectors) && Added(connectors, [], o).Ok?
    ensures var next := Added(connectors, [], o).value;
            Removed(next, id).Ok? ==> [] in Ids(Removed(next, id).value)
  {
    hide ValidateRows, NewRow, Rows;
    AddedAppends(connectors, [], o);
    var next := Added(connectors, [], o).value;
    WithoutMeaning(next, id);
    var c := next[|connectors|];
    assert c in next;
    if Removed(next, id).Ok? {
      var remaining := Without(next, id);
      var k :| 0 <= k < |remaining| && remaining[k] == c;
      assert remaining[k].id in Ids(remaining);
    }
  }

  // --------------------------------------------------------------- selection

  function SelectConnectors(connectors: seq<Config>, enabled: Option<bool>, ctype: Option<Text>): seq<Config> {
    if connectors == [] then []
    else
      var c := connectors[|connectors| - 1];
      var want := if enabled.Some? then enabled.value else true;
      SelectConnectors(connectors[..|connectors| - 1], enabled, ctype)
      + (if want && !c.enabled then []
         else if !want && c.enabled then []
         else if ctype.Some? && c.ctype != ctype.value then []
         else [c])
  }

  /** The enabled and the disabled connectors of a type are all of that type, each on one side. */
  lemma {:induction false} SelectionSplits(connectors: seq<Config>, ctype: Option<Text>)
    ensures var on, off := SelectConnectors(connectors, None, ctype), SelectConnectors(connectors, Some(false), ctype);
            && (forall c :: c in on <==> c in connectors && c.enabled && (ctype.Some? ==> c.ctype == ctype.value))
            && (forall c :: c in off <==> c in connectors && !c.enabled && (ctype.Some? ==> c.ctype == ctype.value))
            && (ctype.None? ==> |on| + |off| == |connectors|)
  {
    if connectors != [] {
      SelectionSplits(connectors[..|connectors| - 1], ctype);
      assert connectors == connectors[..|connectors| - 1] + [connectors[|connectors| - 1]];
    }
  }
}
