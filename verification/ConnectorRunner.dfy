/**
 `runConnectors` of `packages/tekmemo-connectors/src/runner.ts`, with the
 content-derived note ids of `id.ts`.
 */
module ConnectorRunner {
  import opened Optional
  import opened Text

  // The events log is the sequence of the note ids it records (the empty text for an
  // event without one).  SHA-256, the outcome of every write and what each connector
  // ingests are given by the environment.

  datatype Record = Record(externalId: Text, content: Text)

  /** `ctype` is the connector type the configuration names. */
  datatype Config = Config(id: Text, ctype: Text)

  /** A failed write may have been logged before it failed. */
  datatype Outcome = Wrote | Failed(logged: bool)

  /** `write` tells the outcome of the n-th write. */
  datatype Env = Env(sha256: Text -> Text, write: (nat, Record) -> Outcome)

  datatype RecentItem = RecentItem(id: Text, metadataId: Text)

  /** What the store lets a run see: whether its log can be read, and its recent memories. */
  datatype Host = Host(readable: bool, recent: seq<RecentItem>)

  /** `ingest` is `None` when the type is unknown, the secret fails or the connector throws. */
  datatype Run = Run(host: Host, configs: seq<Config>, ingest: Config -> Option<seq<Record>>)

  datatype IngestError = IngestError(connectorType: Text, externalId: Option<Text>)

  datatype Progress = Progress(
    log: seq<Text>, attempts: nat, known: set<Text>, written: seq<Text>, skipped: seq<Text>, errors: seq<IngestError>)

  // ------------------------------------------------------------------- ids

  function Preimage(r: Record): Text {
    r.externalId + Ascii(":") + r.content
  }

  function Prefix(): Text { Ascii("conn_") }

  function NoteId(env: Env, r: Record): Text {
    var hex := env.sha256(Preimage(r));
    Prefix() + (if |hex| > 16 then hex[..16] else hex)
  }

  function Ids(log: seq<Text>): set<Text> {
    set id | id in log && id != []
  }

  function RecentIds(items: seq<RecentItem>): set<Text> {
    Ids(seq(|items|, i requires 0 <= i < |items| => items[i].id))
    + Ids(seq(|items|, i requires 0 <= i < |items| => items[i].metadataId))
  }

  /** `loadExistingNoteIds`: the whole log, or else the recent memories. */
  function Existing(host: Host, log: seq<Text>): set<Text> {
    if host.readable && Ids(log) != {} then Ids(log) else RecentIds(host.recent)
  }

  // ------------------------------------------------------------ specification

  function StepRecord(env: Env, ctype: Text, p: Progress, r: Record): Progress {
    var id := NoteId(env, r);
    if id in p.known then p.(skipped := p.skipped + [r.externalId])
    else
      var tried := p.(attempts := p.attempts + 1);
      match env.write(p.attempts, r)
      case Wrote => tried.(log := p.log + [id], written := p.written + [id], known := p.known + {id})
      case Failed(logged) =>
        tried.(log := if logged then p.log + [id] else p.log, errors := p.errors + [IngestError(ctype, Some(r.externalId))])
  }

  function StepRecords(env: Env, ctype: Text, p: Progress, records: seq<Record>): Progress {
    if records == [] then p
    else StepRecord(env, ctype, StepRecords(env, ctype, p, records[..|records| - 1]), records[|records| - 1])
  }

  function StepConfig(env: Env, run: Run, p: Progress, config: Config): Progress {
    match run.ingest(config)
    case None => p.(errors := p.errors + [IngestError(config.ctype, None)])
    case Some(records) => StepRecords(env, config.ctype, p, records)
  }

  function StepConfigs(env: Env, run: Run, p: Progress, configs: seq<Config>): Progress {
    if configs == [] then p
    else StepConfig(env, run, StepConfigs(env, run, p, configs[..|configs| - 1]), configs[|configs| - 1])
  }

  function Start(run: Run, log: seq<Text>, attempts: nat): Progress {
    Progress(log, attempts, Existing(run.host, log), [], [], [])
  }

  function Ran(env: Env, run: Run, log: seq<Text>, attempts: nat): Progress {
    StepConfigs(env, run, Start(run, log, attempts), run.configs)
  }

  // ----------------------------------------------------------------- methods

  /** The host's memory: its log, and how many writes it has been asked for. */
  class Memo {
    const env: Env
    var log: seq<Text>
    var attempts: nat

    constructor (e: Env)
      ensures env == e && log == [] && attempts == 0
    {
      env, log, attempts := e, [], 0;
    }

    method Write(r: Record, id: Text) returns (ok: bool)
      modifies this
      ensures ok <==> env.write(old(attempts), r) == Wrote
      ensures attempts == old(attempts) + 1
      ensures log == if env.write(old(attempts), r) == Failed(false) then old(log) else old(log) + [id]
    {
      var outcome := env.write(attempts, r);
      attempts := attempts + 1;
      if outcome != Failed(false) {
        log := log + [id];
      }
      ok := outcome == Wrote;
    }
  }

  /** The set that the connectors of a run share. */
  class IdSet {
    var ids: set<Text>

    constructor (s: set<Text>)
      ensures ids == s
    {
      ids := s;
    }
  }

  ghost function Seen(memo: Memo, existing: IdSet, written: seq<Text>, skipped: seq<Text>, errors: seq<IngestError>): Progress
    reads memo, existing
  {
    Progress(memo.log, memo.attempts, existing.ids, written, skipped, errors)
  }

  method RunOne(config: Config, records: seq<Record>, memo: Memo, existing: IdSet)
    returns (written: seq<Text>, skipped: seq<Text>, errors: seq<IngestError>)
    modifies memo, existing
    ensures Seen(memo, existing, written, skipped, errors)
         == StepRecords(memo.env, config.ctype, old(Seen(memo, existing, [], [], [])), records)
  {
    written, skipped, errors := [], [], [];
    for i := 0 to |records|
      invariant Seen(memo, existing, written, skipped, errors)
             == StepRecords(memo.env, config.ctype, old(Seen(memo, existing, [], [], [])), records[..i])
    {
      assert records[..i + 1][..i] == records[..i];
      var record := records[i];
      var noteId := NoteId(memo.env, record);
      if noteId in existing.ids {
        skipped := skipped + [record.externalId];
      } else {
        var ok := memo.Write(record, noteId);
        if ok {
          written := written + [noteId];
          existing.ids := existing.ids + {noteId};
        } else {
          errors := errors + [IngestError(config.ctype, Some(record.externalId))];
        }
      }
    }
    assert records[..|records|] == records;
  }

  lemma ConfigsNext(env: Env, run: Run, p: Progress, i: nat)
    requires i < |run.configs|
    ensures StepConfigs(env, run, p, run.configs[..i + 1])
         == StepConfig(env, run, StepConfigs(env, run, p, run.configs[..i]), run.configs[i])
  {
    assert run.configs[..i + 1][..i] == run.configs[..i];
  }

  method RunConnectors(run: Run, memo: Memo)
    returns (written: seq<Text>, skipped: seq<Text>, errors: seq<IngestError>, ran: seq<Text>)
    modifies memo
    ensures |ran| == |run.configs| && forall k :: 0 <= k < |ran| ==> ran[k] == run.configs[k].id
    ensures var p := Ran(memo.env, run, old(memo.log), old(memo.attempts));
            && memo.log == p.log && memo.attempts == p.attempts
            && written == p.written && skipped == p.skipped && errors == p.errors
  {
    hide StepRecords, RecentIds, Ids;
    written, skipped, errors, ran := [], [], [], [];
    var existing := new IdSet(Existing(run.host, memo.log));
    ghost var start := Seen(memo, existing, [], [], []);
    for i := 0 to |run.configs|
      invariant |ran| == i && forall k :: 0 <= k < i ==> ran[k] == run.configs[k].id
      invariant Seen(memo, existing, written, skipped, errors) == StepConfigs(memo.env, run, start, run.configs[..i])
    {
      ConfigsNext(memo.env, run, start, i);
      var config := run.configs[i];
      ghost var before := Seen(memo, existing, written, skipped, errors);
      ran := ran + [config.id];
      var records := run.ingest(config);
      if records.Some? {
        var w, s, e := RunOne(config, records.value, memo, existing);
        StepsOnto(memo.env, config.ctype, before, records.value);
        written, skipped, errors := written + w, skipped + s, errors + e;
      } else {
        errors := errors + [IngestError(config.ctype, None)];
      }
    }
    assert run.configs[..|run.configs|] == run.configs;
  }

  function Fresh(p: Progress): Progress {
    p.(written := [], skipped := [], errors := [])
  }

  function Onto(p: Progress, q: Progress): Progress {
    q.(written := p.written + q.written, skipped := p.skipped + q.skipped, errors := p.errors + q.errors)
  }

  /** The lists of one connector are appended to those of the run. */
  lemma {:induction false} StepsOnto(env: Env, ctype: Text, p: Progress, records: seq<Record>)
    ensures StepRecords(env, ctype, p, records) == Onto(p, StepRecords(env, ctype, Fresh(p), records))
  {
    hide NoteId;
    if records != [] { StepsOnto(env, ctype, p, records[..|records| - 1]); }
  }

  // -------------------------------------------------------------- guarantees

  /** No failed write leaves its id in the log. */
  ghost predicate CleanFailures(env: Env) {
    forall n, r :: env.write(n, r) != Failed(true)
  }

  /** No connector note is logged twice. */
  ghost predicate Once(log: seq<Text>) {
    forall i, j :: 0 <= i < j < |log| && log[i] == log[j] ==> !(Prefix() <= log[i])
  }

  /** Every note of a record that is in the log is known. */
  ghost predicate Covered(env: Env, log: seq<Text>, known: set<Text>) {
    forall r :: NoteId(env, r) in log ==> NoteId(env, r) in known
  }

  /** What holds at any point of a run that began with `log`. */
  ghost predicate Inv(env: Env, log: seq<Text>, p: Progress) {
    p.log == log + p.written && Covered(env, p.log, p.known) && Once(p.log)
  }

  lemma NoteIdNotEmpty(env: Env, r: Record)
    ensures NoteId(env, r) != [] && Prefix() <= NoteId(env, r)
  {
  }

  lemma OnceAppend(log: seq<Text>, id: Text)
    requires Once(log) && (id !in log || !(Prefix() <= id))
    ensures Once(log + [id])
  {
  }

  lemma InvStep(env: Env, log: seq<Text>, ctype: Text, p: Progress, r: Record)
    requires CleanFailures(env) && Inv(env, log, p)
    ensures Inv(env, log, StepRecord(env, ctype, p, r))
  {
    hide NoteId, Once;
    var id := NoteId(env, r);
    if id !in p.known && env.write(p.attempts, r) == Wrote {
      OnceAppend(p.log, id);
      assert log + p.written + [id] == log + (p.written + [id]);
    }
  }

  lemma {:induction false} InvSteps(env: Env, log: seq<Text>, ctype: Text, p: Progress, records: seq<Record>)
    requires CleanFailures(env) && Inv(env, log, p)
    ensures Inv(env, log, StepRecords(env, ctype, p, records))
  {
    hide Inv, StepRecord;
    if records != [] {
      var n := |records| - 1;
      InvSteps(env, log, ctype, p, records[..n]);
      InvStep(env, log, ctype, StepRecords(env, ctype, p, records[..n]), records[n]);
    }
  }

  lemma {:induction false} InvConfigs(env: Env, log: seq<Text>, run: Run, p: Progress, configs: seq<Config>)
    requires CleanFailures(env) && Inv(env, log, p)
    ensures Inv(env, log, StepConfigs(env, run, p, configs))
  {
    hide StepRecords, Covered, Once;
    if configs != [] {
      var n := |configs| - 1;
      InvConfigs(env, log, run, p, configs[..n]);
      var before := StepConfigs(env, run, p, configs[..n]);
      var records := run.ingest(configs[n]);
      if records.Some? { InvSteps(env, log, configs[n].ctype, before, records.value); }
    }
  }

  /** A log that can be read is always covered by what the run loads. */
  lemma ReadableCovers(env: Env, host: Host, log: seq<Text>)
    requires host.readable
    ensures Covered(env, log, Existing(host, log))
  {
    forall r | NoteId(env, r) in log
      ensures NoteId(env, r) in Existing(host, log)
    {
      NoteIdNotEmpty(env, r);
      assert NoteId(env, r) in Ids(log);
    }
  }

  predicate Shows(item: RecentItem, id: Text) {
    item.id == id || item.metadataId == id
  }

  /** What a run takes for written before: the ids in the log, or, where it has or shows none, those of the recent memories. */
  lemma LoadedIff(host: Host, log: seq<Text>, id: Text)
    ensures id in Existing(host, log) <==>
              && id != []
              && if host.readable && (exists x :: x in log && x != []) then id in log
                 else exists i :: 0 <= i < |host.recent| && Shows(host.recent[i], id)
  {
    assert Ids(log) != {} <==> exists x :: x in log && x != [] by {
      if x :| x in log && x != [] { assert x in Ids(log); }
    }
    RecentIff(host.recent, id);
  }

  lemma RecentIff(items: seq<RecentItem>, id: Text)
    ensures id in RecentIds(items) <==> id != [] && exists i :: 0 <= i < |items| && Shows(items[i], id)
  {
    var ids := seq(|items|, i requires 0 <= i < |items| => items[i].id);
    var metadataIds := seq(|items|, i requires 0 <= i < |items| => items[i].metadataId);
    if i :| 0 <= i < |items| && Shows(items[i], id) {
      assert ids[i] == id || metadataIds[i] == id;
    }
    if id in ids {
      var i :| 0 <= i < |ids| && ids[i] == id;
      assert Shows(items[i], id);
    }
    if id in metadataIds {
      var i :| 0 <= i < |metadataIds| && metadataIds[i] == id;
      assert Shows(items[i], id);
    }
  }

  lemma {:induction false} LoggedSteps(env: Env, log: seq<Text>, ctype: Text, p: Progress, records: seq<Record>)
    requires CleanFailures(env) && p.log == log + p.written
    ensures var q := StepRecords(env, ctype, p, records); q.log == log + q.written
  {
    hide NoteId;
    if records != [] { LoggedSteps(env, log, ctype, p, records[..|records| - 1]); }
  }

  lemma {:induction false} LoggedConfigs(env: Env, log: seq<Text>, run: Run, p: Progress, configs: seq<Config>)
    requires CleanFailures(env) && p.log == log + p.written
    ensures var q := StepConfigs(env, run, p, configs); q.log == log + q.written
  {
    hide StepRecords;
    if configs != [] {
      var n := |configs| - 1;
      LoggedConfigs(env, log, run, p, configs[..n]);
      var records := run.ingest(configs[n]);
      if records.Some? { LoggedSteps(env, log, configs[n].ctype, StepConfigs(env, run, p, configs[..n]), records.value); }
    }
  }

  /** Whatever the log holds and the run loads, a run adds to the log exactly what it reports as written. */
  lemma RunAddsWritten(env: Env, run: Run, log: seq<Text>, attempts: nat)
    requires CleanFailures(env)
    ensures var p := Ran(env, run, log, attempts); p.log == log + p.written
  {
    hide Existing, StepConfigs;
    assert log + [] == log;
    LoggedConfigs(env, log, run, Start(run, log, attempts), run.configs);
  }

  /** A run that has loaded every note of the log logs none of them again. */
  lemma RunKeepsOnce(env: Env, run: Run, log: seq<Text>, attempts: nat)
    requires CleanFailures(env) && Once(log) && Covered(env, log, Existing(run.host, log))
    ensures Once(Ran(env, run, log, attempts).log)
  {
    hide Existing, Once, StepConfigs, Covered;
    assert log + [] == log;
    InvConfigs(env, log, run, Start(run, log, attempts), run.configs);
  }

  /** What may happen to the store: a run of the connectors, or an event of somebody else. */
  datatype Action = Connectors(run: Run) | Other(id: Text)

  function After(env: Env, actions: seq<Action>): (r: (seq<Text>, nat)) {
    if actions == [] then ([], 0)
    else
      var before := After(env, actions[..|actions| - 1]);
      match actions[|actions| - 1]
      case Connectors(run) => var p := Ran(env, run, before.0, before.1); (p.log, p.attempts)
      case Other(id) => (before.0 + [id], before.1)
  }

  /** Others log no connector ids, and the log can be read whenever connectors run. */
  predicate Orderly(a: Action) {
    match a
    case Connectors(run) => run.host.readable
    case Other(id) => !(Prefix() <= id)
  }

  ghost predicate AllOrderly(actions: seq<Action>) {
    forall a :: a in actions ==> Orderly(a)
  }

  /** Over any sequence of runs and other events, no connector note is logged twice. */
  lemma {:induction false} NeverTwice(env: Env, actions: seq<Action>)
    requires CleanFailures(env) && AllOrderly(actions)
    ensures Once(After(env, actions).0)
  {
    hide Ran, Once;
    if actions == [] {
      NothingTwice();
    } else {
      var n := |actions| - 1;
      NeverTwice(env, actions[..n]);
      var before := After(env, actions[..n]);
      assert Orderly(actions[n]);
      match actions[n]
      case Connectors(run) =>
        ReadableCovers(env, run.host, before.0);
        RunKeepsOnce(env, run, before.0, before.1);
      case Other(id) => OnceAppend(before.0, id);
    }
  }

  lemma NothingTwice()
    ensures Once([])
  {
  }

  /**
   When the log cannot be read and the run goes by the recent memories, no run
   can log a note again exactly when these show every note of the log.
   */
  lemma FallbackExact(env: Env, host: Host, log: seq<Text>, attempts: nat)
    requires CleanFailures(env) && Once(log) && forall r :: env.write(attempts, r) == Wrote
    ensures (forall run: Run | run.host == host :: Once(Ran(env, run, log, attempts).log))
            <==> Covered(env, log, Existing(host, log))
  {
    hide Once, Existing, Covered;
    if Covered(env, log, Existing(host, log)) {
      forall run: Run | run.host == host
        ensures Once(Ran(env, run, log, attempts).log)
      {
        RunKeepsOnce(env, run, log, attempts);
      }
    } else {
      var r := Uncovered(env, host, log);
      var config := Config([], []);
      var run := Run(host, [config], _ => Some([r]));
      OneRecord(env, run, config, r, log, attempts);
      LoggedTwice(log, NoteId(env, r));
      NoteIdNotEmpty(env, r);
    }
  }

  lemma Uncovered(env: Env, host: Host, log: seq<Text>) returns (r: Record)
    requires !Covered(env, log, Existing(host, log))
    ensures NoteId(env, r) in log && NoteId(env, r) !in Existing(host, log)
  {
    r :| NoteId(env, r) in log && NoteId(env, r) !in Existing(host, log);
  }

  lemma LoggedTwice(log: seq<Text>, id: Text)
    requires id in log && Prefix() <= id
    ensures !Once(log + [id])
  {
    var i :| 0 <= i < |log| && log[i] == id;
    assert (log + [id])[i] == (log + [id])[|log|];
  }

  lemma OneRecord(env: Env, run: Run, config: Config, r: Record, log: seq<Text>, attempts: nat)
    requires run.configs == [config] && run.ingest(config) == Some([r])
    requires NoteId(env, r) !in Existing(run.host, log) && env.write(attempts, r) == Wrote
    ensures Ran(env, run, log, attempts).log == log + [NoteId(env, r)]
  {
    hide NoteId, Existing;
    var p := Start(run, log, attempts);
    assert StepRecords(env, config.ctype, p, [r][..0]) == p && StepConfigs(env, run, p, [config][..0]) == p;
    assert StepRecords(env, config.ctype, p, [r]) == StepRecord(env, config.ctype, p, r);
    assert StepConfigs(env, run, p, [config]) == StepConfig(env, run, p, config);
  }

  lemma TwoRecords(env: Env, run: Run, config: Config, r: Record, s: Record, log: seq<Text>, attempts: nat)
    requires run.configs == [config] && run.ingest(config) == Some([r, s])
    ensures Ran(env, run, log, attempts)
         == StepRecord(env, config.ctype, StepRecord(env, config.ctype, Start(run, log, attempts), r), s)
  {
    hide NoteId, Existing;
    var p := Start(run, log, attempts);
    assert StepRecords(env, config.ctype, p, [r, s][..0]) == p && StepConfigs(env, run, p, [config][..0]) == p;
    assert [r, s][..1] == [r] && [r][..0] == [];
    assert StepRecords(env, config.ctype, p, [r]) == StepRecord(env, config.ctype, p, r);
    assert StepConfigs(env, run, p, [config]) == StepConfig(env, run, p, config);
  }

  /** A failed write that was logged all the same makes the next equal record be logged again, unless that one fails cleanly. */
  lemma LoggedFailureTwice(env: Env, run: Run, config: Config, r: Record, log: seq<Text>, attempts: nat)
    requires run.configs == [config] && run.ingest(config) == Some([r, r])
    requires NoteId(env, r) !in Existing(run.host, log)
    requires env.write(attempts, r) == Failed(true) && env.write(attempts + 1, r) != Failed(false)
    ensures Ran(env, run, log, attempts).log == log + [NoteId(env, r), NoteId(env, r)]
    ensures !Once(Ran(env, run, log, attempts).log)
  {
    hide NoteId, Existing;
    TwoRecords(env, run, config, r, r, log, attempts);
    NoteIdNotEmpty(env, r);
    var after := Ran(env, run, log, attempts).log;
    assert after == log + [NoteId(env, r), NoteId(env, r)];
    assert after[|log|] == after[|log| + 1];
  }

  /** A record is written or fails alike whenever it is tried. */
  ghost predicate Steady(env: Env) {
    forall m, n, r :: env.write(m, r) == env.write(n, r)
  }

  /** The condition is needed: where outcomes go by the record, no note is ever logged twice exactly when no failed write is logged. */
  lemma NeverTwiceIff(env: Env)
    requires Steady(env)
    ensures CleanFailures(env) <==> forall actions: seq<Action> :: AllOrderly(actions) ==> Once(After(env, actions).0)
  {
    hide Ran, Once, NoteId;
    if CleanFailures(env) {
      forall actions: seq<Action> | AllOrderly(actions)
        ensures Once(After(env, actions).0)
      {
        NeverTwice(env, actions);
      }
    } else {
      var n, r :| env.write(n, r) == Failed(true);
      assert env.write(0, r) == env.write(n, r) == env.write(1, r);
      var config := Config([], []);
      var run := Run(Host(true, []), [config], _ => Some([r, r]));
      NothingLoaded();
      LoggedFailureTwice(env, run, config, r, [], 0);
      var actions := [Connectors(run)];
      assert After(env, actions[..0]) == ([], 0);
      assert AllOrderly(actions) && !Once(After(env, actions).0);
    }
  }

  /** The record is tried though its note is in the log already, and leaves a trace. */
  predicate Relogs(env: Env, p: Progress, r: Record) {
    NoteId(env, r) in p.log && NoteId(env, r) !in p.known && env.write(p.attempts, r) != Failed(false)
  }

  predicate RecordsRelog(env: Env, ctype: Text, p: Progress, records: seq<Record>) {
    records != [] &&
    (var n := |records| - 1;
     RecordsRelog(env, ctype, p, records[..n]) || Relogs(env, StepRecords(env, ctype, p, records[..n]), records[n]))
  }

  predicate ConfigsRelog(env: Env, run: Run, p: Progress, configs: seq<Config>) {
    configs != [] &&
    (var n := |configs| - 1;
     var before := StepConfigs(env, run, p, configs[..n]);
     || ConfigsRelog(env, run, p, configs[..n])
     || (run.ingest(configs[n]).Some? && RecordsRelog(env, configs[n].ctype, before, run.ingest(configs[n]).value)))
  }

  /** Somewhere in the course of the actions a note is logged that is in the log. */
  predicate SomeRelog(env: Env, actions: seq<Action>) {
    actions != [] &&
    (var n := |actions| - 1;
     var (log, attempts) := After(env, actions[..n]);
     || SomeRelog(env, actions[..n])
     || (match actions[n]
         case Connectors(run) => ConfigsRelog(env, run, Start(run, log, attempts), run.configs)
         case Other(id) => Prefix() <= id && id in log))
  }

  lemma OnceIffNew(log: seq<Text>, id: Text)
    ensures Once(log + [id]) <==> Once(log) && !(Prefix() <= id && id in log)
  {
    if Once(log + [id]) {
      forall i, j | 0 <= i < j < |log| && log[i] == log[j]
        ensures !(Prefix() <= log[i])
      {
        assert (log + [id])[i] == (log + [id])[j];
      }
      forall i | 0 <= i < |log| && log[i] == id
        ensures !(Prefix() <= id)
      {
        assert (log + [id])[i] == (log + [id])[|log|];
      }
    }
  }

  lemma OnceStep(env: Env, ctype: Text, p: Progress, r: Record)
    ensures Once(StepRecord(env, ctype, p, r).log) <==> Once(p.log) && !Relogs(env, p, r)
  {
    hide Once, NoteId;
    NoteIdNotEmpty(env, r);
    OnceIffNew(p.log, NoteId(env, r));
  }

  lemma {:induction false} OnceRecords(env: Env, ctype: Text, p: Progress, records: seq<Record>)
    ensures Once(StepRecords(env, ctype, p, records).log) <==> Once(p.log) && !RecordsRelog(env, ctype, p, records)
  {
    hide Once, StepRecord, Relogs;
    if records != [] {
      var n := |records| - 1;
      OnceRecords(env, ctype, p, records[..n]);
      OnceStep(env, ctype, StepRecords(env, ctype, p, records[..n]), records[n]);
    }
  }

  lemma {:induction false} OnceConfigs(env: Env, run: Run, p: Progress, configs: seq<Config>)
    ensures Once(StepConfigs(env, run, p, configs).log) <==> Once(p.log) && !ConfigsRelog(env, run, p, configs)
  {
    hide Once, StepRecords, RecordsRelog;
    if configs != [] {
      var n := |configs| - 1;
      OnceConfigs(env, run, p, configs[..n]);
      var records := run.ingest(configs[n]);
      if records.Some? { OnceRecords(env, configs[n].ctype, StepConfigs(env, run, p, configs[..n]), records.value); }
    }
  }

  /**
   Without any condition on the host: over any actions a connector note is logged
   twice exactly when a record is tried while its note is in the log and not known
   to the run, and leaves a trace (or somebody else logs a connector note again).
   */
  lemma {:induction false} TwiceIffRelogged(env: Env, actions: seq<Action>)
    ensures Once(After(env, actions).0) <==> !SomeRelog(env, actions)
  {
    hide Once, StepConfigs, ConfigsRelog, Existing;
    if actions == [] {
      NothingTwice();
    } else {
      var n := |actions| - 1;
      TwiceIffRelogged(env, actions[..n]);
      var before := After(env, actions[..n]);
      match actions[n]
      case Connectors(run) => OnceConfigs(env, run, Start(run, before.0, before.1), run.configs);
      case Other(id) => OnceIffNew(before.0, id);
    }
  }

  /** The note was logged by a write of this run that failed: it is in what the run has logged, but not reported as written. */
  ghost predicate LoggedByFailure(log: seq<Text>, p: Progress, id: Text) {
    |log| <= |p.log| && id in p.log[|log|..] && id !in p.written
  }

  ghost predicate Explained(log: seq<Text>, loaded: set<Text>, p: Progress) {
    && |log| <= |p.log| && p.log[..|log|] == log
    && loaded <= p.known && (forall id :: id in p.written ==> id in p.known)
  }

  lemma ExplainedStep(env: Env, log: seq<Text>, loaded: set<Text>, ctype: Text, p: Progress, r: Record)
    requires Explained(log, loaded, p)
    ensures Explained(log, loaded, StepRecord(env, ctype, p, r))
  {
    hide NoteId;
  }

  lemma {:induction false} ExplainedRecords(env: Env, log: seq<Text>, loaded: set<Text>, ctype: Text, p: Progress, records: seq<Record>)
    requires Explained(log, loaded, p)
    ensures Explained(log, loaded, StepRecords(env, ctype, p, records))
  {
    hide Explained, StepRecord;
    if records != [] {
      var n := |records| - 1;
      ExplainedRecords(env, log, loaded, ctype, p, records[..n]);
      ExplainedStep(env, log, loaded, ctype, StepRecords(env, ctype, p, records[..n]), records[n]);
    }
  }

  lemma {:induction false} ExplainedConfigs(env: Env, log: seq<Text>, loaded: set<Text>, run: Run, p: Progress, configs: seq<Config>)
    requires Explained(log, loaded, p)
    ensures Explained(log, loaded, StepConfigs(env, run, p, configs))
  {
    hide StepRecords;
    if configs != [] {
      var n := |configs| - 1;
      ExplainedConfigs(env, log, loaded, run, p, configs[..n]);
      var records := run.ingest(configs[n]);
      if records.Some? { ExplainedRecords(env, log, loaded, configs[n].ctype, StepConfigs(env, run, p, configs[..n]), records.value); }
    }
  }

  /**
   At any point of a run, a note that is in the log and not known was either left
   out of what the run loaded, or logged by a write of this run that failed.
   */
  lemma WhyUnknown(env: Env, run: Run, log: seq<Text>, attempts: nat, i: nat, records: seq<Record>, id: Text)
    requires i < |run.configs|
    ensures var p := StepRecords(env, run.configs[i].ctype, StepConfigs(env, run, Start(run, log, attempts), run.configs[..i]), records);
            id in p.log && id !in p.known ==> (id in log && id !in Existing(run.host, log)) || LoggedByFailure(log, p, id)
  {
    hide StepRecords, StepConfigs, Existing;
    var start := Start(run, log, attempts);
    ExplainedConfigs(env, log, start.known, run, start, run.configs[..i]);
    var before := StepConfigs(env, run, start, run.configs[..i]);
    ExplainedRecords(env, log, start.known, run.configs[i].ctype, before, records);
    var p := StepRecords(env, run.configs[i].ctype, before, records);
    assert p.log == p.log[..|log|] + p.log[|log|..];
  }

  lemma NothingLoaded()
    ensures Existing(Host(true, []), []) == {}
  {
  }

  // ------------------------------------------------------------------ counts

  /** Every record of a connector that ingests is written, skipped or an error. */
  lemma {:induction false} EveryRecordCounted(env: Env, ctype: Text, p: Progress, records: seq<Record>)
    ensures var q := StepRecords(env, ctype, p, records);
            |q.written| + |q.skipped| + |q.errors| == |p.written| + |p.skipped| + |p.errors| + |records|
  {
    hide NoteId;
    if records != [] { EveryRecordCounted(env, ctype, p, records[..|records| - 1]); }
  }

  function DueOf(run: Run, config: Config): nat {
    match run.ingest(config)
    case None => 1
    case Some(records) => |records|
  }

  function Due(run: Run, configs: seq<Config>): nat {
    if configs == [] then 0 else Due(run, configs[..|configs| - 1]) + DueOf(run, configs[|configs| - 1])
  }

  /** A connector that throws counts as one error, and keeps none of the others from running. */
  lemma {:induction false} EveryConnectorCounted(env: Env, run: Run, p: Progress, configs: seq<Config>)
    ensures var q := StepConfigs(env, run, p, configs);
            |q.written| + |q.skipped| + |q.errors| == |p.written| + |p.skipped| + |p.errors| + Due(run, configs)
  {
    hide StepRecords;
    if configs != [] {
      var n := |configs| - 1;
      EveryConnectorCounted(env, run, p, configs[..n]);
      var records := run.ingest(configs[n]);
      if records.Some? { EveryRecordCounted(env, configs[n].ctype, StepConfigs(env, run, p, configs[..n]), records.value); }
    }
  }

  // ------------------------------------------------------------- running again

  function ExternalIds(records: seq<Record>): seq<Text> {
    seq(|records|, i requires 0 <= i < |records| => records[i].externalId)
  }

  /** The external ids of everything ingested. */
  function AllExternalIds(run: Run, configs: seq<Config>): seq<Text> {
    if configs == [] then []
    else
      var records := run.ingest(configs[|configs| - 1]);
      AllExternalIds(run, configs[..|configs| - 1]) + (if records.None? then [] else ExternalIds(records.value))
  }

  ghost predicate Knows(env: Env, known: set<Text>, records: seq<Record>) {
    forall r :: r in records ==> NoteId(env, r) in known
  }

  ghost predicate KnowsAll(env: Env, known: set<Text>, run: Run, configs: seq<Config>) {
    forall c :: c in configs ==> run.ingest(c).Some? && Knows(env, known, run.ingest(c).value)
  }

  /** What one record does to what is known and, without errors, to the log. */
  lemma RecordKnown(env: Env, log: seq<Text>, ctype: Text, p: Progress, r: Record)
    requires p.errors == [] ==> p.log == log + p.written
    ensures var q := StepRecord(env, ctype, p, r);
            && p.known <= q.known
            && (q.errors == [] ==> p.errors == [] && q.log == log + q.written && NoteId(env, r) in q.known)
  {
    hide NoteId;
  }

  lemma KnowsNext(env: Env, known: set<Text>, more: set<Text>, records: seq<Record>, r: Record)
    requires known <= more && Knows(env, known, records) && NoteId(env, r) in more
    ensures Knows(env, more, records + [r])
  {
    hide NoteId;
  }

  /** Without errors, everything ingested is known afterwards, and the log holds just what was written besides. */
  lemma {:induction false} RecordsKnown(env: Env, log: seq<Text>, ctype: Text, p: Progress, records: seq<Record>)
    requires p.errors == [] ==> p.log == log + p.written
    ensures var q := StepRecords(env, ctype, p, records);
            && p.known <= q.known
            && (q.errors == [] ==> p.errors == [] && q.log == log + q.written && Knows(env, q.known, records))
  {
    hide NoteId, StepRecord, Knows;
    if records == [] {
      assert Knows(env, p.known, []) by { KnowsNothing(env, p.known); }
    } else {
      var n := |records| - 1;
      RecordsKnown(env, log, ctype, p, records[..n]);
      var before := StepRecords(env, ctype, p, records[..n]);
      RecordKnown(env, log, ctype, before, records[n]);
      var after := StepRecord(env, ctype, before, records[n]);
      if after.errors == [] { KnowsNext(env, before.known, after.known, records[..n], records[n]); }
      assert records == records[..n] + [records[n]];
    }
  }

  lemma KnowsNothing(env: Env, known: set<Text>)
    ensures Knows(env, known, [])
  {
  }

  lemma {:induction false} ConfigsKnown(env: Env, log: seq<Text>, run: Run, p: Progress, configs: seq<Config>)
    requires p.errors == [] ==> p.log == log + p.written
    ensures var q := StepConfigs(env, run, p, configs);
            && p.known <= q.known
            && (q.errors == [] ==> p.errors == [] && q.log == log + q.written && KnowsAll(env, q.known, run, configs))
  {
    hide StepRecords, NoteId;
    if configs != [] {
      var n := |configs| - 1;
      ConfigsKnown(env, log, run, p, configs[..n]);
      var records := run.ingest(configs[n]);
      if records.Some? { RecordsKnown(env, log, configs[n].ctype, StepConfigs(env, run, p, configs[..n]), records.value); }
      assert configs == configs[..n] + [configs[n]];
    }
  }

  lemma {:induction false} KnownAreSkipped(env: Env, ctype: Text, p: Progress, records: seq<Record>)
    requires Knows(env, p.known, records)
    ensures StepRecords(env, ctype, p, records) == p.(skipped := p.skipped + ExternalIds(records))
  {
    hide NoteId;
    if records != [] {
      var n := |records| - 1;
      KnownAreSkipped(env, ctype, p, records[..n]);
      assert records[n] in records;
      assert ExternalIds(records) == ExternalIds(records[..n]) + [records[n].externalId];
    } else {
      assert ExternalIds(records) == [];
    }
  }

  lemma {:induction false} AllKnownAreSkipped(env: Env, run: Run, p: Progress, configs: seq<Config>)
    requires KnowsAll(env, p.known, run, configs)
    ensures StepConfigs(env, run, p, configs) == p.(skipped := p.skipped + AllExternalIds(run, configs))
  {
    hide StepRecords, Knows, ExternalIds;
    if configs != [] {
      var n := |configs| - 1;
      AllKnownAreSkipped(env, run, p, configs[..n]);
      assert configs[n] in configs;
      KnownAreSkipped(env, configs[n].ctype, StepConfigs(env, run, p, configs[..n]), run.ingest(configs[n]).value);
    }
  }

  /** What is ingested is known throughout, or else something was tried. */
  lemma {:induction false} UntriedIsKnown(env: Env, ctype: Text, p: Progress, records: seq<Record>)
    ensures var q := StepRecords(env, ctype, p, records);
            q.attempts >= p.attempts && (q.attempts == p.attempts ==> q.known == p.known && Knows(env, p.known, records))
  {
    hide NoteId;
    if records != [] {
      var n := |records| - 1;
      UntriedIsKnown(env, ctype, p, records[..n]);
      assert records == records[..n] + [records[n]];
    }
  }

  lemma {:induction false} UntriedAreKnown(env: Env, run: Run, p: Progress, configs: seq<Config>)
    requires forall c :: c in configs ==> run.ingest(c).Some?
    ensures var q := StepConfigs(env, run, p, configs);
            q.attempts >= p.attempts && (q.attempts == p.attempts ==> q.known == p.known && KnowsAll(env, p.known, run, configs))
  {
    hide StepRecords, Knows;
    if configs != [] {
      var n := |configs| - 1;
      UntriedAreKnown(env, run, p, configs[..n]);
      UntriedIsKnown(env, configs[n].ctype, StepConfigs(env, run, p, configs[..n]), run.ingest(configs[n]).value);
      assert configs == configs[..n] + [configs[n]];
    }
  }

  /** A record that some connector of the run ingests. */
  ghost predicate Ingested(run: Run, r: Record) {
    exists c :: c in run.configs && run.ingest(c).Some? && r in run.ingest(c).value
  }

  /** What is written was not loaded, and is what is known besides. */
  ghost predicate Tally(loaded: set<Text>, p: Progress) {
    && p.known == loaded + (set id | id in p.written)
    && (forall i :: 0 <= i < |p.written| ==> p.written[i] !in loaded)
    && (forall i, j :: 0 <= i < j < |p.written| ==> p.written[i] != p.written[j])
    && (forall id :: id in p.written ==> id in p.log)
  }

  lemma TallyStep(env: Env, loaded: set<Text>, ctype: Text, p: Progress, r: Record)
    requires Tally(loaded, p)
    ensures Tally(loaded, StepRecord(env, ctype, p, r))
  {
    hide NoteId;
  }

  lemma {:induction false} TallySteps(env: Env, loaded: set<Text>, ctype: Text, p: Progress, records: seq<Record>)
    requires Tally(loaded, p)
    ensures Tally(loaded, StepRecords(env, ctype, p, records))
  {
    hide Tally, StepRecord;
    if records != [] {
      var n := |records| - 1;
      TallySteps(env, loaded, ctype, p, records[..n]);
      TallyStep(env, loaded, ctype, StepRecords(env, ctype, p, records[..n]), records[n]);
    }
  }

  lemma {:induction false} TallyConfigs(env: Env, loaded: set<Text>, run: Run, p: Progress, configs: seq<Config>)
    requires Tally(loaded, p)
    ensures Tally(loaded, StepConfigs(env, run, p, configs))
  {
    hide StepRecords;
    if configs != [] {
      var n := |configs| - 1;
      TallyConfigs(env, loaded, run, p, configs[..n]);
      var records := run.ingest(configs[n]);
      if records.Some? { TallySteps(env, loaded, configs[n].ctype, StepConfigs(env, run, p, configs[..n]), records.value); }
    }
  }

  // ---------------------------------------------------------- what is told

  /** The error tells of this connector that it threw, or of one of its records that its write failed. */
  ghost predicate TellsOf(run: Run, c: Config, e: IngestError) {
    && e.connectorType == c.ctype
    && match run.ingest(c)
       case None => e.externalId == None
       case Some(records) => TellsOfRecord(records, e)
  }

  ghost predicate TellsOfRecord(records: seq<Record>, e: IngestError) {
    exists r :: r in records && e.externalId == Some(r.externalId)
  }

  /** What became of a record: its note is known, or an error names it. */
  predicate Settled(env: Env, ctype: Text, r: Record, p: Progress) {
    NoteId(env, r) in p.known || IngestError(ctype, Some(r.externalId)) in p.errors
  }

  ghost predicate AllSettled(env: Env, ctype: Text, records: seq<Record>, p: Progress) {
    forall r :: r in records ==> Settled(env, ctype, r, p)
  }

  /** Nothing that is known or told is forgotten. */
  ghost predicate Extends(p: Progress, q: Progress) {
    p.known <= q.known && p.errors <= q.errors
  }

  lemma {:induction false} RecordsTold(env: Env, ctype: Text, p: Progress, records: seq<Record>)
    ensures var q := StepRecords(env, ctype, p, records);
            && Extends(p, q) && AllSettled(env, ctype, records, q)
            && forall i :: |p.errors| <= i < |q.errors| ==> q.errors[i].connectorType == ctype && TellsOfRecord(records, q.errors[i])
  {
    hide NoteId;
    if records != [] {
      var n := |records| - 1;
      RecordsTold(env, ctype, p, records[..n]);
      var m, q := StepRecords(env, ctype, p, records[..n]), StepRecords(env, ctype, p, records);
      assert records == records[..n] + [records[n]];
      assert q.errors == m.errors || q.errors == m.errors + [IngestError(ctype, Some(records[n].externalId))];
      forall i | |p.errors| <= i < |q.errors|
        ensures q.errors[i].connectorType == ctype && TellsOfRecord(records, q.errors[i])
      {
        if i == |m.errors| { assert records[n] in records; }
      }
    }
  }

  ghost predicate ConnectorTold(env: Env, run: Run, c: Config, p: Progress) {
    match run.ingest(c)
    case None => IngestError(c.ctype, None) in p.errors
    case Some(records) => AllSettled(env, c.ctype, records, p)
  }

  ghost predicate SomebodyTells(run: Run, configs: seq<Config>, e: IngestError) {
    exists c :: c in configs && TellsOf(run, c, e)
  }

  lemma {:induction false} ConnectorsTold(env: Env, run: Run, p: Progress, configs: seq<Config>)
    ensures var q := StepConfigs(env, run, p, configs);
            && Extends(p, q) && (forall c :: c in configs ==> ConnectorTold(env, run, c, q))
            && forall i :: |p.errors| <= i < |q.errors| ==> SomebodyTells(run, configs, q.errors[i])
  {
    hide StepRecords, Settled, TellsOfRecord;
    if configs != [] {
      var n := |configs| - 1;
      ConnectorsTold(env, run, p, configs[..n]);
      var m, q := StepConfigs(env, run, p, configs[..n]), StepConfigs(env, run, p, configs);
      var c := configs[n];
      assert configs == configs[..n] + [c];
      if run.ingest(c).Some? { RecordsTold(env, c.ctype, m, run.ingest(c).value); }
      assert Extends(m, q);
      forall d | d in configs
        ensures ConnectorTold(env, run, d, q)
      {
        if d in configs[..n] { StillTold(env, run, d, m, q); }
      }
      forall i | |p.errors| <= i < |q.errors|
        ensures SomebodyTells(run, configs, q.errors[i])
      {
        if i < |m.errors| {
          assert q.errors[i] == m.errors[i];
          var d :| d in configs[..n] && TellsOf(run, d, m.errors[i]);
          assert d in configs;
        } else {
          assert c in configs && TellsOf(run, c, q.errors[i]);
        }
      }
    }
  }

  lemma StillTold(env: Env, run: Run, c: Config, p: Progress, q: Progress)
    requires ConnectorTold(env, run, c, p) && Extends(p, q)
    ensures ConnectorTold(env, run, c, q)
  {
    hide NoteId;
  }

  /**
   A run leaves no record untold and tells nothing else: the note of each was
   loaded or is written, or an error names the record; a connector that threw
   is named without one; and every error is one of these.
   */
  lemma EverythingTold(env: Env, run: Run, log: seq<Text>, attempts: nat)
    ensures var p := Ran(env, run, log, attempts);
            && (forall c, r :: c in run.configs && run.ingest(c).Some? && r in run.ingest(c).value ==>
                  || NoteId(env, r) in Existing(run.host, log)
                  || NoteId(env, r) in p.written
                  || IngestError(c.ctype, Some(r.externalId)) in p.errors)
            && (forall c :: c in run.configs && run.ingest(c).None? ==> IngestError(c.ctype, None) in p.errors)
            && (forall e :: e in p.errors ==> SomebodyTells(run, run.configs, e))
  {
    hide StepConfigs, NoteId, Existing, TellsOf;
    var start := Start(run, log, attempts);
    ConnectorsTold(env, run, start, run.configs);
    TallyConfigs(env, Existing(run.host, log), run, start, run.configs);
    var p := Ran(env, run, log, attempts);
    forall c, r | c in run.configs && run.ingest(c).Some? && r in run.ingest(c).value
      ensures NoteId(env, r) in Existing(run.host, log) || NoteId(env, r) in p.written || IngestError(c.ctype, Some(r.externalId)) in p.errors
    {
      assert ConnectorTold(env, run, c, p);
      assert Settled(env, c.ctype, r, p);
    }
  }

  lemma KnowsIngested(env: Env, known: set<Text>, run: Run)
    requires forall c :: c in run.configs ==> run.ingest(c).Some?
    ensures KnowsAll(env, known, run, run.configs) <==> forall r :: Ingested(run, r) ==> NoteId(env, r) in known
  {
    hide NoteId;
    if forall r :: Ingested(run, r) ==> NoteId(env, r) in known {
      forall c | c in run.configs
        ensures Knows(env, known, run.ingest(c).value)
      {
        forall r | r in run.ingest(c).value
          ensures NoteId(env, r) in known
        {
          assert Ingested(run, r);
        }
      }
    }
  }

  ghost predicate AllAmong(env: Env, run: Run, ids: set<Text>) {
    forall r :: Ingested(run, r) ==> NoteId(env, r) in ids
  }

  ghost predicate NoneAmong(env: Env, run: Run, ids: set<Text>) {
    forall r :: Ingested(run, r) ==> NoteId(env, r) !in ids
  }

  /** What a run without errors leaves: everything ingested is loaded or written, and only what is written is added. */
  lemma CleanRun(env: Env, run: Run, log: seq<Text>, attempts: nat)
    requires Ran(env, run, log, attempts).errors == []
    ensures var p := Ran(env, run, log, attempts); var loaded := Existing(run.host, log);
            && (forall c :: c in run.configs ==> run.ingest(c).Some?)
            && p.log == log + p.written
            && (forall r :: Ingested(run, r) ==> NoteId(env, r) in loaded || NoteId(env, r) in p.written)
            && (forall id :: id in p.written ==> id !in loaded)
  {
    hide Existing, StepConfigs, NoteId;
    var start := Start(run, log, attempts);
    assert log + [] == log;
    ConfigsKnown(env, log, run, start, run.configs);
    TallyConfigs(env, start.known, run, start, run.configs);
    KnowsIngested(env, Ran(env, run, log, attempts).known, run);
  }

  /** The same run again changes nothing exactly when it has loaded all that it ingests. */
  lemma AgainIffLoaded(env: Env, run: Run, log: seq<Text>, attempts: nat)
    requires forall c :: c in run.configs ==> run.ingest(c).Some?
    ensures Ran(env, run, log, attempts) == Progress(log, attempts, Existing(run.host, log), [], AllExternalIds(run, run.configs), [])
            <==> AllAmong(env, run, Existing(run.host, log))
  {
    hide Existing, StepConfigs, NoteId;
    var start := Start(run, log, attempts);
    KnowsIngested(env, start.known, run);
    if KnowsAll(env, start.known, run, run.configs) {
      AllKnownAreSkipped(env, run, start, run.configs);
      assert [] + AllExternalIds(run, run.configs) == AllExternalIds(run, run.configs);
    }
    UntriedAreKnown(env, run, start, run.configs);
  }

  /**
   A run without errors, repeated, writes nothing and skips everything exactly
   when there was an id in the log, or the recent memories, which stand in for a
   log without ids, showed all of what is ingested or none of it.
   */
  lemma RunAgainWritesNothing(env: Env, run: Run, log: seq<Text>, attempts: nat)
    requires run.host.readable && Ran(env, run, log, attempts).errors == []
    ensures var p := Ran(env, run, log, attempts);
            Ran(env, run, p.log, p.attempts)
            == Progress(p.log, p.attempts, Existing(run.host, p.log), [], AllExternalIds(run, run.configs), [])
            <==> Ids(log) != {} || AllAmong(env, run, RecentIds(run.host.recent)) || NoneAmong(env, run, RecentIds(run.host.recent))
  {
    hide Ran, RecentIds, AllAmong, NoneAmong, AllExternalIds, Ids;
    CleanRun(env, run, log, attempts);
    var p := Ran(env, run, log, attempts);
    AgainIffLoaded(env, run, p.log, p.attempts);
    LoadedAgain(env, run, log, p.written);
    if AllAmong(env, run, RecentIds(run.host.recent)) && Ids(log) == {} {
      AgainIffLoaded(env, run, log, attempts);
      assert p.log == log;
    }
  }

  lemma LoadedAgain(env: Env, run: Run, log: seq<Text>, written: seq<Text>)
    requires run.host.readable
    requires forall r :: Ingested(run, r) ==> NoteId(env, r) in Existing(run.host, log) || NoteId(env, r) in written
    requires forall id :: id in written ==> id !in Existing(run.host, log)
    ensures Ids(log) != {} ==> AllAmong(env, run, Existing(run.host, log + written))
    ensures var recent := RecentIds(run.host.recent);
            Ids(log) == {} && !AllAmong(env, run, recent) ==>
              (AllAmong(env, run, Existing(run.host, log + written)) <==> NoneAmong(env, run, recent))
  {
    hide RecentIds, NoteId, Ingested;
    forall r: Record
      ensures NoteId(env, r) != []
    {
      NoteIdNotEmpty(env, r);
    }
    IdsConcat(log, written);
    var recent := RecentIds(run.host.recent);
    if Ids(log) == {} && !AllAmong(env, run, recent) {
      var r :| Ingested(run, r) && NoteId(env, r) !in recent;
      assert NoteId(env, r) in Ids(written);
    }
  }

  lemma IdsConcat(a: seq<Text>, b: seq<Text>)
    ensures Ids(a + b) == Ids(a) + Ids(b)
  {
  }

  // --------------------------------------------------------------- identity

  /** The id goes on after the other one with a colon. */
  predicate Continues(x: Text, y: Text) {
    y + Ascii(":") <= x
  }

  /** What follows `y` and a colon in `x` has moved to the front of the other's content. */
  predicate Shifted(a: Record, b: Record) {
    && Continues(a.externalId, b.externalId)
    && b.content == a.externalId[|b.externalId| + 1..] + Ascii(":") + a.content
  }

  lemma ShiftedAlike(a: Record, b: Record)
    requires Shifted(a, b)
    ensures Preimage(a) == Preimage(b)
  {
    var rest := a.externalId[|b.externalId| + 1..];
    assert a.externalId == b.externalId + Ascii(":") + rest;
    assert b.externalId + Ascii(":") + rest + Ascii(":") + a.content == b.externalId + Ascii(":") + (rest + Ascii(":") + a.content);
  }

  lemma AlikeShifted(a: Record, b: Record)
    requires Preimage(a) == Preimage(b) && |a.externalId| >= |b.externalId|
    ensures a == b || Shifted(a, b)
  {
    var p, m, n := Preimage(a), |a.externalId|, |b.externalId|;
    assert a.externalId == p[..m] && b.externalId == p[..n];
    assert a.content == p[m + 1..] && b.content == p[n + 1..];
    if m > n {
      assert p[..n + 1] == b.externalId + Ascii(":");
      assert b.content == a.externalId[n + 1..] + Ascii(":") + a.content;
    }
  }

  /**
   Ids are told apart by what is hashed.  Two records are hashed alike exactly
   when they are equal, or a colon moves the border between id and content.
   */
  lemma PreimagesDiffer(a: Record, b: Record)
    ensures Preimage(a) == Preimage(b) <==> a == b || Shifted(a, b) || Shifted(b, a)
  {
    hide Preimage, Shifted;
    if Preimage(a) == Preimage(b) {
      if |a.externalId| >= |b.externalId| { AlikeShifted(a, b); } else { AlikeShifted(b, a); }
    } else {
      if Shifted(a, b) { ShiftedAlike(a, b); }
      if Shifted(b, a) { ShiftedAlike(b, a); }
    }
  }

  /** Some contents make two external ids collide exactly when one of them goes on after the other with a colon. */
  lemma ExternalIdsCollideIff(x: Text, y: Text)
    requires x != y
    ensures (exists c, d :: Preimage(Record(x, c)) == Preimage(Record(y, d))) <==> Continues(x, y) || Continues(y, x)
  {
    hide Preimage, Continues;
    if Continues(x, y) { CollidingContents(x, y); }
    if Continues(y, x) { CollidingContents(y, x); }
    if c, d :| Preimage(Record(x, c)) == Preimage(Record(y, d)) {
      PreimagesDiffer(Record(x, c), Record(y, d));
    }
  }

  lemma CollidingContents(x: Text, y: Text)
    requires Continues(x, y)
    ensures exists c, d :: Preimage(Record(x, c)) == Preimage(Record(y, d))
  {
    var a := Record(x, []);
    var b := Record(y, x[|y| + 1..] + Ascii(":") + a.content);
    ShiftedAlike(a, b);
  }

  /** A note id has 21 characters and tells records apart by the first 16 digits of their hashes. */
  lemma NoteIdsDiffer(env: Env, a: Record, b: Record)
    requires |env.sha256(Preimage(a))| == 64 && |env.sha256(Preimage(b))| == 64
    ensures |NoteId(env, a)| == 21 && Ascii("conn_") <= NoteId(env, a)
    ensures NoteId(env, a) == NoteId(env, b)
            <==> forall i :: 0 <= i < 16 ==> env.sha256(Preimage(a))[i] == env.sha256(Preimage(b))[i]
  {
    hide Preimage;
    var x, y := env.sha256(Preimage(a)), env.sha256(Preimage(b));
    assert NoteId(env, a) == Ascii("conn_") + x[..16] && NoteId(env, b) == Ascii("conn_") + y[..16];
    assert NoteId(env, a)[5..] == x[..16] && NoteId(env, b)[5..] == y[..16];
    if forall i :: 0 <= i < 16 ==> x[i] == y[i] { assert x[..16] == y[..16]; }
    if x[..16] == y[..16] {
      forall i | 0 <= i < 16
        ensures x[i] == y[i]
      {
        assert x[..16][i] == y[..16][i];
      }
    }
  }

  datatype Kind = Issues | Prs | Discussions

  function KindName(kind: Kind): Text {
    match kind
    case Issues => Ascii("issues")
    case Prs => Ascii("prs")
    case Discussions => Ascii("discussions")
  }

  /** What the connectors that come with the package ingest. */
  datatype Item = NotionPage(id: Text) | GitHubNode(kind: Kind, number: nat)

  function ItemId(item: Item): Text {
    match item
    case NotionPage(id) => Ascii("notion") + Ascii(":") + id
    case GitHubNode(kind, number) => KindName(kind) + Ascii(":") + Digits(number)
  }

  /** The id of a page, 32 hexadecimal digits with or without hyphens, has no colon. */
  predicate Plain(item: Item) {
    item.NotionPage? ==> 58 !in item.id
  }

  /** The ids of the shipped connectors as text. */
  lemma ItemIdsSpelled(id: Text, kind: Kind, number: nat)
    ensures var t := ItemId(NotionPage(id)); Spells(t[..7], "notion:") && t[7..] == id
    ensures var t := ItemId(GitHubNode(kind, number)); var k := |t| - |Digits(number)|;
            k >= 0 && t[k..] == Digits(number)
            && Spells(t[..k], match kind case Issues => "issues:" case Prs => "prs:" case Discussions => "discussions:")
  {
    hide Digits;
  }

  /** An id is a name and a rest, neither of which has a colon. */
  lemma ItemParts(item: Item) returns (name: Text, rest: Text)
    requires Plain(item)
    ensures ItemId(item) == name + Ascii(":") + rest && 58 !in name && 58 !in rest
  {
    match item
    case NotionPage(id) => name, rest := Ascii("notion"), id;
    case GitHubNode(kind, number) =>
      name, rest := KindName(kind), Digits(number);
      assert forall i :: 0 <= i < |rest| ==> IsDigit(rest[i]);
  }

  lemma OneColon(x: Text, name: Text, rest: Text)
    requires x == name + Ascii(":") + rest && 58 !in name && 58 !in rest
    ensures forall i :: 0 <= i < |x| && x[i] == 58 ==> i == |name|
  {
  }

  lemma TwoColons(x: Text, name: Text, rest: Text)
    ensures Continues(x, name + Ascii(":") + rest) ==>
              |name| + 1 + |rest| < |x| && x[|name|] == 58 && x[|name| + 1 + |rest|] == 58
  {
    var y := name + Ascii(":") + rest + Ascii(":");
    assert y[|name|] == 58 && y[|name| + 1 + |rest|] == 58;
  }

  lemma ItemIdsDoNotContinue(a: Item, b: Item)
    requires Plain(a) && Plain(b)
    ensures !Continues(ItemId(a), ItemId(b))
  {
    hide ItemId;
    var m, r := ItemParts(a);
    var n, s := ItemParts(b);
    OneColon(ItemId(a), m, r);
    TwoColons(ItemId(a), n, s);
  }

  lemma ItemIdsDiffer(a: Item, b: Item)
    requires ItemId(a) == ItemId(b)
    ensures a == b
  {
    assert ItemId(a)[0] == ItemId(b)[0] && ItemId(a)[1] == ItemId(b)[1];
    if a.NotionPage? && b.NotionPage? {
      assert a.id == ItemId(a)[7..] && b.id == ItemId(b)[7..];
    } else if a.GitHubNode? && b.GitHubNode? && a.kind == b.kind {
      var n := |KindName(a.kind)| + 1;
      assert Digits(a.number) == ItemId(a)[n..] && Digits(b.number) == ItemId(b)[n..];
      DigitsInjective(a.number, b.number);
    }
  }

  /** Records of the connectors that come with the package are hashed alike only if item and content are the same. */
  lemma ItemsNeverCollide(a: Item, b: Item, c: Text, d: Text)
    requires Plain(a) && Plain(b)
    ensures Preimage(Record(ItemId(a), c)) == Preimage(Record(ItemId(b), d)) <==> a == b && c == d
  {
    hide Preimage, ItemId, Continues;
    PreimagesDiffer(Record(ItemId(a), c), Record(ItemId(b), d));
    ItemIdsDoNotContinue(a, b);
    ItemIdsDoNotContinue(b, a);
    if ItemId(a) == ItemId(b) { ItemIdsDiffer(a, b); }
  }

  /**
   Whatever the hash, where one external id goes on after another with a colon
   there are two records of which a run writes the first and takes the second
   for known.
   */
  lemma ColonsCollide(env: Env, run: Run, config: Config, x: Text, y: Text, c: Text, log: seq<Text>, attempts: nat)
    requires Continues(x, y)
    requires run.configs == [config]
    requires run.ingest(config) == Some([Record(x, c), Record(y, x[|y| + 1..] + Ascii(":") + c)])
    requires NoteId(env, Record(x, c)) !in Existing(run.host, log) && env.write(attempts, Record(x, c)) == Wrote
    ensures Record(x, c) != Record(y, x[|y| + 1..] + Ascii(":") + c)
    ensures var p := Ran(env, run, log, attempts);
            p.written == [NoteId(env, Record(x, c))] && p.skipped == [y] && p.log == log + p.written && p.errors == []
  {
    hide Existing;
    var a := Record(x, c);
    var b := Record(y, x[|y| + 1..] + Ascii(":") + c);
    ShiftedAlike(a, b);
    TwoRecords(env, run, config, a, b, log, attempts);
  }

  // ---------------------------------------------------------- changed content

  /** Both are in the list, at different places. */
  ghost predicate BothIn(ids: seq<Text>, a: Text, b: Text) {
    exists i, j :: 0 <= i < |ids| && 0 <= j < |ids| && i != j && ids[i] == a && ids[j] == b
  }

  /** New to the run, and written whenever it is tried. */
  ghost predicate GoesIn(env: Env, run: Run, log: seq<Text>, r: Record) {
    Ingested(run, r) && NoteId(env, r) !in Existing(run.host, log) && forall n :: env.write(n, r) == Wrote
  }

  lemma {:induction false} WrittenAreKnown(env: Env, ctype: Text, p: Progress, records: seq<Record>)
    ensures var q := StepRecords(env, ctype, p, records);
            p.known <= q.known && forall r :: r in records && (forall n :: env.write(n, r) == Wrote) ==> NoteId(env, r) in q.known
  {
    hide NoteId;
    if records != [] {
      var n := |records| - 1;
      WrittenAreKnown(env, ctype, p, records[..n]);
      assert records == records[..n] + [records[n]];
    }
  }

  lemma {:induction false} IngestedAreKnown(env: Env, run: Run, p: Progress, configs: seq<Config>, r: Record)
    requires forall n :: env.write(n, r) == Wrote
    ensures var q := StepConfigs(env, run, p, configs);
            p.known <= q.known && ((exists c :: c in configs && run.ingest(c).Some? && r in run.ingest(c).value) ==> NoteId(env, r) in q.known)
  {
    hide StepRecords, NoteId;
    if configs != [] {
      var n := |configs| - 1;
      IngestedAreKnown(env, run, p, configs[..n], r);
      var records := run.ingest(configs[n]);
      if records.Some? { WrittenAreKnown(env, configs[n].ctype, StepConfigs(env, run, p, configs[..n]), records.value); }
      assert configs == configs[..n] + [configs[n]];
    }
  }

  /** A record that is new and can be written is, once. */
  lemma GoesInOnce(env: Env, run: Run, log: seq<Text>, attempts: nat, r: Record)
    requires GoesIn(env, run, log, r)
    ensures var p := Ran(env, run, log, attempts);
            NoteId(env, r) in p.written && NoteId(env, r) in p.log && !BothIn(p.written, NoteId(env, r), NoteId(env, r))
  {
    hide StepConfigs, NoteId, Existing;
    var start := Start(run, log, attempts);
    IngestedAreKnown(env, run, start, run.configs, r);
    TallyConfigs(env, start.known, run, start, run.configs);
  }

  /**
   The external id plays no part: two records of one external id that are new and
   can be written are both written exactly when their note ids differ.
   */
  lemma ChangedContentIsWritten(env: Env, run: Run, log: seq<Text>, attempts: nat, r: Record, s: Record)
    requires GoesIn(env, run, log, r) && GoesIn(env, run, log, s) && r.externalId == s.externalId
    ensures BothIn(Ran(env, run, log, attempts).written, NoteId(env, r), NoteId(env, s)) <==> NoteId(env, r) != NoteId(env, s)
    ensures NoteId(env, r) in Ran(env, run, log, attempts).log && NoteId(env, s) in Ran(env, run, log, attempts).log
  {
    hide Ran, NoteId, GoesIn;
    GoesInOnce(env, run, log, attempts, r);
    GoesInOnce(env, run, log, attempts, s);
    var written := Ran(env, run, log, attempts).written;
    var i, j :| 0 <= i < |written| && 0 <= j < |written| && written[i] == NoteId(env, r) && written[j] == NoteId(env, s);
  }

  lemma TwoNew(env: Env, run: Run, config: Config, r: Record, s: Record, log: seq<Text>, attempts: nat)
    requires run.configs == [config] && run.ingest(config) == Some([r, s])
    requires NoteId(env, r) !in Existing(run.host, log) && NoteId(env, s) !in Existing(run.host, log) && NoteId(env, r) != NoteId(env, s)
    requires env.write(attempts, r) == Wrote && env.write(attempts + 1, s) == Wrote
    ensures Ran(env, run, log, attempts).written == [NoteId(env, r), NoteId(env, s)]
    ensures Ran(env, run, log, attempts).skipped == [] && Ran(env, run, log, attempts).log == log + [NoteId(env, r), NoteId(env, s)]
  {
    hide NoteId, Existing;
    TwoRecords(env, run, config, r, s, log, attempts);
  }

  /** A hash that keeps the last character. */
  function LastOnly(t: Text): Text {
    if t == [] then [] else [t[|t| - 1]]
  }

  function IssueRecord(content: Text): Record {
    Record(ItemId(GitHubNode(Issues, 42)), content)
  }

  function IssueRun(content: Text, changed: Text): Run {
    Run(Host(true, []), [Config(Ascii("github"), Ascii("github"))], _ => Some([IssueRecord(content), IssueRecord(changed)]))
  }

  /** One issue, two contents, both written. */
  lemma TwoContentsWritten()
    ensures var p := Ran(Env(LastOnly, (_, _) => Wrote), IssueRun(Ascii("open"), Ascii("shut")), [], 0);
            p.written == [Ascii("conn_n"), Ascii("conn_t")] && p.log == p.written && p.skipped == []
  {
    hide Ran, ItemId;
    var env := Env(LastOnly, (_, _) => Wrote);
    var run := IssueRun(Ascii("open"), Ascii("shut"));
    var r, s := IssueRecord(Ascii("open")), IssueRecord(Ascii("shut"));
    assert run.ingest(run.configs[0]) == Some([r, s]);
    assert NoteId(env, r) == Ascii("conn_n") && NoteId(env, s) == Ascii("conn_t");
    assert Ascii("conn_n")[5] != Ascii("conn_t")[5];
    NothingLoaded();
    TwoNew(env, run, run.configs[0], r, s, [], 0);
  }
}
