/** The operations of `packages/tekmemo/src/fs/node-fs-memory-store.ts` that change files. */
module MemoryStore {
  import opened Optional
  import PathLock

  // Every one of them runs inside `PathLock.runExclusive` of its absolute path.
  // Inside the lock a task reaches the disk in its own time.  A write takes effect
  // at the rename, a delete at the removal (removing what is absent is a success),
  // while an append first opens the file, creating it if need be, and then writes
  // its content in pieces, so that a task that fails may have written a part.

  type Path = PathLock.Key
  type Ticket = PathLock.Ticket
  type Content = string

  datatype Op = Write(content: Content) | Append(content: Content) | Delete

  /**
   How far each operation has got: `None` while the file is untouched, and then
   the number of characters an append has written (0 for a write or a delete).
   */
  type Progress = Option<nat>

  datatype State = State(lock: PathLock.State, ops: seq<Op>, progress: seq<Progress>, files: map<Path, Content>)

  function Init(files: map<Path, Content>): State {
    State(PathLock.INIT, [], [], files)
  }

  datatype Event =
    | Enter(path: Path, op: Op)
    | Begin(t: Ticket)
    | Touch(t: Ticket, n: nat)
    | Finish(t: Ticket, ok: bool)
    | Settle(t: Ticket)

  predicate Shaped(s: State) {
    |s.ops| == |s.lock.calls| == |s.progress|
  }

  function Get(files: map<Path, Content>, p: Path): Option<Content> {
    if p in files then Some(files[p]) else None
  }

  function Put(files: map<Path, Content>, p: Path, c: Option<Content>): map<Path, Content> {
    match c
    case None => files - {p}
    case Some(text) => files[p := text]
  }

  function TextOf(c: Option<Content>): Content {
    if c.Some? then c.value else ""
  }

  predicate Complete(op: Op, g: Progress) {
    if op.Append? then g == Some(|op.content|) else g.Some?
  }

  predicate TouchEnabled(op: Op, g: Progress, n: nat) {
    match op
    case Append(c) => if g.None? then n == 0 else n > 0 && g.value + n <= |c|
    case _ => g.None? && n == 0
  }

  predicate Enabled(s: State, e: Event) {
    Shaped(s) &&
    match e
    case Enter(_, op) => op != Append("")
    case Begin(t) => PathLock.Enabled(s.lock, PathLock.Start(t))
    case Touch(t, n) => t < |s.ops| && s.lock.calls[t].phase.Running? && TouchEnabled(s.ops[t], s.progress[t], n)
    case Finish(t, ok) =>
      && PathLock.Enabled(s.lock, PathLock.Finish(t, ok))
      && (if ok then Complete(s.ops[t], s.progress[t]) else s.ops[t].Append? || s.progress[t].None?)
    case Settle(t) => PathLock.Enabled(s.lock, PathLock.Settle(t))
  }

  /** What one access to the disk makes of the file. */
  function Touched(op: Op, g: Progress, n: nat, file: Option<Content>): Option<Content>
    requires TouchEnabled(op, g, n)
  {
    match op
    case Write(c) => Some(c)
    case Delete => None
    case Append(c) =>
      if g.None? then Some(TextOf(file)) else Some(TextOf(file) + c[g.value..g.value + n])
  }

  function Advance(g: Progress, n: nat): Progress {
    if g.None? then Some(0) else Some(g.value + n)
  }

  function Next(s: State, e: Event): State
    requires Enabled(s, e)
  {
    match e
    case Enter(p, op) =>
      State(PathLock.Next(s.lock, PathLock.Arrive(p)), s.ops + [op], s.progress + [None], s.files)
    case Begin(t) => s.(lock := PathLock.Next(s.lock, PathLock.Start(t)))
    case Touch(t, n) =>
      var p := s.lock.calls[t].key;
      s.(progress := s.progress[t := Advance(s.progress[t], n)],
         files := Put(s.files, p, Touched(s.ops[t], s.progress[t], n, Get(s.files, p))))
    case Finish(t, ok) => s.(lock := PathLock.Next(s.lock, PathLock.Finish(t, ok)))
    case Settle(t) => s.(lock := PathLock.Next(s.lock, PathLock.Settle(t)))
  }

  function Exec(s: State, run: seq<Event>): Option<State>
    decreases |run|
  {
    if run == [] then Some(s)
    else
      match Exec(s, run[..|run| - 1])
      case None => None
      case Some(m) => if Enabled(m, run[|run| - 1]) then Some(Next(m, run[|run| - 1])) else None
  }

  // ---------------------------------------------------------------- the class

  class NodeFsMemoryStore {
    const locks: PathLock.Lock
    var ops: seq<Op>
    var progress: seq<Progress>
    var files: map<Path, Content>

    ghost function View(): State
      reads this, locks
    {
      State(locks.View(), ops, progress, files)
    }

    constructor (files: map<Path, Content>)
      ensures View() == Init(files)
      ensures fresh(locks)
    {
      locks := new PathLock.Lock();
      ops, progress := [], [];
      this.files := files;
    }

    method Queue(path: Path, op: Op) returns (t: Ticket)
      requires Enabled(View(), Enter(path, op))
      modifies this, locks
      ensures View() == Next(old(View()), Enter(path, op))
      ensures t == |old(ops)|
    {
      t := locks.Enter(path);
      ops := ops + [op];
      progress := progress + [None];
    }

    method Write(path: Path, content: Content) returns (t: Ticket)
      requires Shaped(View())
      modifies this, locks
      ensures View() == Next(old(View()), Enter(path, Op.Write(content))) && t == |old(ops)|
    {
      t := Queue(path, Op.Write(content));
    }

    /** Appending nothing returns without entering the lock. */
    method Append(path: Path, content: Content) returns (t: Option<Ticket>)
      requires Shaped(View())
      modifies this, locks
      ensures content == "" ==> t == None && View() == old(View())
      ensures content != "" ==> t == Some(|old(ops)|) && View() == Next(old(View()), Enter(path, Op.Append(content)))
    {
      if |content| == 0 {
        return None;
      }
      var ticket := Queue(path, Op.Append(content));
      t := Some(ticket);
    }

    method Delete(path: Path) returns (t: Ticket)
      requires Shaped(View())
      modifies this, locks
      ensures View() == Next(old(View()), Enter(path, Op.Delete)) && t == |old(ops)|
    {
      t := Queue(path, Op.Delete);
    }

    method BeginTask(t: Ticket)
      requires Enabled(View(), Begin(t))
      modifies locks
      ensures View() == Next(old(View()), Begin(t))
    {
      locks.Begin(t);
    }

    method TouchFile(t: Ticket, n: nat)
      requires Enabled(View(), Touch(t, n))
      modifies this
      ensures View() == Next(old(View()), Touch(t, n))
    {
      var path := locks.calls[t].key;
      var text := if path in files then files[path] else "";
      match ops[t] {
        case Write(content) => files := files[path := content];
        case Delete => files := files - {path};
        case Append(content) =>
          if progress[t].None? {
            files := files[path := text];
          } else {
            files := files[path := text + content[progress[t].value..progress[t].value + n]];
          }
      }
      progress := progress[t := if progress[t].None? then Some(0) else Some(progress[t].value + n)];
    }

    method EndTask(t: Ticket, ok: bool)
      requires Enabled(View(), Finish(t, ok))
      modifies locks
      ensures View() == Next(old(View()), Finish(t, ok))
    {
      locks.Leave(t, ok);
    }

    method SettleTask(t: Ticket)
      requires Enabled(View(), Settle(t))
      modifies locks
      ensures View() == Next(old(View()), Settle(t))
    {
      locks.SettleQueued(t);
    }
  }

  // ---------------------------------------------------------- what is on record

  /** What a run tells of a call: its path and operation, how far it got, and how it ended. */
  datatype Report = Report(path: Path, op: Op, progress: Progress, ok: Option<bool>)

  /** Told by the events alone, in order of arrival. */
  function Reports(run: seq<Event>): seq<Report> {
    if run == [] then []
    else
      var before := Reports(run[..|run| - 1]);
      match run[|run| - 1]
      case Enter(p, op) => before + [Report(p, op, None, None)]
      case Touch(t, n) =>
        if t < |before| then before[t := before[t].(progress := if before[t].progress.None? then Some(n) else Some(before[t].progress.value + n))]
        else before
      case Finish(t, ok) => if t < |before| then before[t := before[t].(ok := Some(ok))] else before
      case _ => before
  }

  function Ending(phase: PathLock.Phase): Option<bool> {
    if phase.Done? then Some(phase.ok) else None
  }

  /** The same as the state has it. */
  function Recorded(s: State): seq<Report>
    requires Shaped(s)
  {
    seq(|s.ops|, t requires 0 <= t < |s.ops| => Report(s.lock.calls[t].key, s.ops[t], s.progress[t], Ending(s.lock.calls[t].phase)))
  }

  lemma RecordedNext(s: State, e: Event)
    requires Shaped(s) && Enabled(s, e)
    ensures Shaped(Next(s, e))
    ensures var before, after := Recorded(s), Recorded(Next(s, e));
            match e
            case Enter(p, op) => after == before + [Report(p, op, None, None)]
            case Touch(t, n) =>
              && t < |before|
              && after == before[t := before[t].(progress := if before[t].progress.None? then Some(n) else Some(before[t].progress.value + n))]
            case Finish(t, ok) => t < |before| && after == before[t := before[t].(ok := Some(ok))]
            case _ => after == before
  {
  }

  /** The state records every call as it was made: its path, its operation, its progress and its end. */
  lemma {:induction false} RecordedAsMade(files: map<Path, Content>, run: seq<Event>)
    requires Exec(Init(files), run).Some?
    ensures Shaped(Exec(Init(files), run).value) && Recorded(Exec(Init(files), run).value) == Reports(run)
    decreases |run|
  {
    hide Next, Enabled, Recorded;
    if run == [] {
      assert Recorded(Init(files)) == [] by { NothingRecorded(files); }
    } else {
      var n := |run| - 1;
      RecordedAsMade(files, run[..n]);
      RecordedNext(Exec(Init(files), run[..n]).value, run[n]);
    }
  }

  lemma NothingRecorded(files: map<Path, Content>)
    ensures Shaped(Init(files)) && Recorded(Init(files)) == []
  {
  }

  // ------------------------------------------------------- sequential meaning

  /** What an operation that got as far as `g` makes of a file, taken alone. */
  function Effect(op: Op, g: Progress, file: Option<Content>): Option<Content> {
    if g.None? then file
    else
      match op
      case Write(c) => Some(c)
      case Delete => None
      case Append(c) => Some(TextOf(file) + (if g.value <= |c| then c[..g.value] else c))
  }

  /** The operations of one path among the first `n` calls, replayed one after the other. */
  function Replay(start: Option<Content>, rs: seq<Report>, p: Path, n: nat): Option<Content>
    requires n <= |rs|
  {
    if n == 0 then start
    else
      var before := Replay(start, rs, p, n - 1);
      if rs[n - 1].path == p then Effect(rs[n - 1].op, rs[n - 1].progress, before) else before
  }

  /** The same, but of the operations that succeeded, each in full. */
  function ReplaySucceeded(start: Option<Content>, rs: seq<Report>, p: Path, n: nat): Option<Content>
    requires n <= |rs|
  {
    if n == 0 then start
    else
      var before := ReplaySucceeded(start, rs, p, n - 1);
      if rs[n - 1].path == p && rs[n - 1].ok == Some(true) then FullEffect(rs[n - 1].op, before) else before
  }

  function FullEffect(op: Op, file: Option<Content>): Option<Content> {
    match op
    case Write(c) => Some(c)
    case Delete => None
    case Append(c) => Some(TextOf(file) + c)
  }

  // ------------------------------------------------------------ the invariant

  ghost predicate CallOk(s: State, t: Ticket)
    requires Shaped(s) && t < |s.ops|
  {
    (s.lock.calls[t].phase.Waiting? ==> s.progress[t].None?) && ReportOk(Recorded(s)[t])
  }

  predicate ReportOk(r: Report) {
    && (r.op.Append? && r.progress.Some? ==> r.progress.value <= |r.op.content|)
    && (r.ok == Some(true) ==> Complete(r.op, r.progress))
    && (r.ok == Some(false) && !r.op.Append? ==> r.progress.None?)
  }

  ghost predicate Inv(s: State, files: map<Path, Content>) {
    && Shaped(s) && PathLock.Inv(s.lock)
    && (forall t {:trigger CallOk(s, t)} :: 0 <= t < |s.ops| ==> CallOk(s, t))
    && (forall p :: Get(s.files, p) == Replay(Get(files, p), Recorded(s), p, |s.ops|))
  }

  /** Replaying depends only on the operations of that path. */
  lemma {:induction false} ReplayFrame(start: Option<Content>, a: seq<Report>, b: seq<Report>, p: Path, n: nat)
    requires n <= |a| && n <= |b|
    requires forall t :: 0 <= t < n ==> a[t].path == b[t].path
    requires forall t :: 0 <= t < n && a[t].path == p ==> a[t].op == b[t].op && a[t].progress == b[t].progress
    ensures Replay(start, a, p, n) == Replay(start, b, p, n)
  {
    if n > 0 { ReplayFrame(start, a, b, p, n - 1); }
  }

  /** Calls of the path that have not touched the file do not matter. */
  lemma {:induction false} UntouchedTail(start: Option<Content>, rs: seq<Report>, p: Path, m: nat, n: nat)
    requires m <= n <= |rs|
    requires forall t :: m <= t < n && rs[t].path == p ==> rs[t].progress.None?
    ensures Replay(start, rs, p, n) == Replay(start, rs, p, m)
  {
    if m < n { UntouchedTail(start, rs, p, m, n - 1); }
  }

  lemma LaterUntouched(s: State, files: map<Path, Content>, t: Ticket, i: Ticket)
    requires Inv(s, files) && t < i < |s.ops|
    requires s.lock.calls[i].key == s.lock.calls[t].key && !s.lock.calls[t].phase.Done?
    ensures s.progress[i].None?
  {
    assert CallOk(s, i);
    if !s.lock.calls[i].phase.Waiting? { PathLock.StartedEarlierDone(s.lock, t, i); }
  }

  /** One more access to the disk takes the effect of an operation one piece further. */
  lemma TouchAdvances(op: Op, g: Progress, n: nat, base: Option<Content>)
    requires TouchEnabled(op, g, n)
    ensures Touched(op, g, n, Effect(op, g, base)) == Effect(op, Advance(g, n), base)
  {
    if op.Append? {
      var c := op.content;
      if g.Some? {
        assert c[..g.value] + c[g.value..g.value + n] == c[..g.value + n];
        assert TextOf(base) + c[..g.value] + c[g.value..g.value + n] == TextOf(base) + c[..g.value + n];
      } else {
        assert TextOf(base) + c[..0] == TextOf(base);
      }
    }
  }

  lemma TouchMatchesReplay(s: State, files: map<Path, Content>, t: Ticket, n: nat)
    requires Inv(s, files) && Enabled(s, Touch(t, n))
    ensures var s' := Next(s, Touch(t, n)); var p := s.lock.calls[t].key;
            Get(s'.files, p) == Replay(Get(files, p), Recorded(s'), p, |s.ops|)
  {
    hide Touched, Effect, TouchEnabled, PathLock.Inv;
    var s' := Next(s, Touch(t, n));
    var rs, rs' := Recorded(s), Recorded(s');
    var p := s.lock.calls[t].key;
    var start := Get(files, p);
    forall i | t + 1 <= i < |s.ops| && s.lock.calls[i].key == p
      ensures s.progress[i].None?
    {
      LaterUntouched(s, files, t, i);
    }
    UntouchedTail(start, rs, p, t + 1, |s.ops|);
    UntouchedTail(start, rs', p, t + 1, |s.ops|);
    ReplayFrame(start, rs, rs', p, t);
    TouchAdvances(s.ops[t], s.progress[t], n, Replay(start, rs, p, t));
  }

  lemma LockStep(s: State, e: Event)
    requires Enabled(s, e) && PathLock.Inv(s.lock)
    ensures PathLock.Inv(Next(s, e).lock)
  {
    match e
    case Enter(p, _) => PathLock.InvNext(s.lock, PathLock.Arrive(p));
    case Begin(t) => PathLock.InvNext(s.lock, PathLock.Start(t));
    case Finish(t, ok) => PathLock.InvNext(s.lock, PathLock.Finish(t, ok));
    case Settle(t) => PathLock.InvNext(s.lock, PathLock.Settle(t));
    case Touch(_, _) =>
  }

  lemma CallsStep(s: State, e: Event, files: map<Path, Content>)
    requires Inv(s, files) && Enabled(s, e)
    ensures var s' := Next(s, e); Shaped(s') && forall t {:trigger CallOk(s', t)} :: 0 <= t < |s'.ops| ==> CallOk(s', t)
  {
    var s' := Next(s, e);
    forall t | 0 <= t < |s'.ops|
      ensures CallOk(s', t)
    {
      if t < |s.ops| { assert CallOk(s, t); }
    }
  }

  lemma InvNext(s: State, e: Event, files: map<Path, Content>)
    requires Inv(s, files) && Enabled(s, e)
    ensures Inv(Next(s, e), files)
  {
    hide CallOk, PathLock.Inv, Recorded, Touched, Replay, Effect, TouchEnabled, Complete;
    var s' := Next(s, e);
    LockStep(s, e);
    CallsStep(s, e, files);
    RecordedNext(s, e);
    RecordedLength(s);
    RecordedLength(s');
    forall p
      ensures Get(s'.files, p) == Replay(Get(files, p), Recorded(s'), p, |s'.ops|)
    {
      LastEntered(Get(files, p), Recorded(s'), p);
      assert Get(s.files, p) == Replay(Get(files, p), Recorded(s), p, |s.ops|);
      if e.Touch? && s.lock.calls[e.t].key == p {
        TouchMatchesReplay(s, files, e.t, e.n);
      } else {
        ReplayFrame(Get(files, p), Recorded(s), Recorded(s'), p, |s.ops|);
      }
    }
  }

  /** A call that has only entered makes no difference. */
  lemma LastEntered(start: Option<Content>, rs: seq<Report>, p: Path)
    ensures rs != [] && rs[|rs| - 1].progress.None? ==> Replay(start, rs, p, |rs|) == Replay(start, rs, p, |rs| - 1)
  {
  }

  lemma {:induction false} InvReachable(files: map<Path, Content>, run: seq<Event>)
    requires Exec(Init(files), run).Some?
    ensures Inv(Exec(Init(files), run).value, files)
    decreases |run|
  {
    if run != [] {
      InvReachable(files, run[..|run| - 1]);
      InvNext(Exec(Init(files), run[..|run| - 1]).value, run[|run| - 1], files);
    }
  }

  /**
   Whatever the interleaving, at every moment each file holds what a sequential
   replay of the calls made for that path, in the order in which they entered the
   lock and as far as each has got, would have made of it.
   */
  lemma Linearizable(files: map<Path, Content>, run: seq<Event>, p: Path)
    requires Exec(Init(files), run).Some?
    ensures Get(Exec(Init(files), run).value.files, p) == Replay(Get(files, p), Reports(run), p, |Reports(run)|)
  {
    hide Exec, Recorded, Reports;
    InvReachable(files, run);
    RecordedAsMade(files, run);
    RecordedLength(Exec(Init(files), run).value);
  }

  lemma RecordedLength(s: State)
    requires Shaped(s)
    ensures |Recorded(s)| == |s.ops| && forall t :: 0 <= t < |s.ops| ==> Recorded(s)[t].path == s.lock.calls[t].key
  {
  }

  // -------------------------------------------------- once every call has ended

  /** All calls made have ended. */
  predicate AllEnded(rs: seq<Report>) {
    forall t :: 0 <= t < |rs| ==> rs[t].ok.Some?
  }

  ghost predicate AllReportsOk(rs: seq<Report>) {
    forall t :: 0 <= t < |rs| ==> ReportOk(rs[t])
  }

  lemma ReportsOk(files: map<Path, Content>, run: seq<Event>)
    requires Exec(Init(files), run).Some?
    ensures AllReportsOk(Reports(run))
  {
    hide Exec, Reports, ReportOk;
    InvReachable(files, run);
    RecordedAsMade(files, run);
    var s := Exec(Init(files), run).value;
    forall t | 0 <= t < |Reports(run)|
      ensures ReportOk(Reports(run)[t])
    {
      assert CallOk(s, t);
    }
  }

  /** The operations of the path from here on are those after its last write or delete that succeeded. */
  function LastReset(rs: seq<Report>, p: Path, n: nat): (l: nat)
    requires n <= |rs|
    ensures l <= n
  {
    if n == 0 then 0
    else if rs[n - 1].path == p && rs[n - 1].ok == Some(true) && !rs[n - 1].op.Append? then n
    else LastReset(rs, p, n - 1)
  }

  /** A failed append of the path that has opened the file, and so created it. */
  predicate Opened(rs: seq<Report>, p: Path, t: Ticket)
    requires t < |rs|
  {
    rs[t].path == p && rs[t].op.Append? && rs[t].ok == Some(false) && rs[t].progress.Some?
  }

  /** ... and that has written some of its content. */
  predicate WrotePart(rs: seq<Report>, p: Path, t: Ticket)
    requires t < |rs|
  {
    Opened(rs, p, t) && rs[t].progress != Some(0)
  }

  ghost predicate SomeOpened(rs: seq<Report>, p: Path, from: nat, to: nat)
    requires to <= |rs|
  {
    exists t :: from <= t < to && Opened(rs, p, t)
  }

  ghost predicate SomeWrotePart(rs: seq<Report>, p: Path, from: nat, to: nat)
    requires to <= |rs|
  {
    exists t :: from <= t < to && WrotePart(rs, p, t)
  }

  /** Up to a successful write or delete the two replays come to the same, whatever was left behind before. */
  lemma {:induction false} ResetForgets(start: Option<Content>, rs: seq<Report>, p: Path, n: nat)
    requires AllReportsOk(rs) && n <= |rs|
    ensures var l := LastReset(rs, p, n); Replay(start, rs, p, l) == ReplaySucceeded(start, rs, p, l)
  {
    if n > 0 {
      ResetForgets(start, rs, p, n - 1);
      assert ReportOk(rs[n - 1]);
    }
  }

  lemma {:induction false} NoResetSince(rs: seq<Report>, p: Path, n: nat, t: Ticket)
    requires n <= |rs| && LastReset(rs, p, n) <= t < n
    ensures rs[t].path == p && rs[t].ok == Some(true) ==> rs[t].op.Append?
  {
    if t < n - 1 { NoResetSince(rs, p, n - 1, t); }
  }

  /** How far one content may run ahead of the other when parts were written, or files opened, that the other has not. */
  predicate Ahead(all: Option<Content>, some: Option<Content>, wrote: bool, created: bool) {
    && (if wrote then |TextOf(all)| > |TextOf(some)| else TextOf(all) == TextOf(some))
    && (some.Some? ==> all.Some?)
    && (some.None? ==> (all.Some? <==> created))
  }

  lemma AheadStep(op: Op, g: Progress, ok: bool, all: Option<Content>, some: Option<Content>, wrote: bool, created: bool)
    requires Ahead(all, some, wrote, created)
    requires if op.Append? then g.Some? ==> g.value <= |op.content| else !ok && g.None?
    requires ok ==> Complete(op, g)
    ensures Ahead(Effect(op, g, all), if ok then FullEffect(op, some) else some,
                  wrote || (!ok && g.Some? && g != Some(0)), created || (!ok && g.Some?))
  {
    if op.Append? && g.Some? { assert g.value == |op.content| ==> op.content[..g.value] == op.content; }
  }

  /** Both replays, from where they agree on, while appends only succeed. */
  lemma {:induction false} Diverge(start: Option<Content>, rs: seq<Report>, p: Path, l: nat, n: nat)
    requires AllReportsOk(rs) && AllEnded(rs) && l <= n <= |rs|
    requires Replay(start, rs, p, l) == ReplaySucceeded(start, rs, p, l)
    requires forall t :: l <= t < n && rs[t].path == p && rs[t].ok == Some(true) ==> rs[t].op.Append?
    ensures Ahead(Replay(start, rs, p, n), ReplaySucceeded(start, rs, p, n), SomeWrotePart(rs, p, l, n), SomeOpened(rs, p, l, n))
  {
    hide SomeOpened, SomeWrotePart, Effect, FullEffect, Ahead;
    if l < n {
      Diverge(start, rs, p, l, n - 1);
      assert ReportOk(rs[n - 1]);
      OneMoreOpened(rs, p, l, n);
      if rs[n - 1].path == p {
        AheadStep(rs[n - 1].op, rs[n - 1].progress, rs[n - 1].ok.value, Replay(start, rs, p, n - 1), ReplaySucceeded(start, rs, p, n - 1),
                  SomeWrotePart(rs, p, l, n - 1), SomeOpened(rs, p, l, n - 1));
      }
    } else {
      NoneOpened(rs, p, l);
      assert Ahead(Replay(start, rs, p, n), ReplaySucceeded(start, rs, p, n), false, false) by { NotAhead(Replay(start, rs, p, n)); }
    }
  }

  lemma NotAhead(c: Option<Content>)
    ensures Ahead(c, c, false, false)
  {
  }

  lemma NoneOpened(rs: seq<Report>, p: Path, l: nat)
    requires l <= |rs|
    ensures !SomeOpened(rs, p, l, l) && !SomeWrotePart(rs, p, l, l)
  {
  }

  lemma OneMoreOpened(rs: seq<Report>, p: Path, l: nat, n: nat)
    requires l < n <= |rs|
    ensures SomeOpened(rs, p, l, n) <==> SomeOpened(rs, p, l, n - 1) || Opened(rs, p, n - 1)
    ensures SomeWrotePart(rs, p, l, n) <==> SomeWrotePart(rs, p, l, n - 1) || WrotePart(rs, p, n - 1)
  {
  }

  /**
   When all calls made have ended, a path holds the sequential fold of its
   successful operations in order of arrival exactly when no failed append since
   its last successful write or delete (or since the start) wrote a part, and none
   of them created a file that the fold has not.
   */
  lemma SettledContents(files: map<Path, Content>, run: seq<Event>, p: Path)
    requires Exec(Init(files), run).Some? && AllEnded(Reports(run))
    ensures var rs, n := Reports(run), |Reports(run)|;
            var l, fold := LastReset(rs, p, n), ReplaySucceeded(Get(files, p), rs, p, n);
            Get(Exec(Init(files), run).value.files, p) == fold <==>
              !SomeWrotePart(rs, p, l, n) && (SomeOpened(rs, p, l, n) ==> fold.Some?)
  {
    hide Exec, Reports, SomeWrotePart, SomeOpened, AllEnded, AllReportsOk;
    Linearizable(files, run, p);
    ReportsOk(files, run);
    var rs, n := Reports(run), |Reports(run)|;
    var l := LastReset(rs, p, n);
    ResetForgets(Get(files, p), rs, p, n);
    forall t | l <= t < n && rs[t].path == p && rs[t].ok == Some(true)
      ensures rs[t].op.Append?
    {
      NoResetSince(rs, p, n, t);
    }
    Diverge(Get(files, p), rs, p, l, n);
  }

  lemma {:induction false} OtherPathsTail(start: Option<Content>, rs: seq<Report>, p: Path, m: nat, n: nat)
    requires m <= n <= |rs| && forall t :: m <= t < n ==> rs[t].path != p
    ensures Replay(start, rs, p, n) == Replay(start, rs, p, m)
  {
    if m < n { OtherPathsTail(start, rs, p, m, n - 1); }
  }

  /**
   After any run, the last call made for a path, if it succeeded, decides the file:
   a write leaves the content it was called with, a delete no file, and an append
   what was there with its content at the end.
   */
  lemma LastCallDecides(files: map<Path, Content>, run: seq<Event>, t: Ticket)
    requires Exec(Init(files), run).Some? && t < |Reports(run)| && Reports(run)[t].ok == Some(true)
    requires forall i :: t < i < |Reports(run)| ==> Reports(run)[i].path != Reports(run)[t].path
    ensures var p, file := Reports(run)[t].path, Get(Exec(Init(files), run).value.files, Reports(run)[t].path);
            match Reports(run)[t].op
            case Write(c) => file == Some(c)
            case Delete => file == None
            case Append(c) => file == Some(TextOf(Replay(Get(files, p), Reports(run), p, t)) + c)
  {
    hide Exec, Reports, AllReportsOk;
    var rs, p := Reports(run), Reports(run)[t].path;
    Linearizable(files, run, p);
    ReportsOk(files, run);
    assert ReportOk(rs[t]) by { EachReportOk(rs, t); }
    OtherPathsTail(Get(files, p), rs, p, t + 1, |rs|);
    if rs[t].op.Append? { assert rs[t].op.content[..|rs[t].op.content|] == rs[t].op.content; }
  }

  lemma EachReportOk(rs: seq<Report>, t: Ticket)
    requires AllReportsOk(rs) && t < |rs|
    ensures ReportOk(rs[t])
  {
  }

  /** The contents of a path's appends among the first `n` calls, joined in order of arrival. */
  function Appended(rs: seq<Report>, p: Path, n: nat): Content
    requires n <= |rs|
  {
    if n == 0 then ""
    else Appended(rs, p, n - 1) + (if rs[n - 1].path == p && rs[n - 1].op.Append? then rs[n - 1].op.content else "")
  }

  lemma {:induction false} AppendedIsReplay(start: Option<Content>, rs: seq<Report>, p: Path, n: nat)
    requires AllReportsOk(rs) && n <= |rs|
    requires forall t :: 0 <= t < n && rs[t].path == p ==> rs[t].op.Append? && rs[t].ok == Some(true)
    ensures TextOf(Replay(start, rs, p, n)) == TextOf(start) + Appended(rs, p, n)
  {
    if n > 0 {
      AppendedIsReplay(start, rs, p, n - 1);
      var before := Appended(rs, p, n - 1);
      if rs[n - 1].path == p {
        var c := rs[n - 1].op.content;
        assert ReportOk(rs[n - 1]);
        assert c[..|c|] == c;
        assert (TextOf(start) + before) + c == TextOf(start) + (before + c);
      } else {
        assert before + "" == before;
      }
    }
  }

  /** Concurrent appends lose nothing and write nothing twice: of all the calls made for a path none is missing. */
  lemma AppendsKeepEverything(files: map<Path, Content>, run: seq<Event>, p: Path)
    requires Exec(Init(files), run).Some?
    requires forall r :: r in Reports(run) && r.path == p ==> r.op.Append? && r.ok == Some(true)
    ensures TextOf(Get(Exec(Init(files), run).value.files, p))
         == TextOf(Get(files, p)) + Appended(Reports(run), p, |Reports(run)|)
  {
    hide Exec, Replay, Reports, AllReportsOk;
    Linearizable(files, run, p);
    ReportsOk(files, run);
    var rs := Reports(run);
    forall t | 0 <= t < |rs| && rs[t].path == p
      ensures rs[t].op.Append? && rs[t].ok == Some(true)
    {
      assert rs[t] in rs;
    }
    AppendedIsReplay(Get(files, p), rs, p, |rs|);
  }

  lemma ExecStep(s: State, run: seq<Event>, m: State, e: Event)
    requires Exec(s, run) == Some(m) && Enabled(m, e)
    ensures Exec(s, run + [e]) == Some(Next(m, e))
  {
    assert (run + [e])[..|run|] == run;
  }

  /** An append of two characters that fails after the first. */
  function FailingRun(): (run: seq<Event>)
    ensures |run| == 6
  {
    [Enter("log", Append("ab")), Begin(0), Touch(0, 0), Touch(0, 1), Finish(0, false), Settle(0)]
  }

  /** After `k` of these steps. */
  function FailingState(k: nat): State {
    if k == 0 then Init(map[])
    else
      var phase := if k < 2 then PathLock.Waiting else if k < 5 then PathLock.Running else PathLock.Done(false);
      var lock := PathLock.State(if k < 5 then map["log" := 0] else map[], [PathLock.Call("log", None, phase, k >= 6)], if k < 2 then [] else [0]);
      State(lock, [Append("ab")], [if k < 3 then None else if k < 4 then Some(0) else Some(1)],
            if k < 3 then map[] else if k < 4 then map["log" := ""] else map["log" := "a"])
  }

  lemma EarlyStep(k: nat)
    requires k < 3
    ensures Enabled(FailingState(k), FailingRun()[k]) && Next(FailingState(k), FailingRun()[k]) == FailingState(k + 1)
  {
  }

  lemma LateStep(k: nat)
    requires 3 <= k < 6
    ensures Enabled(FailingState(k), FailingRun()[k]) && Next(FailingState(k), FailingRun()[k]) == FailingState(k + 1)
  {
    if k == 3 { assert "" + "ab"[0..1] == "a"; }
    if k == 4 { assert map["log" := 0 as PathLock.Ticket] - {"log"} == map[]; }
  }

  lemma {:induction false} FailingSteps(k: nat)
    requires k <= 6
    ensures Exec(Init(map[]), FailingRun()[..k]) == Some(FailingState(k))
  {
    hide Exec, Next, Enabled, FailingRun;
    if k == 0 {
      NothingDone(Init(map[]));
    } else {
      FailingSteps(k - 1);
      if k <= 3 { EarlyStep(k - 1); } else { LateStep(k - 1); }
      ExecStep(Init(map[]), FailingRun()[..k - 1], FailingState(k - 1), FailingRun()[k - 1]);
      assert FailingRun()[..k] == FailingRun()[..k - 1] + [FailingRun()[k - 1]];
    }
  }

  /** A failed append that has written a part: the file keeps the part. */
  lemma PartialAppendWitness() returns (run: seq<Event>)
    ensures Exec(Init(map[]), run).Some?
    ensures var s := Exec(Init(map[]), run).value;
            && s.ops == [Append("ab")] && s.lock.calls == [PathLock.Call("log", None, PathLock.Done(false), true)]
            && Get(s.files, "log") == Some("a")
    ensures Reports(run) == [Report("log", Append("ab"), Some(1), Some(false))] && ReplaySucceeded(None, Reports(run), "log", 1) == None
  {
    hide Exec, Reports;
    run := FailingRun();
    FailingSteps(6);
    assert run[..6] == run;
    RecordedAsMade(map[], run);
  }

  lemma NothingDone(s: State)
    ensures Exec(s, []) == Some(s)
  {
  }
}
