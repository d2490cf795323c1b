/** The per-key mutex of `tooling/utils/src/paths.ts`. */
module PathLock {
  import opened Optional

  // A call to `runExclusive` is a ticket, numbered in order of arrival.  What the
  // source does between two awaits is one atomic step: it arrives (reads and sets
  // the queue entry), starts its task (the promise it chained on has settled),
  // finishes (releases, and deletes the entry if it is still its own) and, some
  // time later, its queued promise settles.  A run is any sequence of enabled
  // steps of any calls.

  type Key = string
  type Ticket = nat

  datatype Phase = Waiting | Running | Done(ok: bool)

  /** `prev` is the promise the call chained on: the entry it found, or none. */
  datatype Call = Call(key: Key, prev: Option<Ticket>, phase: Phase, settled: bool)

  /** `starts` records the tickets in the order in which their tasks began. */
  datatype State = State(queues: map<Key, Ticket>, calls: seq<Call>, starts: seq<Ticket>)

  const INIT := State(map[], [], [])

  datatype Event =
    | Arrive(key: Key)
    | Start(t: Ticket)
    | Finish(t: Ticket, ok: bool)
    | Settle(t: Ticket)

  /** The promise this call chained on has settled. */
  predicate PrevSettled(s: State, t: Ticket)
    requires t < |s.calls|
  {
    match s.calls[t].prev
    case None => true
    case Some(p) => p < |s.calls| && s.calls[p].settled
  }

  predicate Enabled(s: State, e: Event) {
    match e
    case Arrive(_) => true
    case Start(t) => t < |s.calls| && s.calls[t].phase.Waiting? && PrevSettled(s, t)
    case Finish(t, _) => t < |s.calls| && s.calls[t].phase.Running?
    case Settle(t) => t < |s.calls| && s.calls[t].phase.Done? && !s.calls[t].settled && PrevSettled(s, t)
  }

  function Lookup(queues: map<Key, Ticket>, key: Key): Option<Ticket> {
    if key in queues then Some(queues[key]) else None
  }

  function Next(s: State, e: Event): State
    requires Enabled(s, e)
  {
    match e
    case Arrive(key) =>
      s.(queues := s.queues[key := |s.calls|],
         calls := s.calls + [Call(key, Lookup(s.queues, key), Waiting, false)])
    case Start(t) =>
      s.(calls := s.calls[t := s.calls[t].(phase := Running)], starts := s.starts + [t])
    case Finish(t, ok) =>
      var key := s.calls[t].key;
      s.(calls := s.calls[t := s.calls[t].(phase := Done(ok))],
         queues := if Lookup(s.queues, key) == Some(t) then s.queues - {key} else s.queues)
    case Settle(t) =>
      s.(calls := s.calls[t := s.calls[t].(settled := true)])
  }

  /** The state after a run, if every step of it was enabled. */
  function Exec(s: State, run: seq<Event>): (r: Option<State>)
    decreases |run|
  {
    if run == [] then Some(s)
    else
      match Exec(s, run[..|run| - 1])
      case None => None
      case Some(m) => if Enabled(m, run[|run| - 1]) then Some(Next(m, run[|run| - 1])) else None
  }

  // ---------------------------------------------------------------- the class

  /** `queues` is the source's field; `calls` stands for the promises the calls hold. */
  class Lock {
    var queues: map<Key, Ticket>
    var calls: seq<Call>
    ghost var starts: seq<Ticket>

    ghost function View(): State
      reads this
    {
      State(queues, calls, starts)
    }

    constructor ()
      ensures View() == INIT
    {
      queues, calls, starts := map[], [], [];
    }

    /** The synchronous part of `runExclusive`, up to its first await. */
    method Enter(key: Key) returns (t: Ticket)
      modifies this
      ensures t == |old(calls)|
      ensures View() == Next(old(View()), Arrive(key))
    {
      var previous := if key in queues then Some(queues[key]) else None;
      t := |calls|;
      calls := calls + [Call(key, previous, Waiting, false)];
      queues := queues[key := t];
    }

    method Begin(t: Ticket)
      requires Enabled(View(), Start(t))
      modifies this
      ensures View() == Next(old(View()), Start(t))
    {
      calls := calls[t := calls[t].(phase := Running)];
      starts := starts + [t];
    }

    /** The `finally` block: release, then delete the entry only if it is still ours. */
    method Leave(t: Ticket, ok: bool)
      requires Enabled(View(), Finish(t, ok))
      modifies this
      ensures View() == Next(old(View()), Finish(t, ok))
    {
      calls := calls[t := calls[t].(phase := Done(ok))];
      var key := calls[t].key;
      if key in queues && queues[key] == t {
        queues := queues - {key};
      }
    }

    method SettleQueued(t: Ticket)
      requires Enabled(View(), Settle(t))
      modifies this
      ensures View() == Next(old(View()), Settle(t))
    {
      calls := calls[t := calls[t].(settled := true)];
    }

    /** In a reachable state `size()` counts the keys with an unfinished call. */
    method Size() returns (n: nat)
      requires Inv(View())
      ensures n == |BusyKeys(View())|
    {
      n := |queues|;
      EntryIffBusy(View());
    }
  }

  // ------------------------------------------------------------ the invariant

  predicate Unfinished(s: State, t: Ticket) {
    t < |s.calls| && !s.calls[t].phase.Done?
  }

  ghost predicate EarlierDone(s: State, t: Ticket)
    requires t < |s.calls|
  {
    forall i :: 0 <= i < t && s.calls[i].key == s.calls[t].key ==> s.calls[i].phase.Done?
  }

  ghost predicate LinkOk(s: State, t: Ticket)
    requires t < |s.calls|
  {
    match s.calls[t].prev
    case None => EarlierDone(s, t)
    case Some(p) =>
      && p < t && s.calls[p].key == s.calls[t].key
      && forall i :: p < i < t ==> s.calls[i].key != s.calls[t].key
  }

  ghost predicate EntryOk(s: State, k: Key)
    requires k in s.queues
  {
    && Unfinished(s, s.queues[k]) && s.calls[s.queues[k]].key == k
    && forall i :: s.queues[k] < i < |s.calls| ==> s.calls[i].key != k
  }

  ghost predicate Inv(s: State) {
    && (forall t {:trigger s.calls[t].settled} :: 0 <= t < |s.calls| && s.calls[t].settled ==> s.calls[t].phase.Done?)
    && (forall t {:trigger EarlierDone(s, t)} :: 0 <= t < |s.calls| && !s.calls[t].phase.Waiting? ==> EarlierDone(s, t))
    && (forall t {:trigger LinkOk(s, t)} :: 0 <= t < |s.calls| ==> LinkOk(s, t))
    && (forall k {:trigger EntryOk(s, k)} :: k in s.queues ==> EntryOk(s, k))
    && (forall t: Ticket {:trigger Unfinished(s, t)} :: Unfinished(s, t) ==> s.calls[t].key in s.queues)
  }

  lemma StartedEarlierDone(s: State, i: Ticket, t: Ticket)
    requires Inv(s) && i < t < |s.calls| && s.calls[i].key == s.calls[t].key && !s.calls[t].phase.Waiting?
    ensures s.calls[i].phase.Done?
  {
    assert EarlierDone(s, t);
  }

  /** A call may start only when every earlier call of its key has finished. */
  lemma StartNeedsEarlierDone(s: State, t: Ticket)
    requires Inv(s) && Enabled(s, Start(t))
    ensures EarlierDone(s, t)
  {
    assert LinkOk(s, t);
    match s.calls[t].prev
    case None =>
    case Some(p) =>
      forall i | 0 <= i < t && s.calls[i].key == s.calls[t].key
        ensures s.calls[i].phase.Done?
      {
        assert s.calls[p].settled;
        if i < p { StartedEarlierDone(s, i, p); }
      }
  }

  lemma InvArrive(s: State, key: Key)
    requires Inv(s)
    ensures Inv(Next(s, Arrive(key)))
  {
    var s' := Next(s, Arrive(key));
    var n := |s.calls|;
    forall t | 0 <= t < |s'.calls|
      ensures LinkOk(s', t)
      ensures !s'.calls[t].phase.Waiting? ==> EarlierDone(s', t)
    {
      if t < n {
        assert LinkOk(s, t);
        assert !s.calls[t].phase.Waiting? ==> EarlierDone(s, t);
        assert s.calls[t].prev.None? ==> EarlierDone(s, t);
      } else if key in s.queues {
        assert EntryOk(s, key);
      } else {
        forall i | 0 <= i < n && s.calls[i].key == key
          ensures s.calls[i].phase.Done?
        {
          assert !Unfinished(s, i);
        }
      }
    }
    forall k | k in s'.queues
      ensures EntryOk(s', k)
    {
      if k != key { assert EntryOk(s, k); }
    }
    forall t: Ticket | Unfinished(s', t)
      ensures s'.calls[t].key in s'.queues
    {
      assert t < n ==> Unfinished(s, t);
    }
  }

  /** A step that moves one call forward keeps what does not mention the queue map. */
  lemma InvUpdate(s: State, e: Event, t: Ticket)
    requires Inv(s) && Enabled(s, e) && !e.Arrive? && e.t == t
    ensures var s' := Next(s, e);
            && |s'.calls| == |s.calls|
            && (forall i :: 0 <= i < |s.calls| ==> s'.calls[i].key == s.calls[i].key && s'.calls[i].prev == s.calls[i].prev)
            && (forall i :: 0 <= i < |s.calls| ==> LinkOk(s', i))
            && (forall i {:trigger EarlierDone(s', i)} :: 0 <= i < |s.calls| && !s'.calls[i].phase.Waiting? ==> EarlierDone(s', i))
  {
    var s' := Next(s, e);
    if e.Start? { StartNeedsEarlierDone(s, t); }
    forall i | 0 <= i < |s.calls|
      ensures LinkOk(s', i)
      ensures !s'.calls[i].phase.Waiting? ==> EarlierDone(s', i)
    {
      assert LinkOk(s, i);
      assert EarlierDone(s, i) ==> EarlierDone(s', i);
      assert !s.calls[i].phase.Waiting? ==> EarlierDone(s, i);
    }
  }

  lemma InvNext(s: State, e: Event)
    requires Inv(s) && Enabled(s, e)
    ensures Inv(Next(s, e))
  {
    if e.Arrive? {
      InvArrive(s, e.key);
    } else {
      InvUpdate(s, e, e.t);
      var s' := Next(s, e);
      forall k | k in s'.queues
        ensures EntryOk(s', k)
      {
        assert EntryOk(s, k);
        assert s.calls[e.t].key in s.queues ==> EntryOk(s, s.calls[e.t].key);
      }
      forall i: Ticket | Unfinished(s', i)
        ensures s'.calls[i].key in s'.queues
      {
        assert Unfinished(s, i) && s.calls[i].key in s.queues;
        assert EntryOk(s, s.calls[i].key);
        if e.Finish? && s.calls[i].key == s.calls[e.t].key {
          if s.queues[s.calls[i].key] == e.t { StartedEarlierDone(s, i, e.t); }
        }
      }
    }
  }

  /** The invariant holds after every run, whatever the interleaving. */
  lemma {:induction false} InvReachable(run: seq<Event>)
    requires Exec(INIT, run).Some?
    ensures Inv(Exec(INIT, run).value)
    decreases |run|
  {
    if run != [] {
      InvReachable(run[..|run| - 1]);
      InvNext(Exec(INIT, run[..|run| - 1]).value, run[|run| - 1]);
    }
  }

  // ------------------------------------------------------ what the events tell

  /** What a run tells of a call: its key, how its task ended, and whether its promise has settled. */
  datatype Report = Report(key: Key, started: bool, ended: Option<bool>, settled: bool)

  /** Told by the events alone, in order of arrival. */
  function Reports(run: seq<Event>): seq<Report> {
    if run == [] then []
    else
      var before := Reports(run[..|run| - 1]);
      match run[|run| - 1]
      case Arrive(key) => before + [Report(key, false, None, false)]
      case Start(t) => if t < |before| then before[t := before[t].(started := true)] else before
      case Finish(t, ok) => if t < |before| then before[t := before[t].(ended := Some(ok))] else before
      case Settle(t) => if t < |before| then before[t := before[t].(settled := true)] else before
  }

  function ReportOf(c: Call): Report {
    Report(c.key, !c.phase.Waiting?, if c.phase.Done? then Some(c.phase.ok) else None, c.settled)
  }

  function Recorded(calls: seq<Call>): seq<Report> {
    seq(|calls|, t requires 0 <= t < |calls| => ReportOf(calls[t]))
  }

  /** The tickets of the tasks in the order in which they began. */
  function Begun(run: seq<Event>): seq<Ticket> {
    if run == [] then []
    else Begun(run[..|run| - 1]) + (match run[|run| - 1] case Start(t) => [t] case _ => [])
  }

  lemma RecordedNext(s: State, e: Event)
    requires Enabled(s, e)
    ensures var before, after := Recorded(s.calls), Recorded(Next(s, e).calls);
            match e
            case Arrive(key) => after == before + [Report(key, false, None, false)]
            case Start(t) => t < |before| && after == before[t := before[t].(started := true)]
            case Finish(t, ok) => t < |before| && after == before[t := before[t].(ended := Some(ok))]
            case Settle(t) => t < |before| && after == before[t := before[t].(settled := true)]
  {
  }

  /** The state records every call as it was made, and what became of it. */
  lemma {:induction false} RecordedAsMade(run: seq<Event>)
    requires Exec(INIT, run).Some?
    ensures var s := Exec(INIT, run).value; Recorded(s.calls) == Reports(run) && s.starts == Begun(run)
    decreases |run|
  {
    hide Enabled, Recorded;
    if run == [] {
      assert Recorded([]) == [] by { NothingRecorded(); }
    } else {
      var n := |run| - 1;
      RecordedAsMade(run[..n]);
      RecordedNext(Exec(INIT, run[..n]).value, run[n]);
    }
  }

  lemma NothingRecorded()
    ensures Recorded([]) == []
  {
  }

  // ------------------------------------------------------- what it guarantees

  /** At any time at most one task of a key has begun and not ended. */
  lemma MutualExclusion(run: seq<Event>, a: Ticket, b: Ticket)
    requires Exec(INIT, run).Some?
    requires var rs := Reports(run);
             && a < |rs| && b < |rs| && rs[a].key == rs[b].key
             && rs[a].started && rs[a].ended.None? && rs[b].started && rs[b].ended.None?
    ensures a == b
  {
    var s := Exec(INIT, run).value;
    InvReachable(run);
    RecordedAsMade(run);
    assert Recorded(s.calls)[a] == ReportOf(s.calls[a]) && Recorded(s.calls)[b] == ReportOf(s.calls[b]);
    if a < b { StartedEarlierDone(s, a, b); } else if b < a { StartedEarlierDone(s, b, a); }
  }

  function BusyKeys(s: State): set<Key> {
    set t | 0 <= t < |s.calls| && Unfinished(s, t) :: s.calls[t].key
  }

  /** The queue map holds exactly the keys that have an unfinished call. */
  lemma EntryIffBusy(s: State)
    requires Inv(s)
    ensures s.queues.Keys == BusyKeys(s)
    ensures |s.queues| == |BusyKeys(s)|
  {
    forall k | k in s.queues
      ensures k in BusyKeys(s)
    {
      assert EntryOk(s, k);
      assert Unfinished(s, s.queues[k]);
    }
    assert s.queues.Keys == BusyKeys(s);
    assert |s.queues| == |s.queues.Keys|;
  }

  lemma MapTracksUnfinishedCalls(run: seq<Event>, k: Key)
    requires Exec(INIT, run).Some?
    ensures k in Exec(INIT, run).value.queues
            <==> exists t: Ticket :: t < |Reports(run)| && Reports(run)[t].key == k && Reports(run)[t].ended.None?
  {
    InvReachable(run);
    RecordedAsMade(run);
    var s := Exec(INIT, run).value;
    assert forall t :: 0 <= t < |s.calls| ==> Reports(run)[t] == ReportOf(s.calls[t]);
    if t: Ticket :| t < |Reports(run)| && Reports(run)[t].key == k && Reports(run)[t].ended.None? {
      assert Unfinished(s, t) && s.calls[t].key == k;
    }
    if k in s.queues {
      assert EntryOk(s, k);
      assert Unfinished(s, s.queues[k]);
    }
  }

  // ---- first in, first out

  /** The tickets of one key, in order of arrival. */
  function TicketsOf(calls: seq<Call>, k: Key): (r: seq<Ticket>)
    ensures forall i :: 0 <= i < |r| ==> r[i] < |calls|
  {
    if calls == [] then []
    else
      var n := |calls| - 1;
      TicketsOf(calls[..n], k) + (if calls[n].key == k then [n] else [])
  }

  /** Those of them whose task has begun. */
  function StartedOf(calls: seq<Call>, k: Key): seq<Ticket> {
    if calls == [] then []
    else
      var n := |calls| - 1;
      StartedOf(calls[..n], k) + (if calls[n].key == k && !calls[n].phase.Waiting? then [n] else [])
  }

  /** The tickets of one key in the order in which their tasks began. */
  function StartLog(s: State, starts: seq<Ticket>, k: Key): seq<Ticket> {
    if starts == [] then []
    else
      var t := starts[|starts| - 1];
      StartLog(s, starts[..|starts| - 1], k) + (if t < |s.calls| && s.calls[t].key == k then [t] else [])
  }

  lemma {:induction false} StartLogFrame(s: State, s': State, starts: seq<Ticket>, k: Key)
    requires |s.calls| <= |s'.calls|
    requires forall t :: 0 <= t < |s.calls| ==> s'.calls[t].key == s.calls[t].key
    requires forall i :: 0 <= i < |starts| ==> starts[i] < |s.calls|
    ensures StartLog(s', starts, k) == StartLog(s, starts, k)
  {
    if starts != [] { StartLogFrame(s, s', starts[..|starts| - 1], k); }
  }

  lemma {:induction false} StartedFrame(a: seq<Call>, b: seq<Call>, k: Key)
    requires |a| == |b|
    requires forall t :: 0 <= t < |a| ==> b[t].key == a[t].key && (b[t].key == k ==> (b[t].phase.Waiting? <==> a[t].phase.Waiting?))
    ensures StartedOf(b, k) == StartedOf(a, k)
    ensures TicketsOf(b, k) == TicketsOf(a, k)
  {
    if a != [] { StartedFrame(a[..|a| - 1], b[..|b| - 1], k); }
  }

  /** If the later calls of the key have not begun, starting `t` adds it at the end. */
  lemma {:induction false} StartedGrows(calls: seq<Call>, t: Ticket, c: Call)
    requires t < |calls| && calls[t].phase.Waiting? && !c.phase.Waiting? && c.key == calls[t].key
    requires forall i :: t < i < |calls| && calls[i].key == c.key ==> calls[i].phase.Waiting?
    ensures StartedOf(calls[t := c], c.key) == StartedOf(calls, c.key) + [t]
  {
    var n := |calls| - 1;
    if t == n {
      assert calls[t := c][..n] == calls[..n];
    } else {
      assert calls[t := c][..n] == calls[..n][t := c];
      StartedGrows(calls[..n], t, c);
    }
  }

  /** Started calls of a key are its first arrivals. */
  lemma {:induction false} StartedIsPrefix(calls: seq<Call>, k: Key)
    requires forall i, t :: 0 <= i < t < |calls| && calls[i].key == k && calls[t].key == k && !calls[t].phase.Waiting? ==> !calls[i].phase.Waiting?
    ensures StartedOf(calls, k) <= TicketsOf(calls, k)
    ensures (exists t :: 0 <= t < |calls| && calls[t].key == k && calls[t].phase.Waiting?) || StartedOf(calls, k) == TicketsOf(calls, k)
  {
    if calls != [] {
      var n := |calls| - 1;
      StartedIsPrefix(calls[..n], k);
      if exists t :: 0 <= t < n && calls[..n][t].key == k && calls[..n][t].phase.Waiting? {
        var t :| 0 <= t < n && calls[..n][t].key == k && calls[..n][t].phase.Waiting?;
        assert calls[t].key == k && calls[t].phase.Waiting?;
      }
    }
  }

  ghost predicate StartsOk(s: State) {
    && (forall i :: 0 <= i < |s.starts| ==> s.starts[i] < |s.calls|)
    && forall k :: StartLog(s, s.starts, k) == StartedOf(s.calls, k)
  }

  lemma StartsOkAfterStart(s: State, t: Ticket, k: Key)
    requires Inv(s) && StartsOk(s) && Enabled(s, Start(t))
    ensures var s' := Next(s, Start(t)); StartLog(s', s'.starts, k) == StartedOf(s'.calls, k)
  {
    var s' := Next(s, Start(t));
    StartLogFrame(s, s', s.starts, k);
    assert s'.starts[..|s.starts|] == s.starts;
    if k == s.calls[t].key {
      forall i | t < i < |s.calls| && s.calls[i].key == k
        ensures s.calls[i].phase.Waiting?
      {
        if !s.calls[i].phase.Waiting? { StartedEarlierDone(s, t, i); }
      }
      StartedGrows(s.calls, t, s'.calls[t]);
    } else {
      StartedFrame(s.calls, s'.calls, k);
    }
  }

  lemma StartsOkNext(s: State, e: Event)
    requires Inv(s) && StartsOk(s) && Enabled(s, e)
    ensures StartsOk(Next(s, e))
  {
    hide Inv;
    var s' := Next(s, e);
    forall k
      ensures StartLog(s', s'.starts, k) == StartedOf(s'.calls, k)
    {
      if e.Start? {
        StartsOkAfterStart(s, e.t, k);
      } else {
        StartLogFrame(s, s', s.starts, k);
        if e.Arrive? {
          assert s'.calls[..|s.calls|] == s.calls;
        } else {
          StartedFrame(s.calls, s'.calls, k);
        }
      }
    }
  }

  lemma {:induction false} StartsOkReachable(run: seq<Event>)
    requires Exec(INIT, run).Some?
    ensures StartsOk(Exec(INIT, run).value)
    decreases |run|
  {
    if run != [] {
      var m := Exec(INIT, run[..|run| - 1]).value;
      StartsOkReachable(run[..|run| - 1]);
      InvReachable(run[..|run| - 1]);
      StartsOkNext(m, run[|run| - 1]);
    }
  }

  /** The tickets of one key among these. */
  function OfKey(tickets: seq<Ticket>, rs: seq<Report>, k: Key): seq<Ticket> {
    if tickets == [] then []
    else
      var t := tickets[|tickets| - 1];
      OfKey(tickets[..|tickets| - 1], rs, k) + (if t < |rs| && rs[t].key == k then [t] else [])
  }

  /** The tickets of one key, in the order in which its calls were made. */
  function Arrived(rs: seq<Report>, k: Key): seq<Ticket> {
    if rs == [] then []
    else Arrived(rs[..|rs| - 1], k) + (if rs[|rs| - 1].key == k then [|rs| - 1] else [])
  }

  lemma {:induction false} LogIsOfKey(s: State, starts: seq<Ticket>, k: Key)
    ensures StartLog(s, starts, k) == OfKey(starts, Recorded(s.calls), k)
  {
    if starts != [] { LogIsOfKey(s, starts[..|starts| - 1], k); }
  }

  lemma {:induction false} TicketsAreArrived(calls: seq<Call>, k: Key)
    ensures TicketsOf(calls, k) == Arrived(Recorded(calls), k)
  {
    if calls != [] {
      var n := |calls| - 1;
      TicketsAreArrived(calls[..n], k);
      assert Recorded(calls)[..n] == Recorded(calls[..n]);
    }
  }

  /** Tasks of a key begin in order of arrival: at any time those begun are the first calls made, in order. */
  lemma FirstInFirstOut(run: seq<Event>, k: Key)
    requires Exec(INIT, run).Some?
    ensures OfKey(Begun(run), Reports(run), k) <= Arrived(Reports(run), k)
  {
    var s := Exec(INIT, run).value;
    InvReachable(run);
    RecordedAsMade(run);
    LogIsOfKey(s, s.starts, k);
    TicketsAreArrived(s.calls, k);
    StartsOkReachable(run);
    forall i, t | 0 <= i < t < |s.calls| && s.calls[i].key == k && s.calls[t].key == k && !s.calls[t].phase.Waiting?
      ensures !s.calls[i].phase.Waiting?
    {
      StartedEarlierDone(s, i, t);
    }
    StartedIsPrefix(s.calls, k);
  }

  // ---- progress

  /** Nothing is left to do: every task finished and every promise settled. */
  predicate Quiet(s: State) {
    forall t :: 0 <= t < |s.calls| ==> s.calls[t].phase.Done? && s.calls[t].settled
  }

  lemma {:induction false} SomeSettleEnabled(s: State, t: Ticket) returns (e: Event)
    requires Inv(s) && t < |s.calls| && s.calls[t].phase.Done? && !s.calls[t].settled
    ensures Enabled(s, e) && !e.Arrive?
    decreases t
  {
    assert LinkOk(s, t);
    e := Settle(t);
    if !PrevSettled(s, t) {
      var p := s.calls[t].prev.value;
      StartedEarlierDone(s, p, t);
      e := SomeSettleEnabled(s, p);
    }
  }

  /** While any call is unfinished or unsettled, a step of an existing call is enabled. */
  lemma {:induction false} Progress(s: State, t: Ticket) returns (e: Event)
    requires Inv(s) && t < |s.calls| && !(s.calls[t].phase.Done? && s.calls[t].settled)
    ensures Enabled(s, e) && !e.Arrive?
    decreases t
  {
    match s.calls[t].phase
    case Running => e := Finish(t, true);
    case Done(_) => e := SomeSettleEnabled(s, t);
    case Waiting =>
      e := Start(t);
      if !PrevSettled(s, t) {
        assert LinkOk(s, t);
        e := Progress(s, s.calls[t].prev.value);
      }
  }

  function Weight(c: Call): nat {
    match c.phase
    case Waiting => 3
    case Running => 2
    case Done(_) => if c.settled then 0 else 1
  }

  /** The steps the present calls have left. */
  function StepsLeft(calls: seq<Call>): nat {
    if calls == [] then 0 else StepsLeft(calls[..|calls| - 1]) + Weight(calls[|calls| - 1])
  }

  lemma {:induction false} StepsLeftUpdate(calls: seq<Call>, t: Ticket, c: Call)
    requires t < |calls|
    ensures StepsLeft(calls[t := c]) == StepsLeft(calls) - Weight(calls[t]) + Weight(c)
  {
    var n := |calls| - 1;
    if t == n {
      assert calls[t := c][..n] == calls[..n];
    } else {
      assert calls[t := c][..n] == calls[..n][t := c];
      StepsLeftUpdate(calls[..n], t, c);
    }
  }

  lemma {:induction false} StepsLeftBound(calls: seq<Call>)
    ensures StepsLeft(calls) <= 3 * |calls|
  {
    if calls != [] { StepsLeftBound(calls[..|calls| - 1]); }
  }

  lemma EveryStepCounts(s: State, e: Event)
    requires Inv(s) && Enabled(s, e) && !e.Arrive?
    ensures StepsLeft(Next(s, e).calls) == StepsLeft(s.calls) - 1
  {
    StepsLeftUpdate(s.calls, e.t, Next(s, e).calls[e.t]);
  }

  lemma {:induction false} ExecFrom(s: State, run: seq<Event>)
    requires Inv(s) && Exec(s, run).Some?
    requires forall i :: 0 <= i < |run| ==> !run[i].Arrive?
    ensures Inv(Exec(s, run).value)
    ensures StepsLeft(Exec(s, run).value.calls) == StepsLeft(s.calls) - |run|
    ensures |Exec(s, run).value.calls| == |s.calls|
    decreases |run|
  {
    if run != [] {
      var m := Exec(s, run[..|run| - 1]).value;
      ExecFrom(s, run[..|run| - 1]);
      InvNext(m, run[|run| - 1]);
      EveryStepCounts(m, run[|run| - 1]);
    }
  }

  lemma QuietIffStuck(s: State)
    requires Inv(s)
    ensures (forall e :: Enabled(s, e) ==> e.Arrive?) <==> Quiet(s)
  {
    if !Quiet(s) {
      var t: Ticket :| t < |s.calls| && !(s.calls[t].phase.Done? && s.calls[t].settled);
      var e := Progress(s, t);
    }
  }

  lemma QuietMeansEmpty(s: State)
    requires Inv(s) && Quiet(s)
    ensures s.queues == map[]
  {
    EntryIffBusy(s);
    assert s.queues.Keys == {};
  }

  /**
   No deadlock and no livelock.  After the last arrival at most three steps per
   call are possible, and a run that can go no further has finished and settled
   every call and left the queue map empty.
   */
  lemma Drains(before: seq<Event>, rest: seq<Event>)
    requires Exec(INIT, before).Some? && Exec(Exec(INIT, before).value, rest).Some?
    requires forall i :: 0 <= i < |rest| ==> !rest[i].Arrive?
    ensures |rest| <= 3 * |Exec(INIT, before).value.calls|
    ensures var s := Exec(Exec(INIT, before).value, rest).value;
            && ((forall e :: Enabled(s, e) ==> e.Arrive?) <==> Quiet(s))
            && (Quiet(s) ==> s.queues == map[])
  {
    var s0 := Exec(INIT, before).value;
    var s := Exec(s0, rest).value;
    InvReachable(before);
    ExecFrom(s0, rest);
    StepsLeftBound(s0.calls);
    QuietIffStuck(s);
    if Quiet(s) { QuietMeansEmpty(s); }
  }
}
