/**
  Overlapping timers. Each built-in timer has one handle, and a start while an alarm of the timer
  is listed takes the handle away from it: what becomes of that alarm.
*/
module Orphans {
  import opened TimeVals
  import opened Alarms
  import opened AlarmHistory
  import opened AlarmRuns
  import opened Kinds
  import opened BurstClient
  import opened QueryClient

  function HandleOf(s: State, kind: Callback): nat {
    if kind.QueryTimer? then s.query.handle else s.burst.handle
  }

  /** A listed alarm of a built-in timer that the handle of the timer does not name. */
  predicate Stray(s: State, a: Alarm, kind: Callback) {
    a in s.alarms && a.callback == kind != Client && a.id != HandleOf(s, kind)
  }

  ghost predicate Orphan(s: State, id: nat, kind: Callback) {
    exists a :: Stray(s, a, kind) && a.id == id
  }

  /** The call does not name this alarm as one to take out of the list. */
  predicate Leaves(op: Op, id: nat) {
    !op.UnregisterAll? && op != Unregister(id)
  }

  predicate OpsLeave(ops: seq<Op>, id: nat) {
    forall i :: 0 <= i < |ops| ==> Leaves(ops[i], id)
  }

  /** The same for an event; a firing is judged by the client code it runs. */
  predicate EventLeaves(env: Env, s: State, e: Event, id: nat) {
    match e
    case Call(op) => Leaves(op, id)
    case RunTurn =>
      Due(env, s) && CallsClient(Entered(env, s), s.alarms[Earliest(s.alarms)].callback) ==>
        OpsLeave(env.script(s.tick), id)
    case Init => true
    case Rearm => true
  }

  predicate HistoryLeaves(env: Env, s: State, events: seq<Event>, id: nat)
    decreases |events|
  {
    events == [] ||
    (EventLeaves(env, s, events[0], id) && HistoryLeaves(env, Happen(env, s, events[0]), events[1..], id))
  }

  // ---------------------------------------------------------------- what stays in the list

  lemma AppendKeeps(env: Env, s: State, t: TimeVal, flags: nat, callback: Callback)
    ensures var s' := Append(env, s, t, flags, callback);
            && s.alarms <= s'.alarms && s'.burst == s.burst && s'.query == s.query && s'.regnum == s.regnum + 1
  {
    AppendFields(env, s, t, flags, callback);
  }

  lemma DropKeeps(alarms: seq<Alarm>, k: nat, a: Alarm)
    requires k < |alarms| && a in alarms && alarms[k] != a
    ensures a in DropAt(alarms, k)
  {
    var i :| 0 <= i < |alarms| && alarms[i] == a;
    assert DropAt(alarms, k)[if i < k then i else i - 1] == a;
  }

  lemma RemoveKeeps(alarms: seq<Alarm>, other: nat, a: Alarm)
    requires a in alarms && other != a.id
    ensures a in Remove(alarms, other)
  {
    var k := IndexOf(alarms, other);
    if k < |alarms| {
      DropKeeps(alarms, k, a);
    }
  }

  /** A call takes an alarm out only by its id, or through the query handle. */
  lemma StepKeeps(env: Env, s: State, op: Op, a: Alarm)
    requires a in s.alarms && Leaves(op, a.id) && (op.StopQuery? ==> a.id != s.query.handle)
    ensures a in Step(env, s, op).alarms
  {
    match op
    case Register(when, flags) => AppendKeeps(env, s, Interval(when), flags, Client);
    case RegisterHr(t, flags) => AppendKeeps(env, s, t, flags, Client);
    case Unregister(other) => RemoveKeeps(s.alarms, other, a);
    case UnregisterAll =>
    case StartBurst => AppendKeeps(env, s, Interval(0), SA_REPEAT, BurstTimer);
    case StartQuery => AppendKeeps(env, s, Interval(FIRST_PERIOD), SA_REPEAT, QueryTimer);
    case StopQuery => RemoveKeeps(s.alarms, s.query.handle, a);
  }

  /** Only a start moves a handle, and it moves it to a new id. */
  lemma StepHandles(env: Env, s: State, op: Op)
    ensures var s' := Step(env, s, op);
            && s'.burst.handle == (if op.StartBurst? then s.regnum else s.burst.handle)
            && s'.query.handle == (if op.StartQuery? then s.regnum else s.query.handle)
            && s.regnum <= s'.regnum
  {
    match op
    case Register(when, flags) => AppendKeeps(env, s, Interval(when), flags, Client);
    case RegisterHr(t, flags) => AppendKeeps(env, s, t, flags, Client);
    case StartBurst => AppendKeeps(env, s, Interval(0), SA_REPEAT, BurstTimer);
    case StartQuery => AppendKeeps(env, s, Interval(FIRST_PERIOD), SA_REPEAT, QueryTimer);
    case Unregister(_) =>
    case UnregisterAll =>
    case StopQuery =>
  }

  /** The callbacks only unlink by their handle. */
  lemma PrepareKeeps(env: Env, s: State, callback: Callback, a: Alarm)
    requires a in s.alarms
    requires callback.BurstTimer? && s.burst.time >= BURST_CALLS ==> a.id != s.burst.handle
    requires callback.QueryTimer? && s.query.interval < LAST_PERIOD ==> a.id != s.query.handle
    ensures var s' := Prepare(env, s, callback);
            && a in s'.alarms && s'.burst.handle == s.burst.handle
            && (s'.query.handle == s.query.handle || s'.query.handle == s.regnum)
  {
    match callback
    case Client =>
    case BurstTimer =>
      if s.burst.time >= BURST_CALLS {
        RemoveKeeps(s.alarms, s.burst.handle, a);
      }
    case QueryTimer =>
      if s.query.interval < LAST_PERIOD {
        RemoveKeeps(s.alarms, s.query.handle, a);
        var s1 := NextPeriod(UnregisterId(s, s.query.handle));
        AppendKeeps(env, s1, Interval(s1.query.interval), SA_REPEAT, QueryTimer);
      }
  }

  /** Re-arming b renews it, and leaves everybody else. */
  lemma RenewKeeps(env: Env, s: State, b: Alarm, at: TimeVal, a: Alarm)
    requires Good(env, s, Some(Fired(b, at))) && Micros(at) > 0 && a in s.alarms && a.Renews()
    ensures var s' := Renew(env, s, b.id, at);
            && (if a.id == b.id then After(Fired(b, at)) else a) in s'.alarms
            && (a.id == b.id ==> a == b)
            && s' == s.(alarms := s'.alarms)
  {
    var k := IndexOf(s.alarms, b.id);
    if k < |s.alarms| {
      RenewForm(env, s, k, at);
      var i :| 0 <= i < |s.alarms| && s.alarms[i] == a;
      RenewedAt(s.alarms, k, i, b, at);
    }
  }

  lemma RenewedAt(alarms: seq<Alarm>, k: nat, i: nat, b: Alarm, at: TimeVal)
    requires k < |alarms| && i < |alarms| && alarms[k] == b && alarms[i].Renews()
    requires i != k ==> alarms[i].id != b.id
    ensures var alarms' := if b.Renews() then alarms[k := After(Fired(b, at))] else DropAt(alarms, k);
            (if alarms[i].id == b.id then After(Fired(b, at)) else alarms[i]) in alarms'
  {
    if b.Renews() {
      var alarms' := alarms[k := After(Fired(b, at))];
      assert alarms'[i] == if i == k then After(Fired(b, at)) else alarms[i];
    } else {
      DropKeeps(alarms, k, alarms[i]);
    }
  }

  lemma BuiltInRenews(a: Alarm)
    requires AlarmOk(a) && a.callback != Client
    ensures a.Renews()
  {
  }

  lemma ListedOk(env: Env, s: State, busy: Option<Entry>, a: Alarm)
    requires Good(env, s, busy) && a in s.alarms
    ensures AlarmOk(a) && a.id < s.regnum
    ensures a.id == s.burst.handle ==> a.callback == BurstTimer
    ensures a.id == s.query.handle ==> a.callback == QueryTimer
  {
    var i :| 0 <= i < |s.alarms| && s.alarms[i] == a;
  }

  // ---------------------------------------------------------------- the steps keep a stray alarm

  lemma StepStray(env: Env, s: State, op: Op, a: Alarm, kind: Callback, busy: Option<Entry>)
    requires Good(env, s, busy) && Stray(s, a, kind) && Leaves(op, a.id)
    ensures Stray(Step(env, s, op), a, kind)
  {
    ListedOk(env, s, busy, a);
    StepKeeps(env, s, op, a);
    StepHandles(env, s, op);
  }

  lemma {:induction false} StepsStray(env: Env, s: State, ops: seq<Op>, a: Alarm, kind: Callback, busy: Option<Entry>)
    requires ClockOk(env) && Good(env, s, busy) && OpsOk(ops)
    requires Stray(s, a, kind) && OpsLeave(ops, a.id)
    ensures Stray(Steps(env, s, ops), a, kind)
    decreases |ops|
  {
    if ops != [] {
      StepGood(env, s, ops[0], busy);
      StepStray(env, s, ops[0], a, kind, busy);
      StepsStray(env, Step(env, s, ops[0]), ops[1..], a, kind, busy);
    }
  }

  lemma PrepareStray(env: Env, s: State, callback: Callback, a: Alarm, kind: Callback, busy: Option<Entry>)
    requires Good(env, s, busy) && Stray(s, a, kind)
    ensures Stray(Prepare(env, s, callback), a, kind)
  {
    ListedOk(env, s, busy, a);
    PrepareKeeps(env, s, callback, a);
  }

  lemma DispatchStray(env: Env, s: State, callback: Callback, ops: seq<Op>, a: Alarm, kind: Callback, busy: Option<Entry>)
    requires ClockOk(env) && Good(env, s, busy) && OpsOk(ops)
    requires Stray(s, a, kind) && (CallsClient(s, callback) ==> OpsLeave(ops, a.id))
    ensures Stray(Dispatch(env, s, callback, ops), a, kind)
  {
    PrepareStray(env, s, callback, a, kind, busy);
    PrepareGood(env, s, callback, busy);
    if CallsClient(s, callback) {
      StepsStray(env, Prepare(env, s, callback), ops, a, kind, busy);
    }
  }

  /** Re-arming renews it if it is the alarm that has run. */
  lemma RenewStray(env: Env, s: State, b: Alarm, at: TimeVal, a: Alarm, kind: Callback)
    requires Good(env, s, Some(Fired(b, at))) && Micros(at) > 0 && Stray(s, a, kind)
    ensures Stray(Renew(env, s, b.id, at), if a.id == b.id then After(Fired(b, at)) else a, kind)
  {
    ListedOk(env, s, Some(Fired(b, at)), a);
    BuiltInRenews(a);
    RenewKeeps(env, s, b, at, a);
  }

  /** A firing keeps it as it is, or is its own and renews it. */
  lemma FireStray(env: Env, s: State, a: Alarm, kind: Callback)
    requires EnvOk(env) && Good(env, s, None) && Due(env, s)
    requires Stray(s, a, kind) && EventLeaves(env, s, RunTurn, a.id)
    ensures var b := s.alarms[Earliest(s.alarms)];
            Stray(Fire(env, s), if a.id == b.id then After(Fired(b, Now(env, s))) else a, kind)
  {
    var b := s.alarms[Earliest(s.alarms)];
    var s1 := Entered(env, s);
    EnteredGood(env, s);
    DispatchStray(env, s1, b.callback, env.script(s.tick), a, kind, Some(Fired(b, Now(env, s))));
    CallbackGood(env, s);
    RenewStray(env, Dispatch(env, s1, b.callback, env.script(s.tick)), b, Now(env, s), a, kind);
  }

  lemma HappenOrphan(env: Env, s: State, e: Event, id: nat, kind: Callback)
    requires EnvOk(env) && Good(env, s, None) && Orphan(s, id, kind) && EventLeaves(env, s, e, id)
    ensures Orphan(Happen(env, s, e), id, kind)
  {
    var a :| Stray(s, a, kind) && a.id == id;
    match e
    case Init => assert Stray(Happen(env, s, e), a, kind);
    case Rearm => assert Stray(Happen(env, s, e), a, kind);
    case Call(op) => StepStray(env, s, op, a, kind, None);
    case RunTurn =>
      if Due(env, s) {
        FireStray(env, s, a, kind);
      } else {
        assert Stray(Turn(env, s), a, kind);
      }
  }

  /** No later history removes an orphan, unless a client does. */
  lemma {:induction false} OrphanStays(env: Env, s: State, events: seq<Event>, id: nat, kind: Callback)
    requires EnvOk(env) && Good(env, s, None) && EventsOk(events)
    requires Orphan(s, id, kind) && HistoryLeaves(env, s, events, id)
    ensures Orphan(Exec(env, s, events), id, kind)
    decreases |events|
  {
    if events != [] {
      HappenGood(env, s, events[0]);
      HappenOrphan(env, s, events[0], id, kind);
      OrphanStays(env, Happen(env, s, events[0]), events[1..], id, kind);
    }
  }

  // ---------------------------------------------------------------- it fires for ever

  /** The client code run during a call of run_alarms does not remove the alarm. */
  ghost predicate RunLeaves(env: Env, s: State, limit: int, id: nat)
    requires EnvOk(env) && Good(env, s, None) && Bounded(env, limit)
    decreases limit - Micros(Now(env, s)), DueIds(s.alarms, Now(env, s))
  {
    EventLeaves(env, s, RunTurn, id) &&
    if Due(env, s) then
      FireGood(env, s);
      FireShrinks(env, s);
      assert Micros(Now(env, Fire(env, s))) <= limit;
      RunLeaves(env, Fire(env, s), limit, id)
    else true
  }

  lemma {:induction false} RunKeepsOrphan(env: Env, s: State, limit: int, id: nat, kind: Callback)
    requires EnvOk(env) && Good(env, s, None) && Bounded(env, limit)
    requires Orphan(s, id, kind) && RunLeaves(env, s, limit, id)
    ensures Orphan(Run(env, s, limit), id, kind)
    decreases limit - Micros(Now(env, s)), DueIds(s.alarms, Now(env, s))
  {
    HappenOrphan(env, s, RunTurn, id, kind);
    if Due(env, s) {
      FireGood(env, s);
      FireShrinks(env, s);
      assert Micros(Now(env, Fire(env, s))) <= limit;
      RunKeepsOrphan(env, Fire(env, s), limit, id, kind);
    }
  }

  lemma FiringsGrow(log: seq<Entry>, log': seq<Entry>, id: nat)
    requires log <= log'
    ensures Firings(log, id) <= Firings(log', id)
  {
    FiringsSplit(log, log'[|log|..], id);
    assert log' == log + log'[|log|..];
  }

  /** The alarm that fires has one firing more when the call returns. */
  lemma RunFiresFirst(env: Env, s: State, limit: int)
    requires EnvOk(env) && Good(env, s, None) && Bounded(env, limit) && Due(env, s)
    ensures var id := s.alarms[Earliest(s.alarms)].id;
            Firings(s.log, id) < Firings(Run(env, s, limit).log, id)
  {
    var a := s.alarms[Earliest(s.alarms)];
    var e := Fired(a, Now(env, s));
    RunUnfolds(env, s, limit);
    FireExtends(env, s);
    RunLeavesNothingDue(env, Fire(env, s), limit);
    assert (s.log + [e])[..|s.log|] == s.log;
    FiringsGrow(s.log + [e], Run(env, s, limit).log, a.id);
  }

  /** A call whose first sample is later than the deadline of an orphan fires it. */
  lemma {:induction false} RunFiresOrphan(env: Env, s: State, limit: int, a: Alarm, kind: Callback)
    requires EnvOk(env) && Good(env, s, None) && Bounded(env, limit)
    requires Stray(s, a, kind) && RunLeaves(env, s, limit, a.id) && Micros(a.next) < Micros(Now(env, s))
    ensures var s' := Run(env, s, limit);
            Orphan(s', a.id, kind) && Firings(s.log, a.id) < Firings(s'.log, a.id)
    decreases limit - Micros(Now(env, s)), DueIds(s.alarms, Now(env, s))
  {
    RunKeepsOrphan(env, s, limit, a.id, kind);
    PastIsDue(env, s, a);
    RunUnfolds(env, s, limit);
    if s.alarms[Earliest(s.alarms)].id == a.id {
      RunFiresFirst(env, s, limit);
    } else {
      FireStray(env, s, a, kind);
      FireLogGrows(env, s, a.id);
      RunFiresOrphan(env, Fire(env, s), limit, a, kind);
    }
  }

  lemma FireLogGrows(env: Env, s: State, id: nat)
    requires EnvOk(env) && Good(env, s, None) && Due(env, s)
    ensures Firings(s.log, id) <= Firings(Fire(env, s).log, id)
    ensures Micros(Now(env, s)) <= Micros(Now(env, Fire(env, s)))
  {
    FireExtends(env, s);
    FiringsGrow(s.log, Fire(env, s).log, id);
  }

  lemma PastIsDue(env: Env, s: State, a: Alarm)
    requires ClockOk(env) && Good(env, s, None) && a in s.alarms && Micros(a.next) < Micros(Now(env, s))
    ensures Due(env, s)
  {
    BeforeIsEarlier(a.next, Now(env, s));
    if !Due(env, s) {
      NoneDue(env, s);
    }
  }

  /** A history in which nobody removes the alarm, and then a call of run_alarms after its deadline. */
  ghost predicate LateRound(env: Env, s: State, events: seq<Event>, s': State, limit: int, id: nat)
    requires EnvOk(env) && Bounded(env, limit)
  {
    && Good(env, s, None) && EventsOk(events) && HistoryLeaves(env, s, events, id)
    && var s1 := Exec(env, s, events);
       && Good(env, s1, None) && RunLeaves(env, s1, limit, id) && s' == Run(env, s1, limit)
       && forall i :: 0 <= i < |s1.alarms| && s1.alarms[i].id == id ==> Micros(s1.alarms[i].next) < Micros(Now(env, s1))
  }

  ghost predicate LateRounds(env: Env, states: seq<State>, events: seq<seq<Event>>, limit: int, id: nat)
    requires EnvOk(env) && Bounded(env, limit)
  {
    && |states| == |events| + 1
    && forall i :: 0 <= i < |events| ==> LateRound(env, states[i], events[i], states[i + 1], limit, id)
  }

  lemma LateRoundsTail(env: Env, states: seq<State>, events: seq<seq<Event>>, limit: int, id: nat)
    requires EnvOk(env) && Bounded(env, limit) && events != [] && LateRounds(env, states, events, limit, id)
    ensures LateRound(env, states[0], events[0], states[1], limit, id)
    ensures LateRounds(env, states[1..], events[1..], limit, id)
  {
    forall i | 0 <= i < |events[1..]|
      ensures LateRound(env, states[1..][i], events[1..][i], states[1..][i + 1], limit, id)
    {
      assert LateRound(env, states[i + 1], events[i + 1], states[i + 2], limit, id);
    }
  }

  lemma OrphanRoundFires(env: Env, s: State, events: seq<Event>, s': State, limit: int, id: nat, kind: Callback)
    requires EnvOk(env) && Bounded(env, limit) && Orphan(s, id, kind) && LateRound(env, s, events, s', limit, id)
    ensures Orphan(s', id, kind) && Firings(s.log, id) < Firings(s'.log, id)
  {
    var s1 := Exec(env, s, events);
    OrphanStays(env, s, events, id, kind);
    ExecLogGrows(env, s, events);
    FiringsGrow(s.log, s1.log, id);
    var a :| Stray(s1, a, kind) && a.id == id;
    var i :| 0 <= i < |s1.alarms| && s1.alarms[i] == a;
    RunFiresOrphan(env, s1, limit, a, kind);
  }

  /** An orphan fires in every round, however many there are: it never ends by itself. */
  lemma {:induction false} OrphanFiresForEver(env: Env, states: seq<State>, events: seq<seq<Event>>,
                                              limit: int, id: nat, kind: Callback)
    requires EnvOk(env) && Bounded(env, limit) && LateRounds(env, states, events, limit, id)
    requires Orphan(states[0], id, kind)
    ensures var s' := states[|events|];
            Orphan(s', id, kind) && Firings(s'.log, id) >= Firings(states[0].log, id) + |events|
    decreases |events|
  {
    if events != [] {
      LateRoundsTail(env, states, events, limit, id);
      OrphanRoundFires(env, states[0], events[0], states[1], limit, id, kind);
      OrphanFiresForEver(env, states[1..], events[1..], limit, id, kind);
    }
  }

  // ---------------------------------------------------------------- where orphans come from

  predicate ListedOf(s: State, id: nat, kind: Callback) {
    exists i :: 0 <= i < |s.alarms| && s.alarms[i].callback == kind && s.alarms[i].id == id
  }

  /** A start makes an orphan of every alarm of its timer that is listed, and of nothing else. */
  lemma OverlapOrphans(env: Env, s: State, op: Op, id: nat, kind: Callback)
    requires ClockOk(env) && Good(env, s, None) && StartsKind(op, kind)
    ensures Orphan(Step(env, s, op), id, kind) <==> ListedOf(s, id, kind)
  {
    var s' := Step(env, s, op);
    if ListedOf(s, id, kind) {
      var i :| 0 <= i < |s.alarms| && s.alarms[i].callback == kind && s.alarms[i].id == id;
      StartStrays(env, s, op, s.alarms[i], kind);
    }
    if Orphan(s', id, kind) {
      var a :| Stray(s', a, kind) && a.id == id;
      StartStrays(env, s, op, a, kind);
      var i :| 0 <= i < |s.alarms| && s.alarms[i] == a;
    }
  }

  lemma StartStrays(env: Env, s: State, op: Op, a: Alarm, kind: Callback)
    requires ClockOk(env) && Good(env, s, None) && StartsKind(op, kind) && a.callback == kind
    ensures Stray(Step(env, s, op), a, kind) <==> a in s.alarms
  {
    if kind.BurstTimer? {
      StartLists(env, s, Interval(0), BurstTimer, a);
    } else {
      StartLists(env, s, Interval(FIRST_PERIOD), QueryTimer, a);
    }
    if a in s.alarms {
      ListedOk(env, s, None, a);
    }
  }

  /** A registration lists one alarm more, under the new id. */
  lemma StartLists(env: Env, s: State, t: TimeVal, kind: Callback, a: Alarm)
    ensures var s' := Append(env, s, t, SA_REPEAT, kind);
            && s'.regnum == s.regnum + 1
            && (a.id != s.regnum ==> (a in s'.alarms <==> a in s.alarms))
  {
    AppendFields(env, s, t, SA_REPEAT, kind);
  }

  /** Two starts in a row, and the first alarm is an orphan. */
  lemma TwoStarts(env: Env, s: State, op: Op, kind: Callback)
    requires ClockOk(env) && s == INITIAL && StartsKind(op, kind)
    ensures Orphan(Step(env, Step(env, s, op), op), 1, kind)
  {
    var s1 := Step(env, s, op);
    InitialGood(env);
    StepGood(env, s, op, None);
    if kind.BurstTimer? {
      AppendForm(env, s, Interval(0), SA_REPEAT, BurstTimer);
    } else {
      AppendForm(env, s, Interval(FIRST_PERIOD), SA_REPEAT, QueryTimer);
    }
    assert s1.alarms[0].callback == kind && s1.alarms[0].id == 1;
    OverlapOrphans(env, s1, op, 1, kind);
  }

  // ---------------------------------------------------------------- client code that spares a timer

  /** It does not remove an orphan of the timer either. */
  lemma {:induction false} OpsSpareLeave(env: Env, s: State, ops: seq<Op>, a: Alarm, kind: Callback, busy: Option<Entry>)
    requires ClockOk(env) && Good(env, s, busy) && OpsOk(ops)
    requires Stray(s, a, kind) && OpsSpare(env, s, ops, kind)
    ensures OpsLeave(ops, a.id)
    decreases |ops|
  {
    if ops != [] {
      SparesLeaves(s, ops[0], a, kind);
      StepGood(env, s, ops[0], busy);
      StepStray(env, s, ops[0], a, kind, busy);
      OpsSpareLeave(env, Step(env, s, ops[0]), ops[1..], a, kind, busy);
      LeaveCons(ops, a.id);
    }
  }

  lemma LeaveCons(ops: seq<Op>, id: nat)
    requires ops != [] && Leaves(ops[0], id) && OpsLeave(ops[1..], id)
    ensures OpsLeave(ops, id)
  {
    assert ops == [ops[0]] + ops[1..];
  }

  lemma SparesLeaves(s: State, op: Op, a: Alarm, kind: Callback)
    requires Stray(s, a, kind) && Spares(s, op, kind)
    ensures Leaves(op, a.id)
  {
    OfKindMembers(s.alarms, kind);
    var i :| 0 <= i < |s.alarms| && s.alarms[i] == a;
  }

  lemma EventSparesLeaves(env: Env, s: State, e: Event, id: nat, kind: Callback)
    requires EnvOk(env) && Good(env, s, None) && (e.Call? ==> OpOk(e.op))
    requires Orphan(s, id, kind) && EventSpares(env, s, e, kind)
    ensures EventLeaves(env, s, e, id)
  {
    var a :| Stray(s, a, kind) && a.id == id;
    if e.Call? {
      SparesLeaves(s, e.op, a, kind);
    } else if e.RunTurn? && Due(env, s) {
      var b := s.alarms[Earliest(s.alarms)];
      var s1 := Entered(env, s);
      if CallsClient(s1, b.callback) {
        var busy := Some(Fired(b, Now(env, s)));
        EnteredGood(env, s);
        PrepareGood(env, s1, b.callback, busy);
        PrepareStray(env, s1, b.callback, a, kind, busy);
        OpsSpareLeave(env, Prepare(env, s1, b.callback), env.script(s.tick), a, kind, busy);
      }
    }
  }

  lemma {:induction false} HistorySparesLeaves(env: Env, s: State, events: seq<Event>, id: nat, kind: Callback)
    requires EnvOk(env) && Good(env, s, None) && EventsOk(events)
    requires Orphan(s, id, kind) && HistorySpares(env, s, events, kind)
    ensures HistoryLeaves(env, s, events, id)
    decreases |events|
  {
    if events != [] {
      EventSparesLeaves(env, s, events[0], id, kind);
      HappenGood(env, s, events[0]);
      HappenOrphan(env, s, events[0], id, kind);
      HistorySparesLeaves(env, Happen(env, s, events[0]), events[1..], id, kind);
    }
  }

  lemma {:induction false} RunSparesLeaves(env: Env, s: State, limit: int, id: nat)
    requires EnvOk(env) && Good(env, s, None) && Bounded(env, limit)
    requires Orphan(s, id, BurstTimer) && RunSpares(env, s, limit)
    ensures RunLeaves(env, s, limit, id)
    decreases limit - Micros(Now(env, s)), DueIds(s.alarms, Now(env, s))
  {
    EventSparesLeaves(env, s, RunTurn, id, BurstTimer);
    if Due(env, s) {
      FireGood(env, s);
      FireShrinks(env, s);
      assert Micros(Now(env, Fire(env, s))) <= limit;
      HappenOrphan(env, s, RunTurn, id, BurstTimer);
      RunSparesLeaves(env, Fire(env, s), limit, id);
    }
  }

  // ---------------------------------------------------------------- overlapping query timers

  /** The query timer is one alarm, under its handle. */
  predicate AloneInKind(s: State, kind: Callback) {
    var own := OfKind(s.alarms, kind);
    |own| == 1 && own[0].id == HandleOf(s, kind)
  }

  lemma OrphanNotAlone(s: State, id: nat, kind: Callback)
    requires Orphan(s, id, kind)
    ensures !AloneInKind(s, kind)
  {
    OfKindMembers(s.alarms, kind);
    var a :| Stray(s, a, kind) && a.id == id;
    assert a in OfKind(s.alarms, kind);
  }

  lemma FirstOfKind(s: State, kind: Callback) returns (id: nat)
    requires OfKind(s.alarms, kind) != []
    ensures ListedOf(s, id, kind)
  {
    var a := OfKind(s.alarms, kind)[0];
    OfKindMembers(s.alarms, kind);
    assert a in s.alarms;
    var i :| 0 <= i < |s.alarms| && s.alarms[i] == a;
    id := a.id;
  }

  /**
    * After a start, and any history in which nobody starts another query timer or removes one:
    * the timer is one alarm under its handle if and only if none was listed at the start.
    */
  lemma QueryOverlap(env: Env, s: State, events: seq<Event>)
    requires EnvOk(env) && Good(env, s, None) && EventsOk(events)
    requires HistorySpares(env, Step(env, s, StartQuery), events, QueryTimer)
    ensures AloneInKind(Exec(env, Step(env, s, StartQuery), events), QueryTimer) <==> OfKind(s.alarms, QueryTimer) == []
  {
    var s1 := Step(env, s, StartQuery);
    StepGood(env, s, StartQuery, None);
    if OfKind(s.alarms, QueryTimer) == [] {
      StartBackoff(env, s);
      HistoryBackoff(env, s, s1, events);
    } else {
      var id := FirstOfKind(s, QueryTimer);
      OverlapOrphans(env, s, StartQuery, id, QueryTimer);
      HistorySparesLeaves(env, s1, events, id, QueryTimer);
      OrphanStays(env, s1, events, id, QueryTimer);
      OrphanNotAlone(Exec(env, s1, events), id, QueryTimer);
    }
  }
}
