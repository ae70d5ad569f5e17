/**
  What each call of the scheduler does, said in fields and numbers: a registration, the removal of
  an alarm, a firing, and arming the OS timer.
*/
module Operations {
  import opened TimeVals
  import opened Alarms
  import opened AlarmHistory
  import opened AlarmRuns
  import opened Kinds
  import opened OsTimer
  import opened Orphans
  import opened BurstLife

  // ---------------------------------------------------------------- registrations

  /** One alarm more at the end of the list, under the next id, and logged. */
  predicate Appended(s: State, s': State, a: Alarm) {
    && s'.alarms == s.alarms + [a] && s'.log == s.log + [Registered(a)]
    && a.id == s.regnum && s'.regnum == s.regnum + 1 && s'.started == s.started
  }

  /** The alarm has run, or been registered, at `at`, and is due one interval later. */
  predicate DueAfter(a: Alarm, at: TimeVal) {
    && a.last == at && 0 <= a.next.usec < 1_000_000
    && a.next.sec * 1_000_000 + a.next.usec == (at.sec + a.t.sec) * 1_000_000 + at.usec + a.t.usec
  }

  lemma AppendLists(env: Env, s: State, t: TimeVal, flags: nat, callback: Callback)
    requires 0 <= Now(env, s).usec < 1_000_000 && t.usec >= 0
    ensures var s' := Append(env, s, t, flags, callback); var now := env.clock(s.tick);
            exists a :: Appended(s, s', a) && a.t == t && a.flags == flags && a.callback == callback && DueAfter(a, now)
    ensures Append(env, s, t, flags, callback).burst == s.burst && Append(env, s, t, flags, callback).query == s.query
  {
    var now := Now(env, s);
    var a := Alarm(s.regnum, t, flags, now, Carried(Sum(now, t)), callback);
    AppendFields(env, s, t, flags, callback);
    assert Appended(s, Append(env, s, t, flags, callback), a) && DueAfter(a, now);
  }

  /** A number of seconds stands for itself, and 0 for half a second. */
  lemma RegisterLists(env: Env, s: State, when: nat, flags: nat)
    requires 0 <= Now(env, s).usec < 1_000_000
    ensures var s' := Step(env, s, Register(when, flags));
            && (exists a :: Appended(s, s', a) && a.flags == flags && a.callback == Client && DueAfter(a, env.clock(s.tick))
                         && a.t == if when > 0 then TimeVal(when, 0) else TimeVal(0, 500_000))
            && s'.burst == s.burst && s'.query == s.query
  {
    AppendLists(env, s, Interval(when), flags, Client);
  }

  lemma RegisterHrLists(env: Env, s: State, t: TimeVal, flags: nat)
    requires 0 <= Now(env, s).usec < 1_000_000 && t.usec >= 0
    ensures var s' := Step(env, s, RegisterHr(t, flags));
            && (exists a :: Appended(s, s', a) && a.flags == flags && a.callback == Client && DueAfter(a, env.clock(s.tick))
                         && a.t == t)
            && s'.burst == s.burst && s'.query == s.query
  {
    AppendLists(env, s, t, flags, Client);
  }

  /** Both timers repeat; the id goes into the handle of the timer, and nothing else changes in it. */
  lemma StartBurstLists(env: Env, s: State)
    requires 0 <= Now(env, s).usec < 1_000_000
    ensures var s' := Step(env, s, StartBurst);
            && (exists a :: Appended(s, s', a) && a.flags == 1 && a.callback == BurstTimer && DueAfter(a, env.clock(s.tick))
                         && a.t == TimeVal(0, 500_000))
            && s'.burst == Burst(s.regnum, s.burst.time, s.burst.calls) && s'.query == s.query
  {
    AppendLists(env, s, Interval(0), SA_REPEAT, BurstTimer);
    var s1 := Append(env, s, Interval(0), SA_REPEAT, BurstTimer);
    var a :| Appended(s, s1, a) && a.t == Interval(0) && a.flags == SA_REPEAT && a.callback == BurstTimer
             && DueAfter(a, env.clock(s.tick));
    assert Appended(s, Step(env, s, StartBurst), a);
  }

  lemma StartQueryLists(env: Env, s: State)
    requires 0 <= Now(env, s).usec < 1_000_000
    ensures var s' := Step(env, s, StartQuery);
            && (exists a :: Appended(s, s', a) && a.flags == 1 && a.callback == QueryTimer && DueAfter(a, env.clock(s.tick))
                         && a.t == TimeVal(10, 0))
            && s'.query == Query(s.regnum, s.query.interval, s.query.count, s.query.calls) && s'.burst == s.burst
  {
    AppendLists(env, s, Interval(FIRST_PERIOD), SA_REPEAT, QueryTimer);
    var s1 := Append(env, s, Interval(FIRST_PERIOD), SA_REPEAT, QueryTimer);
    var a :| Appended(s, s1, a) && a.t == Interval(FIRST_PERIOD) && a.flags == SA_REPEAT && a.callback == QueryTimer
             && DueAfter(a, env.clock(s.tick));
    assert Appended(s, Step(env, s, StartQuery), a);
  }

  // ---------------------------------------------------------------- removals

  lemma {:induction false} WithoutMembers(alarms: seq<Alarm>, id: nat)
    ensures forall a :: a in Without(alarms, id) <==> a in alarms && a.id != id
  {
    if alarms != [] {
      WithoutMembers(alarms[1..], id);
      assert alarms == [alarms[0]] + alarms[1..];
    }
  }

  lemma UnlinkRemoves(s: State, id: nat)
    requires IdsIncrease(s.alarms, s.regnum)
    ensures UnregisterId(s, id) == s.(alarms := Without(s.alarms, id))
  {
    RemoveIsWithout(s.alarms, id, s.regnum);
  }

  /** A removal leaves the list without that id, in the same order, and nothing else changes. */
  lemma UnregisterRemoves(env: Env, s: State, id: nat)
    requires IdsIncrease(s.alarms, s.regnum)
    ensures Step(env, s, Unregister(id)) == s.(alarms := Without(s.alarms, id))
    ensures Step(env, s, StopQuery) == s.(alarms := Without(s.alarms, s.query.handle))
    ensures Step(env, s, UnregisterAll) == s.(alarms := [])
  {
    UnlinkRemoves(s, id);
    UnlinkRemoves(s, s.query.handle);
  }

  /** Exactly the alarms with other ids stay listed. */
  lemma UnregisterDelists(env: Env, s: State, id: nat, a: Alarm)
    requires IdsIncrease(s.alarms, s.regnum)
    ensures a in Step(env, s, Unregister(id)).alarms <==> a in s.alarms && a.id != id
  {
    UnregisterRemoves(env, s, id);
    WithoutMembers(s.alarms, id);
  }

  lemma WithoutGone(s: State, id: nat)
    requires id < s.regnum
    ensures Gone(s.(alarms := Without(s.alarms, id)), id)
  {
    WithoutMembers(s.alarms, id);
    var rest := Without(s.alarms, id);
    assert forall j :: 0 <= j < |rest| ==> rest[j] in rest;
  }

  /** The call removes the alarm with this id. */
  predicate Removes(op: Op, id: nat) {
    op == Unregister(id) || op.UnregisterAll?
  }

  lemma StepRemoves(env: Env, s: State, op: Op, id: nat)
    requires IdsIncrease(s.alarms, s.regnum) && Removes(op, id) && id < s.regnum
    ensures Gone(Step(env, s, op), id)
  {
    UnregisterRemoves(env, s, id);
    WithoutGone(s, id);
  }

  /** So does client code that contains such a call. */
  lemma {:induction false} StepsRemove(env: Env, s: State, ops: seq<Op>, i: nat, id: nat, busy: Option<Entry>)
    requires ClockOk(env) && Good(env, s, busy) && OpsOk(ops)
    requires i < |ops| && Removes(ops[i], id) && id < s.regnum
    ensures Gone(Steps(env, s, ops), id)
    decreases |ops|
  {
    var s1 := Step(env, s, ops[0]);
    StepGood(env, s, ops[0], busy);
    if i == 0 {
      StepRemoves(env, s, ops[0], id);
      StepsGone(env, s1, ops[1..], id);
    } else {
      StepHandles(env, s, ops[0]);
      StepsRemove(env, s1, ops[1..], i - 1, id, busy);
    }
  }

  /** A removal inside a callback, of any id given out by then, its own included. */
  lemma FireRemoves(env: Env, s: State, i: nat, id: nat)
    requires EnvOk(env) && Good(env, s, None) && Due(env, s)
    requires CallsClient(s, s.alarms[Earliest(s.alarms)].callback)
    requires i < |env.script(s.tick)| && Removes(env.script(s.tick)[i], id) && id < s.regnum
    ensures Gone(Fire(env, s), id)
  {
    var b := s.alarms[Earliest(s.alarms)];
    var busy := Some(Fired(b, Now(env, s)));
    var s1 := Entered(env, s);
    EnteredGood(env, s);
    PrepareGood(env, s1, b.callback, busy);
    PrepareIds(env, s1, b.callback);
    StepsRemove(env, Prepare(env, s1, b.callback), env.script(s.tick), i, id, busy);
    CallbackGood(env, s);
    RenewGone(env, Dispatch(env, s1, b.callback, env.script(s.tick)), b, Now(env, s), id);
  }

  lemma PrepareIds(env: Env, s: State, callback: Callback)
    ensures Prepare(env, s, callback).regnum >= s.regnum
  {
    if callback.QueryTimer? && s.query.interval < LAST_PERIOD {
      var s1 := NextPeriod(UnregisterId(s, s.query.handle));
      AppendFields(env, s1, Interval(s1.query.interval), SA_REPEAT, QueryTimer);
    }
  }

  // ---------------------------------------------------------------- what the log gains

  /** Nothing but registrations has been logged. */
  predicate OnlyRegistered(log: seq<Entry>, log': seq<Entry>) {
    log <= log' && forall k :: |log| <= k < |log'| ==> log'[k].Registered?
  }

  predicate IsRegistration(op: Op) {
    op.Register? || op.RegisterHr? || op.StartBurst? || op.StartQuery?
  }

  function Registrations(ops: seq<Op>): nat {
    if ops == [] then 0 else (if IsRegistration(ops[0]) then 1 else 0) + Registrations(ops[1..])
  }

  lemma StepLogs(env: Env, s: State, op: Op)
    ensures var s' := Step(env, s, op);
            OnlyRegistered(s.log, s'.log) && |s'.log| == |s.log| + if IsRegistration(op) then 1 else 0
  {
    match op
    case Register(when, flags) => AppendFields(env, s, Interval(when), flags, Client);
    case RegisterHr(t, flags) => AppendFields(env, s, t, flags, Client);
    case StartBurst => AppendFields(env, s, Interval(0), SA_REPEAT, BurstTimer);
    case StartQuery => AppendFields(env, s, Interval(FIRST_PERIOD), SA_REPEAT, QueryTimer);
    case Unregister(_) =>
    case UnregisterAll =>
    case StopQuery =>
  }

  lemma {:induction false} StepsLog(env: Env, s: State, ops: seq<Op>)
    ensures var s' := Steps(env, s, ops);
            OnlyRegistered(s.log, s'.log) && |s'.log| == |s.log| + Registrations(ops)
    decreases |ops|
  {
    if ops != [] {
      StepLogs(env, s, ops[0]);
      StepsLog(env, Step(env, s, ops[0]), ops[1..]);
    }
  }

  /** Client code makes its calls in order. */
  lemma {:induction false} StepsInOrder(env: Env, s: State, ops: seq<Op>, op: Op)
    ensures Steps(env, s, ops + [op]) == Step(env, Steps(env, s, ops), op)
    ensures Steps(env, s, []) == s
    decreases |ops|
  {
    if ops == [] {
      assert ([] + [op])[1..] == [];
    } else {
      assert (ops + [op])[0] == ops[0] && (ops + [op])[1..] == ops[1..] + [op];
      StepsInOrder(env, Step(env, s, ops[0]), ops[1..], op);
    }
  }

  lemma PrepareLogs(env: Env, s: State, callback: Callback)
    ensures var s' := Prepare(env, s, callback);
            && OnlyRegistered(s.log, s'.log)
            && |s'.log| == |s.log| + (if callback.QueryTimer? && s.query.interval < 120 then 1 else 0)
            && (callback.QueryTimer? && s.query.interval < 120 ==>
                  s'.log[|s.log|].alarm.callback == QueryTimer && s'.log[|s.log|].alarm.id == s.regnum)
  {
    if callback.QueryTimer? && s.query.interval < LAST_PERIOD {
      var s1 := NextPeriod(UnregisterId(s, s.query.handle));
      AppendFields(env, s1, Interval(s1.query.interval), SA_REPEAT, QueryTimer);
    }
  }

  lemma DispatchLogs(env: Env, s: State, callback: Callback, ops: seq<Op>)
    ensures var s' := Dispatch(env, s, callback, ops);
            && OnlyRegistered(s.log, s'.log)
            && |s'.log| == |s.log| + (if callback.QueryTimer? && s.query.interval < 120 then 1 else 0)
                                   + (if callback.BurstTimer? && s.burst.time >= 4 then 0 else Registrations(ops))
            && (callback.QueryTimer? && s.query.interval < 120 ==>
                  s'.log[|s.log|].alarm.callback == QueryTimer && s'.log[|s.log|].alarm.id == s.regnum)
  {
    PrepareLogs(env, s, callback);
    StepsLog(env, Prepare(env, s, callback), ops);
  }

  /**
    * A firing logs itself and then the registrations made meanwhile: first the next period of
    * the query timer, and then, unless it closes a burst, every one its client function asks for.
    */
  lemma FireLogs(env: Env, s: State)
    requires EnvOk(env) && Good(env, s, None) && Due(env, s)
    ensures var a := s.alarms[Earliest(s.alarms)]; var s' := Fire(env, s);
            && OnlyRegistered(s.log + [Fired(a, env.clock(s.tick))], s'.log)
            && |s'.log| == |s.log| + 1 + (if a.callback.QueryTimer? && s.query.interval < 120 then 1 else 0)
                         + (if a.callback.BurstTimer? && s.burst.time >= 4 then 0 else Registrations(env.script(s.tick)))
            && (a.callback.QueryTimer? && s.query.interval < 120 ==>
                  s'.log[|s.log| + 1].alarm.callback == QueryTimer && s'.log[|s.log| + 1].alarm.id == s.regnum)
  {
    var a := s.alarms[Earliest(s.alarms)];
    var s1 := Entered(env, s);
    DispatchLogs(env, s1, a.callback, env.script(s.tick));
    CallbackGood(env, s);
    RenewIsLocal(env, Dispatch(env, s1, a.callback, env.script(s.tick)), a, Now(env, s));
  }

  // ---------------------------------------------------------------- what is removed does not fire

  /** No firing of the id has been logged since. */
  predicate Silent(log: seq<Entry>, log': seq<Entry>, id: nat) {
    log <= log' && forall k :: |log| <= k < |log'| && log'[k].Fired? ==> log'[k].alarm.id != id
  }

  lemma FireSilent(env: Env, s: State, id: nat)
    requires EnvOk(env) && Good(env, s, None) && Due(env, s) && Gone(s, id)
    ensures Gone(Fire(env, s), id) && Silent(s.log, Fire(env, s).log, id)
  {
    var b := s.alarms[Earliest(s.alarms)];
    var s1 := Entered(env, s);
    assert Gone(s1, id);
    DispatchGone(env, s1, b.callback, env.script(s.tick), id);
    CallbackGood(env, s);
    RenewGone(env, Dispatch(env, s1, b.callback, env.script(s.tick)), b, Now(env, s), id);
    FireLogs(env, s);
    assert Fire(env, s).log[|s.log|] == Fired(b, env.clock(s.tick));
  }

  lemma HappenSilent(env: Env, s: State, e: Event, id: nat)
    requires EnvOk(env) && Good(env, s, None) && Gone(s, id)
    ensures Gone(Happen(env, s, e), id) && Silent(s.log, Happen(env, s, e).log, id)
  {
    match e
    case Init =>
    case Rearm =>
    case Call(op) =>
      StepGone(env, s, op, id);
      StepLogs(env, s, op);
    case RunTurn =>
      if Due(env, s) {
        FireSilent(env, s, id);
      }
  }

  lemma {:induction false} GoneIsSilent(env: Env, s: State, events: seq<Event>, id: nat)
    requires EnvOk(env) && Good(env, s, None) && EventsOk(events) && Gone(s, id)
    ensures Gone(Exec(env, s, events), id) && Silent(s.log, Exec(env, s, events).log, id)
    decreases |events|
  {
    if events != [] {
      var s1 := Happen(env, s, events[0]);
      HappenGood(env, s, events[0]);
      HappenSilent(env, s, events[0], id);
      GoneIsSilent(env, s1, events[1..], id);
      SilentJoins(s.log, s1.log, Exec(env, s1, events[1..]).log, id);
    }
  }

  lemma SilentJoins(log: seq<Entry>, log1: seq<Entry>, log2: seq<Entry>, id: nat)
    requires Silent(log, log1, id) && Silent(log1, log2, id)
    ensures Silent(log, log2, id)
  {
    forall k | |log| <= k < |log2| && log2[k].Fired? ensures log2[k].alarm.id != id {
      if k < |log1| {
        assert log1[k] == log2[k];
      }
    }
  }

  /** An alarm that a client has removed never fires again, in any history before and after. */
  lemma UnregisteredNeverFires(env: Env, before: seq<Event>, op: Op, id: nat, after: seq<Event>)
    requires EnvOk(env) && EventsOk(before) && EventsOk(after)
    requires Removes(op, id) && id < Exec(env, INITIAL, before).regnum
    ensures var s := Step(env, Exec(env, INITIAL, before), op);
            var s' := Exec(env, s, after);
            !Listed(s, id) && !Listed(s', id) && Silent(s.log, s'.log, id)
  {
    var s0 := Exec(env, INITIAL, before);
    assert Good(env, s0, None) by {
      InitialGood(env);
      ExecGood(env, INITIAL, before);
    }
    StepGood(env, s0, op, None);
    StepRemoves(env, s0, op, id);
    GoneIsSilent(env, Step(env, s0, op), after, id);
  }

  /** The same for a removal made inside a callback, in the middle of a call of run_alarms. */
  lemma RemovedInsideNeverFires(env: Env, before: seq<Event>, i: nat, id: nat, after: seq<Event>)
    requires EnvOk(env) && EventsOk(before) && EventsOk(after)
    requires var s := Exec(env, INITIAL, before);
             && Due(env, s) && CallsClient(s, s.alarms[Earliest(s.alarms)].callback) && id < s.regnum
             && i < |env.script(s.tick)| && Removes(env.script(s.tick)[i], id)
    ensures var s := Turn(env, Exec(env, INITIAL, before));
            var s' := Exec(env, s, after);
            !Listed(s, id) && !Listed(s', id) && Silent(s.log, s'.log, id)
  {
    var s0 := Exec(env, INITIAL, before);
    assert Good(env, s0, None) by {
      InitialGood(env);
      ExecGood(env, INITIAL, before);
    }
    FireRemoves(env, s0, i, id);
    FireGood(env, s0);
    GoneIsSilent(env, Turn(env, s0), after, id);
  }

  // ---------------------------------------------------------------- who stays listed after a firing

  /** Neither its callback nor its client function takes this alarm out. */
  predicate Spared(env: Env, s: State, a: Alarm) {
    && OpsLeave(env.script(s.tick), a.id)
    && match a.callback
       case Client => true
       case BurstTimer => s.burst.time < 4 || a.id != s.burst.handle
       case QueryTimer =>
         && (s.query.interval == 120 || a.id != s.query.handle)
         && forall i :: 0 <= i < |env.script(s.tick)| && env.script(s.tick)[i].StopQuery? ==> a.id != s.query.handle
  }

  /** One-shots, by flag or by interval, are gone after their firing. */
  lemma FiredOnce(env: Env, s: State)
    requires EnvOk(env) && Good(env, s, None) && Due(env, s)
    requires var a := s.alarms[Earliest(s.alarms)]; a.flags % 2 == 0 || a.t == TimeVal(0, 0)
    ensures !Listed(Fire(env, s), s.alarms[Earliest(s.alarms)].id)
  {
    var a := s.alarms[Earliest(s.alarms)];
    var s2 := Dispatch(env, Entered(env, s), a.callback, env.script(s.tick));
    CallbackGood(env, s);
    DroppedAfter(env, s2, a, Now(env, s));
  }

  lemma DroppedAfter(env: Env, s: State, a: Alarm, at: TimeVal)
    requires Good(env, s, Some(Fired(a, at))) && Micros(at) > 0 && (a.flags % 2 == 0 || a.t == TimeVal(0, 0))
    ensures !Listed(Renew(env, s, a.id, at), a.id)
  {
    var k := IndexOf(s.alarms, a.id);
    if k < |s.alarms| {
      RenewForm(env, s, k, at);
      assert s.alarms[k] == a;
      DropsId(s.alarms, k, s.regnum);
    }
  }

  lemma DropsId(alarms: seq<Alarm>, k: nat, regnum: nat)
    requires k < |alarms| && IdsIncrease(alarms, regnum)
    ensures forall j :: 0 <= j < |alarms| - 1 ==> DropAt(alarms, k)[j].id != alarms[k].id
  {
    assert forall j :: 0 <= j < |alarms| - 1 ==> DropAt(alarms, k)[j] == alarms[if j < k then j else j + 1];
  }

  lemma {:induction false} StepsKeep(env: Env, s: State, ops: seq<Op>, a: Alarm, busy: Option<Entry>)
    requires ClockOk(env) && Good(env, s, busy) && OpsOk(ops) && a in s.alarms && OpsLeave(ops, a.id)
    requires a.callback.QueryTimer? && a.id == s.query.handle ==> forall i :: 0 <= i < |ops| ==> !ops[i].StopQuery?
    ensures a in Steps(env, s, ops).alarms
    decreases |ops|
  {
    if ops != [] {
      ListedOk(env, s, busy, a);
      StepGood(env, s, ops[0], busy);
      StepKeeps(env, s, ops[0], a);
      StepHandles(env, s, ops[0]);
      StepsKeep(env, Step(env, s, ops[0]), ops[1..], a, busy);
    }
  }

  lemma SparedByCallback(env: Env, s: State, a: Alarm, busy: Option<Entry>, ops: seq<Op>)
    requires ClockOk(env) && Good(env, s, busy) && OpsOk(ops) && a in s.alarms && OpsLeave(ops, a.id)
    requires a.callback.BurstTimer? && s.burst.time >= 4 ==> a.id != s.burst.handle
    requires a.callback.QueryTimer? && a.id == s.query.handle ==>
               s.query.interval == 120 && forall i :: 0 <= i < |ops| ==> !ops[i].StopQuery?
    ensures a in Dispatch(env, s, a.callback, ops).alarms
  {
    ListedOk(env, s, busy, a);
    PrepareKeeps(env, s, a.callback, a);
    PrepareGood(env, s, a.callback, busy);
    StepsKeep(env, Prepare(env, s, a.callback), ops, a, busy);
  }

  /** A repeater that nobody removes is listed again, one interval after the sample. */
  lemma FiredAgain(env: Env, s: State)
    requires EnvOk(env) && Good(env, s, None) && Due(env, s)
    requires var a := s.alarms[Earliest(s.alarms)]; a.flags % 2 == 1 && a.t != TimeVal(0, 0) && Spared(env, s, a)
    ensures var a := s.alarms[Earliest(s.alarms)];
            exists b :: b in Fire(env, s).alarms && b == a.(last := b.last, next := b.next) && DueAfter(b, env.clock(s.tick))
  {
    var a := s.alarms[Earliest(s.alarms)];
    var busy := Some(Fired(a, Now(env, s)));
    EnteredGood(env, s);
    SparedByCallback(env, Entered(env, s), a, busy, env.script(s.tick));
    CallbackGood(env, s);
    RenewKeeps(env, Dispatch(env, Entered(env, s), a.callback, env.script(s.tick)), a, Now(env, s), a);
    assert AlarmOk(a);
    var b := After(Fired(a, Now(env, s)));
    assert DueAfter(b, env.clock(s.tick));
  }

  /** Whoever fires twice, in any history, has the repeat bit and a positive interval. */
  lemma FiresTwice(env: Env, events: seq<Event>, i: nat, j: nat)
    requires EnvOk(env) && EventsOk(events)
    requires var log := Exec(env, INITIAL, events).log;
             i < j < |log| && log[i].Fired? && log[j].Fired? && log[i].alarm.id == log[j].alarm.id
    ensures var a := Exec(env, INITIAL, events).log[i].alarm;
            a.flags % 2 == 1 && a.t.sec * 1_000_000 + a.t.usec > 0
  {
    InitialGood(env);
    ExecGood(env, INITIAL, events);
    OneShotFiresOnce(Exec(env, INITIAL, events).log, i, j);
  }

  // ---------------------------------------------------------------- arming the OS timer

  /** The timer is set for the earliest of the listed alarms. */
  predicate SetForEarliest(s: State, now: TimeVal) {
    s.alarms != [] && SetFor(s.itimer, s.alarms[Earliest(s.alarms)], now)
  }

  /** init_alarm_post_config and set_an_alarm: the timer is set for the earliest alarm, or left as it is. */
  lemma InitArms(env: Env, events: seq<Event>, e: Event)
    requires EnvOk(env) && EventsOk(events) && (e.Init? || e.Rearm?)
    ensures var s := Exec(env, INITIAL, events); var s' := Happen(env, s, e);
            && s' == s.(itimer := s'.itimer, tick := s'.tick, started := s.started || e.Init?)
            && (s.alarms == [] ==> s'.itimer == s.itimer && s'.tick == s.tick)
            && (s.alarms != [] ==> SetForEarliest(s', env.clock(s.tick)))
  {
    InitialGood(env);
    ExecGood(env, INITIAL, events);
    var s := Exec(env, INITIAL, events);
    if s.alarms != [] {
      ArmsFor(env, s);
    }
  }

  lemma AppendArms(env: Env, s: State, t: TimeVal, flags: nat, callback: Callback)
    requires ClockOk(env) && Good(env, s, None) && s.started && NonNegative(t) && BuiltInOk(t, flags, callback)
    ensures SetForEarliest(Append(env, s, t, flags, callback), env.clock(s.tick + 1))
  {
    var now := Now(env, s);
    var a := Alarm(s.regnum, t, flags, now, Carried(Sum(now, t)), callback);
    var s1 := s.(alarms := s.alarms + [a], regnum := s.regnum + 1, tick := s.tick + 1, log := s.log + [Registered(a)]);
    AppendForm(env, s, t, flags, callback);
    NewAlarmGood(env, s, a, None);
    ArmsFor(env, s1);
  }

  /** The handles do not matter for it. */
  lemma SetFrame(s: State, s': State, now: TimeVal)
    requires SetForEarliest(s, now) && s'.alarms == s.alarms && s'.itimer == s.itimer
    ensures SetForEarliest(s', now)
  {
  }

  lemma StartArms(env: Env, s: State, op: Op, t: TimeVal, flags: nat, callback: Callback)
    requires ClockOk(env) && Good(env, s, None) && s.started && NonNegative(t) && BuiltInOk(t, flags, callback)
    requires var s' := Append(env, s, t, flags, callback);
             Step(env, s, op) == s'.(burst := Step(env, s, op).burst, query := Step(env, s, op).query)
    ensures SetForEarliest(Step(env, s, op), env.clock(s.tick + 1))
  {
    AppendArms(env, s, t, flags, callback);
    SetFrame(Append(env, s, t, flags, callback), Step(env, s, op), env.clock(s.tick + 1));
  }

  /** Once the scheduler is started, each registration sets it as well. */
  lemma RegistrationArms(env: Env, s: State, op: Op)
    requires ClockOk(env) && Good(env, s, None) && OpOk(op) && IsRegistration(op) && s.started
    ensures SetForEarliest(Step(env, s, op), env.clock(s.tick + 1))
  {
    match op
    case Register(when, flags) => StartArms(env, s, op, Interval(when), flags, Client);
    case RegisterHr(t, flags) => StartArms(env, s, op, t, flags, Client);
    case StartBurst => StartArms(env, s, op, Interval(0), SA_REPEAT, BurstTimer);
    case StartQuery => StartArms(env, s, op, Interval(FIRST_PERIOD), SA_REPEAT, QueryTimer);
  }
}
