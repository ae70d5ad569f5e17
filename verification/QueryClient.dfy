/**
  The query back-off: the timer re-registers itself with growing periods, from inside its own
  callback, until the last period is reached.
*/
module QueryClient {
  import opened TimeVals
  import opened Alarms
  import opened AlarmHistory
  import opened AlarmRuns
  import opened Kinds

  /**
    * The period after `firings` firings of a timer that was started when `used` table entries
    * had been used up. A timer started after the last entry never leaves the first period.
    */
  function Period(used: nat, firings: nat): nat {
    if firings == 0 || used >= 6 then 10 else 20 * EntriesUsed(used, firings)
  }

  function EntriesUsed(used: nat, firings: nat): nat {
    if used + firings < 6 then used + firings else 6
  }

  /** The list, the handle and the counters, `firings` firings after the start. */
  predicate Backoff(s: State, used: nat, firings: nat) {
    var own := OfKind(s.alarms, QueryTimer);
    && |own| == 1 && own[0].id == s.query.handle
    && own[0].t == TimeVal(Period(used, firings), 0) && own[0].flags == SA_REPEAT
    && s.query.count == EntriesUsed(used, firings)
  }

  /** The client function has run once for each firing. */
  predicate BackoffSince(s0: State, s: State) {
    && Runs(s.log, QueryTimer) >= Runs(s0.log, QueryTimer)
    && var firings := Runs(s.log, QueryTimer) - Runs(s0.log, QueryTimer);
       && Backoff(s, s0.query.count, firings)
       && s.query.calls == s0.query.calls + firings
  }

  lemma StartBackoff(env: Env, s: State)
    requires OfKind(s.alarms, QueryTimer) == []
    ensures BackoffSince(s, Step(env, s, StartQuery))
  {
    AppendKinds(env, s, Interval(FIRST_PERIOD), SA_REPEAT, QueryTimer, QueryTimer);
  }

  /** Nothing else in the state matters. */
  lemma BackoffFrame(s0: State, s: State, s': State)
    requires BackoffSince(s0, s) && SameTimer(s, s', QueryTimer)
    ensures BackoffSince(s0, s')
  {
  }

  /** The query alarm that fires is the one under the handle. */
  lemma OwnQuery(s: State, used: nat, firings: nat, k: nat)
    requires Backoff(s, used, firings) && k < |s.alarms| && s.alarms[k].callback == QueryTimer
    ensures OfKind(s.alarms, QueryTimer) == [s.alarms[k]] && s.alarms[k].id == s.query.handle
  {
    OfKindMembers(s.alarms, QueryTimer);
    assert s.alarms[k] in OfKind(s.alarms, QueryTimer);
  }

  lemma PeriodNext(used: nat, firings: nat)
    ensures var n := EntriesUsed(used, firings);
            && EntriesUsed(used, firings + 1) == (if n < TABLE_SIZE then n + 1 else n)
            && Period(used, firings + 1) == (if n < TABLE_SIZE then PERIOD_STEP * (n + 1) else Period(used, firings))
            && Period(used, firings) >= FIRST_PERIOD
  {
  }

  /** Before the last period: the callback unlinks its own alarm and registers the next one. */
  lemma PrepareBackoff(env: Env, s: State, k: nat, used: nat, firings: nat)
    requires IdsIncrease(s.alarms, s.regnum) && Backoff(s, used, firings)
    requires k < |s.alarms| && s.alarms[k].callback == QueryTimer && s.query.interval < LAST_PERIOD
    ensures var s' := Prepare(env, s, QueryTimer);
            && Backoff(s', used, firings + 1)
            && s'.query.handle == s.regnum > s.alarms[k].id
            && s'.query.calls == s.query.calls
            && Runs(s'.log, QueryTimer) == Runs(s.log, QueryTimer)
  {
    var a := s.alarms[k];
    OwnQuery(s, used, firings, k);
    IndexIs(s.alarms, k);
    OnlyOneAt(s.alarms, k, a, QueryTimer);
    var s1 := NextPeriod(UnregisterId(s, s.query.handle));
    assert OfKind(s1.alarms, QueryTimer) == [];
    AppendKinds(env, s1, Interval(s1.query.interval), SA_REPEAT, QueryTimer, QueryTimer);
    PeriodNext(used, firings);
  }

  /** The callback as a whole, whichever branch it takes. */
  lemma CallbackBackoff(env: Env, s: State, k: nat, used: nat, firings: nat, ops: seq<Op>)
    requires IdsIncrease(s.alarms, s.regnum) && Backoff(s, used, firings)
    requires k < |s.alarms| && s.alarms[k].callback == QueryTimer
    requires OpsSpare(env, Prepare(env, s, QueryTimer), ops, QueryTimer)
    ensures var s' := Dispatch(env, s, QueryTimer, ops);
            && Backoff(s', used, firings + 1)
            && s'.query.calls == s.query.calls + 1
            && Runs(s'.log, QueryTimer) == Runs(s.log, QueryTimer)
  {
    var s1 := Prepare(env, s, QueryTimer);
    if s.query.interval < LAST_PERIOD {
      PrepareBackoff(env, s, k, used, firings);
    } else {
      PeriodNext(used, firings);
    }
    StepsSpareRunning(env, s1, ops, QueryTimer);
  }

  /** The same from the moment run_alarms enters it. */
  lemma EnteredBackoff(env: Env, s: State, used: nat, firings: nat)
    requires IdsIncrease(s.alarms, s.regnum) && Due(env, s) && Backoff(s, used, firings)
    requires s.alarms[Earliest(s.alarms)].callback == QueryTimer && EventSpares(env, s, RunTurn, QueryTimer)
    ensures var s' := Dispatch(env, Entered(env, s), QueryTimer, env.script(s.tick));
            && Backoff(s', used, firings + 1)
            && s'.query.calls == s.query.calls + 1
            && Runs(s'.log, QueryTimer) == Runs(s.log, QueryTimer) + 1
  {
    EnteredCounts(env, s, QueryTimer);
    CallbackBackoff(env, Entered(env, s), Earliest(s.alarms), used, firings, env.script(s.tick));
  }

  lemma QueryRenews(a: Alarm)
    requires AlarmOk(a) && a.callback == QueryTimer
    ensures a.Renews()
  {
  }

  lemma FireOwn(env: Env, s: State, used: nat, firings: nat)
    requires EnvOk(env) && Good(env, s, None) && Due(env, s) && Backoff(s, used, firings)
    requires s.alarms[Earliest(s.alarms)].callback == QueryTimer && EventSpares(env, s, RunTurn, QueryTimer)
    ensures Backoff(Fire(env, s), used, firings + 1)
    ensures Fire(env, s).query.calls == s.query.calls + 1
    ensures Runs(Fire(env, s).log, QueryTimer) == Runs(s.log, QueryTimer) + 1
  {
    var a := s.alarms[Earliest(s.alarms)];
    EnteredBackoff(env, s, used, firings);
    QueryRenews(a);
    CallbackGood(env, s);
    RenewBackoff(env, Dispatch(env, Entered(env, s), QueryTimer, env.script(s.tick)), a, Now(env, s), used, firings + 1);
  }

  lemma RenewBackoff(env: Env, s: State, a: Alarm, at: TimeVal, used: nat, firings: nat)
    requires Good(env, s, Some(Fired(a, at))) && Micros(at) > 0
    requires a.callback == QueryTimer && a.Renews() && Backoff(s, used, firings)
    ensures var s' := Renew(env, s, a.id, at);
            Backoff(s', used, firings) && s'.query == s.query && s'.log == s.log
  {
    RenewOwn(env, s, a, at);
  }

  lemma TurnBackoff(env: Env, s0: State, s: State)
    requires EnvOk(env) && Good(env, s, None) && BackoffSince(s0, s) && EventSpares(env, s, RunTurn, QueryTimer)
    ensures BackoffSince(s0, Turn(env, s))
  {
    if Due(env, s) {
      if s.alarms[Earliest(s.alarms)].callback == QueryTimer {
        FireOwn(env, s, s0.query.count, Runs(s.log, QueryTimer) - Runs(s0.log, QueryTimer));
      } else {
        FireOtherRunning(env, s, QueryTimer);
        BackoffFrame(s0, s, Fire(env, s));
      }
    } else {
      BackoffFrame(s0, s, Turn(env, s));
    }
  }

  lemma CallBackoff(env: Env, s0: State, s: State, op: Op)
    requires BackoffSince(s0, s) && Spares(s, op, QueryTimer)
    ensures BackoffSince(s0, Step(env, s, op))
  {
    StepSpares(env, s, op, QueryTimer);
    BackoffFrame(s0, s, Step(env, s, op));
  }

  lemma HappenBackoff(env: Env, s0: State, s: State, e: Event)
    requires EnvOk(env) && Good(env, s, None) && BackoffSince(s0, s) && EventSpares(env, s, e, QueryTimer)
    ensures BackoffSince(s0, Happen(env, s, e))
  {
    match e
    case Init => BackoffFrame(s0, s, Happen(env, s, e));
    case Rearm => BackoffFrame(s0, s, Happen(env, s, e));
    case Call(op) => CallBackoff(env, s0, s, op);
    case RunTurn => TurnBackoff(env, s0, s);
  }

  lemma {:induction false} HistoryBackoff(env: Env, s0: State, s: State, events: seq<Event>)
    requires EnvOk(env) && Good(env, s, None) && EventsOk(events)
    requires BackoffSince(s0, s) && HistorySpares(env, s, events, QueryTimer)
    ensures BackoffSince(s0, Exec(env, s, events))
    decreases |events|
  {
    if events != [] {
      HappenGood(env, s, events[0]);
      HappenBackoff(env, s0, s, events[0]);
      HistoryBackoff(env, s0, Happen(env, s, events[0]), events[1..]);
    }
  }

  /**
    * From a start on, through any history in which nobody stops or removes the timer: exactly
    * one query alarm is listed, under the handle; its period is the one for the number of
    * firings; the client function has run once per firing.
    */
  lemma QueryTheorem(env: Env, before: seq<Event>, after: seq<Event>)
    requires EnvOk(env) && EventsOk(before) && EventsOk(after)
    requires OfKind(Exec(env, INITIAL, before).alarms, QueryTimer) == []
    requires HistorySpares(env, Step(env, Exec(env, INITIAL, before), StartQuery), after, QueryTimer)
    ensures var s0 := Exec(env, INITIAL, before);
            BackoffSince(s0, Exec(env, Step(env, s0, StartQuery), after))
  {
    var s0 := Exec(env, INITIAL, before);
    assert Good(env, s0, None) by {
      InitialGood(env);
      ExecGood(env, INITIAL, before);
    }
    StepGood(env, s0, StartQuery, None);
    StartBackoff(env, s0);
    HistoryBackoff(env, s0, Step(env, s0, StartQuery), after);
  }

  /** Stopping removes the timer. */
  lemma StopEnds(env: Env, s: State, used: nat, firings: nat)
    requires IdsIncrease(s.alarms, s.regnum) && Backoff(s, used, firings)
    ensures OfKind(Step(env, s, StopQuery).alarms, QueryTimer) == []
  {
    var own := OfKind(s.alarms, QueryTimer)[0];
    OfKindMembers(s.alarms, QueryTimer);
    assert own in s.alarms;
    var k :| 0 <= k < |s.alarms| && s.alarms[k] == own;
    IndexIs(s.alarms, k);
    OnlyOneAt(s.alarms, k, own, QueryTimer);
  }

  // ---------------------------------------------------------------- starting again

  /**
    * The counters survive a stop. In any history of that kind the listed timer has the last
    * period if and only if table entries were left at the start and the firings since then have
    * used them up. If none were left it has the first period, however often it has fired.
    */
  lemma ReachesLastPeriod(env: Env, before: seq<Event>, after: seq<Event>)
    requires EnvOk(env) && EventsOk(before) && EventsOk(after)
    requires OfKind(Exec(env, INITIAL, before).alarms, QueryTimer) == []
    requires HistorySpares(env, Step(env, Exec(env, INITIAL, before), StartQuery), after, QueryTimer)
    ensures var s0 := Exec(env, INITIAL, before);
            var s := Exec(env, Step(env, s0, StartQuery), after);
            var own := OfKind(s.alarms, QueryTimer);
            var firings := Runs(s.log, QueryTimer) - Runs(s0.log, QueryTimer);
            && |own| == 1 && own[0].t.usec == 0
            && (own[0].t.sec == 120 <==> s0.query.count < 6 <= s0.query.count + firings)
            && (s0.query.count == 6 ==> own[0].t.sec == 10)
  {
    QueryTheorem(env, before, after);
  }

  /** More than the last period passes between two readings, and client functions call nothing. */
  ghost predicate Leisurely(env: Env) {
    forall i: nat ::
      && Normal(env.clock(i)) && Micros(env.clock(i)) > 0 && env.script(i) == []
      && Micros(env.clock(i)) + LAST_PERIOD * MILLION < Micros(env.clock(i + 1))
  }

  /** The query timer is alone, under its handle, and due. */
  ghost predicate Alone(env: Env, s: State, a: Alarm) {
    && s.alarms == [a] && a.callback == QueryTimer && a.flags == SA_REPEAT
    && 1 <= a.id == s.query.handle < s.regnum
    && a.t.usec == 0 && FIRST_PERIOD <= a.t.sec <= LAST_PERIOD
    && Normal(a.next) && Micros(a.next) < Micros(Now(env, s)) && !s.started
  }

  /** A deadline set at the previous reading is past at this one. */
  lemma PastAtNext(env: Env, k: nat, t: TimeVal)
    requires Leisurely(env) && t.usec == 0 && t.sec <= LAST_PERIOD
    ensures var next := Carried(Sum(env.clock(k), t));
            Normal(next) && Micros(next) < Micros(env.clock(k + 1))
  {
  }

  lemma StartAlone(env: Env, s: State, period: nat)
    requires Leisurely(env) && s.alarms == [] && s.regnum >= 1 && !s.started
    requires FIRST_PERIOD <= period <= LAST_PERIOD
    ensures var s' := RegisterQuery(env, s, period);
            && |s'.alarms| == 1 && Alone(env, s', s'.alarms[0]) && s'.alarms[0].t == TimeVal(period, 0)
            && s'.alarms[0].id == s.regnum
            && s'.query == s.query.(handle := s.regnum) && Runs(s'.log, QueryTimer) == Runs(s.log, QueryTimer)
  {
    AppendForm(env, s, Interval(period), SA_REPEAT, QueryTimer);
    AppendKinds(env, s, Interval(period), SA_REPEAT, QueryTimer, QueryTimer);
    PastAtNext(env, s.tick, Interval(period));
  }

  lemma OnlyOneDue(env: Env, s: State, a: Alarm)
    requires Leisurely(env) && Alone(env, s, a)
    ensures Due(env, s) && Earliest(s.alarms) == 0 && env.script(s.tick) == []
    ensures Runs(Entered(env, s).log, QueryTimer) == Runs(s.log, QueryTimer) + 1
  {
    BeforeIsEarlier(a.next, Now(env, s));
    EnteredCounts(env, s, QueryTimer);
  }

  /** While table entries are left, a turn takes the next one. */
  lemma TurnBefore(env: Env, s: State, a: Alarm)
    requires Leisurely(env) && Alone(env, s, a) && s.query.count < TABLE_SIZE
    ensures var s' := Turn(env, s);
            && |s'.alarms| == 1 && Alone(env, s', s'.alarms[0])
            && s'.query.count == s.query.count + 1 && Runs(s'.log, QueryTimer) == Runs(s.log, QueryTimer) + 1
  {
    OnlyOneDue(env, s, a);
    var s1 := Entered(env, s);
    assert UnregisterId(s1, s1.query.handle).alarms == [];
    var s2 := NextPeriod(UnregisterId(s1, s1.query.handle));
    StartAlone(env, s2, s2.query.interval);
    var s3 := RegisterQuery(env, s2, s2.query.interval);
    assert IndexOf(s3.alarms, a.id) == 1;
  }

  /** When they are used up, it only re-arms the timer. */
  lemma TurnAfter(env: Env, s: State, a: Alarm)
    requires Leisurely(env) && Alone(env, s, a) && s.query.count == TABLE_SIZE
    ensures var s' := Turn(env, s);
            && |s'.alarms| == 1 && Alone(env, s', s'.alarms[0]) && s'.alarms[0].t == a.t
            && s'.query.count == s.query.count && Runs(s'.log, QueryTimer) == Runs(s.log, QueryTimer) + 1
  {
    var s1 := Entered(env, s);
    OnlyOneDue(env, s, a);
    QuietDispatch(env, s1, QueryTimer);
    RenewsAlone(env, Conclude(s1, QueryTimer), a, Now(env, s));
    PastAtNext(env, s.tick, a.t);
  }

  lemma RenewsAlone(env: Env, s: State, a: Alarm, now: TimeVal)
    requires s.alarms == [a] && 1 <= a.id < s.regnum && a.Renews() && Micros(now) > 0
    ensures Renew(env, s, a.id, now) == s.(alarms := [After(Fired(a, now))])
  {
    RenewForm(env, s, 0, now);
  }

  lemma {:induction false} TurnsBefore(env: Env, s: State, a: Alarm, n: nat)
    requires Leisurely(env) && Alone(env, s, a) && s.query.count + n == TABLE_SIZE
    ensures var s' := Exec(env, s, Turns(n));
            |s'.alarms| == 1 && Alone(env, s', s'.alarms[0]) && s'.query.count == TABLE_SIZE
    decreases n
  {
    if n == 0 {
      assert Exec(env, s, Turns(0)) == s;
    } else {
      TurnBefore(env, s, a);
      TurnFirst(env, s, n - 1);
      TurnsBefore(env, Turn(env, s), Turn(env, s).alarms[0], n - 1);
    }
  }

  lemma {:induction false} TurnsAfter(env: Env, s: State, a: Alarm, n: nat)
    requires Leisurely(env) && Alone(env, s, a) && s.query.count == TABLE_SIZE
    ensures var s' := Exec(env, s, Turns(n));
            && |s'.alarms| == 1 && Alone(env, s', s'.alarms[0]) && s'.alarms[0].t == a.t
            && Runs(s'.log, QueryTimer) == Runs(s.log, QueryTimer) + n
    decreases n
  {
    if n == 0 {
      assert Exec(env, s, Turns(0)) == s;
    } else {
      TurnAfter(env, s, a);
      TurnFirst(env, s, n - 1);
      TurnsAfter(env, Turn(env, s), Turn(env, s).alarms[0], n - 1);
    }
  }

  /** The timer is started, runs for n turns, and is stopped. */
  ghost function UsingUp(n: nat): seq<Event> {
    [Call(StartQuery)] + Turns(n) + [Call(StopQuery)]
  }

  lemma UsingUpRuns(env: Env, s: State, n: nat)
    ensures Exec(env, s, UsingUp(n)) == Step(env, Exec(env, Step(env, s, StartQuery), Turns(n)), StopQuery)
  {
    var s1 := Exec(env, Step(env, s, StartQuery), Turns(n));
    ExecConcat(env, s, [Call(StartQuery)] + Turns(n), [Call(StopQuery)]);
    ExecConcat(env, s, [Call(StartQuery)], Turns(n));
    OneCall(env, s, StartQuery);
    OneCall(env, s1, StopQuery);
  }

  lemma OneCall(env: Env, s: State, op: Op)
    ensures Exec(env, s, [Call(op)]) == Step(env, s, op)
  {
    assert [Call(op)][1..] == [];
  }

  /** Six turns use the table up, and the stop leaves nothing behind but the counter. */
  lemma UsesUp(env: Env, s: State, n: nat)
    requires Leisurely(env) && s.alarms == [] && s.regnum >= 1 && !s.started
    requires s.query.count + n == TABLE_SIZE
    ensures var s' := Exec(env, s, UsingUp(n));
            s'.query.count == TABLE_SIZE && s'.alarms == [] && s'.regnum >= 1 && !s'.started
  {
    var s1 := Step(env, s, StartQuery);
    StartAlone(env, s, FIRST_PERIOD);
    TurnsBefore(env, s1, s1.alarms[0], n);
    var s2 := Exec(env, s1, Turns(n));
    assert Remove(s2.alarms, s2.query.handle) == [];
    UsingUpRuns(env, s, n);
  }

  /** The next start begins at the first period, and any number of firings later it is still there. */
  lemma StaysShort(env: Env, s: State, n: nat)
    requires Leisurely(env) && s.alarms == [] && s.regnum >= 1 && !s.started && s.query.count == TABLE_SIZE
    ensures var s' := Exec(env, Step(env, s, StartQuery), Turns(n));
            && |s'.alarms| == 1 && s'.alarms[0].callback == QueryTimer && s'.alarms[0].t == TimeVal(FIRST_PERIOD, 0)
            && Runs(s'.log, QueryTimer) == Runs(s.log, QueryTimer) + n
  {
    var s1 := Step(env, s, StartQuery);
    StartAlone(env, s, FIRST_PERIOD);
    TurnsAfter(env, s1, s1.alarms[0], n);
  }

  /** One environment of that kind. */
  function Patient(): Env {
    Env((i: nat) => TimeVal(1 + 121 * i, 0), (i: nat) => [])
  }

  lemma PatientOk()
    ensures EnvOk(Patient()) && Leisurely(Patient())
  {
    assert forall i: nat :: Micros(Patient().clock(i)) == (1 + 121 * i) * MILLION && Normal(Patient().clock(i));
  }

  /** Start, six firings, stop, start. From then on each of n turns fires, all at the first period. */
  lemma RestartStaysShort(env: Env, s0: State, entries: nat, n: nat)
    requires env == Patient() && s0 == INITIAL && entries == 6
    ensures EnvOk(env)
    ensures var s := Exec(env, s0, UsingUp(entries));
            && s.query.count == 6 && OfKind(s.alarms, QueryTimer) == []
            && var s' := Exec(env, Step(env, s, StartQuery), Turns(n));
               && |s'.alarms| == 1 && s'.alarms[0].callback == QueryTimer
               && s'.alarms[0].t == TimeVal(10, 0)
               && Runs(s'.log, QueryTimer) == Runs(s.log, QueryTimer) + n
  {
    PatientOk();
    UsesUp(env, s0, entries);
    StaysShort(env, Exec(env, s0, UsingUp(entries)), n);
  }
}
