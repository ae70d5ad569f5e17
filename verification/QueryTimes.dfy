/** When the query timer fires: the periods of the back-off, measured across the ids it uses. */
module QueryTimes {
  import opened TimeVals
  import opened Alarms
  import opened AlarmHistory
  import opened AlarmRuns
  import opened Kinds
  import opened QueryClient

  predicate QueryRun(e: Entry) {
    e.Fired? && e.alarm.callback == QueryTimer
  }

  /**
    * The firing at position j of the log: its period is the one that belongs to the number of
    * firings since the start, and its sample is later than the sample of any earlier firing of
    * the query timer by more than that period, whatever the ids.
    */
  predicate OnTime(log: seq<Entry>, j: nat, used: nat, base: nat)
    requires j < |log|
  {
    QueryRun(log[j]) ==>
      && Runs(log[..j], QueryTimer) >= base
      && log[j].alarm.t == TimeVal(Period(used, Runs(log[..j], QueryTimer) - base), 0)
      && forall i :: 0 <= i < j && QueryRun(log[i]) ==>
           Micros(log[j].at) > Micros(log[i].at) + log[j].alarm.t.sec * 1_000_000
  }

  ghost predicate AllOnTime(log: seq<Entry>, from: nat, used: nat, base: nat) {
    forall j :: from <= j < |log| ==> OnTime(log, j, used, base)
  }

  /** Every firing so far came no later than the last registration or renewal of the listed alarm. */
  predicate RunsBefore(log: seq<Entry>, a: Alarm) {
    forall i :: 0 <= i < |log| && QueryRun(log[i]) ==> Micros(log[i].at) <= Micros(a.last)
  }

  ghost predicate TimedSince(s0: State, s: State) {
    && BackoffSince(s0, s)
    && AllOnTime(s.log, |s0.log|, s0.query.count, Runs(s0.log, QueryTimer))
    && RunsBefore(s.log, OfKind(s.alarms, QueryTimer)[0])
  }

  // ---------------------------------------------------------------- a log that grows

  lemma {:induction false} NoNewRuns(log: seq<Entry>, log': seq<Entry>)
    requires log <= log' && Runs(log, QueryTimer) == Runs(log', QueryTimer)
    ensures forall j :: |log| <= j < |log'| ==> !QueryRun(log'[j])
  {
    if |log| < |log'| {
      var init := log'[..|log'| - 1];
      CountsGrow(log, init, QueryTimer);
      NoNewRuns(log, init);
      assert forall j :: 0 <= j < |init| ==> init[j] == log'[j];
    }
  }

  lemma OnTimeExtends(log: seq<Entry>, log': seq<Entry>, j: nat, used: nat, base: nat)
    requires log <= log' && j < |log| && OnTime(log, j, used, base)
    ensures OnTime(log', j, used, base)
  {
    assert log'[..j] == log[..j];
    assert forall i :: 0 <= i <= j ==> log'[i] == log[i];
  }

  /** Entries about others change nothing. */
  lemma QuietLog(log: seq<Entry>, log': seq<Entry>, from: nat, used: nat, base: nat, a: Alarm)
    requires log <= log' && Runs(log, QueryTimer) == Runs(log', QueryTimer)
    requires AllOnTime(log, from, used, base) && RunsBefore(log, a)
    ensures AllOnTime(log', from, used, base) && RunsBefore(log', a)
  {
    NoNewRuns(log, log');
    forall j | from <= j < |log'| ensures OnTime(log', j, used, base) {
      if j < |log| {
        OnTimeExtends(log, log', j, used, base);
      }
    }
    assert forall i :: 0 <= i < |log| ==> log'[i] == log[i];
  }

  /** A firing of the listed alarm, after its deadline. */
  lemma RunLogged(log: seq<Entry>, a: Alarm, at: TimeVal, from: nat, used: nat, base: nat)
    requires AllOnTime(log, from, used, base) && RunsBefore(log, a)
    requires a.callback == QueryTimer && AlarmOk(a) && Micros(a.next) < Micros(at)
    requires Runs(log, QueryTimer) >= base && a.t == TimeVal(Period(used, Runs(log, QueryTimer) - base), 0)
    ensures AllOnTime(log + [Fired(a, at)], from, used, base)
    ensures forall i :: 0 <= i < |log + [Fired(a, at)]| && QueryRun((log + [Fired(a, at)])[i]) ==>
              Micros((log + [Fired(a, at)])[i].at) <= Micros(at)
  {
    var log' := log + [Fired(a, at)];
    assert log'[..|log|] == log;
    assert Micros(a.next) == Micros(a.last) + a.t.sec * MILLION;
    assert forall i :: 0 <= i < |log| ==> log'[i] == log[i];
    assert OnTime(log', |log|, used, base);
    forall j | from <= j < |log'| ensures OnTime(log', j, used, base) {
      if j < |log| {
        OnTimeExtends(log, log', j, used, base);
      }
    }
  }

  // ---------------------------------------------------------------- the steps keep it

  lemma StartTimed(env: Env, s: State)
    requires ClockOk(env) && Good(env, s, None) && OfKind(s.alarms, QueryTimer) == []
    ensures TimedSince(s, Step(env, s, StartQuery))
  {
    StartBackoff(env, s);
    StartLast(env, s);
    var s' := Step(env, s, StartQuery);
    var own := OfKind(s'.alarms, QueryTimer)[0];
    assert RunsBefore(s.log, own);
    QuietLog(s.log, s'.log, |s.log|, s.query.count, Runs(s.log, QueryTimer), own);
  }

  lemma StartLast(env: Env, s: State)
    requires OfKind(s.alarms, QueryTimer) == []
    ensures var s' := Step(env, s, StartQuery);
            && s.log <= s'.log && Runs(s'.log, QueryTimer) == Runs(s.log, QueryTimer)
            && |OfKind(s'.alarms, QueryTimer)| == 1 && OfKind(s'.alarms, QueryTimer)[0].last == Now(env, s)
  {
    AppendFields(env, s, Interval(FIRST_PERIOD), SA_REPEAT, QueryTimer);
    AppendKinds(env, s, Interval(FIRST_PERIOD), SA_REPEAT, QueryTimer, QueryTimer);
  }

  /** Events that leave the timer alone. */
  lemma TimedFrame(s0: State, s: State, s': State)
    requires TimedSince(s0, s) && SameTimer(s, s', QueryTimer) && s.log <= s'.log
    ensures TimedSince(s0, s')
  {
    BackoffFrame(s0, s, s');
    QuietLog(s.log, s'.log, |s0.log|, s0.query.count, Runs(s0.log, QueryTimer), OfKind(s.alarms, QueryTimer)[0]);
  }

  /** After its firing the alarm that is listed was registered or renewed since the sample. */
  lemma FireRefreshes(env: Env, s: State, own: Alarm)
    requires EnvOk(env) && Good(env, s, None) && Due(env, s)
    requires OfKind(s.alarms, QueryTimer) == [s.alarms[Earliest(s.alarms)]]
    requires OfKind(Fire(env, s).alarms, QueryTimer) == [own]
    ensures Micros(own.last) >= Micros(Now(env, s))
  {
    var a := s.alarms[Earliest(s.alarms)];
    var s' := Fire(env, s);
    FireGood(env, s);
    FireExtends(env, s);
    OfKindMembers(s.alarms, QueryTimer);
    OfKindMembers(s'.alarms, QueryTimer);
    assert own in OfKind(s'.alarms, QueryTimer);
    var i :| 0 <= i < |s'.alarms| && s'.alarms[i] == own;
    assert s'.log[|s.log|] == Fired(a, Now(env, s));
    assert own != a by {
      assert KeyLess(a, own);
    }
    assert own in s.alarms ==> own in OfKind(s.alarms, QueryTimer);
  }

  /** The timer was in order, its alarm has fired, and what is listed now was set up since. */
  lemma FiredTimed(s0: State, s: State, s': State, a: Alarm, at: TimeVal)
    requires TimedSince(s0, s) && BackoffSince(s0, s') && OfKind(s.alarms, QueryTimer) == [a]
    requires a.callback == QueryTimer && AlarmOk(a) && Micros(a.next) < Micros(at)
    requires s.log + [Fired(a, at)] <= s'.log && Runs(s'.log, QueryTimer) == Runs(s.log, QueryTimer) + 1
    requires Micros(OfKind(s'.alarms, QueryTimer)[0].last) >= Micros(at)
    ensures TimedSince(s0, s')
  {
    var used, base := s0.query.count, Runs(s0.log, QueryTimer);
    RunLogged(s.log, a, at, |s0.log|, used, base);
    CountsExtend(s.log, Fired(a, at), QueryTimer);
    QuietLog(s.log + [Fired(a, at)], s'.log, |s0.log|, used, base, OfKind(s'.alarms, QueryTimer)[0]);
  }

  lemma FireTimed(env: Env, s0: State, s: State)
    requires EnvOk(env) && Good(env, s, None) && Due(env, s) && TimedSince(s0, s)
    requires s.alarms[Earliest(s.alarms)].callback == QueryTimer && EventSpares(env, s, RunTurn, QueryTimer)
    ensures TimedSince(s0, Fire(env, s))
  {
    var a := s.alarms[Earliest(s.alarms)];
    FiringBackoff(env, s0, s);
    FireRefreshes(env, s, OfKind(Fire(env, s).alarms, QueryTimer)[0]);
    EnteredGood(env, s);
    FireExtends(env, s);
    FiredTimed(s0, s, Fire(env, s), a, Now(env, s));
  }

  lemma FiringBackoff(env: Env, s0: State, s: State)
    requires EnvOk(env) && Good(env, s, None) && Due(env, s) && BackoffSince(s0, s)
    requires s.alarms[Earliest(s.alarms)].callback == QueryTimer && EventSpares(env, s, RunTurn, QueryTimer)
    ensures OfKind(s.alarms, QueryTimer) == [s.alarms[Earliest(s.alarms)]]
    ensures BackoffSince(s0, Fire(env, s)) && Runs(Fire(env, s).log, QueryTimer) == Runs(s.log, QueryTimer) + 1
    ensures |OfKind(Fire(env, s).alarms, QueryTimer)| == 1
  {
    var firings := Runs(s.log, QueryTimer) - Runs(s0.log, QueryTimer);
    OwnQuery(s, s0.query.count, firings, Earliest(s.alarms));
    FireOwn(env, s, s0.query.count, firings);
  }

  lemma TurnTimed(env: Env, s0: State, s: State)
    requires EnvOk(env) && Good(env, s, None) && TimedSince(s0, s) && EventSpares(env, s, RunTurn, QueryTimer)
    ensures TimedSince(s0, Turn(env, s))
  {
    if Due(env, s) {
      if s.alarms[Earliest(s.alarms)].callback == QueryTimer {
        FireTimed(env, s0, s);
      } else {
        FireOtherRunning(env, s, QueryTimer);
        FireExtends(env, s);
        TimedFrame(s0, s, Fire(env, s));
      }
    } else {
      TimedFrame(s0, s, Turn(env, s));
    }
  }

  lemma CallTimed(env: Env, s0: State, s: State, op: Op)
    requires ClockOk(env) && OpOk(op) && TimedSince(s0, s) && Spares(s, op, QueryTimer)
    ensures TimedSince(s0, Step(env, s, op))
  {
    StepExtends(env, s, op);
    StepSpares(env, s, op, QueryTimer);
    TimedFrame(s0, s, Step(env, s, op));
  }

  lemma HappenTimed(env: Env, s0: State, s: State, e: Event)
    requires EnvOk(env) && Good(env, s, None) && (e.Call? ==> OpOk(e.op))
    requires TimedSince(s0, s) && EventSpares(env, s, e, QueryTimer)
    ensures TimedSince(s0, Happen(env, s, e))
  {
    match e
    case Init => TimedFrame(s0, s, Happen(env, s, e));
    case Rearm => TimedFrame(s0, s, Happen(env, s, e));
    case Call(op) => CallTimed(env, s0, s, op);
    case RunTurn => TurnTimed(env, s0, s);
  }

  lemma {:induction false} HistoryTimed(env: Env, s0: State, s: State, events: seq<Event>)
    requires EnvOk(env) && Good(env, s, None) && EventsOk(events)
    requires TimedSince(s0, s) && HistorySpares(env, s, events, QueryTimer)
    ensures TimedSince(s0, Exec(env, s, events))
    decreases |events|
  {
    if events != [] {
      HappenGood(env, s, events[0]);
      HappenTimed(env, s0, s, events[0]);
      HistoryTimed(env, s0, Happen(env, s, events[0]), events[1..]);
    }
  }

  /**
    * From a start on, while nobody starts another query timer or removes this one: the n-th
    * firing has the n-th period of the back-off, and uses a sample later than that of every
    * earlier query firing plus this period.
    */
  lemma QueryTiming(env: Env, before: seq<Event>, after: seq<Event>, j: nat)
    requires EnvOk(env) && EventsOk(before) && EventsOk(after)
    requires OfKind(Exec(env, INITIAL, before).alarms, QueryTimer) == []
    requires HistorySpares(env, Step(env, Exec(env, INITIAL, before), StartQuery), after, QueryTimer)
    requires var s0 := Exec(env, INITIAL, before);
             |s0.log| <= j < |Exec(env, Step(env, s0, StartQuery), after).log|
    ensures var s0 := Exec(env, INITIAL, before);
            OnTime(Exec(env, Step(env, s0, StartQuery), after).log, j, s0.query.count, Runs(s0.log, QueryTimer))
  {
    var s0 := Exec(env, INITIAL, before);
    assert Good(env, s0, None) by {
      InitialGood(env);
      ExecGood(env, INITIAL, before);
    }
    StepGood(env, s0, StartQuery, None);
    StartTimed(env, s0);
    HistoryTimed(env, s0, Step(env, s0, StartQuery), after);
  }
}
