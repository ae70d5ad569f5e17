/** The bounded broadcast burst: four client calls, then the timer removes itself. */
module BurstClient {
  import opened TimeVals
  import opened Alarms
  import opened AlarmHistory
  import opened AlarmRuns
  import opened Kinds

  const FIRINGS := BURST_CALLS + 1

  /** Where the counting begins: the totals before the first firing of the first burst that is counted. */
  datatype Origin = Origin(firings: int, calls: int, starts: int)

  /** At most one burst is listed, under its handle; all `starts` bursts before it are over. */
  predicate Running(s: State, starts: int) {
    var own := OfKind(s.alarms, BurstTimer);
    if own == [] then Starts(s.log, BurstTimer) == starts
    else
      && |own| == 1 && own[0].id == s.burst.handle
      && own[0].t == TimeVal(0, UNIT_BURST) && own[0].flags == SA_REPEAT
      && Starts(s.log, BurstTimer) == starts + 1
  }

  /** The counters of the callback against the number of firings since the origin. */
  predicate Counted(s: State, o: Origin, firings: int) {
    && s.burst.time == firings % FIRINGS
    && s.burst.calls == o.calls + BURST_CALLS * (firings / FIRINGS) + firings % FIRINGS
  }

  function FiringsSince(s: State, o: Origin): int {
    Runs(s.log, BurstTimer) - o.firings
  }

  function StartsSince(s: State, o: Origin): int {
    Starts(s.log, BurstTimer) - o.starts
  }

  predicate BurstInv(s: State, o: Origin) {
    var firings := FiringsSince(s, o);
    && firings >= 0 && Counted(s, o, firings)
    && Running(s, o.starts + firings / FIRINGS)
    && (OfKind(s.alarms, BurstTimer) == [] ==> s.burst.time == 0)
  }

  lemma StepRunning(env: Env, s: State, op: Op, starts: int)
    requires Running(s, starts) && Spares(s, op, BurstTimer)
    ensures Running(Step(env, s, op), starts)
  {
    StepSpares(env, s, op, BurstTimer);
    if op.StartBurst? {
      AppendKinds(env, s, Interval(0), SA_REPEAT, BurstTimer, BurstTimer);
    }
  }

  lemma {:induction false} StepsRunning(env: Env, s: State, ops: seq<Op>, starts: int)
    requires Running(s, starts) && OpsSpare(env, s, ops, BurstTimer)
    ensures var s' := Steps(env, s, ops);
            && Running(s', starts)
            && Runs(s'.log, BurstTimer) == Runs(s.log, BurstTimer)
            && s'.burst.time == s.burst.time && s'.burst.calls == s.burst.calls
            && (OfKind(s.alarms, BurstTimer) != [] ==> OfKind(s'.alarms, BurstTimer) == OfKind(s.alarms, BurstTimer))
    decreases |ops|
  {
    if ops != [] {
      StepSpares(env, s, ops[0], BurstTimer);
      StepRunning(env, s, ops[0], starts);
      StepsRunning(env, Step(env, s, ops[0]), ops[1..], starts);
    }
  }

  /** What the callback of somebody else leaves of a burst, or of no burst. */
  lemma CallbackOther(env: Env, s: State, callback: Callback, ops: seq<Op>, starts: int)
    requires TimersOk(s) && callback != BurstTimer && Running(s, starts)
    requires OpsSpare(env, Prepare(env, s, callback), ops, BurstTimer)
    ensures var s' := Dispatch(env, s, callback, ops);
            && Running(s', starts)
            && Runs(s'.log, BurstTimer) == Runs(s.log, BurstTimer)
            && s'.burst.time == s.burst.time && s'.burst.calls == s.burst.calls
            && (OfKind(s.alarms, BurstTimer) != [] ==> OfKind(s'.alarms, BurstTimer) == OfKind(s.alarms, BurstTimer))
  {
    PrepareOther(env, s, callback, BurstTimer);
    StepsRunning(env, Prepare(env, s, callback), ops, starts);
  }

  /** A firing of somebody else. */
  lemma FireOther(env: Env, s: State, o: Origin)
    requires EnvOk(env) && Good(env, s, None) && Due(env, s)
    requires BurstInv(s, o) && EventSpares(env, s, RunTurn, BurstTimer)
    requires s.alarms[Earliest(s.alarms)].callback != BurstTimer
    ensures BurstInv(Fire(env, s), o) && Runs(Fire(env, s).log, BurstTimer) == Runs(s.log, BurstTimer)
    ensures OfKind(s.alarms, BurstTimer) != [] ==>
              OfKind(Fire(env, s).alarms, BurstTimer) == OfKind(s.alarms, BurstTimer)
  {
    var a := s.alarms[Earliest(s.alarms)];
    var s1 := Entered(env, s);
    EnteredCounts(env, s, BurstTimer);
    CallbackOther(env, s1, a.callback, env.script(s.tick), o.starts + FiringsSince(s, o) / FIRINGS);
    CallbackGood(env, s);
    RenewedByOther(env, s, Dispatch(env, s1, a.callback, env.script(s.tick)), a, Now(env, s), o);
  }

  lemma RenewedByOther(env: Env, s0: State, s: State, a: Alarm, at: TimeVal, o: Origin)
    requires Good(env, s, Some(Fired(a, at))) && a.callback != BurstTimer && Micros(at) > 0
    requires BurstInv(s0, o) && Running(s, o.starts + FiringsSince(s0, o) / FIRINGS)
    requires Runs(s.log, BurstTimer) == Runs(s0.log, BurstTimer)
    requires s.burst.time == s0.burst.time && s.burst.calls == s0.burst.calls
    requires OfKind(s0.alarms, BurstTimer) != [] ==> OfKind(s.alarms, BurstTimer) == OfKind(s0.alarms, BurstTimer)
    ensures var s' := Renew(env, s, a.id, at);
            && BurstInv(s', o) && Runs(s'.log, BurstTimer) == Runs(s.log, BurstTimer)
            && OfKind(s'.alarms, BurstTimer) == OfKind(s.alarms, BurstTimer)
  {
    RenewOther(env, s, a, at, BurstTimer);
  }

  /** The burst alarm that fires is the one listed under the handle. */
  lemma OwnBurst(s: State, k: nat, o: Origin)
    requires BurstInv(s, o) && k < |s.alarms| && s.alarms[k].callback == BurstTimer
    ensures var a := s.alarms[k];
            && OfKind(s.alarms, BurstTimer) == [a] && a.id == s.burst.handle
            && a.t == TimeVal(0, UNIT_BURST) && a.flags == SA_REPEAT
  {
    OfKindMembers(s.alarms, BurstTimer);
    assert s.alarms[k] in OfKind(s.alarms, BurstTimer);
  }

  /** The first four callbacks of a burst: one client call each, and the timer stays listed. */
  lemma CallingCallback(env: Env, s: State, o: Origin)
    requires Due(env, s) && BurstInv(s, o) && EventSpares(env, s, RunTurn, BurstTimer)
    requires s.alarms[Earliest(s.alarms)].callback == BurstTimer && s.burst.time < BURST_CALLS
    ensures var s' := Dispatch(env, Entered(env, s), BurstTimer, env.script(s.tick));
            && s'.burst == s.burst.(time := s.burst.time + 1, calls := s.burst.calls + 1)
            && OfKind(s'.alarms, BurstTimer) == OfKind(s.alarms, BurstTimer)
            && Runs(s'.log, BurstTimer) == Runs(s.log, BurstTimer) + 1
            && Starts(s'.log, BurstTimer) == Starts(s.log, BurstTimer)
  {
    EnteredCounts(env, s, BurstTimer);
    OwnBurst(s, Earliest(s.alarms), o);
    CallingDispatch(env, Entered(env, s), env.script(s.tick));
  }

  lemma CallingDispatch(env: Env, s: State, ops: seq<Op>)
    requires s.burst.time < BURST_CALLS && OfKind(s.alarms, BurstTimer) != [] && OpsSpare(env, s, ops, BurstTimer)
    ensures var s' := Dispatch(env, s, BurstTimer, ops);
            && s'.burst == s.burst.(time := s.burst.time + 1, calls := s.burst.calls + 1)
            && OfKind(s'.alarms, BurstTimer) == OfKind(s.alarms, BurstTimer)
            && Runs(s'.log, BurstTimer) == Runs(s.log, BurstTimer)
            && Starts(s'.log, BurstTimer) == Starts(s.log, BurstTimer)
  {
    StepsSpareRunning(env, s, ops, BurstTimer);
  }

  lemma CountOneMore(firings: nat)
    ensures firings % FIRINGS < BURST_CALLS ==>
              (firings + 1) / FIRINGS == firings / FIRINGS && (firings + 1) % FIRINGS == firings % FIRINGS + 1
    ensures firings % FIRINGS == BURST_CALLS ==>
              (firings + 1) / FIRINGS == firings / FIRINGS + 1 && (firings + 1) % FIRINGS == 0
  {
  }

  lemma SmallCount(firings: nat)
    requires firings <= BURST_CALLS
    ensures firings % FIRINGS == firings && firings / FIRINGS == 0
  {
  }

  /** One of the first four firings of a burst. */
  lemma FireCalling(env: Env, s: State, o: Origin)
    requires EnvOk(env) && Good(env, s, None) && Due(env, s)
    requires BurstInv(s, o) && EventSpares(env, s, RunTurn, BurstTimer)
    requires s.alarms[Earliest(s.alarms)].callback == BurstTimer && s.burst.time < 4
    ensures BurstInv(Fire(env, s), o) && Runs(Fire(env, s).log, BurstTimer) == Runs(s.log, BurstTimer) + 1
  {
    OwnBurst(s, Earliest(s.alarms), o);
    CallingCallback(env, s, o);
    CallbackGood(env, s);
    RenewRunning(env, Dispatch(env, Entered(env, s), BurstTimer, env.script(s.tick)),
                 s.alarms[Earliest(s.alarms)], Now(env, s), FiringsSince(s, o), o);
  }

  /** Re-arming the burst alarm after one of its first four firings. */
  lemma RenewRunning(env: Env, s: State, a: Alarm, at: TimeVal, firings: nat, o: Origin)
    requires Good(env, s, Some(Fired(a, at))) && Micros(at) > 0
    requires a.callback == BurstTimer && a.t == TimeVal(0, UNIT_BURST) && a.flags == SA_REPEAT
    requires OfKind(s.alarms, BurstTimer) == [a] && Running(s, o.starts + firings / FIRINGS)
    requires firings % FIRINGS < BURST_CALLS && Runs(s.log, BurstTimer) == o.firings + firings + 1
    requires s.burst.time == firings % FIRINGS + 1
    requires s.burst.calls == o.calls + BURST_CALLS * (firings / FIRINGS) + firings % FIRINGS + 1
    ensures BurstInv(Renew(env, s, a.id, at), o)
    ensures Runs(Renew(env, s, a.id, at).log, BurstTimer) == Runs(s.log, BurstTimer)
  {
    RenewOwn(env, s, a, at);
    CountedNext(s, o, firings);
    var s' := Renew(env, s, a.id, at);
    assert FiringsSince(s', o) == firings + 1;
  }

  lemma CountedNext(s: State, o: Origin, firings: nat)
    requires firings % FIRINGS < BURST_CALLS && s.burst.time == firings % FIRINGS + 1
    requires s.burst.calls == o.calls + BURST_CALLS * (firings / FIRINGS) + firings % FIRINGS + 1
    ensures Counted(s, o, firings + 1) && (firings + 1) / FIRINGS == firings / FIRINGS
  {
    CountOneMore(firings);
  }

  /** The closing callback unlinks its own alarm, so there is nothing left to re-arm. */
  lemma ClosingCallback(env: Env, s: State, o: Origin)
    requires Good(env, s, None) && Due(env, s) && BurstInv(s, o)
    requires s.alarms[Earliest(s.alarms)].callback == BurstTimer && s.burst.time == BURST_CALLS
    ensures var k := Earliest(s.alarms);
            Fire(env, s) == Entered(env, s).(alarms := DropAt(s.alarms, k), burst := s.burst.(time := 0))
  {
    var k := Earliest(s.alarms);
    var a := s.alarms[k];
    OwnBurst(s, k, o);
    IndexIs(s.alarms, k);
    var rest := DropAt(s.alarms, k);
    forall j | 0 <= j < |rest| ensures rest[j].id != a.id {
      assert rest[j] == s.alarms[if j < k then j else j + 1];
    }
    assert IndexOf(rest, a.id) == |rest|;
  }

  /** The fifth removes the timer and makes no client call. */
  lemma FireClosing(env: Env, s: State, o: Origin)
    requires EnvOk(env) && Good(env, s, None) && Due(env, s) && BurstInv(s, o)
    requires s.alarms[Earliest(s.alarms)].callback == BurstTimer && s.burst.time == 4
    ensures BurstInv(Fire(env, s), o) && Runs(Fire(env, s).log, BurstTimer) == Runs(s.log, BurstTimer) + 1
    ensures OfKind(Fire(env, s).alarms, BurstTimer) == []
  {
    var k := Earliest(s.alarms);
    ClosingCallback(env, s, o);
    EnteredCounts(env, s, BurstTimer);
    OwnBurst(s, k, o);
    OnlyOneAt(s.alarms, k, s.alarms[k], BurstTimer);
    ClosedInv(s, Fire(env, s), o);
  }

  lemma ClosedInv(s: State, s': State, o: Origin)
    requires BurstInv(s, o) && s.burst.time == BURST_CALLS && OfKind(s.alarms, BurstTimer) != []
    requires s'.burst == s.burst.(time := 0) && OfKind(s'.alarms, BurstTimer) == []
    requires Runs(s'.log, BurstTimer) == Runs(s.log, BurstTimer) + 1
    requires Starts(s'.log, BurstTimer) == Starts(s.log, BurstTimer)
    ensures BurstInv(s', o)
  {
    CountOneMore(FiringsSince(s, o));
    assert FiringsSince(s', o) == FiringsSince(s, o) + 1;
  }

  lemma TurnBurst(env: Env, s: State, o: Origin)
    requires EnvOk(env) && Good(env, s, None) && BurstInv(s, o) && EventSpares(env, s, RunTurn, BurstTimer)
    ensures BurstInv(Turn(env, s), o)
  {
    if Due(env, s) {
      if s.alarms[Earliest(s.alarms)].callback != BurstTimer {
        FireOther(env, s, o);
      } else if s.burst.time < BURST_CALLS {
        FireCalling(env, s, o);
      } else {
        FireClosing(env, s, o);
      }
    }
  }

  lemma CallBurst(env: Env, s: State, op: Op, o: Origin)
    requires BurstInv(s, o) && Spares(s, op, BurstTimer)
    ensures BurstInv(Step(env, s, op), o)
  {
    var s' := Step(env, s, op);
    StepSpares(env, s, op, BurstTimer);
    StepRunning(env, s, op, o.starts + FiringsSince(s, o) / FIRINGS);
    CalledBurst(s, s', o);
  }

  lemma CalledBurst(s: State, s': State, o: Origin)
    requires BurstInv(s, o) && Running(s', o.starts + FiringsSince(s, o) / FIRINGS)
    requires Runs(s'.log, BurstTimer) == Runs(s.log, BurstTimer)
    requires s'.burst.time == s.burst.time && s'.burst.calls == s.burst.calls
    requires OfKind(s'.alarms, BurstTimer) == [] ==> OfKind(s.alarms, BurstTimer) == []
    ensures BurstInv(s', o)
  {
    assert FiringsSince(s', o) == FiringsSince(s, o);
  }

  lemma HappenBurst(env: Env, s: State, e: Event, o: Origin)
    requires EnvOk(env) && Good(env, s, None) && BurstInv(s, o) && EventSpares(env, s, e, BurstTimer)
    ensures BurstInv(Happen(env, s, e), o)
  {
    match e
    case Init =>
    case Rearm =>
    case Call(op) => CallBurst(env, s, op, o);
    case RunTurn => TurnBurst(env, s, o);
  }

  lemma {:induction false} HistoryBurst(env: Env, s: State, events: seq<Event>, o: Origin)
    requires EnvOk(env) && Good(env, s, None) && EventsOk(events)
    requires BurstInv(s, o) && HistorySpares(env, s, events, BurstTimer)
    ensures BurstInv(Exec(env, s, events), o)
    decreases |events|
  {
    if events != [] {
      HappenGood(env, s, events[0]);
      HappenBurst(env, s, events[0], o);
      HistoryBurst(env, Happen(env, s, events[0]), events[1..], o);
    }
  }

  lemma BurstsFromNothing(env: Env, s0: State, events: seq<Event>, o: Origin)
    requires EnvOk(env) && Good(env, s0, None) && EventsOk(events) && HistorySpares(env, s0, events, BurstTimer)
    requires s0.alarms == [] && s0.log == [] && s0.burst.time == 0
    requires o.firings == o.starts == 0 && o.calls == s0.burst.calls
    ensures var s := Exec(env, s0, events);
            var firings, starts := Runs(s.log, BurstTimer), Starts(s.log, BurstTimer);
            && s.burst.calls == s0.burst.calls + 4 * (firings / 5) + firings % 5
            && s.burst.time == firings % 5
            && |OfKind(s.alarms, BurstTimer)| == starts - firings / 5 <= 1
            && (OfKind(s.alarms, BurstTimer) == [] ==>
                  firings == 5 * starts && s.burst.calls == s0.burst.calls + 4 * starts)
  {
    HistoryBurst(env, s0, events, o);
  }

  /**
    * In every history that starts bursts only while none is listed, and in which no client
    * removes one: each burst is five firings with four client calls, and a burst is listed
    * exactly while its five firings are not complete. After n complete bursts, 4n calls.
    */
  lemma BurstTheorem(env: Env, events: seq<Event>)
    requires EnvOk(env) && EventsOk(events) && HistorySpares(env, INITIAL, events, BurstTimer)
    ensures var s := Exec(env, INITIAL, events);
            var firings, starts := Runs(s.log, BurstTimer), Starts(s.log, BurstTimer);
            && s.burst.calls == 4 * (firings / 5) + firings % 5
            && s.burst.time == firings % 5
            && |OfKind(s.alarms, BurstTimer)| == starts - firings / 5 <= 1
            && (OfKind(s.alarms, BurstTimer) == [] ==> firings == 5 * starts && s.burst.calls == 4 * starts)
  {
    InitialGood(env);
    BurstsFromNothing(env, INITIAL, events, Origin(0, 0, 0));
  }

  /** In any history at all, the firings of one burst are more than half a second apart. */
  lemma BurstSpacing(env: Env, events: seq<Event>, i: nat, j: nat)
    requires EnvOk(env) && EventsOk(events)
    requires var log := Exec(env, INITIAL, events).log;
             && i < j < |log| && log[i].alarm.callback == BurstTimer
             && log[j].Fired? && log[j].alarm.id == log[i].alarm.id
    ensures var log := Exec(env, INITIAL, events).log;
            At(log[j]) > At(log[i]) + Firings(log[i + 1..j + 1], log[i].alarm.id) * 500_000
  {
    InitialGood(env);
    ExecGood(env, INITIAL, events);
    var log := Exec(env, INITIAL, events).log;
    SpacingTheorem(log, i, j);
    LawfulPrefix(log, i + 1);
    assert Micros(log[i].alarm.t) == UNIT_BURST;
  }

  // ---------------------------------------------------------------- a burst gets done

  /** The client code run during a call of run_alarms leaves the burst alone. */
  ghost predicate RunSpares(env: Env, s: State, limit: int)
    requires EnvOk(env) && Good(env, s, None) && Bounded(env, limit)
    decreases limit - Micros(Now(env, s)), DueIds(s.alarms, Now(env, s))
  {
    EventSpares(env, s, RunTurn, BurstTimer) &&
    if Due(env, s) then
      FireGood(env, s);
      FireShrinks(env, s);
      assert Micros(Now(env, Fire(env, s))) <= limit;
      RunSpares(env, Fire(env, s), limit)
    else true
  }

  /** A listed burst is overdue when the clock is next read. */
  predicate Overdue(env: Env, s: State) {
    OfKind(s.alarms, BurstTimer) != [] ==>
      Micros(OfKind(s.alarms, BurstTimer)[0].next) < Micros(Now(env, s))
  }

  lemma StillOverdue(env: Env, s: State)
    requires EnvOk(env) && Good(env, s, None) && Due(env, s)
    requires OfKind(s.alarms, BurstTimer) != [] && EventSpares(env, s, RunTurn, BurstTimer) && Overdue(env, s)
    requires s.alarms[Earliest(s.alarms)].callback != BurstTimer
    ensures OfKind(Fire(env, s).alarms, BurstTimer) == OfKind(s.alarms, BurstTimer) && Overdue(env, Fire(env, s))
    ensures Runs(Fire(env, s).log, BurstTimer) == Runs(s.log, BurstTimer)
  {
    FireOtherRunning(env, s, BurstTimer);
    FireExtends(env, s);
    assert Micros(Now(env, s)) <= Micros(Now(env, Fire(env, s)));
  }

  /** A call of run_alarms fires an overdue burst at least once. */
  lemma {:induction false} RunFiresOverdue(env: Env, s: State, limit: int, o: Origin)
    requires EnvOk(env) && Good(env, s, None) && Bounded(env, limit)
    requires BurstInv(s, o) && RunSpares(env, s, limit) && Overdue(env, s)
    ensures var s' := Run(env, s, limit);
            && BurstInv(s', o)
            && Runs(s'.log, BurstTimer) >=
               Runs(s.log, BurstTimer) + if OfKind(s.alarms, BurstTimer) != [] then 1 else 0
    decreases limit - Micros(Now(env, s)), DueIds(s.alarms, Now(env, s))
  {
    if Due(env, s) {
      var s1 := Fire(env, s);
      RunAfterFire(env, s, limit, o);
      if s.alarms[Earliest(s.alarms)].callback == BurstTimer {
        FireCounts(env, s, o);
      } else if OfKind(s.alarms, BurstTimer) != [] {
        StillOverdue(env, s);
        RunFiresOverdue(env, s1, limit, o);
      } else {
        FireCounts(env, s, o);
      }
    } else if OfKind(s.alarms, BurstTimer) != [] {
      NotDueNotOverdue(env, s);
    }
  }

  /** What a firing hands on to the rest of the call. */
  lemma RunAfterFire(env: Env, s: State, limit: int, o: Origin)
    requires EnvOk(env) && Good(env, s, None) && Bounded(env, limit) && Due(env, s)
    requires BurstInv(s, o) && RunSpares(env, s, limit)
    ensures var s1 := Fire(env, s);
            && Good(env, s1, None) && BurstInv(s1, o) && RunSpares(env, s1, limit)
            && Run(env, s, limit) == Run(env, s1, limit) && BurstInv(Run(env, s1, limit), o)
            && Micros(Now(env, s)) <= Micros(Now(env, s1)) <= limit
            && (Micros(Now(env, s)) == Micros(Now(env, s1)) ==>
                  DueIds(s1.alarms, Now(env, s1)) < DueIds(s.alarms, Now(env, s)))
            && Runs(s1.log, BurstTimer) <= Runs(Run(env, s1, limit).log, BurstTimer)
  {
    RunUnfolds(env, s, limit);
    HappenBurst(env, s, RunTurn, o);
    RunKeepsBurst(env, Fire(env, s), limit, o);
  }

  lemma NotDueNotOverdue(env: Env, s: State)
    requires ClockOk(env) && Good(env, s, None) && !Due(env, s) && OfKind(s.alarms, BurstTimer) != []
    ensures !Overdue(env, s)
  {
    NoneDue(env, s);
    OfKindMembers(s.alarms, BurstTimer);
    var own := OfKind(s.alarms, BurstTimer)[0];
    assert own in s.alarms;
    var i :| 0 <= i < |s.alarms| && s.alarms[i] == own;
    BeforeIsEarlier(own.next, Now(env, s));
  }

  lemma FireCounts(env: Env, s: State, o: Origin)
    requires EnvOk(env) && Good(env, s, None) && Due(env, s)
    requires BurstInv(s, o) && EventSpares(env, s, RunTurn, BurstTimer)
    ensures Runs(Fire(env, s).log, BurstTimer) ==
            Runs(s.log, BurstTimer) + if s.alarms[Earliest(s.alarms)].callback == BurstTimer then 1 else 0
  {
    if s.alarms[Earliest(s.alarms)].callback != BurstTimer {
      FireOther(env, s, o);
    } else if s.burst.time < BURST_CALLS {
      FireCalling(env, s, o);
    } else {
      FireClosing(env, s, o);
    }
  }

  lemma {:induction false} RunKeepsBurst(env: Env, s: State, limit: int, o: Origin)
    requires EnvOk(env) && Good(env, s, None) && Bounded(env, limit)
    requires BurstInv(s, o) && RunSpares(env, s, limit)
    ensures BurstInv(Run(env, s, limit), o)
    ensures Runs(s.log, BurstTimer) <= Runs(Run(env, s, limit).log, BurstTimer)
    ensures Starts(s.log, BurstTimer) <= Starts(Run(env, s, limit).log, BurstTimer)
    decreases limit - Micros(Now(env, s)), DueIds(s.alarms, Now(env, s))
  {
    RunLeavesNothingDue(env, s, limit);
    CountsGrow(s.log, Run(env, s, limit).log, BurstTimer);
    HappenBurst(env, s, RunTurn, o);
    if Due(env, s) {
      FireGood(env, s);
      FireShrinks(env, s);
      assert Micros(Now(env, Fire(env, s))) <= limit;
      RunKeepsBurst(env, Fire(env, s), limit, o);
    }
  }

  /**
    * One round: a history in which nobody interferes, and then a call of run_alarms that comes
    * after the deadline of a burst that is listed.
    */
  ghost predicate Round(env: Env, s: State, events: seq<Event>, s': State, limit: int)
    requires EnvOk(env) && Bounded(env, limit)
  {
    && Good(env, s, None) && EventsOk(events) && HistorySpares(env, s, events, BurstTimer)
    && var s1 := Exec(env, s, events);
       && Good(env, s1, None) && Overdue(env, s1)
       && RunSpares(env, s1, limit) && s' == Run(env, s1, limit)
  }

  ghost predicate Rounds(env: Env, states: seq<State>, events: seq<seq<Event>>, limit: int)
    requires EnvOk(env) && Bounded(env, limit)
  {
    && |states| == |events| + 1
    && forall i :: 0 <= i < |events| ==> Round(env, states[i], events[i], states[i + 1], limit)
  }

  lemma RoundsTail(env: Env, states: seq<State>, events: seq<seq<Event>>, limit: int)
    requires EnvOk(env) && Bounded(env, limit) && events != [] && Rounds(env, states, events, limit)
    ensures Round(env, states[0], events[0], states[1], limit)
    ensures Rounds(env, states[1..], events[1..], limit)
  {
    forall i | 0 <= i < |events[1..]| ensures Round(env, states[1..][i], events[1..][i], states[1..][i + 1], limit) {
      assert Round(env, states[i + 1], events[i + 1], states[i + 2], limit);
    }
  }

  lemma HappenLogGrows(env: Env, s: State, e: Event)
    requires EnvOk(env) && Good(env, s, None) && (e.Call? ==> OpOk(e.op))
    ensures s.log <= Happen(env, s, e).log
  {
    match e
    case Call(op) => StepExtends(env, s, op);
    case RunTurn => if Due(env, s) { FireExtends(env, s); }
    case Init =>
    case Rearm =>
  }

  lemma ExecLogGrows(env: Env, s: State, events: seq<Event>)
    requires EnvOk(env) && Good(env, s, None) && EventsOk(events)
    ensures s.log <= Exec(env, s, events).log
    decreases |events|
  {
    if events != [] {
      HappenGood(env, s, events[0]);
      HappenLogGrows(env, s, events[0]);
      ExecLogGrows(env, Happen(env, s, events[0]), events[1..]);
    }
  }

  /** One round fires a burst that is still short of its five firings. */
  lemma RoundAdvances(env: Env, s: State, events: seq<Event>, s': State, limit: int, o: Origin)
    requires EnvOk(env) && Bounded(env, limit) && BurstInv(s, o) && Round(env, s, events, s', limit)
    ensures BurstInv(s', o) && Good(env, s', None)
    ensures StartsSince(s, o) <= StartsSince(s', o)
    ensures FiringsSince(s, o) <= FiringsSince(s', o)
    ensures FiringsSince(s, o) < FIRINGS * StartsSince(s, o) ==> FiringsSince(s, o) < FiringsSince(s', o)
  {
    var s1 := Exec(env, s, events);
    HistoryBurst(env, s, events, o);
    ExecLogGrows(env, s, events);
    CountsGrow(s.log, s1.log, BurstTimer);
    RunFiresOverdue(env, s1, limit, o);
    RunKeepsBurst(env, s1, limit, o);
    ListedIfShort(s1, o);
  }

  /** A burst that is short of firings is listed. */
  lemma ListedIfShort(s: State, o: Origin)
    requires BurstInv(s, o)
    ensures FiringsSince(s, o) < FIRINGS * StartsSince(s, o) ==> OfKind(s.alarms, BurstTimer) != []
  {
  }

  /**
    * Every burst started so far gets its five firings and four calls, once the scheduler has
    * been run after the deadline often enough: once per missing firing. If no more bursts were
    * started than that, none is listed any more, and these are all the firings and calls.
    */
  lemma {:induction false} BurstsComplete(env: Env, states: seq<State>, events: seq<seq<Event>>, limit: int,
                                          bursts: nat, o: Origin)
    requires EnvOk(env) && Bounded(env, limit)
    requires Rounds(env, states, events, limit)
    requires BurstInv(states[0], o) && bursts <= StartsSince(states[0], o)
    requires |events| >= 5 * bursts - FiringsSince(states[0], o)
    ensures var s' := states[|events|];
            && BurstInv(s', o)
            && FiringsSince(s', o) >= 5 * bursts
            && s'.burst.calls >= o.calls + 4 * bursts
            && (StartsSince(s', o) == bursts ==>
                  && OfKind(s'.alarms, BurstTimer) == [] && s'.burst.time == 0
                  && FiringsSince(s', o) == 5 * bursts
                  && s'.burst.calls == o.calls + 4 * bursts)
    decreases |events|
  {
    if events != [] {
      RoundsTail(env, states, events, limit);
      RoundAdvances(env, states[0], events[0], states[1], limit, o);
      BurstsComplete(env, states[1..], events[1..], limit, bursts, o);
    } else {
      FiringsDone(states[0], bursts, o);
    }
  }

  lemma FiringsDone(s: State, bursts: nat, o: Origin)
    requires BurstInv(s, o) && FiringsSince(s, o) >= FIRINGS * bursts
    ensures s.burst.calls >= o.calls + BURST_CALLS * bursts
    ensures StartsSince(s, o) == bursts ==>
              && OfKind(s.alarms, BurstTimer) == [] && s.burst.time == 0
              && FiringsSince(s, o) == FIRINGS * bursts
              && s.burst.calls == o.calls + BURST_CALLS * bursts
  {
  }
}
