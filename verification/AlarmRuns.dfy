/**
  Whole calls of run_alarms: exactly when the loop ends, and what a call does when the callbacks leave
  the list alone.
*/
module AlarmRuns {
  import opened TimeVals
  import opened Alarms
  import opened AlarmHistory
  import opened Sequences

  // ---------------------------------------------------------------- what a turn can change

  /** Every alarm is an old one, or was given its times, and a deadline, from n on. */
  ghost predicate NewerThan(base: seq<Alarm>, alarms: seq<Alarm>, n: int) {
    forall i :: 0 <= i < |alarms| ==> alarms[i] in base || n <= Micros(alarms[i].last) <= Micros(alarms[i].next)
  }

  /** Time and the log only grow, and whatever joins the list is not yet due. */
  ghost predicate Extends(env: Env, s: State, s': State) {
    && s.tick <= s'.tick && s.log <= s'.log && s.regnum <= s'.regnum
    && NewerThan(s.alarms, s'.alarms, Micros(Now(env, s)))
  }

  lemma ExtendsTransitive(env: Env, s: State, s1: State, s2: State)
    requires ClockOk(env) && Extends(env, s, s1) && Extends(env, s1, s2)
    ensures Extends(env, s, s2)
  {
    assert Micros(Now(env, s)) <= Micros(Now(env, s1));
  }

  lemma AppendExtends(env: Env, s: State, t: TimeVal, flags: nat, callback: Callback)
    requires ClockOk(env) && NonNegative(t)
    ensures Extends(env, s, Append(env, s, t, flags, callback))
  {
    AppendForm(env, s, t, flags, callback);
  }

  lemma StepExtends(env: Env, s: State, op: Op)
    requires ClockOk(env) && OpOk(op)
    ensures Extends(env, s, Step(env, s, op))
  {
    match op
    case Register(when, flags) => AppendExtends(env, s, Interval(when), flags, Client);
    case RegisterHr(t, flags) => AppendExtends(env, s, t, flags, Client);
    case Unregister(id) =>
    case UnregisterAll =>
    case StartBurst => AppendExtends(env, s, Interval(0), SA_REPEAT, BurstTimer);
    case StartQuery => AppendExtends(env, s, Interval(FIRST_PERIOD), SA_REPEAT, QueryTimer);
    case StopQuery =>
  }

  lemma {:induction false} StepsExtend(env: Env, s: State, ops: seq<Op>)
    requires ClockOk(env) && OpsOk(ops)
    ensures Extends(env, s, Steps(env, s, ops))
    decreases |ops|
  {
    if ops != [] {
      var s1 := Step(env, s, ops[0]);
      StepExtends(env, s, ops[0]);
      StepsExtend(env, s1, ops[1..]);
      ExtendsTransitive(env, s, s1, Steps(env, s, ops));
    }
  }

  lemma DispatchExtends(env: Env, s: State, callback: Callback, ops: seq<Op>)
    requires ClockOk(env) && OpsOk(ops)
    ensures Extends(env, s, Dispatch(env, s, callback, ops))
  {
    var s1 := Prepare(env, s, callback);
    assert Extends(env, s, s1) by {
      if callback.QueryTimer? && s.query.interval < LAST_PERIOD {
        var s2 := NextPeriod(UnregisterId(s, s.query.handle));
        AppendExtends(env, s2, Interval(s2.query.interval), SA_REPEAT, QueryTimer);
        ExtendsTransitive(env, s, s2, s1);
      }
    }
    StepsExtend(env, s1, ops);
    ExtendsTransitive(env, s, s1, Steps(env, s1, ops));
  }

  lemma RenewExtends(env: Env, s: State, a: Alarm, at: TimeVal)
    requires Good(env, s, Some(Fired(a, at))) && AlarmOk(a) && Normal(at) && Micros(at) > 0
    ensures var s' := Renew(env, s, a.id, at);
            && s'.tick == s.tick && s'.log == s.log && s'.regnum == s.regnum
            && NewerThan(s.alarms, s'.alarms, Micros(at))
  {
    var i := IndexOf(s.alarms, a.id);
    if i < |s.alarms| {
      RenewForm(env, s, i, at);
      RenewedNewer(s.alarms, i, a, at);
    }
  }

  lemma RenewedNewer(alarms: seq<Alarm>, i: nat, a: Alarm, at: TimeVal)
    requires i < |alarms| && AlarmOk(a) && Normal(at)
    ensures NewerThan(alarms, alarms[i := After(Fired(a, at))], Micros(at))
    ensures NewerThan(alarms, DropAt(alarms, i), Micros(at))
  {
  }

  lemma FireExtends(env: Env, s: State)
    requires EnvOk(env) && Good(env, s, None) && Due(env, s)
    ensures var a := s.alarms[Earliest(s.alarms)]; var s' := Fire(env, s);
            && s.tick < s'.tick && s.regnum <= s'.regnum
            && s.log + [Fired(a, Now(env, s))] <= s'.log
            && NewerThan(s.alarms, s'.alarms, Micros(Now(env, s)))
  {
    var a := s.alarms[Earliest(s.alarms)];
    var now := Now(env, s);
    var s1 := Entered(env, s);
    var s2 := Dispatch(env, s1, a.callback, env.script(s.tick));
    DispatchExtends(env, s1, a.callback, env.script(s.tick));
    assert Micros(now) <= Micros(Now(env, s1));
    EnteredGood(env, s);
    DispatchGood(env, s1, a.callback, env.script(s.tick), Some(Fired(a, now)));
    RenewExtends(env, s2, a, now);
  }

  // ---------------------------------------------------------------- the loop ends

  function DueIds(alarms: seq<Alarm>, now: TimeVal): set<nat> {
    set i | 0 <= i < |alarms| && Before(alarms[i].next, now) :: alarms[i].id
  }

  /** Either the next sample is later, or fewer alarms are due at the same sample. */
  lemma FireShrinks(env: Env, s: State)
    requires EnvOk(env) && Good(env, s, None) && Due(env, s)
    ensures var s' := Fire(env, s);
            || Micros(Now(env, s)) < Micros(Now(env, s'))
            || (Now(env, s) == Now(env, s') && DueIds(s'.alarms, Now(env, s)) < DueIds(s.alarms, Now(env, s)))
  {
    var a := s.alarms[Earliest(s.alarms)];
    var now := Now(env, s);
    var s' := Fire(env, s);
    FireGood(env, s);
    FireExtends(env, s);
    assert s'.log[|s.log|] == Fired(a, now);
    assert Micros(env.clock(s.tick)) <= Micros(env.clock(s'.tick));
    if Micros(now) == Micros(Now(env, s')) {
      NormalFormIsUnique(now, Now(env, s'));
      forall i | 0 <= i < |s'.alarms| && Before(s'.alarms[i].next, now)
        ensures s'.alarms[i].id in DueIds(s.alarms, now) && s'.alarms[i].id != a.id
      {
        BeforeIsEarlier(s'.alarms[i].next, now);
        assert KeyLess(a, s'.alarms[i]);
      }
      assert a.id in DueIds(s.alarms, now);
    }
  }

  ghost predicate Bounded(env: Env, limit: int) {
    forall i: nat :: Micros(env.clock(i)) <= limit
  }

  /**
    * A whole call of run_alarms, under a clock that stays below some limit. The callbacks may
    * register as many alarms as they like.
    */
  ghost function Run(env: Env, s: State, limit: int): (s': State)
    requires EnvOk(env) && Good(env, s, None) && Bounded(env, limit)
    ensures Good(env, s', None)
    decreases limit - Micros(Now(env, s)), DueIds(s.alarms, Now(env, s))
  {
    TurnGood(env, s);
    if Due(env, s) then
      FireShrinks(env, s);
      assert Micros(Now(env, Fire(env, s))) <= limit;
      Run(env, Fire(env, s), limit)
    else Turn(env, s)
  }

  /** One unfolding of Run, with the measure that makes it end. */
  lemma RunUnfolds(env: Env, s: State, limit: int)
    requires EnvOk(env) && Good(env, s, None) && Bounded(env, limit)
    ensures !Due(env, s) ==> Run(env, s, limit) == Turn(env, s)
    ensures Due(env, s) ==>
              var s' := Turn(env, s);
              && Good(env, s', None) && Run(env, s, limit) == Run(env, s', limit)
              && Micros(Now(env, s)) <= Micros(Now(env, s')) <= limit
              && (Micros(Now(env, s)) == Micros(Now(env, s')) ==>
                    DueIds(s'.alarms, Now(env, s')) < DueIds(s.alarms, Now(env, s)))
  {
    if Due(env, s) {
      FireGood(env, s);
      FireShrinks(env, s);
      assert Micros(Now(env, Fire(env, s))) <= limit;
    }
  }

  ghost function Turns(n: nat): seq<Event> {
    seq(n, _ => RunTurn)
  }

  lemma TurnFirst(env: Env, s: State, n: nat)
    ensures Exec(env, s, Turns(n + 1)) == Exec(env, Turn(env, s), Turns(n))
  {
    assert Turns(n + 1)[1..] == Turns(n);
  }

  /** A call is a history of single turns, so what holds of every history holds of it. */
  lemma {:induction false} RunIsTurns(env: Env, s: State, limit: int)
    requires EnvOk(env) && Good(env, s, None) && Bounded(env, limit)
    ensures exists n: nat :: Run(env, s, limit) == Exec(env, s, Turns(n))
    decreases limit - Micros(Now(env, s)), DueIds(s.alarms, Now(env, s))
  {
    if Due(env, s) {
      FireGood(env, s);
      FireShrinks(env, s);
      assert Micros(Now(env, Fire(env, s))) <= limit;
      RunIsTurns(env, Fire(env, s), limit);
      var n: nat :| Run(env, Fire(env, s), limit) == Exec(env, Fire(env, s), Turns(n));
      TurnFirst(env, s, n);
    } else {
      TurnFirst(env, s, 0);
    }
  }

  lemma {:induction false} ExecConcat(env: Env, s: State, first: seq<Event>, second: seq<Event>)
    ensures Exec(env, s, first + second) == Exec(env, Exec(env, s, first), second)
    decreases |first|
  {
    if first == [] {
      assert first + second == second;
    } else {
      var s1 := Happen(env, s, first[0]);
      ExecFirst(env, s, s1, first);
      assert (first + second)[1..] == first[1..] + second;
      ExecFirst(env, s, s1, first + second);
      ExecConcat(env, s1, first[1..], second);
    }
  }

  lemma ExecFirst(env: Env, s: State, s1: State, events: seq<Event>)
    requires events != [] && s1 == Happen(env, s, events[0])
    ensures Exec(env, s, events) == Exec(env, s1, events[1..])
  {
  }

  /** So a call after any history is a longer history. */
  lemma RunAfterHistory(env: Env, events: seq<Event>, limit: int)
    requires EnvOk(env) && EventsOk(events) && Bounded(env, limit)
    ensures Good(env, Exec(env, INITIAL, events), None)
    ensures exists n: nat ::
              Run(env, Exec(env, INITIAL, events), limit) == Exec(env, INITIAL, events + Turns(n))
  {
    InitialGood(env);
    ExecGood(env, INITIAL, events);
    var s := Exec(env, INITIAL, events);
    RunIsTurns(env, s, limit);
    var n: nat :| Run(env, s, limit) == Exec(env, s, Turns(n));
    ExecConcat(env, INITIAL, events, Turns(n));
  }

  /** When the call returns, nothing listed was due at its last sample, and that is not before its first. */
  lemma {:induction false} RunLeavesNothingDue(env: Env, s: State, limit: int)
    requires EnvOk(env) && Good(env, s, None) && Bounded(env, limit)
    ensures var s' := Run(env, s, limit);
            && s.tick <= s'.tick && s.log <= s'.log
            && (forall i :: 0 <= i < |s'.alarms| ==>
                  && s'.tick > s.tick
                  && Micros(env.clock(s'.tick - 1)) >= Micros(Now(env, s))
                  && Micros(s'.alarms[i].next) >= Micros(env.clock(s'.tick - 1)))
    decreases limit - Micros(Now(env, s)), DueIds(s.alarms, Now(env, s))
  {
    if Due(env, s) {
      FireGood(env, s);
      FireExtends(env, s);
      FireShrinks(env, s);
      assert Micros(Now(env, Fire(env, s))) <= limit;
      RunLeavesNothingDue(env, Fire(env, s), limit);
    } else if s.alarms != [] {
      var k := Earliest(s.alarms);
      forall i | 0 <= i < |s.alarms| ensures Micros(s.alarms[i].next) >= Micros(Now(env, s)) {
        BeforeIsEarlier(s.alarms[i].next, s.alarms[k].next);
        BeforeIsEarlier(s.alarms[k].next, Now(env, s));
      }
    }
  }

  // ---------------------------------------------------------------- and need not end otherwise

  /** Some turn finds nothing due, and the call returns there. */
  ghost predicate Ends(env: Env, s: State) {
    exists n: nat :: !Due(env, Exec(env, s, Turns(n)))
  }

  lemma {:induction false} EndsIfBounded(env: Env, s: State, limit: int)
    requires EnvOk(env) && Good(env, s, None) && Bounded(env, limit)
    ensures Ends(env, s)
    decreases limit - Micros(Now(env, s)), DueIds(s.alarms, Now(env, s))
  {
    if Due(env, s) {
      RunUnfolds(env, s, limit);
      EndsIfBounded(env, Turn(env, s), limit);
      var n: nat :| !Due(env, Exec(env, Turn(env, s), Turns(n)));
      TurnFirst(env, s, n);
    } else {
      assert Exec(env, s, Turns(0)) == s;
    }
  }

  const SHORTEST := RegisterHr(TimeVal(0, 1), SA_REPEAT)
  const ONE_SHOT := RegisterHr(ZERO, 0)

  predicate OneShots(ops: seq<Op>) {
    forall i :: 0 <= i < |ops| ==> ops[i] == ONE_SHOT
  }

  /** Each callback registers one-shot alarms until the clock has moved on by more than a microsecond. */
  ghost predicate Relentless(env: Env) {
    forall k: nat :: OneShots(env.script(k)) && Micros(env.clock(k)) + 1 < Micros(env.clock(k + 1 + |env.script(k)|))
  }

  /** A repeating alarm of one microsecond is due at the next reading. */
  predicate Nags(env: Env, s: State, a: Alarm) {
    a.t == TimeVal(0, 1) && a.Repeats() && Normal(a.next) && Micros(a.next) < Micros(Now(env, s))
  }

  ghost predicate Busy(env: Env, s: State) {
    && (forall i :: 0 <= i < |s.alarms| ==> s.alarms[i].callback == Client)
    && exists i :: 0 <= i < |s.alarms| && Nags(env, s, s.alarms[i])
  }

  /** Registrations read the clock once each, and leave what is listed. */
  lemma {:induction false} StepsRegister(env: Env, s: State, ops: seq<Op>)
    requires OneShots(ops)
    ensures var s' := Steps(env, s, ops);
            && s'.tick >= s.tick + |ops| && s.alarms <= s'.alarms
            && forall i :: |s.alarms| <= i < |s'.alarms| ==> s'.alarms[i].callback == Client
    decreases |ops|
  {
    if ops != [] {
      AppendForm(env, s, ZERO, 0, Client);
      StepsRegister(env, Step(env, s, ops[0]), ops[1..]);
    }
  }

  lemma BusyIsDue(env: Env, s: State)
    requires ClockOk(env) && Good(env, s, None) && Busy(env, s)
    ensures Due(env, s)
  {
    var i :| 0 <= i < |s.alarms| && Nags(env, s, s.alarms[i]);
    BeforeIsEarlier(s.alarms[i].next, Now(env, s));
    if !Due(env, s) {
      NoneDue(env, s);
    }
  }

  /** A short repeater that has just run, or has just been registered. */
  lemma NextNag(env: Env, s: State, a: Alarm, now: TimeVal)
    requires a.t == TimeVal(0, 1) && a.Repeats() && Normal(now) && a.next == Carried(Sum(now, a.t))
    requires Micros(now) + 1 < Micros(Now(env, s))
    ensures Nags(env, s, a)
  {
  }

  /** Re-arming the alarm at position k leaves an alarm that is due at the next reading. */
  lemma RenewBusy(env: Env, s: State, k: nat, i: nat, now: TimeVal)
    requires IdsIncrease(s.alarms, s.regnum) && k < |s.alarms| && i < |s.alarms|
    requires forall j :: 0 <= j < |s.alarms| ==> s.alarms[j].callback == Client
    requires Normal(now) && Micros(now) > 0 && Micros(now) + 1 < Micros(Now(env, s))
    requires Nags(env, s, s.alarms[i])
    ensures Busy(env, Renew(env, s, s.alarms[k].id, now))
  {
    var s' := Renew(env, s, s.alarms[k].id, now);
    var a := s.alarms[k];
    RenewForm(env, s, k, now);
    if a.Renews() {
      if i == k {
        NextNag(env, s', s'.alarms[k], now);
      }
      assert Nags(env, s', s'.alarms[i]);
    } else {
      var j := if i < k then i else i - 1;
      assert i != k && s'.alarms[j] == s.alarms[i];
      assert Nags(env, s', s'.alarms[j]);
    }
  }

  /** So the next turn finds something due as well. */
  lemma FireBusy(env: Env, s: State)
    requires EnvOk(env) && Relentless(env) && Good(env, s, None) && Busy(env, s) && Due(env, s)
    ensures Busy(env, Fire(env, s))
  {
    var k := Earliest(s.alarms);
    var i :| 0 <= i < |s.alarms| && Nags(env, s, s.alarms[i]);
    var s2 := Dispatch(env, Entered(env, s), s.alarms[k].callback, env.script(s.tick));
    BusyCallback(env, s);
    assert s2.alarms[k] == s.alarms[k] && s2.alarms[i] == s.alarms[i];
    RenewBusy(env, s2, k, i, Now(env, s));
  }

  lemma BusyCallback(env: Env, s: State)
    requires EnvOk(env) && Relentless(env) && Good(env, s, None) && Due(env, s)
    requires forall i :: 0 <= i < |s.alarms| ==> s.alarms[i].callback == Client
    ensures var s2 := Dispatch(env, Entered(env, s), s.alarms[Earliest(s.alarms)].callback, env.script(s.tick));
            && IdsIncrease(s2.alarms, s2.regnum) && s.alarms <= s2.alarms
            && Micros(Now(env, s)) + 1 < Micros(Now(env, s2))
            && forall i :: 0 <= i < |s2.alarms| ==> s2.alarms[i].callback == Client
  {
    var a := s.alarms[Earliest(s.alarms)];
    Outrun(env, s, Entered(env, s));
    EnteredGood(env, s);
    DispatchGood(env, Entered(env, s), a.callback, env.script(s.tick), Some(Fired(a, Now(env, s))));
  }

  /** The registrations of one callback take the clock past the next microsecond. */
  lemma Outrun(env: Env, s: State, s1: State)
    requires ClockOk(env) && Relentless(env) && s1.tick == s.tick + 1
    ensures var s2 := Steps(env, s1, env.script(s.tick));
            && s1.alarms <= s2.alarms && Micros(Now(env, s)) + 1 < Micros(Now(env, s2))
            && forall i :: |s1.alarms| <= i < |s2.alarms| ==> s2.alarms[i].callback == Client
  {
    StepsRegister(env, s1, env.script(s.tick));
    assert Micros(env.clock(s.tick + 1 + |env.script(s.tick)|)) <=
           Micros(Now(env, Steps(env, s1, env.script(s.tick))));
  }

  lemma {:induction false} BusyForEver(env: Env, s: State, n: nat)
    requires EnvOk(env) && Relentless(env) && Good(env, s, None) && Busy(env, s)
    ensures Due(env, Exec(env, s, Turns(n)))
    decreases n
  {
    BusyIsDue(env, s);
    if n > 0 {
      FireGood(env, s);
      FireBusy(env, s);
      TurnFirst(env, s, n - 1);
      BusyForEver(env, Turn(env, s), n - 1);
    }
  }

  /** The history that keeps a call busy: one short repeater, and one-shot alarms until it is due. */
  function Onset(n: nat): seq<Event> {
    [Call(SHORTEST)] + OneShotCalls(n)
  }

  function OneShotCalls(n: nat): seq<Event> {
    seq(n, _ => Call(ONE_SHOT))
  }

  lemma {:induction false} CallsRegister(env: Env, s: State, n: nat)
    ensures var s' := Exec(env, s, OneShotCalls(n));
            && s'.tick >= s.tick + n && s.alarms <= s'.alarms
            && forall i :: |s.alarms| <= i < |s'.alarms| ==> s'.alarms[i].callback == Client
    decreases n
  {
    if n > 0 {
      var e := OneShotCalls(n)[0];
      AppendForm(env, s, ZERO, 0, Client);
      assert OneShotCalls(n)[1..] == OneShotCalls(n - 1);
      CallsRegister(env, Happen(env, s, e), n - 1);
    }
  }

  lemma FirstRegistration(env: Env, s: State, t: TimeVal, flags: nat)
    requires s.alarms == [] && s.tick == 0
    ensures var s' := Step(env, s, RegisterHr(t, flags));
            && |s'.alarms| == 1 && s'.tick >= 1
            && var a := s'.alarms[0];
               a.t == t && a.flags == flags && a.next == Carried(Sum(env.clock(0), t)) && a.callback == Client
  {
    AppendForm(env, s, t, flags, Client);
  }

  lemma OnsetBusy(env: Env, s: State, op: Op, n: nat)
    requires ClockOk(env) && s.alarms == [] && s.tick == 0 && op == SHORTEST
    requires Micros(env.clock(0)) + 1 < Micros(env.clock(1 + n))
    ensures Busy(env, Exec(env, Step(env, s, op), OneShotCalls(n)))
  {
    FirstRegistration(env, s, op.t, op.flags);
    OnsetFrom(env, Step(env, s, op), n);
  }

  lemma OnsetFrom(env: Env, s1: State, n: nat)
    requires ClockOk(env) && |s1.alarms| == 1 && s1.tick >= 1
    requires var a := s1.alarms[0];
             a.callback == Client && a.t == TimeVal(0, 1) && a.Repeats() && a.next == Carried(Sum(env.clock(0), a.t))
    requires Micros(env.clock(0)) + 1 < Micros(env.clock(1 + n))
    ensures Busy(env, Exec(env, s1, OneShotCalls(n)))
  {
    CallsRegister(env, s1, n);
    StillBusy(env, s1, Exec(env, s1, OneShotCalls(n)), n);
  }

  lemma StillBusy(env: Env, s1: State, s': State, n: nat)
    requires ClockOk(env) && |s1.alarms| == 1 && s1.alarms <= s'.alarms && s'.tick >= 1 + n
    requires forall i :: 0 <= i < |s'.alarms| ==> s'.alarms[i].callback == Client
    requires var a := s1.alarms[0];
             a.t == TimeVal(0, 1) && a.Repeats() && a.next == Carried(Sum(env.clock(0), a.t))
    requires Micros(env.clock(0)) + 1 < Micros(env.clock(1 + n))
    ensures Busy(env, s')
  {
    assert Micros(env.clock(1 + n)) <= Micros(Now(env, s'));
    assert s'.alarms[0] == s1.alarms[0];
    NextNag(env, s', s'.alarms[0], env.clock(0));
  }

  /** Under a relentless environment a call after that history never ends. */
  lemma NeverEnds(env: Env, s: State, n: nat)
    requires EnvOk(env) && Relentless(env) && s == INITIAL && n == |env.script(0)|
    ensures EventsOk(Onset(n)) && !Ends(env, Exec(env, s, Onset(n)))
  {
    InitialGood(env);
    ExecGood(env, s, Onset(n));
    assert Micros(env.clock(0)) + 1 < Micros(env.clock(0 + 1 + |env.script(0)|));
    OnsetBusy(env, s, SHORTEST, n);
    assert Onset(n)[0] == Call(SHORTEST) && Onset(n)[1..] == OneShotCalls(n);
    forall m: nat ensures Due(env, Exec(env, Exec(env, s, Onset(n)), Turns(m))) {
      BusyForEver(env, Exec(env, s, Onset(n)), m);
    }
  }

  /** How many registrations at reading k take the clock on by more than a microsecond. */
  ghost function Wait(env: Env, k: nat): (m: nat)
    requires ClockOk(env) && forall limit: int :: !Bounded(env, limit)
    ensures Micros(env.clock(k)) + 1 < Micros(env.clock(k + 1 + m))
  {
    assert !Bounded(env, Micros(env.clock(k)) + 1);
    var i: nat :| Micros(env.clock(i)) > Micros(env.clock(k)) + 1;
    i - k - 1
  }

  /** Callbacks that outrun an unbounded clock. */
  lemma Relentlessness(env: Env, env': Env)
    requires ClockOk(env) && forall limit: int :: !Bounded(env, limit)
    requires env' == env.(script := (k: nat) => seq(Wait(env, k), _ => ONE_SHOT))
    ensures EnvOk(env') && Relentless(env')
  {
    forall k: nat
      ensures OneShots(env'.script(k)) && OpsOk(env'.script(k)) && |env'.script(k)| == Wait(env, k)
    {
    }
  }

  /**
    * Every call ends, after every history and whatever the callbacks do, if and only if the
    * clock stays below some limit.
    */
  lemma RunEndsIff(env: Env)
    requires ClockOk(env)
    ensures (exists limit: int :: Bounded(env, limit)) <==>
            forall env': Env, events: seq<Event> ::
              env'.clock == env.clock && EnvOk(env') && EventsOk(events) ==> Ends(env', Exec(env', INITIAL, events))
  {
    if limit: int :| Bounded(env, limit) {
      forall env': Env, events: seq<Event> | env'.clock == env.clock && EnvOk(env') && EventsOk(events)
        ensures Ends(env', Exec(env', INITIAL, events))
      {
        assert Bounded(env', limit);
        InitialGood(env');
        ExecGood(env', INITIAL, events);
        EndsIfBounded(env', Exec(env', INITIAL, events), limit);
      }
    } else {
      var env' := env.(script := (k: nat) => seq(Wait(env, k), _ => ONE_SHOT));
      Relentlessness(env, env');
      NeverEnds(env', INITIAL, |env'.script(0)|);
    }
  }

  /** A clock that runs two microseconds ahead at every reading, and callbacks that do nothing. */
  function Racing(): Env {
    Env((i: nat) => OfMicros(1 + 2 * i), (i: nat) => [])
  }

  lemma RacingOk()
    ensures EnvOk(Racing()) && Relentless(Racing())
  {
    assert forall i: nat :: Micros(Racing().clock(i)) == 1 + 2 * i && Normal(Racing().clock(i));
  }

  /** Under this clock one alarm is enough: once registered, it is due again at every turn. */
  lemma RunNeedNotEnd(env: Env, s: State)
    requires env == Racing() && s == INITIAL
    ensures EnvOk(env) && !Ends(env, Exec(env, s, [Call(SHORTEST)]))
  {
    RacingOk();
    NeverEnds(env, s, 0);
    assert OneShotCalls(0) == [] && Onset(0) == [Call(SHORTEST)];
  }

  // ---------------------------------------------------------------- refinement to a sort

  /** How many of the alarms with this callback are due. */
  function DueOf(alarms: seq<Alarm>, now: TimeVal, callback: Callback): nat {
    if alarms == [] then 0 else IfDue(alarms[0], now, callback) + DueOf(alarms[1..], now, callback)
  }

  function IfDue(a: Alarm, now: TimeVal, callback: Callback): nat {
    if a.callback == callback && Before(a.next, now) then 1 else 0
  }

  /**
    * The clock stands still from here on, client functions call nothing, and the built-in
    * callbacks leave the list alone: no burst makes its closing firing, and the query timer, if
    * it is due, has reached the last period.
    */
  ghost predicate Quiet(env: Env, s: State, now: TimeVal) {
    && (forall i: nat :: i >= s.tick ==> env.clock(i) == now && env.script(i) == [])
    && s.burst.time + DueOf(s.alarms, now, BurstTimer) <= BURST_CALLS
    && (DueOf(s.alarms, now, QueryTimer) > 0 ==> s.query.interval == LAST_PERIOD)
  }

  lemma {:induction false} DueOfConcat(a: seq<Alarm>, b: seq<Alarm>, now: TimeVal, callback: Callback)
    ensures DueOf(a + b, now, callback) == DueOf(a, now, callback) + DueOf(b, now, callback)
  {
    if a == [] {
      assert a + b == b;
    } else {
      DueOfConcat(a[1..], b, now, callback);
      assert (a + b)[0] == a[0] && (a + b)[1..] == a[1..] + b;
    }
  }

  /** Taking one alarm out, or putting another one in its place. */
  lemma DueOfAt(alarms: seq<Alarm>, i: nat, b: Alarm, now: TimeVal, callback: Callback)
    requires i < |alarms|
    ensures var rest := DueOf(DropAt(alarms, i), now, callback);
            && DueOf(alarms, now, callback) == rest + IfDue(alarms[i], now, callback)
            && DueOf(alarms[i := b], now, callback) == rest + IfDue(b, now, callback)
  {
    var left, right := alarms[..i], alarms[i + 1..];
    SplitAt(alarms, i, b);
    DueOfAround(left, alarms[i], right, now, callback);
    DueOfAround(left, b, right, now, callback);
    DueOfConcat(left, right, now, callback);
  }

  lemma DueOfAround(left: seq<Alarm>, a: Alarm, right: seq<Alarm>, now: TimeVal, callback: Callback)
    ensures DueOf(left + [a] + right, now, callback) ==
            DueOf(left, now, callback) + IfDue(a, now, callback) + DueOf(right, now, callback)
  {
    DueOfConcat(left + [a], right, now, callback);
    DueOfConcat(left, [a], now, callback);
    assert DueOf([a][1..], now, callback) == 0;
  }

  /** The list afterwards: repeaters move to now + t, the other due alarms go, the rest stay. */
  function Settled(alarms: seq<Alarm>, now: TimeVal): seq<Alarm> {
    if alarms == [] then [] else SettledAlarm(alarms[0], now) + Settled(alarms[1..], now)
  }

  function SettledAlarm(a: Alarm, now: TimeVal): seq<Alarm> {
    if !Before(a.next, now) then [a]
    else if a.flags % 2 == 1 && a.t != TimeVal(0, 0) then [After(Fired(a, now))]
    else []
  }

  lemma {:induction false} SettledConcat(a: seq<Alarm>, b: seq<Alarm>, now: TimeVal)
    ensures Settled(a + b, now) == Settled(a, now) + Settled(b, now)
  {
    if a == [] {
      assert a + b == b;
    } else {
      var rest := a[1..];
      SettledConcat(rest, b, now);
      calc {
        Settled(a + b, now);
        { assert (a + b)[0] == a[0] && (a + b)[1..] == rest + b; }
        SettledAlarm(a[0], now) + Settled(rest + b, now);
        SettledAlarm(a[0], now) + (Settled(rest, now) + Settled(b, now));
        { Associative(SettledAlarm(a[0], now), Settled(rest, now), Settled(b, now)); }
        SettledAlarm(a[0], now) + Settled(rest, now) + Settled(b, now);
        Settled(a, now) + Settled(b, now);
      }
    }
  }

  lemma {:induction false} SettledNoneDue(alarms: seq<Alarm>, now: TimeVal)
    requires forall i :: 0 <= i < |alarms| ==> !Before(alarms[i].next, now)
    ensures Settled(alarms, now) == alarms
  {
    if alarms != [] {
      SettledNoneDue(alarms[1..], now);
    }
  }

  /** One alarm in its place. */
  lemma SettledAround(left: seq<Alarm>, a: Alarm, right: seq<Alarm>, now: TimeVal)
    ensures Settled(left + [a] + right, now) == Settled(left, now) + SettledAlarm(a, now) + Settled(right, now)
  {
    SettledConcat(left + [a], right, now);
    SettledConcat(left, [a], now);
    assert Settled([a][1..], now) == [];
  }

  /** The list after the alarm at position k has been handled. */
  function SettledAt(alarms: seq<Alarm>, k: nat, now: TimeVal): seq<Alarm>
    requires k < |alarms|
  {
    var a := alarms[k];
    if a.flags % 2 == 1 && a.t != TimeVal(0, 0) then alarms[k := After(Fired(a, now))] else DropAt(alarms, k)
  }

  /** Settling one due alarm first makes no difference to the rest. */
  lemma SettledOne(alarms: seq<Alarm>, i: nat, now: TimeVal)
    requires i < |alarms| && Before(alarms[i].next, now) && NonNegative(alarms[i].t) && Normal(now)
    ensures Settled(SettledAt(alarms, i, now), now) == Settled(alarms, now)
  {
    var a := alarms[i];
    var left, right := alarms[..i], alarms[i + 1..];
    var b := After(Fired(a, now));
    SplitAt(alarms, i, b);
    SettledAround(left, a, right, now);
    if a.Renews() {
      SettledAround(left, b, right, now);
    } else {
      SettledConcat(left, right, now);
      assert Settled(left, now) + [] == Settled(left, now);
    }
  }

  /** A quiet turn moves the alarm it fires, and counts one client call of a built-in timer. */
  lemma QuietFire(env: Env, s: State, now: TimeVal)
    requires EnvOk(env) && Good(env, s, None) && Quiet(env, s, now) && Due(env, s)
    ensures var k := Earliest(s.alarms); var a := s.alarms[k];
            Fire(env, s) == Conclude(s, a.callback).(tick := s.tick + 1, alarms := SettledAt(s.alarms, k, now),
                                                     log := s.log + [Fired(a, now)])
  {
    var k := Earliest(s.alarms);
    var a := s.alarms[k];
    QuietCallback(env, s, now);
    ConcludeEntered(env, s, a.callback);
    RenewForm(env, Conclude(Entered(env, s), a.callback), k, now);
  }

  lemma ConcludeEntered(env: Env, s: State, callback: Callback)
    requires Due(env, s)
    ensures var s1 := Entered(env, s); var s2 := Conclude(s1, callback);
            && s2.alarms == s.alarms && s2.regnum == s.regnum
            && s2 == Conclude(s, callback).(tick := s1.tick, log := s1.log)
  {
  }

  lemma QuietCallback(env: Env, s: State, now: TimeVal)
    requires Quiet(env, s, now) && Due(env, s)
    ensures var a := s.alarms[Earliest(s.alarms)];
            Dispatch(env, Entered(env, s), a.callback, env.script(s.tick)) == Conclude(Entered(env, s), a.callback)
  {
    var k := Earliest(s.alarms);
    var a := s.alarms[k];
    DueOfAt(s.alarms, k, a, now, a.callback);
    QuietDispatch(env, Entered(env, s), a.callback);
  }

  lemma QuietDispatch(env: Env, s: State, callback: Callback)
    requires callback.BurstTimer? ==> s.burst.time < BURST_CALLS
    requires callback.QueryTimer? ==> s.query.interval == LAST_PERIOD
    ensures Dispatch(env, s, callback, []) == Conclude(s, callback)
  {
  }

  /** The alarm that was handled is not due any more. */
  lemma OneLessDue(alarms: seq<Alarm>, k: nat, now: TimeVal, callback: Callback)
    requires k < |alarms| && Before(alarms[k].next, now) && NonNegative(alarms[k].t) && Normal(now)
    ensures DueOf(alarms, now, callback) ==
            DueOf(SettledAt(alarms, k, now), now, callback) + if alarms[k].callback == callback then 1 else 0
  {
    DueOfAt(alarms, k, After(Fired(alarms[k], now)), now, callback);
  }

  /** Afterwards it is still quiet. */
  lemma StaysQuiet(env: Env, s: State, now: TimeVal)
    requires EnvOk(env) && Good(env, s, None) && Quiet(env, s, now) && Due(env, s)
    ensures Quiet(env, Fire(env, s), now)
  {
    var k := Earliest(s.alarms);
    QuietFire(env, s, now);
    assert AlarmOk(s.alarms[k]);
    OneLessDue(s.alarms, k, now, BurstTimer);
    OneLessDue(s.alarms, k, now, QueryTimer);
  }

  /** The firings of one call, against the list it started from. */
  ghost predicate FiresExactlyDue(fired: seq<Entry>, alarms: seq<Alarm>, now: TimeVal) {
    && (forall k :: 0 <= k < |fired| ==> fired[k].Fired? && fired[k].at == now && fired[k].alarm in alarms)
    && (forall i :: 0 <= i < |alarms| ==> (Fired(alarms[i], now) in fired <==> Before(alarms[i].next, now)))
  }

  /**
    * Under a standing clock, with callbacks that leave the list alone, a call fires exactly the
    * due alarms, each once, in the order of (deadline, id), and leaves the settled list. Each
    * firing of a built-in timer has made its client call.
    */
  lemma {:induction false} RunIsSort(env: Env, s: State, now: TimeVal, limit: int)
    requires EnvOk(env) && Good(env, s, None) && Bounded(env, limit) && Quiet(env, s, now)
    ensures Sorts(s, Run(env, s, limit), now)
    decreases limit - Micros(Now(env, s)), DueIds(s.alarms, Now(env, s))
  {
    if Due(env, s) {
      var s1 := Fire(env, s);
      StaysQuiet(env, s, now);
      FireGood(env, s);
      FireShrinks(env, s);
      assert Micros(Now(env, s1)) <= limit;
      RunIsSort(env, s1, now, limit);
      assert Run(env, s, limit) == Run(env, s1, limit);
      QuietStep(env, s, s1, Run(env, s1, limit), now);
    } else {
      QuietStop(env, s, now);
      assert Run(env, s, limit) == Turn(env, s);
    }
  }

  /** Each due alarm of a built-in timer has made one client call. */
  predicate TimersCounted(s: State, s': State, bursts: nat, queries: nat) {
    && s'.burst == s.burst.(time := s.burst.time + bursts, calls := s.burst.calls + bursts)
    && s'.query == s.query.(calls := s.query.calls + queries)
  }

  /** The list is settled, and the counters have moved on. */
  ghost predicate Settles(s: State, s': State, now: TimeVal) {
    && s' == s.(alarms := Settled(s.alarms, now), tick := s'.tick, log := s'.log,
                burst := s'.burst, query := s'.query)
    && TimersCounted(s, s', DueOf(s.alarms, now, BurstTimer), DueOf(s.alarms, now, QueryTimer))
  }

  /** The call has done its work on the list of s. */
  ghost predicate Sorts(s: State, s': State, now: TimeVal) {
    && Settles(s, s', now)
    && s.log <= s'.log
    && InOrder(s'.log[|s.log|..])
    && FiresExactlyDue(s'.log[|s.log|..], s.alarms, now)
  }

  lemma QuietStop(env: Env, s: State, now: TimeVal)
    requires EnvOk(env) && Good(env, s, None) && Quiet(env, s, now) && !Due(env, s)
    ensures Sorts(s, Turn(env, s), now)
  {
    var s' := Turn(env, s);
    assert s'.log[|s.log|..] == [];
    NoneDue(env, s);
    SettledNoneDue(s.alarms, now);
    NoneCounted(s.alarms, now, BurstTimer);
    NoneCounted(s.alarms, now, QueryTimer);
  }

  lemma {:induction false} NoneCounted(alarms: seq<Alarm>, now: TimeVal, callback: Callback)
    requires forall i :: 0 <= i < |alarms| ==> !Before(alarms[i].next, now)
    ensures DueOf(alarms, now, callback) == 0
  {
    if alarms != [] {
      NoneCounted(alarms[1..], now, callback);
    }
  }

  lemma QuietStep(env: Env, s: State, s1: State, s': State, now: TimeVal)
    requires EnvOk(env) && Good(env, s, None) && Quiet(env, s, now) && Due(env, s)
    requires s1 == Fire(env, s) && Sorts(s1, s', now) && InOrder(s'.log)
    ensures Sorts(s, s', now)
  {
    var k := Earliest(s.alarms);
    QuietFire(env, s, now);
    assert AlarmOk(s.alarms[k]) && Normal(now);
    SortsOneMore(s, k, s1, s', now);
  }

  /** Sorting after one firing is sorting before it. */
  lemma SortsOneMore(s: State, k: nat, s1: State, s': State, now: TimeVal)
    requires k < |s.alarms| && Before(s.alarms[k].next, now) && NonNegative(s.alarms[k].t) && Normal(now)
    requires forall i, j :: 0 <= i < j < |s.alarms| ==> s.alarms[i].id < s.alarms[j].id
    requires s1 == Conclude(s, s.alarms[k].callback).(tick := s1.tick, alarms := SettledAt(s.alarms, k, now),
                                                      log := s.log + [Fired(s.alarms[k], now)])
    requires Sorts(s1, s', now) && InOrder(s'.log)
    ensures Sorts(s, s', now)
  {
    SettlesOneMore(s, k, s1, s', now);
    LogOneMore(s.alarms, k, s.log, s'.log, now);
  }

  lemma SettlesOneMore(s: State, k: nat, s1: State, s': State, now: TimeVal)
    requires k < |s.alarms| && Before(s.alarms[k].next, now) && NonNegative(s.alarms[k].t) && Normal(now)
    requires s1 == Conclude(s, s.alarms[k].callback).(tick := s1.tick, alarms := SettledAt(s.alarms, k, now),
                                                      log := s1.log)
    requires Settles(s1, s', now)
    ensures Settles(s, s', now)
  {
    SettledOne(s.alarms, k, now);
    OneLessDue(s.alarms, k, now, BurstTimer);
    OneLessDue(s.alarms, k, now, QueryTimer);
    CountsOneMore(s, s1, s', s.alarms[k].callback, DueOf(s1.alarms, now, BurstTimer), DueOf(s1.alarms, now, QueryTimer));
  }

  lemma CountsOneMore(s: State, s1: State, s': State, callback: Callback, bursts: nat, queries: nat)
    requires s1.burst == Conclude(s, callback).burst && s1.query == Conclude(s, callback).query
    requires TimersCounted(s1, s', bursts, queries)
    ensures TimersCounted(s, s', bursts + (if callback.BurstTimer? then 1 else 0),
                          queries + if callback.QueryTimer? then 1 else 0)
  {
  }

  lemma LogOneMore(alarms: seq<Alarm>, k: nat, log: seq<Entry>, log': seq<Entry>, now: TimeVal)
    requires k < |alarms| && Before(alarms[k].next, now) && NonNegative(alarms[k].t) && Normal(now)
    requires forall i, j :: 0 <= i < j < |alarms| ==> alarms[i].id < alarms[j].id
    requires log + [Fired(alarms[k], now)] <= log' && InOrder(log')
    requires FiresExactlyDue(log'[|log + [Fired(alarms[k], now)]|..], SettledAt(alarms, k, now), now)
    ensures log <= log' && InOrder(log'[|log|..]) && FiresExactlyDue(log'[|log|..], alarms, now)
  {
    var e := Fired(alarms[k], now);
    assert !Before(After(e).next, now);
    OneMoreFired(alarms, k, SettledAt(alarms, k, now), log'[|log + [e]|..], now);
    LogPart(log, e, log');
  }

  lemma LogPart(log: seq<Entry>, e: Entry, log': seq<Entry>)
    requires log + [e] <= log'
    ensures log <= log' && log'[|log|..] == [e] + log'[|log + [e]|..]
    ensures InOrder(log') ==> InOrder(log'[|log|..])
  {
    assert log'[|log|] == (log + [e])[|log|] == e;
  }

  lemma NoneDue(env: Env, s: State)
    requires ClockOk(env) && Good(env, s, None) && !Due(env, s)
    ensures forall i :: 0 <= i < |s.alarms| ==> !Before(s.alarms[i].next, Now(env, s))
  {
    forall i | 0 <= i < |s.alarms| ensures !Before(s.alarms[i].next, Now(env, s)) {
      var k := Earliest(s.alarms);
      assert !Before(s.alarms[i].next, s.alarms[k].next);
    }
  }

  lemma OneMoreFired(alarms: seq<Alarm>, k: nat, alarms': seq<Alarm>, fired: seq<Entry>, now: TimeVal)
    requires k < |alarms| && Before(alarms[k].next, now)
    requires forall i, j :: 0 <= i < j < |alarms| ==> alarms[i].id < alarms[j].id
    requires alarms' == SettledAt(alarms, k, now)
    requires !Before(After(Fired(alarms[k], now)).next, now)
    requires FiresExactlyDue(fired, alarms', now)
    ensures FiresExactlyDue([Fired(alarms[k], now)] + fired, alarms, now)
  {
    var a := alarms[k];
    var all := [Fired(a, now)] + fired;
    assert all[0] == Fired(a, now);
    forall i | 0 <= i < |alarms|
      ensures Fired(alarms[i], now) in all <==> Before(alarms[i].next, now)
    {
      if i != k {
        var j := if a.Renews() || i < k then i else i - 1;
        assert alarms'[j] == alarms[i];
      }
    }
    forall m | 0 <= m < |fired| ensures fired[m].alarm in alarms {
      var j :| 0 <= j < |alarms'| && alarms'[j] == fired[m].alarm;
      assert Fired(alarms'[j], now) in fired;
      assert Before(alarms'[j].next, now);
    }
  }
}
