/** Arming the OS timer for the next alarm, and the one case in which it stays silent. */
module OsTimer {
  import opened TimeVals
  import opened Alarms
  import opened AlarmHistory

  /** setitimer with a zero value disarms the timer instead of starting it. */
  predicate Pending(timer: Arming) {
    timer.Armed? && timer.delay != ZERO
  }

  /** The delay is normal; it is the remaining time, or one microsecond if the deadline has passed. */
  lemma DelayIsRemaining(next: TimeVal, now: TimeVal)
    requires Normal(next) && Normal(now)
    ensures var d := Delay(next, now);
            && Normal(d) && NonNegative(d)
            && Micros(d) == (if Micros(next) < Micros(now) then 1 else Micros(next) - Micros(now))
            && (d == ZERO <==> next == now)
  {
    BeforeIsEarlier(next, now);
    if Micros(next) >= Micros(now) {
      var diff := TimeVal(next.sec - now.sec, next.usec - now.usec);
      assert Micros(Borrowed(diff)) == Micros(diff) == Micros(next) - Micros(now);
    }
  }

  /** The timer is set for this alarm, to expire at its deadline, or in one microsecond if that has passed. */
  predicate SetFor(timer: Arming, a: Alarm, now: TimeVal) {
    && timer.Armed? && timer.id == a.id && timer.at == now && Normal(timer.delay) && NonNegative(timer.delay)
    && Micros(now) + Micros(timer.delay) == (if Micros(a.next) < Micros(now) then Micros(now) + 1 else Micros(a.next))
  }

  lemma ArmsFor(env: Env, s: State)
    requires ClockOk(env) && Good(env, s, None) && s.alarms != []
    ensures var a := s.alarms[Earliest(s.alarms)]; var s' := SetAnAlarm(env, s);
            && s' == s.(itimer := s'.itimer, tick := s.tick + 1)
            && SetFor(s'.itimer, a, Now(env, s))
            && (Pending(s'.itimer) <==> Micros(a.next) != Micros(Now(env, s)))
  {
    var a := s.alarms[Earliest(s.alarms)];
    DelayIsRemaining(a.next, Now(env, s));
    if Micros(a.next) == Micros(Now(env, s)) {
      NormalFormIsUnique(a.next, Now(env, s));
    }
  }

  /**
    * In any reachable state, arming names the alarm sa_find_next chooses and expires exactly at
    * its deadline, or one microsecond after the reading if that has passed. The timer is left
    * running if and only if the deadline is not the very instant that was read.
    */
  lemma Arms(env: Env, events: seq<Event>)
    requires EnvOk(env) && EventsOk(events)
    requires Exec(env, INITIAL, events).alarms != []
    ensures var s := Exec(env, INITIAL, events);
            var a := s.alarms[Earliest(s.alarms)];
            var timer := SetAnAlarm(env, s).itimer;
            && SetFor(timer, a, Now(env, s))
            && (Pending(timer) <==> Micros(a.next) != Micros(Now(env, s)))
  {
    InitialGood(env);
    ExecGood(env, INITIAL, events);
    ArmsFor(env, Exec(env, INITIAL, events));
  }

  // ---------------------------------------------------------------- the silent case happens

  /** One second passes between the two readings of the registration. */
  function OneSecondApart(): Env {
    Env((i: nat) => TimeVal(if i == 0 then 1 else 2, 0), (i: nat) => [])
  }

  /** One alarm, and its deadline is the instant that is read. */
  lemma ArmedSilently(env: Env, s: State)
    requires |s.alarms| == 1 && s.alarms[0].id != 0 && s.alarms[0].next == Now(env, s)
    ensures var s' := SetAnAlarm(env, s);
            |s'.alarms| == 1 && s'.itimer.Armed? && !Pending(s'.itimer)
  {
  }

  lemma OneSecondLater(now: TimeVal, t: TimeVal)
    requires now == TimeVal(1, 0) && t == TimeVal(1, 0)
    ensures Carried(Sum(now, t)) == TimeVal(2, 0)
  {
  }

  lemma SilentAppend(env: Env, s: State, t: TimeVal, flags: nat)
    requires s.alarms == [] && s.regnum == 1 && s.started
    requires Carried(Sum(Now(env, s), t)) == env.clock(s.tick + 1)
    ensures var s' := Append(env, s, t, flags, Client);
            |s'.alarms| == 1 && s'.itimer.Armed? && !Pending(s'.itimer)
  {
    var now := Now(env, s);
    var a := Alarm(s.regnum, t, flags, now, Carried(Sum(now, t)), Client);
    AppendForm(env, s, t, flags, Client);
    ArmedSilently(env, s.(alarms := s.alarms + [a], regnum := s.regnum + 1, tick := s.tick + 1,
                          log := s.log + [Registered(a)]));
  }

  lemma RegisterIs(env: Env, s: State, op: Op)
    requires op.Register?
    ensures Step(env, s, op) == Append(env, s, Interval(op.when), op.flags, Client)
  {
  }

  lemma SilentRegistration(env: Env, s: State, op: Op)
    requires s.alarms == [] && s.regnum == 1 && s.started && op.Register?
    requires Carried(Sum(Now(env, s), Interval(op.when))) == env.clock(s.tick + 1)
    ensures var s' := Step(env, s, op);
            |s'.alarms| == 1 && s'.itimer.Armed? && !Pending(s'.itimer)
  {
    RegisterIs(env, s, op);
    SilentAppend(env, s, Interval(op.when), op.flags);
  }

  lemma OneSecondApartOk()
    ensures EnvOk(OneSecondApart())
  {
  }

  /** A started scheduler, an alarm of one second read at its deadline: listed, and no timer running for it. */
  lemma SilentAlarm(env: Env, s: State, when: nat)
    requires env == OneSecondApart() && s == Happen(env, INITIAL, Init) && when == 1
    ensures EnvOk(env)
    ensures var s' := Step(env, s, Register(when, SA_REPEAT));
            |s'.alarms| == 1 && s'.itimer.Armed? && !Pending(s'.itimer)
  {
    OneSecondApartOk();
    OneSecondLater(env.clock(0), Interval(when));
    SilentRegistration(env, s, Register(when, SA_REPEAT));
  }
}
