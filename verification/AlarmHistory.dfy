/**
  What every history of the scheduler keeps, and what its log then says: deadlines fire in
  order, nobody fires faster than its interval, and the log alone determines the list.
*/
module AlarmHistory {
  import opened TimeVals
  import opened Alarms

  datatype Option<T> = None | Some(value: T)

  // ---------------------------------------------------------------- assumptions on the oracles

  /** A normal clock that is past the epoch and never steps backwards. */
  ghost predicate ClockOk(env: Env) {
    && (forall i: nat :: Normal(env.clock(i)) && Micros(env.clock(i)) > 0)
    && (forall i: nat, j: nat :: i <= j ==> Micros(env.clock(i)) <= Micros(env.clock(j)))
  }

  predicate OpOk(op: Op) {
    op.RegisterHr? ==> NonNegative(op.t)
  }

  predicate OpsOk(ops: seq<Op>) {
    forall i :: 0 <= i < |ops| ==> OpOk(ops[i])
  }

  ghost predicate EnvOk(env: Env) {
    ClockOk(env) && forall i: nat :: OpsOk(env.script(i))
  }

  predicate EventsOk(events: seq<Event>) {
    forall i :: 0 <= i < |events| && events[i].Call? ==> OpOk(events[i].op)
  }

  // ---------------------------------------------------------------- the log

  /** The most recent entry about an id. */
  function LastEntry(log: seq<Entry>, id: nat): Option<Entry> {
    if log == [] then None
    else
      var n := |log| - 1;
      if log[n].alarm.id == id then Some(log[n]) else LastEntry(log[..n], id)
  }

  /** The alarm an entry leaves in the list, if it leaves one there. */
  function After(e: Entry): Alarm {
    match e
    case Registered(a) => a
    case Fired(a, at) => a.(last := at, next := Carried(Sum(at, a.t)))
  }

  /** What the built-in timers register. */
  predicate BuiltInOk(t: TimeVal, flags: nat, callback: Callback) {
    && (callback.BurstTimer? ==> t == TimeVal(0, UNIT_BURST) && flags == SA_REPEAT)
    && (callback.QueryTimer? ==> t.sec >= FIRST_PERIOD && t.usec == 0 && flags == SA_REPEAT)
  }

  /** The deadline is exactly one interval after the last run, both in normal form. */
  predicate AlarmOk(a: Alarm) {
    && a.id >= 1 && NonNegative(a.t) && Normal(a.last) && Normal(a.next)
    && Micros(a.last) > 0 && Micros(a.next) == Micros(a.last) + Micros(a.t)
    && BuiltInOk(a.t, a.flags, a.callback)
  }

  /** The alarm is what the log says is left of it. */
  predicate Follows(log: seq<Entry>, a: Alarm) {
    var e := LastEntry(log, a.id);
    e.Some? && a == After(e.value) && (e.value.Fired? ==> e.value.alarm.Renews())
  }

  predicate EntryOk(log: seq<Entry>, e: Entry) {
    && AlarmOk(e.alarm)
    && match e
       case Registered(a) => LastEntry(log, a.id).None?
       case Fired(a, at) => Follows(log, a) && Normal(at) && Micros(a.next) < Micros(at)
  }

  predicate Lawful(log: seq<Entry>) {
    log == [] || (Lawful(log[..|log| - 1]) && EntryOk(log[..|log| - 1], log[|log| - 1]))
  }

  /** The order in which run_alarms picks alarms: deadline first, then registration. */
  predicate KeyLess(a: Alarm, b: Alarm) {
    Micros(a.next) < Micros(b.next) || (Micros(a.next) == Micros(b.next) && a.id < b.id)
  }

  predicate InOrder(log: seq<Entry>) {
    forall i, j :: 0 <= i < j < |log| && log[i].Fired? && log[j].Fired? ==>
                     KeyLess(log[i].alarm, log[j].alarm)
  }

  // ---------------------------------------------------------------- the invariant

  predicate IdsIncrease(alarms: seq<Alarm>, regnum: nat) {
    && (forall i, j :: 0 <= i < j < |alarms| ==> alarms[i].id < alarms[j].id)
    && (forall i :: 0 <= i < |alarms| ==> 1 <= alarms[i].id < regnum)
  }

  ghost predicate AlarmsOk(alarms: seq<Alarm>, now: int) {
    forall i :: 0 <= i < |alarms| ==> AlarmOk(alarms[i]) && Micros(alarms[i].last) <= now
  }

  ghost predicate LogOk(log: seq<Entry>, regnum: nat, now: int) {
    && Lawful(log) && InOrder(log)
    && (forall k :: 0 <= k < |log| ==> log[k].alarm.id < regnum)
    && (forall k :: 0 <= k < |log| && log[k].Fired? ==> Micros(log[k].alarm.next) < Micros(log[k].at) <= now)
  }

  /** The alarm whose callback is running: it has been logged but not renewed yet. */
  predicate IsBusy(busy: Option<Entry>, a: Alarm) {
    busy.Some? && busy.value.alarm.id == a.id
  }

  /** Every listed alarm is what the log left of it, and comes after everything fired so far. */
  ghost predicate Agrees(alarms: seq<Alarm>, log: seq<Entry>, busy: Option<Entry>) {
    && (forall i :: 0 <= i < |alarms| ==>
          if IsBusy(busy, alarms[i]) then alarms[i] == busy.value.alarm
          else Follows(log, alarms[i]))
    && (forall i, k :: 0 <= i < |alarms| && 0 <= k < |log| && log[k].Fired? && !IsBusy(busy, alarms[i])
          ==> KeyLess(log[k].alarm, alarms[i]))
    && (busy.Some? ==>
          && busy.value.Fired? && LastEntry(log, busy.value.alarm.id) == busy
          && (forall k :: 0 <= k < |log| && log[k].Fired? ==>
                            Micros(log[k].alarm.next) <= Micros(busy.value.alarm.next)))
  }

  /** A handle names an alarm of its own timer, or none that is listed. */
  predicate NamesOwn(alarms: seq<Alarm>, handle: nat, kind: Callback) {
    forall i :: 0 <= i < |alarms| && alarms[i].id == handle ==> alarms[i].callback == kind
  }

  predicate TimersOk(s: State) {
    && s.burst.handle < s.regnum && s.query.handle < s.regnum
    && NamesOwn(s.alarms, s.burst.handle, BurstTimer) && NamesOwn(s.alarms, s.query.handle, QueryTimer)
    && s.burst.time <= BURST_CALLS
  }

  ghost predicate Good(env: Env, s: State, busy: Option<Entry>) {
    && s.regnum >= 1
    && IdsIncrease(s.alarms, s.regnum)
    && AlarmsOk(s.alarms, Micros(Now(env, s)))
    && LogOk(s.log, s.regnum, Micros(Now(env, s)))
    && Agrees(s.alarms, s.log, busy)
    && TimersOk(s)
  }

  // ---------------------------------------------------------------- the steps keep it

  lemma LaterTick(env: Env, s: State, s': State, busy: Option<Entry>)
    requires ClockOk(env) && Good(env, s, busy)
    requires s.tick <= s'.tick
    requires s' == s.(tick := s'.tick, itimer := s'.itimer, started := s'.started)
    ensures Good(env, s', busy)
  {
    assert Micros(env.clock(s.tick)) <= Micros(env.clock(s'.tick));
  }

  /** A registration, with its node spelled out. */
  lemma AppendForm(env: Env, s: State, t: TimeVal, flags: nat, callback: Callback)
    ensures var now := Now(env, s);
            var a := Alarm(s.regnum, t, flags, now, Carried(Sum(now, t)), callback);
            var s' := s.(alarms := s.alarms + [a], regnum := s.regnum + 1, tick := s.tick + 1,
                         log := s.log + [Registered(a)]);
            Append(env, s, t, flags, callback) == if s.started then SetAnAlarm(env, s') else s'
  {
    var now := Now(env, s);
    var a := Alarm(s.regnum, t, flags, now, Carried(Sum(now, t)), callback);
    var a0 := Alarm(s.regnum, t, flags, ZERO, ZERO, callback);
    assert (s.alarms + [a0])[|s.alarms| := a] == s.alarms + [a];
  }

  /** What every registration does, whether or not it sets the OS timer. */
  lemma AppendFields(env: Env, s: State, t: TimeVal, flags: nat, callback: Callback)
    ensures var a := Alarm(s.regnum, t, flags, Now(env, s), Carried(Sum(Now(env, s), t)), callback);
            var s' := Append(env, s, t, flags, callback);
            && s'.alarms == s.alarms + [a] && s'.log == s.log + [Registered(a)] && s'.regnum == s.regnum + 1
            && s'.burst == s.burst && s'.query == s.query && s'.started == s.started && s'.tick > s.tick
  {
    AppendForm(env, s, t, flags, callback);
  }

  lemma LastEntryExtends(log: seq<Entry>, e: Entry, id: nat)
    ensures LastEntry(log + [e], id) == if e.alarm.id == id then Some(e) else LastEntry(log, id)
  {
    assert (log + [e])[..|log|] == log;
  }

  lemma LawfulExtends(log: seq<Entry>, e: Entry)
    requires Lawful(log) && EntryOk(log, e)
    ensures Lawful(log + [e])
  {
    assert (log + [e])[..|log|] == log;
  }

  lemma {:induction false} UnknownId(log: seq<Entry>, id: nat)
    requires forall k :: 0 <= k < |log| ==> log[k].alarm.id != id
    ensures LastEntry(log, id).None?
  {
    if log != [] {
      UnknownId(log[..|log| - 1], id);
    }
  }

  lemma NewAlarmGood(env: Env, s: State, a: Alarm, busy: Option<Entry>)
    requires ClockOk(env) && Good(env, s, busy)
    requires a.id == s.regnum && NonNegative(a.t)
    requires a.last == Now(env, s) && a.next == Carried(Sum(a.last, a.t)) && BuiltInOk(a.t, a.flags, a.callback)
    ensures Good(env, s.(alarms := s.alarms + [a], regnum := s.regnum + 1, tick := s.tick + 1,
                         log := s.log + [Registered(a)]), busy)
  {
    var e := Registered(a);
    var s' := s.(alarms := s.alarms + [a], regnum := s.regnum + 1, tick := s.tick + 1, log := s.log + [e]);
    assert Micros(env.clock(s.tick)) <= Micros(env.clock(s'.tick));
    UnknownId(s.log, a.id);
    LawfulExtends(s.log, e);
    assert AlarmOk(a);
    NewAlarmAgrees(s.alarms, s.log, a, busy);
  }

  /** The list and the log still agree after a registration under a new id. */
  lemma NewAlarmAgrees(alarms: seq<Alarm>, log: seq<Entry>, a: Alarm, busy: Option<Entry>)
    requires Agrees(alarms, log, busy)
    requires forall i :: 0 <= i < |alarms| ==> alarms[i].id < a.id
    requires forall k :: 0 <= k < |log| ==> log[k].alarm.id < a.id
    requires forall k :: 0 <= k < |log| && log[k].Fired? ==> Micros(log[k].alarm.next) < Micros(a.next)
    ensures Agrees(alarms + [a], log + [Registered(a)], busy)
  {
    var e := Registered(a);
    var alarms', log' := alarms + [a], log + [e];
    if busy.Some? {
      LastEntryExtends(log, e, busy.value.alarm.id);
      assert busy.value.alarm.id < a.id by { LastEntryListed(log, busy.value.alarm.id); }
    }
    forall i | 0 <= i < |alarms'|
      ensures if IsBusy(busy, alarms'[i]) then alarms'[i] == busy.value.alarm else Follows(log', alarms'[i])
    {
      LastEntryExtends(log, e, alarms'[i].id);
    }
  }

  lemma {:induction false} LastEntryListed(log: seq<Entry>, id: nat)
    requires LastEntry(log, id).Some?
    ensures exists k :: 0 <= k < |log| && log[k] == LastEntry(log, id).value && log[k].alarm.id == id
  {
    var n := |log| - 1;
    if log[n].alarm.id != id {
      LastEntryListed(log[..n], id);
      var k :| 0 <= k < n && log[..n][k] == LastEntry(log, id).value && log[..n][k].alarm.id == id;
      assert log[k] == log[..n][k];
    }
  }

  lemma AppendGood(env: Env, s: State, t: TimeVal, flags: nat, callback: Callback, busy: Option<Entry>)
    requires ClockOk(env) && Good(env, s, busy) && NonNegative(t) && BuiltInOk(t, flags, callback)
    ensures Good(env, Append(env, s, t, flags, callback), busy)
    ensures Append(env, s, t, flags, callback).regnum == s.regnum + 1
  {
    AppendForm(env, s, t, flags, callback);
    var now := Now(env, s);
    var a := Alarm(s.regnum, t, flags, now, Carried(Sum(now, t)), callback);
    var s' := s.(alarms := s.alarms + [a], regnum := s.regnum + 1, tick := s.tick + 1,
                 log := s.log + [Registered(a)]);
    NewAlarmGood(env, s, a, busy);
    LaterTick(env, s', SetAnAlarm(env, s'), busy);
  }

  lemma RemoveGood(env: Env, s: State, id: nat, busy: Option<Entry>)
    requires Good(env, s, busy)
    ensures Good(env, UnregisterId(s, id), busy)
  {
    var i := IndexOf(s.alarms, id);
    if i < |s.alarms| {
      DropGood(env, s, i, busy);
    }
  }

  lemma DropGood(env: Env, s: State, i: nat, busy: Option<Entry>)
    requires Good(env, s, busy) && i < |s.alarms|
    ensures Good(env, s.(alarms := DropAt(s.alarms, i)), busy)
  {
    DropOk(s.alarms, i, s.regnum, Micros(Now(env, s)));
    DropAgrees(s.alarms, i, s.log, busy);
    DropNames(s.alarms, i, s.burst.handle, BurstTimer);
    DropNames(s.alarms, i, s.query.handle, QueryTimer);
  }

  lemma DropOk(alarms: seq<Alarm>, i: nat, regnum: nat, now: int)
    requires i < |alarms| && IdsIncrease(alarms, regnum) && AlarmsOk(alarms, now)
    ensures IdsIncrease(DropAt(alarms, i), regnum) && AlarmsOk(DropAt(alarms, i), now)
  {
    assert forall j :: 0 <= j < |alarms| - 1 ==> DropAt(alarms, i)[j] == alarms[if j < i then j else j + 1];
  }

  lemma DropAgrees(alarms: seq<Alarm>, i: nat, log: seq<Entry>, busy: Option<Entry>)
    requires i < |alarms| && Agrees(alarms, log, busy)
    ensures Agrees(DropAt(alarms, i), log, busy)
  {
    assert forall j :: 0 <= j < |alarms| - 1 ==> DropAt(alarms, i)[j] == alarms[if j < i then j else j + 1];
  }

  lemma DropNames(alarms: seq<Alarm>, i: nat, handle: nat, kind: Callback)
    requires i < |alarms| && NamesOwn(alarms, handle, kind)
    ensures NamesOwn(DropAt(alarms, i), handle, kind)
  {
    assert forall j :: 0 <= j < |alarms| - 1 ==> DropAt(alarms, i)[j] == alarms[if j < i then j else j + 1];
  }

  /** The handle of the query timer is set to an id nobody else holds. */
  lemma RegisterQueryGood(env: Env, s: State, period: nat, busy: Option<Entry>)
    requires ClockOk(env) && Good(env, s, busy) && period >= FIRST_PERIOD
    ensures Good(env, RegisterQuery(env, s, period), busy)
  {
    AppendGood(env, s, Interval(period), SA_REPEAT, QueryTimer, busy);
    AppendFields(env, s, Interval(period), SA_REPEAT, QueryTimer);
  }

  lemma StartBurstGood(env: Env, s: State, busy: Option<Entry>)
    requires ClockOk(env) && Good(env, s, busy)
    ensures Good(env, Step(env, s, StartBurst), busy)
  {
    AppendGood(env, s, Interval(0), SA_REPEAT, BurstTimer, busy);
    AppendFields(env, s, Interval(0), SA_REPEAT, BurstTimer);
  }

  lemma StepGood(env: Env, s: State, op: Op, busy: Option<Entry>)
    requires ClockOk(env) && Good(env, s, busy) && OpOk(op)
    ensures Good(env, Step(env, s, op), busy)
  {
    match op
    case Register(when, flags) => AppendGood(env, s, Interval(when), flags, Client, busy);
    case RegisterHr(t, flags) => AppendGood(env, s, t, flags, Client, busy);
    case Unregister(id) => RemoveGood(env, s, id, busy);
    case UnregisterAll =>
    case StartBurst => StartBurstGood(env, s, busy);
    case StartQuery => RegisterQueryGood(env, s, FIRST_PERIOD, busy);
    case StopQuery => RemoveGood(env, s, s.query.handle, busy);
  }

  lemma {:induction false} StepsGood(env: Env, s: State, ops: seq<Op>, busy: Option<Entry>)
    requires ClockOk(env) && Good(env, s, busy) && OpsOk(ops)
    ensures Good(env, Steps(env, s, ops), busy)
    decreases |ops|
  {
    if ops != [] {
      StepGood(env, s, ops[0], busy);
      StepsGood(env, Step(env, s, ops[0]), ops[1..], busy);
    }
  }

  /** The invariant looks at the handles of the two built-in timers and at the counter of the burst. */
  lemma ClientFields(env: Env, s: State, s': State, busy: Option<Entry>)
    requires Good(env, s, busy) && s' == s.(burst := s'.burst, query := s'.query)
    requires s'.burst.handle == s.burst.handle && s'.query.handle == s.query.handle && s'.burst.time <= BURST_CALLS
    ensures Good(env, s', busy)
  {
  }

  lemma PrepareGood(env: Env, s: State, callback: Callback, busy: Option<Entry>)
    requires ClockOk(env) && Good(env, s, busy)
    ensures Good(env, Prepare(env, s, callback), busy)
  {
    if callback.BurstTimer? && s.burst.time >= BURST_CALLS {
      RemoveGood(env, s, s.burst.handle, busy);
      ClientFields(env, UnregisterId(s, s.burst.handle), Prepare(env, s, callback), busy);
    } else if callback.QueryTimer? && s.query.interval < LAST_PERIOD {
      PrepareQueryGood(env, s, busy);
    }
  }

  lemma PrepareQueryGood(env: Env, s: State, busy: Option<Entry>)
    requires ClockOk(env) && Good(env, s, busy) && s.query.interval < LAST_PERIOD
    ensures Good(env, Prepare(env, s, QueryTimer), busy)
  {
    var s1 := UnregisterId(s, s.query.handle);
    RemoveGood(env, s, s.query.handle, busy);
    ClientFields(env, s1, NextPeriod(s1), busy);
    RegisterQueryGood(env, NextPeriod(s1), NextPeriod(s1).query.interval, busy);
  }

  /** Client code has no access to the counter of the burst. */
  lemma {:induction false} StepsCounter(env: Env, s: State, ops: seq<Op>)
    ensures Steps(env, s, ops).burst.time == s.burst.time
    decreases |ops|
  {
    if ops != [] {
      StepCounter(env, s, ops[0]);
      StepsCounter(env, Step(env, s, ops[0]), ops[1..]);
    }
  }

  lemma StepCounter(env: Env, s: State, op: Op)
    ensures Step(env, s, op).burst.time == s.burst.time
  {
    match op
    case Register(when, flags) => AppendForm(env, s, Interval(when), flags, Client);
    case RegisterHr(t, flags) => AppendForm(env, s, t, flags, Client);
    case StartBurst => AppendForm(env, s, Interval(0), SA_REPEAT, BurstTimer);
    case StartQuery => AppendForm(env, s, Interval(FIRST_PERIOD), SA_REPEAT, QueryTimer);
    case Unregister(_) =>
    case UnregisterAll =>
    case StopQuery =>
  }

  lemma DispatchGood(env: Env, s: State, callback: Callback, ops: seq<Op>, busy: Option<Entry>)
    requires ClockOk(env) && Good(env, s, busy) && OpsOk(ops)
    ensures Good(env, Dispatch(env, s, callback, ops), busy)
  {
    PrepareGood(env, s, callback, busy);
    if CallsClient(s, callback) {
      var s2 := Steps(env, Prepare(env, s, callback), ops);
      StepsGood(env, Prepare(env, s, callback), ops, busy);
      StepsCounter(env, Prepare(env, s, callback), ops);
      ClientFields(env, s2, Conclude(s2, callback), busy);
    }
  }

  lemma IndexIs(alarms: seq<Alarm>, i: nat)
    requires i < |alarms| && forall j :: 0 <= j < i ==> alarms[j].id != alarms[i].id
    ensures IndexOf(alarms, alarms[i].id) == i
  {
  }

  /** Re-arming in closed form: the alarm stays with its next deadline, or leaves the list. */
  lemma RenewForm(env: Env, s: State, i: nat, now: TimeVal)
    requires i < |s.alarms| && IdsIncrease(s.alarms, s.regnum)
    requires Micros(now) > 0
    ensures IndexOf(s.alarms, s.alarms[i].id) == i
    ensures var a := s.alarms[i];
            Renew(env, s, a.id, now) ==
            s.(alarms := if a.flags % 2 == 1 && a.t != TimeVal(0, 0) then s.alarms[i := After(Fired(a, now))]
                         else DropAt(s.alarms, i))
  {
    var a := s.alarms[i];
    var alarms' := s.alarms[i := a.(last := now, next := ZERO)];
    IndexIs(s.alarms, i);
    IndexIs(alarms', i);
    assert DropAt(alarms', i) == DropAt(s.alarms, i);
    if a.Renews() {
      assert alarms'[i := After(Fired(a, now))] == s.alarms[i := After(Fired(a, now))];
    }
  }

  lemma RenewedGood(env: Env, s: State, i: nat, at: TimeVal)
    requires i < |s.alarms| && Good(env, s, Some(Fired(s.alarms[i], at)))
    requires var a := s.alarms[i];
             AlarmOk(a) && a.Renews() && Normal(at) && Micros(a.next) < Micros(at) <= Micros(Now(env, s))
    ensures Good(env, s.(alarms := s.alarms[i := After(Fired(s.alarms[i], at))]), None)
  {
    var busy := Some(Fired(s.alarms[i], at));
    var a := After(busy.value);
    var s' := s.(alarms := s.alarms[i := a]);
    assert AlarmOk(a) && Follows(s.log, a);
    forall j | 0 <= j < |s'.alarms| ensures Follows(s'.log, s'.alarms[j]) {
      assert j == i || !IsBusy(busy, s.alarms[j]);
    }
    forall j, k | 0 <= j < |s'.alarms| && 0 <= k < |s'.log| && s'.log[k].Fired?
      ensures KeyLess(s'.log[k].alarm, s'.alarms[j])
    {
      assert j == i || !IsBusy(busy, s.alarms[j]);
    }
  }

  lemma DroppedGood(env: Env, s: State, i: nat, at: TimeVal)
    requires i < |s.alarms| && Good(env, s, Some(Fired(s.alarms[i], at)))
    ensures Good(env, s.(alarms := DropAt(s.alarms, i)), None)
  {
    var busy := Some(Fired(s.alarms[i], at));
    var s' := s.(alarms := DropAt(s.alarms, i));
    forall j | 0 <= j < |s'.alarms| ensures s'.alarms[j] in s.alarms && !IsBusy(busy, s'.alarms[j]) {
      assert s'.alarms[j] == s.alarms[if j < i then j else j + 1];
    }
  }

  lemma RenewGood(env: Env, s: State, a: Alarm, at: TimeVal)
    requires ClockOk(env) && Good(env, s, Some(Fired(a, at)))
    requires AlarmOk(a) && Normal(at) && Micros(a.next) < Micros(at) <= Micros(Now(env, s))
    ensures Good(env, Renew(env, s, a.id, at), None)
  {
    var i := IndexOf(s.alarms, a.id);
    if i < |s.alarms| {
      RenewForm(env, s, i, at);
      assert s.alarms[i] == a;
      if a.Renews() {
        RenewedGood(env, s, i, at);
      } else {
        DroppedGood(env, s, i, at);
      }
    } else {
      forall j | 0 <= j < |s.alarms| ensures !IsBusy(Some(Fired(a, at)), s.alarms[j]) {}
    }
  }

  lemma EnteredGood(env: Env, s: State)
    requires ClockOk(env) && Good(env, s, None) && Due(env, s)
    ensures var a := s.alarms[Earliest(s.alarms)];
            && Micros(a.next) < Micros(Now(env, s))
            && Good(env, Entered(env, s), Some(Fired(a, Now(env, s))))
  {
    var k := Earliest(s.alarms);
    var a := s.alarms[k];
    var e := Fired(a, Now(env, s));
    var s' := Entered(env, s);
    assert Micros(env.clock(s.tick)) <= Micros(env.clock(s'.tick));
    BeforeIsEarlier(a.next, Now(env, s));
    LawfulExtends(s.log, e);
    LastEntryExtends(s.log, e, a.id);
    forall i | 0 <= i < |s.alarms|
      ensures i == k || KeyLess(a, s.alarms[i])
      ensures i == k || Follows(s'.log, s.alarms[i])
    {
      LastEntryExtends(s.log, e, s.alarms[i].id);
      BeforeIsEarlier(s.alarms[i].next, a.next);
      BeforeIsEarlier(a.next, s.alarms[i].next);
    }
  }

  lemma StepsTick(env: Env, s: State, ops: seq<Op>)
    ensures Steps(env, s, ops).tick >= s.tick
    decreases |ops|
  {
    if ops != [] {
      StepsTick(env, Step(env, s, ops[0]), ops[1..]);
    }
  }

  lemma DispatchTick(env: Env, s: State, callback: Callback, ops: seq<Op>)
    ensures Dispatch(env, s, callback, ops).tick >= s.tick
  {
    StepsTick(env, Prepare(env, s, callback), ops);
  }

  lemma FireGood(env: Env, s: State)
    requires EnvOk(env) && Good(env, s, None) && Due(env, s)
    ensures Good(env, Fire(env, s), None)
  {
    var a := s.alarms[Earliest(s.alarms)];
    var now := Now(env, s);
    EnteredGood(env, s);
    var s1 := Entered(env, s);
    var s2 := Dispatch(env, s1, a.callback, env.script(s.tick));
    DispatchGood(env, s1, a.callback, env.script(s.tick), Some(Fired(a, now)));
    DispatchTick(env, s1, a.callback, env.script(s.tick));
    assert Micros(env.clock(s.tick)) <= Micros(env.clock(s2.tick));
    RenewGood(env, s2, a, now);
  }

  lemma TurnGood(env: Env, s: State)
    requires EnvOk(env) && Good(env, s, None)
    ensures Good(env, Turn(env, s), None)
  {
    if Due(env, s) {
      FireGood(env, s);
    } else {
      LaterTick(env, s, Turn(env, s), None);
    }
  }

  lemma HappenGood(env: Env, s: State, e: Event)
    requires EnvOk(env) && Good(env, s, None) && (e.Call? ==> OpOk(e.op))
    ensures Good(env, Happen(env, s, e), None)
  {
    match e
    case Init => LaterTick(env, s, Happen(env, s, e), None);
    case Call(op) => StepGood(env, s, op, None);
    case Rearm => LaterTick(env, s, Happen(env, s, e), None);
    case RunTurn => TurnGood(env, s);
  }

  /** Every history keeps the invariant. */
  lemma {:induction false} ExecGood(env: Env, s: State, events: seq<Event>)
    requires EnvOk(env) && Good(env, s, None) && EventsOk(events)
    ensures Good(env, Exec(env, s, events), None)
    decreases |events|
  {
    if events != [] {
      HappenGood(env, s, events[0]);
      ExecGood(env, Happen(env, s, events[0]), events[1..]);
    }
  }

  // ---------------------------------------------------------------- what the log says

  /** The instant of an entry. */
  function At(e: Entry): int {
    match e
    case Registered(a) => Micros(a.last)
    case Fired(_, at) => Micros(at)
  }

  /** How often an id fires in a stretch of the log. */
  function Firings(log: seq<Entry>, id: nat): nat {
    if log == [] then 0
    else
      var n := |log| - 1;
      Firings(log[..n], id) + if log[n].Fired? && log[n].alarm.id == id then 1 else 0
  }

  lemma {:induction false} LawfulPrefix(log: seq<Entry>, n: nat)
    requires Lawful(log) && n <= |log|
    ensures Lawful(log[..n])
  {
    if n < |log| {
      LawfulPrefix(log[..|log| - 1], n);
      assert log[..|log| - 1][..n] == log[..n];
    } else {
      assert log[..n] == log;
    }
  }

  /** From one entry of an id to a later one, with k firings on the way. */
  predicate Spaced(first: Entry, e: Entry, k: nat) {
    var a := first.alarm;
    && e.alarm.(last := a.last, next := a.next) == a
    && At(e) >= At(first) + k * Micros(a.t)
    && (k > 0 ==> e.Fired? && At(e) > At(first) + k * Micros(a.t))
    && (k == 0 ==> e == first)
  }

  lemma SpacedOneMore(first: Entry, e: Entry, k: nat, e': Entry)
    requires Spaced(first, e, k) && AlarmOk(e.alarm) && (e.Fired? ==> Normal(e.at))
    requires e'.Fired? && e'.alarm == After(e)
    requires AlarmOk(e'.alarm) && Micros(e'.alarm.next) < Micros(e'.at)
    ensures Spaced(first, e', k + 1)
  {
    assert (k + 1) * Micros(first.alarm.t) == k * Micros(first.alarm.t) + Micros(first.alarm.t);
    assert Micros(e'.alarm.next) == At(e) + Micros(first.alarm.t);
  }

  /**
    * From any entry of an id up to the last one, the id keeps its interval, flags and callback,
    * and each firing in between costs more than one interval.
    */
  lemma {:induction false} SpacedUpToLast(log: seq<Entry>, i: nat)
    requires Lawful(log) && i < |log|
    ensures var e := LastEntry(log, log[i].alarm.id);
            e.Some? && Spaced(log[i], e.value, Firings(log[i + 1..], log[i].alarm.id))
  {
    var n := |log| - 1;
    var id := log[i].alarm.id;
    if i < n {
      var init := log[..n];
      SpacedUpToLast(init, i);
      assert log[i + 1..][..n - i - 1] == init[i + 1..];
      assert log[i + 1..][n - i - 1] == log[n];
      if log[n].alarm.id == id {
        LastEntryLawful(init, id);
        SpacedOneMore(log[i], LastEntry(init, id).value, Firings(init[i + 1..], id), log[n]);
      }
    } else {
      assert log[i + 1..] == [];
    }
  }

  lemma LastEntryLawful(log: seq<Entry>, id: nat)
    requires Lawful(log) && LastEntry(log, id).Some?
    ensures var e := LastEntry(log, id).value;
            AlarmOk(e.alarm) && (e.Fired? ==> Normal(e.at) && Micros(e.at) > Micros(e.alarm.next))
  {
  }

  /**
    * No catch-up bursts: between any entry of an id and a later firing of it, every firing
    * counts for more than one whole interval. From the registration on, this bounds the k-th
    * firing below by k intervals, whatever the delays between the runs of the scheduler.
    */
  lemma SpacingTheorem(log: seq<Entry>, i: nat, j: nat)
    requires Lawful(log) && i < j < |log|
    requires log[j].Fired? && log[j].alarm.id == log[i].alarm.id
    ensures var id := log[i].alarm.id;
            && log[j].alarm.t == log[i].alarm.t
            && Firings(log[i + 1..j + 1], id) >= 1
            && At(log[j]) > At(log[i]) + Firings(log[i + 1..j + 1], id) * Micros(log[i].alarm.t)
  {
    var prefix := log[..j + 1];
    LawfulPrefix(log, j + 1);
    SpacedUpToLast(prefix, i);
    assert prefix[i + 1..] == log[i + 1..j + 1];
    assert prefix[j] == log[j] && LastEntry(prefix, log[j].alarm.id) == Some(log[j]);
  }

  /** Whoever fires twice has the repeat bit set and a positive interval. */
  lemma OneShotFiresOnce(log: seq<Entry>, i: nat, j: nat)
    requires Lawful(log) && i < j < |log|
    requires log[i].Fired? && log[j].Fired? && log[i].alarm.id == log[j].alarm.id
    ensures log[i].alarm.flags % 2 == 1 && Micros(log[i].alarm.t) > 0
  {
    LawfulPrefix(log, j + 1);
    assert log[..j + 1][..j] == log[..j] && log[..j + 1][j] == log[j];
    LawfulPrefix(log, j);
    SpacedUpToLast(log[..j], i);
  }

  // ---------------------------------------------------------------- theorems over all histories

  lemma InitialGood(env: Env)
    requires ClockOk(env)
    ensures Good(env, INITIAL, None)
  {
  }

  /** Successive firings strictly increase in (deadline, registration id), over any history. */
  lemma FiringOrder(env: Env, events: seq<Event>)
    requires EnvOk(env) && EventsOk(events)
    ensures InOrder(Exec(env, INITIAL, events).log)
  {
    InitialGood(env);
    ExecGood(env, INITIAL, events);
  }

  lemma {:induction false} FiringsSplit(a: seq<Entry>, b: seq<Entry>, id: nat)
    ensures Firings(a + b, id) == Firings(a, id) + Firings(b, id)
  {
    if b == [] {
      assert a + b == a;
    } else {
      FiringsSplit(a, b[..|b| - 1], id);
      assert (a + b)[..|a + b| - 1] == a + b[..|b| - 1];
    }
  }

  lemma {:induction false} FiringsWitness(log: seq<Entry>, id: nat)
    requires Firings(log, id) > 0
    ensures exists k :: 0 <= k < |log| && log[k].Fired? && log[k].alarm.id == id
  {
    var n := |log| - 1;
    if !(log[n].Fired? && log[n].alarm.id == id) {
      FiringsWitness(log[..n], id);
      var k :| 0 <= k < n && log[..n][k].Fired? && log[..n][k].alarm.id == id;
      assert log[k].Fired?;
    }
  }

  lemma NoneBeforeRegistration(log: seq<Entry>, i: nat)
    requires Lawful(log) && i < |log| && log[i].Registered?
    ensures Firings(log[..i + 1], log[i].alarm.id) == 0
  {
    var id := log[i].alarm.id;
    LawfulPrefix(log, i + 1);
    assert log[..i + 1][..i] == log[..i];
    if Firings(log[..i], id) > 0 {
      FiringsWitness(log[..i], id);
      var k :| 0 <= k < i && log[..i][k].Fired? && log[..i][k].alarm.id == id;
      LawfulPrefix(log, i);
      SpacedUpToLast(log[..i], k);
    }
  }

  /** All firings of an id come after its registration. */
  lemma FiringsSinceRegistration(log: seq<Entry>, i: nat, j: nat)
    requires Lawful(log) && i < j < |log| && log[i].Registered?
    ensures Firings(log[..j + 1], log[i].alarm.id) == Firings(log[i + 1..j + 1], log[i].alarm.id)
  {
    NoneBeforeRegistration(log, i);
    FiringsSplit(log[..i + 1], log[i + 1..j + 1], log[i].alarm.id);
    assert log[..j + 1] == log[..i + 1] + log[i + 1..j + 1];
  }

  /** A second firing means that the alarm was renewed after the first. */
  lemma FiredBefore(log: seq<Entry>, i: nat, j: nat)
    requires Lawful(log) && i < j < |log|
    requires log[j].Fired? && log[i].alarm.id == log[j].alarm.id
    requires Firings(log[i + 1..j + 1], log[i].alarm.id) > 1
    ensures log[i].alarm.flags % 2 == 1 && Micros(log[i].alarm.t) > 0
  {
    var k := EarlierFiring(log, i, j);
    OneShotFiresOnce(log, k, j);
    SpacingTheorem(log, i, k);
    SameFlags(log, i, k);
  }

  lemma EarlierFiring(log: seq<Entry>, i: nat, j: nat) returns (k: nat)
    requires i < j < |log| && Firings(log[i + 1..j + 1], log[i].alarm.id) > 1
    ensures i < k < j && log[k].Fired? && log[k].alarm.id == log[i].alarm.id
  {
    var id := log[i].alarm.id;
    var span := log[i + 1..j + 1];
    assert span[..j - i - 1] == log[i + 1..j] && span[j - i - 1] == log[j];
    FiringsWitness(log[i + 1..j], id);
    var m :| 0 <= m < j - i - 1 && log[i + 1..j][m].Fired? && log[i + 1..j][m].alarm.id == id;
    k := i + 1 + m;
  }

  lemma SameFlags(log: seq<Entry>, i: nat, j: nat)
    requires Lawful(log) && i < j < |log| && log[i].alarm.id == log[j].alarm.id
    ensures log[i].alarm.flags == log[j].alarm.flags
  {
    LawfulPrefix(log, j + 1);
    SpacedUpToLast(log[..j + 1], i);
  }

  /** A firing in any history: later than the registration by more than as many intervals as the id has fired. */
  lemma RateBound(env: Env, events: seq<Event>, i: nat, j: nat)
    requires EnvOk(env) && EventsOk(events)
    requires var log := Exec(env, INITIAL, events).log;
             && i < j < |log| && log[i].Registered? && log[j].Fired? && log[i].alarm.id == log[j].alarm.id
    ensures var log := Exec(env, INITIAL, events).log;
            var a := log[i].alarm;
            var k := Firings(log[..j + 1], a.id);
            && k >= 1
            && Micros(log[j].at) > Micros(a.last) + k * Micros(a.t)
            && (k > 1 ==> a.flags % 2 == 1 && Micros(a.t) > 0)
  {
    InitialGood(env);
    ExecGood(env, INITIAL, events);
    var log := Exec(env, INITIAL, events).log;
    SpacingTheorem(log, i, j);
    FiringsSinceRegistration(log, i, j);
    if Firings(log[i + 1..j + 1], log[i].alarm.id) > 1 {
      FiredBefore(log, i, j);
    }
  }

  /**
    * At rest every deadline is one interval after the last run, the field comparisons agree
    * with the instants, and sa_find_next picks the first registered of the earliest alarms.
    */
  lemma AtRest(env: Env, events: seq<Event>, i: nat)
    requires EnvOk(env) && EventsOk(events)
    requires i < |Exec(env, INITIAL, events).alarms|
    ensures var s := Exec(env, INITIAL, events); var a := s.alarms[i]; var k := Earliest(s.alarms);
            && Normal(a.next) && Micros(a.next) == Micros(a.last) + Micros(a.t)
            && Follows(s.log, a)
            && (forall j :: 0 <= j < i ==> s.alarms[j].id < a.id)
            && 1 <= a.id < s.regnum
            && (i == k || KeyLess(s.alarms[k], a))
  {
    InitialGood(env);
    ExecGood(env, INITIAL, events);
    var s := Exec(env, INITIAL, events);
    var k := Earliest(s.alarms);
    BeforeIsEarlier(s.alarms[i].next, s.alarms[k].next);
    BeforeIsEarlier(s.alarms[k].next, s.alarms[i].next);
  }

  /** The list without the alarms of one id. */
  function Without(alarms: seq<Alarm>, id: nat): seq<Alarm> {
    if alarms == [] then []
    else (if alarms[0].id == id then [] else [alarms[0]]) + Without(alarms[1..], id)
  }

  lemma {:induction false} WithoutAbsent(alarms: seq<Alarm>, id: nat)
    requires forall j :: 0 <= j < |alarms| ==> alarms[j].id != id
    ensures Without(alarms, id) == alarms
  {
    if alarms != [] {
      WithoutAbsent(alarms[1..], id);
    }
  }

  /** Unlinking the first match is enough, because ids are unique along the list. */
  lemma {:induction false} RemoveIsWithout(alarms: seq<Alarm>, id: nat, regnum: nat)
    requires IdsIncrease(alarms, regnum)
    ensures Remove(alarms, id) == Without(alarms, id)
  {
    if alarms != [] {
      var tail := alarms[1..];
      assert IdsIncrease(tail, regnum);
      if alarms[0].id == id {
        WithoutAbsent(tail, id);
        assert Remove(alarms, id) == tail;
      } else {
        RemoveIsWithout(tail, id, regnum);
        RemoveFromTail(alarms, id);
      }
    }
  }

  lemma RemoveFromTail(alarms: seq<Alarm>, id: nat)
    requires alarms != [] && alarms[0].id != id
    ensures Remove(alarms, id) == [alarms[0]] + Remove(alarms[1..], id)
  {
    var tail := alarms[1..];
    var k := IndexOf(tail, id);
    assert forall j :: 0 <= j < |tail| ==> tail[j] == alarms[j + 1];
    if k < |tail| {
      IndexIs(alarms, k + 1);
      assert alarms[1..][..k] == alarms[1..k + 1] && alarms[1..][k + 1..] == alarms[k + 2..];
    }
  }
}
