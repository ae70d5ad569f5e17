/** The life of one started burst, whatever else is listed: exactly when it ends, and what it calls. */
module BurstLife {
  import opened TimeVals
  import opened Alarms
  import opened AlarmHistory
  import opened AlarmRuns
  import opened Kinds
  import opened BurstClient
  import opened Orphans

  predicate Listed(s: State, id: nat) {
    exists i :: 0 <= i < |s.alarms| && s.alarms[i].id == id
  }

  // ---------------------------------------------------------------- no start overtakes it

  /** The call starts no burst while this one is listed. */
  predicate Allows(s: State, op: Op, id: nat) {
    op.StartBurst? ==> !Listed(s, id)
  }

  predicate OpsAllow(env: Env, s: State, ops: seq<Op>, id: nat)
    decreases |ops|
  {
    ops == [] || (Allows(s, ops[0], id) && OpsAllow(env, Step(env, s, ops[0]), ops[1..], id))
  }

  /** The same for an event; a firing is judged by the client code it runs. */
  predicate EventAllows(env: Env, s: State, e: Event, id: nat) {
    match e
    case Call(op) => Allows(s, op, id)
    case RunTurn =>
      Due(env, s) ==>
        var callback := s.alarms[Earliest(s.alarms)].callback;
        var s1 := Entered(env, s);
        CallsClient(s1, callback) ==> OpsAllow(env, Prepare(env, s1, callback), env.script(s.tick), id)
    case Init => true
    case Rearm => true
  }

  predicate HistoryAllows(env: Env, s: State, events: seq<Event>, id: nat)
    decreases |events|
  {
    events == [] ||
    (EventAllows(env, s, events[0], id) && HistoryAllows(env, Happen(env, s, events[0]), events[1..], id))
  }

  // ---------------------------------------------------------------- what is gone stays gone

  /** The id is not listed, and will not be given out again. */
  predicate Gone(s: State, id: nat) {
    id < s.regnum && !Listed(s, id)
  }

  lemma AppendGone(env: Env, s: State, t: TimeVal, flags: nat, callback: Callback, id: nat)
    requires Gone(s, id)
    ensures Gone(Append(env, s, t, flags, callback), id)
  {
    AppendFields(env, s, t, flags, callback);
  }

  lemma RemoveGone(s: State, other: nat, id: nat)
    requires Gone(s, id)
    ensures Gone(UnregisterId(s, other), id)
  {
    var i := IndexOf(s.alarms, other);
    if i < |s.alarms| {
      DropGone(s, i, id);
    }
  }

  lemma DropGone(s: State, i: nat, id: nat)
    requires Gone(s, id) && i < |s.alarms|
    ensures Gone(s.(alarms := DropAt(s.alarms, i)), id)
  {
    var rest := DropAt(s.alarms, i);
    forall j | 0 <= j < |rest| ensures rest[j].id != id {
      assert rest[j] == s.alarms[if j < i then j else j + 1];
    }
  }

  lemma StepGone(env: Env, s: State, op: Op, id: nat)
    requires Gone(s, id)
    ensures Gone(Step(env, s, op), id)
  {
    match op
    case Register(when, flags) => AppendGone(env, s, Interval(when), flags, Client, id);
    case RegisterHr(t, flags) => AppendGone(env, s, t, flags, Client, id);
    case Unregister(other) => RemoveGone(s, other, id);
    case UnregisterAll =>
    case StartBurst => AppendGone(env, s, Interval(0), SA_REPEAT, BurstTimer, id);
    case StartQuery => AppendGone(env, s, Interval(FIRST_PERIOD), SA_REPEAT, QueryTimer, id);
    case StopQuery => RemoveGone(s, s.query.handle, id);
  }

  lemma {:induction false} StepsGone(env: Env, s: State, ops: seq<Op>, id: nat)
    requires Gone(s, id)
    ensures Gone(Steps(env, s, ops), id) && OpsAllow(env, s, ops, id)
    decreases |ops|
  {
    if ops != [] {
      StepGone(env, s, ops[0], id);
      StepsGone(env, Step(env, s, ops[0]), ops[1..], id);
    }
  }

  lemma PrepareGone(env: Env, s: State, callback: Callback, id: nat)
    requires Gone(s, id)
    ensures Gone(Prepare(env, s, callback), id)
  {
    match callback
    case Client =>
    case BurstTimer => RemoveGone(s, s.burst.handle, id);
    case QueryTimer =>
      if s.query.interval < LAST_PERIOD {
        RemoveGone(s, s.query.handle, id);
        var s1 := NextPeriod(UnregisterId(s, s.query.handle));
        AppendGone(env, s1, Interval(s1.query.interval), SA_REPEAT, QueryTimer, id);
      }
  }

  lemma DispatchGone(env: Env, s: State, callback: Callback, ops: seq<Op>, id: nat)
    requires Gone(s, id)
    ensures Gone(Dispatch(env, s, callback, ops), id)
  {
    PrepareGone(env, s, callback, id);
    StepsGone(env, Prepare(env, s, callback), ops, id);
  }

  lemma RenewGone(env: Env, s: State, b: Alarm, at: TimeVal, id: nat)
    requires Good(env, s, Some(Fired(b, at))) && Micros(at) > 0 && Gone(s, id)
    ensures Gone(Renew(env, s, b.id, at), id)
  {
    var k := IndexOf(s.alarms, b.id);
    if k < |s.alarms| {
      RenewForm(env, s, k, at);
      if !s.alarms[k].Renews() {
        DropGone(s, k, id);
      }
    }
  }

  lemma GoneAllows(env: Env, s: State, e: Event, id: nat)
    requires Gone(s, id)
    ensures EventAllows(env, s, e, id)
  {
    if e.RunTurn? && Due(env, s) {
      var callback := s.alarms[Earliest(s.alarms)].callback;
      var s1 := Entered(env, s);
      assert Gone(s1, id);
      PrepareGone(env, s1, callback, id);
      StepsGone(env, Prepare(env, s1, callback), env.script(s.tick), id);
    }
  }

  // ---------------------------------------------------------------- what counts

  /** Client code neither fires a burst nor counts one. */
  lemma StepCounts(env: Env, s: State, op: Op)
    ensures var s' := Step(env, s, op);
            && Runs(s'.log, BurstTimer) == Runs(s.log, BurstTimer)
            && s'.burst.time == s.burst.time && s'.burst.calls == s.burst.calls
  {
    match op
    case Register(when, flags) => AppendKinds(env, s, Interval(when), flags, Client, BurstTimer);
    case RegisterHr(t, flags) => AppendKinds(env, s, t, flags, Client, BurstTimer);
    case StartBurst => AppendKinds(env, s, Interval(0), SA_REPEAT, BurstTimer, BurstTimer);
    case StartQuery => AppendKinds(env, s, Interval(FIRST_PERIOD), SA_REPEAT, QueryTimer, BurstTimer);
    case Unregister(_) =>
    case UnregisterAll =>
    case StopQuery =>
  }

  lemma {:induction false} StepsCount(env: Env, s: State, ops: seq<Op>)
    ensures var s' := Steps(env, s, ops);
            && Runs(s'.log, BurstTimer) == Runs(s.log, BurstTimer)
            && s'.burst.time == s.burst.time && s'.burst.calls == s.burst.calls
    decreases |ops|
  {
    if ops != [] {
      StepCounts(env, s, ops[0]);
      StepsCount(env, Step(env, s, ops[0]), ops[1..]);
    }
  }

  lemma PrepareCounts(env: Env, s: State, callback: Callback)
    ensures var s' := Prepare(env, s, callback);
            && Runs(s'.log, BurstTimer) == Runs(s.log, BurstTimer)
            && s'.burst.calls == s.burst.calls && s'.burst.handle == s.burst.handle
            && s'.burst.time == (if callback.BurstTimer? && s.burst.time >= BURST_CALLS then 0 else s.burst.time)
  {
    if callback.QueryTimer? && s.query.interval < LAST_PERIOD {
      RegisterCounts(env, NextPeriod(UnregisterId(s, s.query.handle)));
    }
  }

  lemma RegisterCounts(env: Env, s: State)
    ensures var s' := RegisterQuery(env, s, s.query.interval);
            Runs(s'.log, BurstTimer) == Runs(s.log, BurstTimer) && s'.burst == s.burst
  {
    AppendKinds(env, s, Interval(s.query.interval), SA_REPEAT, QueryTimer, BurstTimer);
  }

  lemma DispatchCounts(env: Env, s: State, callback: Callback, ops: seq<Op>)
    ensures var s' := Dispatch(env, s, callback, ops);
            var calling := if callback.BurstTimer? && s.burst.time < BURST_CALLS then 1 else 0;
            && Runs(s'.log, BurstTimer) == Runs(s.log, BurstTimer)
            && s'.burst.calls == s.burst.calls + calling
            && s'.burst.time == if callback.BurstTimer? && s.burst.time >= BURST_CALLS then 0 else s.burst.time + calling
  {
    PrepareCounts(env, s, callback);
    StepsCount(env, Prepare(env, s, callback), ops);
  }

  /** A firing of a burst, whichever it is, counts one call, or closes. */
  lemma FireCountsOne(env: Env, s: State)
    requires EnvOk(env) && Good(env, s, None) && Due(env, s)
    ensures var s' := Fire(env, s);
            var own := s.alarms[Earliest(s.alarms)].callback.BurstTimer?;
            && Runs(s'.log, BurstTimer) == Runs(s.log, BurstTimer) + (if own then 1 else 0)
            && s'.burst.calls == s.burst.calls + (if own && s.burst.time < 4 then 1 else 0)
            && s'.burst.time ==
               if !own then s.burst.time else if s.burst.time < 4 then s.burst.time + 1 else 0
  {
    var b := s.alarms[Earliest(s.alarms)];
    var s1 := Entered(env, s);
    EnteredCounts(env, s, BurstTimer);
    DispatchCounts(env, s1, b.callback, env.script(s.tick));
    CallbackGood(env, s);
    RenewIsLocal(env, Dispatch(env, s1, b.callback, env.script(s.tick)), b, Now(env, s));
  }

  lemma RenewIsLocal(env: Env, s: State, b: Alarm, at: TimeVal)
    requires Good(env, s, Some(Fired(b, at))) && Micros(at) > 0
    ensures var s' := Renew(env, s, b.id, at); s' == s.(alarms := s'.alarms)
  {
    var k := IndexOf(s.alarms, b.id);
    if k < |s.alarms| {
      RenewForm(env, s, k, at);
    }
  }

  // ---------------------------------------------------------------- the life of one burst

  /** The alarm the handle names. */
  predicate Current(s: State, a: Alarm) {
    a in s.alarms && a.callback == BurstTimer && a.id == s.burst.handle
  }

  /** The counters since the origin; every firing so far has made its call. */
  predicate Calling(s: State, o: Origin) {
    s.burst.time == FiringsSince(s, o) && s.burst.calls == o.calls + FiringsSince(s, o)
  }

  /** The burst is under its handle. */
  ghost predicate Going(s: State, id: nat, o: Origin) {
    Calling(s, o) && exists a :: Current(s, a) && a.id == id
  }

  /** The burst has had its closing firing. */
  predicate Over(s: State, id: nat, o: Origin) {
    && Gone(s, id) && FiringsSince(s, o) >= FIRINGS
    && (FiringsSince(s, o) == FIRINGS ==> s.burst.calls == o.calls + BURST_CALLS)
  }

  ghost predicate Alive(s: State, id: nat, o: Origin) {
    Going(s, id, o) || Over(s, id, o)
  }

  lemma StepCurrent(env: Env, s: State, op: Op, a: Alarm, busy: Option<Entry>)
    requires Good(env, s, busy) && Current(s, a) && Leaves(op, a.id)
    ensures var s' := Step(env, s, op);
            && (Allows(s, op, a.id) ==> Current(s', a))
            && (!Allows(s, op, a.id) ==> Stray(s', a, BurstTimer))
  {
    ListedOk(env, s, busy, a);
    StepKeeps(env, s, op, a);
    StepHandles(env, s, op);
    var i :| 0 <= i < |s.alarms| && s.alarms[i] == a;
    assert Listed(s, a.id);
  }

  lemma {:induction false} StepsCurrent(env: Env, s: State, ops: seq<Op>, a: Alarm, busy: Option<Entry>)
    requires ClockOk(env) && Good(env, s, busy) && OpsOk(ops) && Current(s, a) && OpsLeave(ops, a.id)
    ensures var s' := Steps(env, s, ops);
            && (OpsAllow(env, s, ops, a.id) ==> Current(s', a))
            && (!OpsAllow(env, s, ops, a.id) ==> Stray(s', a, BurstTimer))
    decreases |ops|
  {
    if ops != [] {
      var s1 := Step(env, s, ops[0]);
      StepGood(env, s, ops[0], busy);
      StepCurrent(env, s, ops[0], a, busy);
      if Allows(s, ops[0], a.id) {
        StepsCurrent(env, s1, ops[1..], a, busy);
      } else {
        StepsStray(env, s1, ops[1..], a, BurstTimer, busy);
      }
    }
  }

  /** A callback that does not close leaves the alarm under the handle, unless its client code starts another burst. */
  lemma DispatchCurrent(env: Env, s: State, callback: Callback, ops: seq<Op>, a: Alarm, busy: Option<Entry>)
    requires ClockOk(env) && Good(env, s, busy) && OpsOk(ops) && Current(s, a)
    requires CallsClient(s, callback) && OpsLeave(ops, a.id)
    ensures var s' := Dispatch(env, s, callback, ops);
            && (OpsAllow(env, Prepare(env, s, callback), ops, a.id) ==> Current(s', a))
            && (!OpsAllow(env, Prepare(env, s, callback), ops, a.id) ==> Stray(s', a, BurstTimer))
  {
    ListedOk(env, s, busy, a);
    PrepareKeeps(env, s, callback, a);
    PrepareGood(env, s, callback, busy);
    StepsCurrent(env, Prepare(env, s, callback), ops, a, busy);
  }

  /** What is left of the alarm after a firing. */
  function Left(a: Alarm, b: Alarm, at: TimeVal): Alarm {
    if a.id == b.id then After(Fired(b, at)) else a
  }

  lemma RenewCurrent(env: Env, s: State, b: Alarm, at: TimeVal, a: Alarm)
    requires Good(env, s, Some(Fired(b, at))) && Micros(at) > 0 && Current(s, a)
    ensures Current(Renew(env, s, b.id, at), Left(a, b, at))
  {
    ListedOk(env, s, Some(Fired(b, at)), a);
    BuiltInRenews(a);
    RenewKeeps(env, s, b, at, a);
  }

  /** A firing that does not close, with client code that starts no burst. */
  lemma FireCurrent(env: Env, s: State, a: Alarm)
    requires EnvOk(env) && Good(env, s, None) && Due(env, s) && Current(s, a)
    requires EventLeaves(env, s, RunTurn, a.id) && EventAllows(env, s, RunTurn, a.id)
    requires CallsClient(s, s.alarms[Earliest(s.alarms)].callback)
    ensures Current(Fire(env, s), Left(a, s.alarms[Earliest(s.alarms)], Now(env, s)))
  {
    var b := s.alarms[Earliest(s.alarms)];
    var s1 := Entered(env, s);
    EnteredGood(env, s);
    DispatchCurrent(env, s1, b.callback, env.script(s.tick), a, Some(Fired(b, Now(env, s))));
    CallbackGood(env, s);
    RenewCurrent(env, Dispatch(env, s1, b.callback, env.script(s.tick)), b, Now(env, s), a);
  }

  /** A firing whose client code starts another burst. */
  lemma FireOvertaken(env: Env, s: State, a: Alarm)
    requires EnvOk(env) && Good(env, s, None) && Due(env, s) && Current(s, a)
    requires EventLeaves(env, s, RunTurn, a.id) && !EventAllows(env, s, RunTurn, a.id)
    ensures Orphan(Fire(env, s), a.id, BurstTimer)
  {
    var b := s.alarms[Earliest(s.alarms)];
    var s1 := Entered(env, s);
    EnteredGood(env, s);
    DispatchCurrent(env, s1, b.callback, env.script(s.tick), a, Some(Fired(b, Now(env, s))));
    CallbackGood(env, s);
    RenewStray(env, Dispatch(env, s1, b.callback, env.script(s.tick)), b, Now(env, s), a, BurstTimer);
    assert Stray(Fire(env, s), Left(a, b, Now(env, s)), BurstTimer);
  }

  /** The closing firing takes out the alarm under the handle, whichever burst it belongs to. */
  lemma FireCloses(env: Env, s: State, a: Alarm)
    requires EnvOk(env) && Good(env, s, None) && Due(env, s) && Current(s, a)
    requires s.alarms[Earliest(s.alarms)].callback == BurstTimer && s.burst.time == 4
    ensures Gone(Fire(env, s), a.id)
  {
    var b := s.alarms[Earliest(s.alarms)];
    var s1 := Entered(env, s);
    ListedOk(env, s, None, a);
    RemovedGone(s1, a.id);
    CallbackGood(env, s);
    RenewGone(env, Dispatch(env, s1, b.callback, env.script(s.tick)), b, Now(env, s), a.id);
  }

  lemma RemovedGone(s: State, id: nat)
    requires IdsIncrease(s.alarms, s.regnum) && id < s.regnum
    ensures Gone(UnregisterId(s, id), id)
  {
    var k := IndexOf(s.alarms, id);
    if k < |s.alarms| {
      var rest := DropAt(s.alarms, k);
      forall j | 0 <= j < |rest| ensures rest[j].id != id {
        assert rest[j] == s.alarms[if j < k then j else j + 1];
      }
    }
  }

  lemma FireOver(env: Env, s: State, id: nat, o: Origin)
    requires EnvOk(env) && Good(env, s, None) && Due(env, s) && Over(s, id, o)
    ensures Over(Fire(env, s), id, o)
  {
    var b := s.alarms[Earliest(s.alarms)];
    var s1 := Entered(env, s);
    assert Gone(s1, id);
    FireCountsOne(env, s);
    DispatchGone(env, s1, b.callback, env.script(s.tick), id);
    CallbackGood(env, s);
    RenewGone(env, Dispatch(env, s1, b.callback, env.script(s.tick)), b, Now(env, s), id);
  }

  lemma FireAlive(env: Env, s: State, id: nat, o: Origin)
    requires EnvOk(env) && Good(env, s, None) && Due(env, s) && Alive(s, id, o)
    requires EventLeaves(env, s, RunTurn, id) && EventAllows(env, s, RunTurn, id)
    ensures Alive(Fire(env, s), id, o)
  {
    if Over(s, id, o) {
      FireOver(env, s, id, o);
    } else {
      var a :| Current(s, a) && a.id == id;
      FireCountsOne(env, s);
      if CallsClient(s, s.alarms[Earliest(s.alarms)].callback) {
        FireCurrent(env, s, a);
        StillGoing(Fire(env, s), Left(a, s.alarms[Earliest(s.alarms)], Now(env, s)), id, o);
      } else {
        FireCloses(env, s, a);
      }
    }
  }

  lemma StillGoing(s: State, a: Alarm, id: nat, o: Origin)
    requires Current(s, a) && a.id == id && Calling(s, o)
    ensures Going(s, id, o)
  {
  }

  lemma CallAlive(env: Env, s: State, op: Op, id: nat, o: Origin)
    requires EnvOk(env) && Good(env, s, None) && Alive(s, id, o) && Leaves(op, id) && Allows(s, op, id)
    ensures Alive(Step(env, s, op), id, o)
  {
    StepCounts(env, s, op);
    if Over(s, id, o) {
      StepGone(env, s, op, id);
    } else {
      var a :| Current(s, a) && a.id == id;
      StepCurrent(env, s, op, a, None);
      StillGoing(Step(env, s, op), a, id, o);
    }
  }

  /** Nothing but the clock and the OS timer has changed. */
  lemma IdleAlive(s: State, s': State, id: nat, o: Origin)
    requires Alive(s, id, o)
    requires s' == s.(tick := s'.tick, itimer := s'.itimer, started := s'.started)
    ensures Alive(s', id, o)
  {
    if Going(s, id, o) {
      var a :| Current(s, a) && a.id == id;
      StillGoing(s', a, id, o);
    }
  }

  lemma HappenAlive(env: Env, s: State, e: Event, id: nat, o: Origin)
    requires EnvOk(env) && Good(env, s, None) && Alive(s, id, o)
    requires EventLeaves(env, s, e, id) && EventAllows(env, s, e, id)
    ensures Alive(Happen(env, s, e), id, o)
  {
    match e
    case Init => IdleAlive(s, Happen(env, s, e), id, o);
    case Rearm => IdleAlive(s, Happen(env, s, e), id, o);
    case Call(op) => CallAlive(env, s, op, id, o);
    case RunTurn =>
      if Due(env, s) {
        FireAlive(env, s, id, o);
      } else {
        IdleAlive(s, Turn(env, s), id, o);
      }
  }

  /** A start of another burst makes this one an orphan. */
  lemma HappenOvertaken(env: Env, s: State, e: Event, id: nat, o: Origin)
    requires EnvOk(env) && Good(env, s, None) && Alive(s, id, o)
    requires EventLeaves(env, s, e, id) && !EventAllows(env, s, e, id)
    ensures Orphan(Happen(env, s, e), id, BurstTimer)
  {
    if Over(s, id, o) {
      GoneAllows(env, s, e, id);
    } else {
      var a :| Current(s, a) && a.id == id;
      if e.Call? {
        StepCurrent(env, s, e.op, a, None);
      } else {
        FireOvertaken(env, s, a);
      }
    }
  }

  lemma EventFate(env: Env, s: State, e: Event, id: nat, o: Origin)
    requires EnvOk(env) && Good(env, s, None) && (e.Call? ==> OpOk(e.op))
    requires Alive(s, id, o) && EventLeaves(env, s, e, id)
    ensures var s' := Happen(env, s, e);
            && Good(env, s', None)
            && if EventAllows(env, s, e, id) then Alive(s', id, o) else Orphan(s', id, BurstTimer)
  {
    HappenGood(env, s, e);
    if EventAllows(env, s, e, id) {
      HappenAlive(env, s, e, id, o);
    } else {
      HappenOvertaken(env, s, e, id, o);
    }
  }

  /** Through a whole history: it runs its course, or another start has made it an orphan. */
  lemma {:induction false} HistoryAlive(env: Env, s: State, events: seq<Event>, id: nat, o: Origin)
    requires EnvOk(env) && Good(env, s, None) && EventsOk(events)
    requires Alive(s, id, o) && HistoryLeaves(env, s, events, id)
    ensures var s' := Exec(env, s, events);
            if HistoryAllows(env, s, events, id) then Alive(s', id, o) else Orphan(s', id, BurstTimer)
    decreases |events|
  {
    if events != [] {
      var s1 := Happen(env, s, events[0]);
      EventFate(env, s, events[0], id, o);
      if EventAllows(env, s, events[0], id) {
        HistoryAlive(env, s1, events[1..], id, o);
      } else {
        OrphanStays(env, s1, events[1..], id, BurstTimer);
      }
    }
  }

  lemma OrphanListed(s: State, id: nat)
    requires Orphan(s, id, BurstTimer)
    ensures Listed(s, id)
  {
    var a :| Stray(s, a, BurstTimer) && a.id == id;
    var i :| 0 <= i < |s.alarms| && s.alarms[i] == a;
  }

  lemma GoingListed(s: State, id: nat, o: Origin)
    requires Going(s, id, o)
    ensures Listed(s, id)
  {
    var a :| Current(s, a) && a.id == id;
    var i :| 0 <= i < |s.alarms| && s.alarms[i] == a;
  }

  /** The origin of a burst that is started in s, with what an earlier one has left in the counter. */
  function OriginOf(s: State): Origin {
    Origin(Runs(s.log, BurstTimer) - s.burst.time, s.burst.calls - s.burst.time, Starts(s.log, BurstTimer))
  }

  lemma StartAlive(env: Env, s: State)
    requires ClockOk(env) && Good(env, s, None)
    ensures var s' := Step(env, s, StartBurst);
            Good(env, s', None) && Going(s', s.regnum, OriginOf(s)) && FiringsSince(s', OriginOf(s)) == s.burst.time
  {
    var s' := Step(env, s, StartBurst);
    StepGood(env, s, StartBurst, None);
    StepCounts(env, s, StartBurst);
    AppendFields(env, s, Interval(0), SA_REPEAT, BurstTimer);
    var a := s'.alarms[|s.alarms|];
    StillGoing(s', a, s.regnum, OriginOf(s));
  }

  /**
    * The life of a burst, in any history in which nobody removes it and none is started while it
    * is listed, whatever else was listed at its start. All bursts share one counter, so firings
    * of older bursts count as well: with `left` firings to go, it is listed exactly while fewer
    * than `left` firings of bursts have happened, each of those has made one client call, and the
    * last one makes none.
    */
  lemma LifeOfBurst(env: Env, s: State, events: seq<Event>)
    requires EnvOk(env) && Good(env, s, None) && EventsOk(events)
    requires HistoryLeaves(env, Step(env, s, StartBurst), events, s.regnum)
    requires HistoryAllows(env, Step(env, s, StartBurst), events, s.regnum)
    ensures var s' := Exec(env, Step(env, s, StartBurst), events);
            var firings := Runs(s'.log, BurstTimer) - Runs(s.log, BurstTimer);
            var left := 5 - s.burst.time;
            && (Listed(s', s.regnum) <==> firings < left)
            && (firings < left ==> s'.burst.handle == s.regnum && s'.burst.calls == s.burst.calls + firings)
            && (firings == left ==> s'.burst.calls == s.burst.calls + left - 1)
  {
    var s1 := Step(env, s, StartBurst);
    StartAlive(env, s);
    HistoryAlive(env, s1, events, s.regnum, OriginOf(s));
    ExecGood(env, s1, events);
    var s' := Exec(env, s1, events);
    if Going(s', s.regnum, OriginOf(s)) {
      GoingListed(s', s.regnum, OriginOf(s));
    }
  }

  // ---------------------------------------------------------------- exactly when it ends

  /** No client function run during a call of run_alarms starts a burst while this one is listed. */
  ghost predicate RunAllows(env: Env, s: State, limit: int, id: nat)
    requires EnvOk(env) && Good(env, s, None) && Bounded(env, limit)
    decreases limit - Micros(Now(env, s)), DueIds(s.alarms, Now(env, s))
  {
    EventAllows(env, s, RunTurn, id) &&
    if Due(env, s) then
      FireGood(env, s);
      FireShrinks(env, s);
      assert Micros(Now(env, Fire(env, s))) <= limit;
      RunAllows(env, Fire(env, s), limit, id)
    else true
  }

  lemma {:induction false} RunAlive(env: Env, s: State, limit: int, id: nat, o: Origin)
    requires EnvOk(env) && Good(env, s, None) && Bounded(env, limit)
    requires Alive(s, id, o) && RunLeaves(env, s, limit, id)
    ensures var s' := Run(env, s, limit);
            if RunAllows(env, s, limit, id) then Alive(s', id, o) else Orphan(s', id, BurstTimer)
    decreases limit - Micros(Now(env, s)), DueIds(s.alarms, Now(env, s))
  {
    if EventAllows(env, s, RunTurn, id) {
      HappenAlive(env, s, RunTurn, id, o);
    } else {
      HappenOvertaken(env, s, RunTurn, id, o);
    }
    if Due(env, s) {
      FireGood(env, s);
      FireShrinks(env, s);
      assert Micros(Now(env, Fire(env, s))) <= limit;
      if EventAllows(env, s, RunTurn, id) {
        RunAlive(env, Fire(env, s), limit, id, o);
      } else {
        RunKeepsOrphan(env, Fire(env, s), limit, id, BurstTimer);
      }
    }
  }

  lemma RunsGrow(env: Env, s: State, limit: int, o: Origin)
    requires EnvOk(env) && Good(env, s, None) && Bounded(env, limit)
    ensures FiringsSince(s, o) <= FiringsSince(Run(env, s, limit), o)
  {
    RunLeavesNothingDue(env, s, limit);
    CountsGrow(s.log, Run(env, s, limit).log, BurstTimer);
  }

  /** A call that comes after its deadline fires it, or an older burst before it. */
  lemma {:induction false} RunFiresCurrent(env: Env, s: State, limit: int, a: Alarm, o: Origin)
    requires EnvOk(env) && Good(env, s, None) && Bounded(env, limit)
    requires Current(s, a) && Micros(a.next) < Micros(Now(env, s))
    requires RunLeaves(env, s, limit, a.id) && RunAllows(env, s, limit, a.id)
    ensures FiringsSince(s, o) < FiringsSince(Run(env, s, limit), o)
    decreases limit - Micros(Now(env, s)), DueIds(s.alarms, Now(env, s))
  {
    PastIsDue(env, s, a);
    RunUnfolds(env, s, limit);
    FireCountsOne(env, s);
    if s.alarms[Earliest(s.alarms)].callback == BurstTimer {
      RunsGrow(env, Fire(env, s), limit, o);
    } else {
      OtherId(env, s, a);
      FireCurrent(env, s, a);
      RunFiresCurrent(env, Fire(env, s), limit, a, o);
    }
  }

  lemma OtherId(env: Env, s: State, a: Alarm)
    requires Good(env, s, None) && Due(env, s) && Current(s, a)
    requires s.alarms[Earliest(s.alarms)].callback != BurstTimer
    ensures s.alarms[Earliest(s.alarms)].id != a.id
  {
    var i :| 0 <= i < |s.alarms| && s.alarms[i] == a;
  }

  /** Nobody starts a burst while this one is listed, in the history or in the call after it. */
  ghost predicate RoundAllows(env: Env, s: State, events: seq<Event>, limit: int, id: nat)
    requires EnvOk(env) && Bounded(env, limit)
  {
    && HistoryAllows(env, s, events, id)
    && var s1 := Exec(env, s, events);
       Good(env, s1, None) && RunAllows(env, s1, limit, id)
  }

  lemma RoundAlive(env: Env, s: State, events: seq<Event>, s': State, limit: int, id: nat, o: Origin)
    requires EnvOk(env) && Bounded(env, limit) && Alive(s, id, o) && LateRound(env, s, events, s', limit, id)
    ensures Good(env, s', None)
    ensures if RoundAllows(env, s, events, limit, id) then Alive(s', id, o) else Orphan(s', id, BurstTimer)
  {
    var s1 := Exec(env, s, events);
    HistoryAlive(env, s, events, id, o);
    if HistoryAllows(env, s, events, id) {
      RunAlive(env, s1, limit, id, o);
    } else {
      RunKeepsOrphan(env, s1, limit, id, BurstTimer);
    }
  }

  /** In such a round another firing happens, unless it is over. */
  lemma RoundFires(env: Env, s: State, events: seq<Event>, s': State, limit: int, id: nat, o: Origin)
    requires EnvOk(env) && Bounded(env, limit) && Alive(s, id, o) && LateRound(env, s, events, s', limit, id)
    requires RoundAllows(env, s, events, limit, id)
    ensures FiringsSince(s', o) >= FIRINGS || FiringsSince(s, o) < FiringsSince(s', o)
  {
    var s1 := Exec(env, s, events);
    HistoryAlive(env, s, events, id, o);
    ExecLogGrows(env, s, events);
    CountsGrow(s.log, s1.log, BurstTimer);
    if Going(s1, id, o) {
      var a :| Current(s1, a) && a.id == id;
      var i :| 0 <= i < |s1.alarms| && s1.alarms[i] == a;
      RunFiresCurrent(env, s1, limit, a, o);
    } else {
      RunsGrow(env, s1, limit, o);
    }
  }

  ghost predicate RoundsAllow(env: Env, states: seq<State>, events: seq<seq<Event>>, limit: int, id: nat)
    requires EnvOk(env) && Bounded(env, limit) && |states| > |events|
  {
    forall i :: 0 <= i < |events| ==> RoundAllows(env, states[i], events[i], limit, id)
  }

  lemma RoundsAllowTail(env: Env, states: seq<State>, events: seq<seq<Event>>, limit: int, id: nat)
    requires EnvOk(env) && Bounded(env, limit) && |states| > |events| > 0
    ensures RoundsAllow(env, states, events, limit, id) <==>
            RoundAllows(env, states[0], events[0], limit, id) && RoundsAllow(env, states[1..], events[1..], limit, id)
  {
    var rest := events[1..];
    if RoundsAllow(env, states[1..], rest, limit, id) {
      forall i | 1 <= i < |events| ensures RoundAllows(env, states[i], events[i], limit, id) {
        assert RoundAllows(env, states[1..][i - 1], rest[i - 1], limit, id);
      }
    }
    if RoundsAllow(env, states, events, limit, id) {
      forall i | 0 <= i < |rest| ensures RoundAllows(env, states[1..][i], rest[i], limit, id) {
        assert RoundAllows(env, states[i + 1], events[i + 1], limit, id);
      }
    }
  }

  lemma {:induction false} RoundsEnd(env: Env, states: seq<State>, events: seq<seq<Event>>, limit: int, id: nat, o: Origin)
    requires EnvOk(env) && Bounded(env, limit) && LateRounds(env, states, events, limit, id)
    requires Good(env, states[0], None) && Alive(states[0], id, o)
    requires |events| >= 5 - FiringsSince(states[0], o)
    ensures var s' := states[|events|];
            if RoundsAllow(env, states, events, limit, id) then Over(s', id, o) else Orphan(s', id, BurstTimer)
    decreases |events|
  {
    if events != [] {
      LateRoundsTail(env, states, events, limit, id);
      RoundsAllowTail(env, states, events, limit, id);
      RoundAlive(env, states[0], events[0], states[1], limit, id, o);
      if RoundAllows(env, states[0], events[0], limit, id) {
        RoundFires(env, states[0], events[0], states[1], limit, id, o);
        RoundsEnd(env, states[1..], events[1..], limit, id, o);
      } else {
        OrphanFiresForEver(env, states[1..], events[1..], limit, id, BurstTimer);
      }
    }
  }

  /**
    * A started burst, whatever else is listed, and enough calls of run_alarms after its deadline:
    * it has ended if and only if no burst was started while it was listed.
    */
  lemma BurstEnds(env: Env, s: State, states: seq<State>, events: seq<seq<Event>>, limit: int)
    requires EnvOk(env) && Bounded(env, limit) && Good(env, s, None)
    requires LateRounds(env, states, events, limit, s.regnum) && states[0] == Step(env, s, StartBurst)
    requires |events| >= 5 - s.burst.time
    ensures !Listed(states[|events|], s.regnum) <==> RoundsAllow(env, states, events, limit, s.regnum)
  {
    StartAlive(env, s);
    RoundsEnd(env, states, events, limit, s.regnum, OriginOf(s));
    if !RoundsAllow(env, states, events, limit, s.regnum) {
      OrphanListed(states[|events|], s.regnum);
    }
  }

  // ---------------------------------------------------------------- when broadcasting stops

  lemma RoundKeepsOrphan(env: Env, s: State, events: seq<Event>, s': State, limit: int, id: nat)
    requires EnvOk(env) && Bounded(env, limit) && Orphan(s, id, BurstTimer) && Round(env, s, events, s', limit)
    ensures Orphan(s', id, BurstTimer)
  {
    HistorySparesLeaves(env, s, events, id, BurstTimer);
    OrphanStays(env, s, events, id, BurstTimer);
    RunSparesLeaves(env, Exec(env, s, events), limit, id);
    RunKeepsOrphan(env, Exec(env, s, events), limit, id, BurstTimer);
  }

  lemma {:induction false} RoundsKeepOrphan(env: Env, states: seq<State>, events: seq<seq<Event>>, limit: int, id: nat)
    requires EnvOk(env) && Bounded(env, limit) && Rounds(env, states, events, limit) && Orphan(states[0], id, BurstTimer)
    ensures Orphan(states[|events|], id, BurstTimer)
    decreases |events|
  {
    if events != [] {
      RoundsTail(env, states, events, limit);
      RoundKeepsOrphan(env, states[0], events[0], states[1], limit, id);
      RoundsKeepOrphan(env, states[1..], events[1..], limit, id);
    }
  }

  /** A start while no burst is listed begins one, with what an earlier one has left in the counter. */
  lemma StartBegins(env: Env, s: State, o: Origin)
    requires OfKind(s.alarms, BurstTimer) == [] && s.burst.time <= BURST_CALLS
    requires FiringsSince(s, o) == s.burst.time && o.calls == s.burst.calls - s.burst.time && StartsSince(s, o) == 0
    ensures var s' := Step(env, s, StartBurst);
            BurstInv(s', o) && FiringsSince(s', o) == s.burst.time && StartsSince(s', o) == 1
  {
    StartCounts(env, s);
    SmallCount(s.burst.time);
    Begun(s, Step(env, s, StartBurst), o);
  }

  lemma StartCounts(env: Env, s: State)
    requires OfKind(s.alarms, BurstTimer) == []
    ensures var s' := Step(env, s, StartBurst);
            && Runs(s'.log, BurstTimer) == Runs(s.log, BurstTimer)
            && Starts(s'.log, BurstTimer) == Starts(s.log, BurstTimer) + 1
            && s'.burst == s.burst.(handle := s.regnum)
            && var own := OfKind(s'.alarms, BurstTimer);
               |own| == 1 && own[0].id == s'.burst.handle && own[0].t == TimeVal(0, UNIT_BURST) && own[0].flags == SA_REPEAT
  {
    AppendKinds(env, s, Interval(0), SA_REPEAT, BurstTimer, BurstTimer);
  }

  lemma Begun(s: State, s': State, o: Origin)
    requires s.burst.time % FIRINGS == s.burst.time && s.burst.time / FIRINGS == 0
    requires FiringsSince(s, o) == s.burst.time && o.calls == s.burst.calls - s.burst.time && StartsSince(s, o) == 0
    requires Runs(s'.log, BurstTimer) == Runs(s.log, BurstTimer)
    requires Starts(s'.log, BurstTimer) == Starts(s.log, BurstTimer) + 1
    requires s'.burst.time == s.burst.time && s'.burst.calls == s.burst.calls
    requires var own := OfKind(s'.alarms, BurstTimer);
             |own| == 1 && own[0].id == s'.burst.handle && own[0].t == TimeVal(0, UNIT_BURST) && own[0].flags == SA_REPEAT
    ensures BurstInv(s', o) && FiringsSince(s', o) == s.burst.time && StartsSince(s', o) == 1
  {
  }

  lemma BurstGetsDone(env: Env, s: State, states: seq<State>, events: seq<seq<Event>>, limit: int)
    requires EnvOk(env) && Bounded(env, limit) && Good(env, s, None)
    requires Rounds(env, states, events, limit) && states[0] == Step(env, s, StartBurst)
    requires Starts(states[|events|].log, BurstTimer) == Starts(s.log, BurstTimer) + 1
    requires |events| >= 5 - s.burst.time && OfKind(s.alarms, BurstTimer) == []
    ensures var s' := states[|events|];
            && OfKind(s'.alarms, BurstTimer) == [] && s'.burst.time == 0
            && Runs(s'.log, BurstTimer) == Runs(s.log, BurstTimer) + 5 - s.burst.time
            && s'.burst.calls == s.burst.calls + 4 - s.burst.time
  {
    var o := OriginOf(s);
    StartBegins(env, s, o);
    BurstsComplete(env, states, events, limit, 1, o);
  }

  /**
    * After a start that is not followed by another one, and enough rounds, broadcasting has
    * stopped altogether if and only if no burst was listed at the start. Exactly four calls have
    * been made as well if and only if, besides, no earlier burst had left the counter half way.
    */
  lemma BroadcastingStops(env: Env, s: State, states: seq<State>, events: seq<seq<Event>>, limit: int)
    requires EnvOk(env) && Bounded(env, limit) && Good(env, s, None)
    requires Rounds(env, states, events, limit) && states[0] == Step(env, s, StartBurst)
    requires Starts(states[|events|].log, BurstTimer) == Starts(s.log, BurstTimer) + 1
    requires |events| >= 5 - s.burst.time
    ensures var s' := states[|events|];
            && (OfKind(s'.alarms, BurstTimer) == [] <==> OfKind(s.alarms, BurstTimer) == [])
            && (OfKind(s'.alarms, BurstTimer) == [] && s'.burst.calls == s.burst.calls + 4
                <==> OfKind(s.alarms, BurstTimer) == [] && s.burst.time == 0)
  {
    if OfKind(s.alarms, BurstTimer) == [] {
      BurstGetsDone(env, s, states, events, limit);
    } else {
      var id := FirstOfKind(s, BurstTimer);
      OverlapOrphans(env, s, StartBurst, id, BurstTimer);
      RoundsKeepOrphan(env, states, events, limit, id);
      var b :| Stray(states[|events|], b, BurstTimer) && b.id == id;
      OfKindMembers(states[|events|].alarms, BurstTimer);
    }
  }

  /** A burst that a client removes after one firing leaves the counter half way. */
  lemma CounterLeft(env: Env, s: State)
    requires EnvOk(env) && s == INITIAL
    requires Micros(env.clock(0)) + 500_000 < Micros(env.clock(1)) && env.script(1) == []
    ensures var s' := Step(env, Turn(env, Step(env, s, StartBurst)), UnregisterAll);
            OfKind(s'.alarms, BurstTimer) == [] && s'.burst.time == 1
  {
    FirstFiring(env, s);
  }

  lemma FirstFiring(env: Env, s: State)
    requires ClockOk(env) && s.alarms == [] && s.tick == 0 && !s.started && s.burst.time == 0
    requires Micros(env.clock(0)) + UNIT_BURST < Micros(env.clock(1)) && env.script(1) == []
    ensures Turn(env, Step(env, s, StartBurst)).burst.time == 1
  {
    var s1 := Step(env, s, StartBurst);
    AppendForm(env, s, Interval(0), SA_REPEAT, BurstTimer);
    BeforeIsEarlier(s1.alarms[0].next, Now(env, s1));
    QuietDispatch(env, Entered(env, s1), BurstTimer);
  }
}
