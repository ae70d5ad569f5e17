/**
  The alarms of one of the two built-in timers, and the histories in which nobody else
  interferes with them.
*/
module Kinds {
  import opened TimeVals
  import opened Alarms
  import opened AlarmHistory
  import opened Sequences

  /** The alarms with this callback, in list order. */
  function OfKind(alarms: seq<Alarm>, kind: Callback): seq<Alarm> {
    if alarms == [] then [] else IfKind(alarms[0], kind) + OfKind(alarms[1..], kind)
  }

  function IfKind(a: Alarm, kind: Callback): seq<Alarm> {
    if a.callback == kind then [a] else []
  }

  /** How many firings of a kind the log holds. */
  function Runs(log: seq<Entry>, kind: Callback): nat {
    if log == [] then 0
    else
      var n := |log| - 1;
      Runs(log[..n], kind) + if log[n].Fired? && log[n].alarm.callback == kind then 1 else 0
  }

  /** How many registrations of a kind the log holds. */
  function Starts(log: seq<Entry>, kind: Callback): nat {
    if log == [] then 0
    else
      var n := |log| - 1;
      Starts(log[..n], kind) + if log[n].Registered? && log[n].alarm.callback == kind then 1 else 0
  }

  lemma CountsExtend(log: seq<Entry>, e: Entry, kind: Callback)
    ensures Runs(log + [e], kind) == Runs(log, kind) + if e.Fired? && e.alarm.callback == kind then 1 else 0
    ensures Starts(log + [e], kind) == Starts(log, kind) + if e.Registered? && e.alarm.callback == kind then 1 else 0
  {
    assert (log + [e])[..|log|] == log;
  }

  lemma {:induction false} CountsGrow(log: seq<Entry>, log': seq<Entry>, kind: Callback)
    requires log <= log'
    ensures Runs(log, kind) <= Runs(log', kind) && Starts(log, kind) <= Starts(log', kind)
  {
    if |log| < |log'| {
      CountsGrow(log, log'[..|log'| - 1], kind);
    } else {
      assert log == log';
    }
  }

  // ---------------------------------------------------------------- splicing

  lemma {:induction false} OfKindConcat(a: seq<Alarm>, b: seq<Alarm>, kind: Callback)
    ensures OfKind(a + b, kind) == OfKind(a, kind) + OfKind(b, kind)
  {
    if a == [] {
      assert a + b == b;
    } else {
      var rest := a[1..];
      OfKindConcat(rest, b, kind);
      calc {
        OfKind(a + b, kind);
        { assert (a + b)[0] == a[0] && (a + b)[1..] == rest + b; }
        IfKind(a[0], kind) + OfKind(rest + b, kind);
        IfKind(a[0], kind) + (OfKind(rest, kind) + OfKind(b, kind));
        { Associative(IfKind(a[0], kind), OfKind(rest, kind), OfKind(b, kind)); }
        IfKind(a[0], kind) + OfKind(rest, kind) + OfKind(b, kind);
        OfKind(a, kind) + OfKind(b, kind);
      }
    }
  }

  lemma OfKindSplice(left: seq<Alarm>, mid: seq<Alarm>, right: seq<Alarm>, kind: Callback)
    ensures OfKind(left + mid + right, kind) == OfKind(left, kind) + OfKind(mid, kind) + OfKind(right, kind)
  {
    OfKindConcat(left + mid, right, kind);
    OfKindConcat(left, mid, kind);
  }

  lemma OfKindSingle(a: Alarm, kind: Callback)
    ensures OfKind([a], kind) == if a.callback == kind then [a] else []
  {
    assert OfKind([a][1..], kind) == [];
  }

  lemma {:induction false} OfKindMembers(alarms: seq<Alarm>, kind: Callback)
    ensures forall a :: a in OfKind(alarms, kind) <==> a in alarms && a.callback == kind
  {
    if alarms != [] {
      OfKindMembers(alarms[1..], kind);
      assert alarms == [alarms[0]] + alarms[1..];
    }
  }

  lemma OfKindAppend(alarms: seq<Alarm>, a: Alarm, kind: Callback)
    ensures OfKind(alarms + [a], kind) == OfKind(alarms, kind) + if a.callback == kind then [a] else []
  {
    OfKindConcat(alarms, [a], kind);
    OfKindSingle(a, kind);
  }

  /** One alarm in its place. */
  lemma OfKindAround(left: seq<Alarm>, a: Alarm, right: seq<Alarm>, kind: Callback)
    ensures OfKind(left + [a] + right, kind) == OfKind(left, kind) + IfKind(a, kind) + OfKind(right, kind)
  {
    OfKindSplice(left, [a], right, kind);
    OfKindSingle(a, kind);
  }

  /** Replacing one alarm replaces it in its kind; dropping it drops it there. */
  lemma OfKindAt(alarms: seq<Alarm>, i: nat, b: Alarm, kind: Callback)
    requires i < |alarms| && b.callback == alarms[i].callback
    ensures var left, right := OfKind(alarms[..i], kind), OfKind(alarms[i + 1..], kind);
            && OfKind(alarms, kind) == left + IfKind(alarms[i], kind) + right
            && OfKind(alarms[i := b], kind) == left + IfKind(b, kind) + right
            && OfKind(DropAt(alarms, i), kind) == left + right
  {
    var left, right := alarms[..i], alarms[i + 1..];
    SplitAt(alarms, i, b);
    OfKindAround(left, alarms[i], right, kind);
    OfKindAround(left, b, right, kind);
    OfKindConcat(left, right, kind);
  }

  /** An alarm of another kind can be replaced or dropped. */
  lemma OfKindOther(alarms: seq<Alarm>, i: nat, b: Alarm, kind: Callback)
    requires i < |alarms| && b.callback == alarms[i].callback != kind
    ensures OfKind(alarms, kind) == OfKind(alarms[i := b], kind) == OfKind(DropAt(alarms, i), kind)
  {
    OfKindAt(alarms, i, b, kind);
    var left, right := OfKind(alarms[..i], kind), OfKind(alarms[i + 1..], kind);
    assert left + [] + right == left + right;
  }

  /** Dropping or renewing the only alarm of a kind. */
  lemma OnlyOneAt(alarms: seq<Alarm>, i: nat, b: Alarm, kind: Callback)
    requires i < |alarms| && alarms[i].callback == b.callback == kind && |OfKind(alarms, kind)| == 1
    ensures OfKind(alarms, kind) == [alarms[i]]
    ensures OfKind(alarms[i := b], kind) == [b]
    ensures OfKind(DropAt(alarms, i), kind) == []
  {
    OfKindAt(alarms, i, b, kind);
  }

  lemma RemoveKeepsKind(alarms: seq<Alarm>, id: nat, kind: Callback)
    requires forall j :: 0 <= j < |alarms| && alarms[j].id == id ==> alarms[j].callback != kind
    ensures OfKind(Remove(alarms, id), kind) == OfKind(alarms, kind)
  {
    var i := IndexOf(alarms, id);
    if i < |alarms| {
      OfKindOther(alarms, i, alarms[i], kind);
    }
  }

  /** Renewing an alarm of another kind. */
  lemma RenewKeepsKind(env: Env, s: State, id: nat, now: TimeVal, kind: Callback)
    requires IdsIncrease(s.alarms, s.regnum) && Micros(now) > 0
    requires forall j :: 0 <= j < |s.alarms| && s.alarms[j].id == id ==> s.alarms[j].callback != kind
    ensures OfKind(Renew(env, s, id, now).alarms, kind) == OfKind(s.alarms, kind)
    ensures Renew(env, s, id, now) == s.(alarms := Renew(env, s, id, now).alarms)
  {
    var i := IndexOf(s.alarms, id);
    if i < |s.alarms| {
      RenewForm(env, s, i, now);
      OfKindOther(s.alarms, i, After(Fired(s.alarms[i], now)), kind);
    }
  }

  // ---------------------------------------------------------------- histories that leave a kind alone

  /** The call removes no alarm of the kind, and starts the timer only while it is idle. */
  predicate Spares(s: State, op: Op, kind: Callback) {
    match op
    case Unregister(id) => forall j :: 0 <= j < |s.alarms| && s.alarms[j].id == id ==> s.alarms[j].callback != kind
    case UnregisterAll => OfKind(s.alarms, kind) == []
    case StopQuery =>
      forall j :: 0 <= j < |s.alarms| && s.alarms[j].id == s.query.handle ==> s.alarms[j].callback != kind
    case StartBurst => kind.BurstTimer? ==> OfKind(s.alarms, kind) == []
    case StartQuery => kind.QueryTimer? ==> OfKind(s.alarms, kind) == []
    case Register(_, _) => true
    case RegisterHr(_, _) => true
  }

  predicate OpsSpare(env: Env, s: State, ops: seq<Op>, kind: Callback)
    decreases |ops|
  {
    ops == [] || (Spares(s, ops[0], kind) && OpsSpare(env, Step(env, s, ops[0]), ops[1..], kind))
  }

  /** The same for an event; a firing is judged by the client code it runs. */
  predicate EventSpares(env: Env, s: State, e: Event, kind: Callback) {
    match e
    case Call(op) => Spares(s, op, kind)
    case RunTurn =>
      Due(env, s) ==>
        var callback := s.alarms[Earliest(s.alarms)].callback;
        var s1 := Entered(env, s);
        CallsClient(s1, callback) ==> OpsSpare(env, Prepare(env, s1, callback), env.script(s.tick), kind)
    case Init => true
    case Rearm => true
  }

  predicate HistorySpares(env: Env, s: State, events: seq<Event>, kind: Callback)
    decreases |events|
  {
    events == [] ||
    (EventSpares(env, s, events[0], kind) && HistorySpares(env, Happen(env, s, events[0]), events[1..], kind))
  }

  /** The registration that starts the timer of a kind. */
  predicate StartsKind(op: Op, kind: Callback) {
    (op.StartBurst? && kind.BurstTimer?) || (op.StartQuery? && kind.QueryTimer?)
  }

  lemma AppendKinds(env: Env, s: State, t: TimeVal, flags: nat, callback: Callback, kind: Callback)
    ensures var s' := Append(env, s, t, flags, callback);
            var a := Alarm(s.regnum, t, flags, Now(env, s), Carried(Sum(Now(env, s), t)), callback);
            && OfKind(s'.alarms, kind) == OfKind(s.alarms, kind) + (if callback == kind then [a] else [])
            && Runs(s'.log, kind) == Runs(s.log, kind)
            && Starts(s'.log, kind) == Starts(s.log, kind) + (if callback == kind then 1 else 0)
            && s'.burst == s.burst && s'.query == s.query && s'.regnum == s.regnum + 1
  {
    AppendFields(env, s, t, flags, callback);
    var a := Alarm(s.regnum, t, flags, Now(env, s), Carried(Sum(Now(env, s), t)), callback);
    OfKindAppend(s.alarms, a, kind);
    CountsExtend(s.log, Registered(a), kind);
  }

  lemma StartSpares(env: Env, s: State, op: Op, kind: Callback)
    requires kind != Client && Spares(s, op, kind) && (op.StartBurst? || op.StartQuery?)
    ensures var s' := Step(env, s, op);
            && Runs(s'.log, kind) == Runs(s.log, kind)
            && s'.burst.(handle := s.burst.handle) == s.burst && s'.query.(handle := s.query.handle) == s.query
            && (StartsKind(op, kind) ==>
                  && OfKind(s.alarms, kind) == []
                  && |OfKind(s'.alarms, kind)| == 1
                  && Starts(s'.log, kind) == Starts(s.log, kind) + 1)
            && (!StartsKind(op, kind) ==>
                  && OfKind(s'.alarms, kind) == OfKind(s.alarms, kind)
                  && Starts(s'.log, kind) == Starts(s.log, kind)
                  && (kind.BurstTimer? ==> s'.burst == s.burst)
                  && (kind.QueryTimer? ==> s'.query == s.query))
  {
    if op.StartBurst? {
      AppendKinds(env, s, Interval(0), SA_REPEAT, BurstTimer, kind);
    } else {
      AppendKinds(env, s, Interval(FIRST_PERIOD), SA_REPEAT, QueryTimer, kind);
    }
  }

  /** A sparing call leaves the kind alone, or starts its timer. */
  lemma StepSpares(env: Env, s: State, op: Op, kind: Callback)
    requires kind != Client && Spares(s, op, kind)
    ensures var s' := Step(env, s, op);
            && Runs(s'.log, kind) == Runs(s.log, kind)
            && s'.burst.time == s.burst.time && s'.burst.calls == s.burst.calls
            && s'.query.(handle := s.query.handle) == s.query
            && (StartsKind(op, kind) ==>
                  && OfKind(s.alarms, kind) == []
                  && |OfKind(s'.alarms, kind)| == 1
                  && Starts(s'.log, kind) == Starts(s.log, kind) + 1)
            && (!StartsKind(op, kind) ==>
                  && OfKind(s'.alarms, kind) == OfKind(s.alarms, kind)
                  && Starts(s'.log, kind) == Starts(s.log, kind)
                  && (kind.BurstTimer? ==> s'.burst == s.burst)
                  && (kind.QueryTimer? ==> s'.query == s.query))
  {
    match op
    case Register(when, flags) => AppendKinds(env, s, Interval(when), flags, Client, kind);
    case RegisterHr(t, flags) => AppendKinds(env, s, t, flags, Client, kind);
    case Unregister(id) => RemoveKeepsKind(s.alarms, id, kind);
    case UnregisterAll =>
    case StartBurst => StartSpares(env, s, op, kind);
    case StartQuery => StartSpares(env, s, op, kind);
    case StopQuery => RemoveKeepsKind(s.alarms, s.query.handle, kind);
  }

  /** While the timer is running, sparing client code changes nothing about it. */
  lemma {:induction false} StepsSpareRunning(env: Env, s: State, ops: seq<Op>, kind: Callback)
    requires kind != Client && OpsSpare(env, s, ops, kind) && OfKind(s.alarms, kind) != []
    ensures var s' := Steps(env, s, ops);
            && OfKind(s'.alarms, kind) == OfKind(s.alarms, kind)
            && Runs(s'.log, kind) == Runs(s.log, kind)
            && Starts(s'.log, kind) == Starts(s.log, kind)
            && s'.burst.time == s.burst.time && s'.burst.calls == s.burst.calls
            && s'.query.(handle := s.query.handle) == s.query
            && (kind.BurstTimer? ==> s'.burst == s.burst)
            && (kind.QueryTimer? ==> s'.query == s.query)
    decreases |ops|
  {
    if ops != [] {
      StepSpares(env, s, ops[0], kind);
      StepsSpareRunning(env, Step(env, s, ops[0]), ops[1..], kind);
    }
  }

  // ---------------------------------------------------------------- firings of another kind

  /** The built-in callbacks only unlink by their own handle, which names nothing of another kind. */
  lemma PrepareOther(env: Env, s: State, callback: Callback, kind: Callback)
    requires kind != Client && callback != kind && TimersOk(s)
    ensures var s' := Prepare(env, s, callback);
            && OfKind(s'.alarms, kind) == OfKind(s.alarms, kind)
            && Runs(s'.log, kind) == Runs(s.log, kind)
            && Starts(s'.log, kind) == Starts(s.log, kind)
            && (kind.BurstTimer? ==> s'.burst == s.burst)
            && (kind.QueryTimer? ==> s'.query == s.query)
  {
    match callback
    case Client =>
    case BurstTimer =>
      if s.burst.time >= BURST_CALLS {
        RemoveKeepsKind(s.alarms, s.burst.handle, kind);
      }
    case QueryTimer =>
      if s.query.interval < LAST_PERIOD {
        RemoveKeepsKind(s.alarms, s.query.handle, kind);
        var s1 := NextPeriod(UnregisterId(s, s.query.handle));
        AppendKinds(env, s1, Interval(s1.query.interval), SA_REPEAT, QueryTimer, kind);
      }
  }

  /** Entering a callback logs it, and nothing else. */
  lemma EnteredCounts(env: Env, s: State, kind: Callback)
    requires Due(env, s)
    ensures var own := s.alarms[Earliest(s.alarms)].callback == kind;
            && Runs(Entered(env, s).log, kind) == Runs(s.log, kind) + (if own then 1 else 0)
            && Starts(Entered(env, s).log, kind) == Starts(s.log, kind)
  {
    CountsExtend(s.log, Fired(s.alarms[Earliest(s.alarms)], Now(env, s)), kind);
  }

  /** Re-arming the alarm that has just run touches no alarm of another kind. */
  lemma RenewOther(env: Env, s: State, a: Alarm, at: TimeVal, kind: Callback)
    requires Good(env, s, Some(Fired(a, at))) && a.callback != kind && Micros(at) > 0
    ensures OfKind(Renew(env, s, a.id, at).alarms, kind) == OfKind(s.alarms, kind)
    ensures Renew(env, s, a.id, at) == s.(alarms := Renew(env, s, a.id, at).alarms)
  {
    RenewKeepsKind(env, s, a.id, at, kind);
  }

  /** Re-arming the only alarm of a kind, or finding it gone. */
  lemma RenewOwn(env: Env, s: State, a: Alarm, at: TimeVal)
    requires Good(env, s, Some(Fired(a, at))) && a.Renews() && Micros(at) > 0
    requires |OfKind(s.alarms, a.callback)| == 1
    ensures var own := OfKind(s.alarms, a.callback)[0];
            && OfKind(Renew(env, s, a.id, at).alarms, a.callback)
               == [if own.id == a.id then After(Fired(a, at)) else own]
            && (own.id == a.id ==> own == a)
            && Renew(env, s, a.id, at) == s.(alarms := Renew(env, s, a.id, at).alarms)
  {
    var own := OfKind(s.alarms, a.callback)[0];
    OfKindMembers(s.alarms, a.callback);
    assert own in s.alarms;
    var k :| 0 <= k < |s.alarms| && s.alarms[k] == own;
    var i := IndexOf(s.alarms, a.id);
    if i < |s.alarms| {
      RenewForm(env, s, i, at);
      assert s.alarms[i] == a;
      OnlyOneAt(s.alarms, i, After(Fired(a, at)), a.callback);
    }
  }

  /** After the callback the invariant still holds, with the fired alarm under way. */
  lemma CallbackGood(env: Env, s: State)
    requires EnvOk(env) && Good(env, s, None) && Due(env, s)
    ensures var a := s.alarms[Earliest(s.alarms)];
            && Good(env, Dispatch(env, Entered(env, s), a.callback, env.script(s.tick)), Some(Fired(a, Now(env, s))))
            && Micros(Now(env, s)) > 0
  {
    var a := s.alarms[Earliest(s.alarms)];
    EnteredGood(env, s);
    DispatchGood(env, Entered(env, s), a.callback, env.script(s.tick), Some(Fired(a, Now(env, s))));
  }

  /** What a timer owns, apart from its handle and its alarms. */
  predicate SameTimer(s: State, s': State, kind: Callback) {
    && OfKind(s'.alarms, kind) == OfKind(s.alarms, kind)
    && Runs(s'.log, kind) == Runs(s.log, kind)
    && Starts(s'.log, kind) == Starts(s.log, kind)
    && (kind.BurstTimer? ==> s'.burst == s.burst)
    && (kind.QueryTimer? ==> s'.query == s.query)
  }

  lemma DispatchOther(env: Env, s: State, callback: Callback, ops: seq<Op>, kind: Callback)
    requires kind != Client && callback != kind && OfKind(s.alarms, kind) != [] && TimersOk(s)
    requires CallsClient(s, callback) ==> OpsSpare(env, Prepare(env, s, callback), ops, kind)
    ensures SameTimer(s, Dispatch(env, s, callback, ops), kind)
  {
    PrepareOther(env, s, callback, kind);
    if CallsClient(s, callback) {
      StepsSpareRunning(env, Prepare(env, s, callback), ops, kind);
    }
  }

  /** A firing of another kind leaves a running timer exactly as it was. */
  lemma FireOtherRunning(env: Env, s: State, kind: Callback)
    requires EnvOk(env) && Good(env, s, None) && Due(env, s)
    requires kind != Client && EventSpares(env, s, RunTurn, kind) && OfKind(s.alarms, kind) != []
    requires s.alarms[Earliest(s.alarms)].callback != kind
    ensures SameTimer(s, Fire(env, s), kind)
  {
    var a := s.alarms[Earliest(s.alarms)];
    var s1 := Entered(env, s);
    var ops := env.script(s.tick);
    EnteredCounts(env, s, kind);
    DispatchOther(env, s1, a.callback, ops, kind);
    CallbackGood(env, s);
    RenewOther(env, Dispatch(env, s1, a.callback, ops), a, Now(env, s), kind);
  }
}
