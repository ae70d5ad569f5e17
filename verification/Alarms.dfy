/**
  The alarm scheduler as a state machine over values. Every function follows one C function of
  src/timer.c; the class in Scheduler.dfy carries the same steps out on linked nodes.

  Two oracles stand for what the program cannot choose: the clock, indexed by the number of
  times it has been read, and the client code, a list of scheduler calls for every firing.
  Both are arbitrary functions, so a statement about all of them covers every behaviour.
*/
module Alarms {
  import opened TimeVals

  const UNIT_BURST := 500_000      // TIMER_UNIT_UDP_BROUDCAST, in microseconds
  const SA_REPEAT: nat := 1
  const BURST_CALLS := 4
  const FIRST_PERIOD: nat := 10
  const LAST_PERIOD: nat := 120
  const PERIOD_STEP: nat := 20
  const TABLE_SIZE: nat := 6
  const PERIODS: seq<nat> := [20, 40, 60, 80, 100, 120]   // query_timer_interval

  /** The functions an alarm can point at: the two built-in timers, or any other client code. */
  datatype Callback = Client | BurstTimer | QueryTimer

  /** One list node, without its link. */
  datatype Alarm = Alarm(id: nat, t: TimeVal, flags: nat, last: TimeVal, next: TimeVal, callback: Callback)
  {
    predicate Repeats() { flags % 2 == 1 }

    /** Whether run_alarms keeps the alarm after it has fired. */
    predicate Renews() { Repeats() && t != ZERO }
  }

  /** The calls client code can make, from outside or from inside a callback. */
  datatype Op =
    | Register(when: nat, flags: nat)
    | RegisterHr(t: TimeVal, flags: nat)
    | Unregister(id: nat)
    | UnregisterAll
    | StartBurst
    | StartQuery
    | StopQuery

  datatype Env = Env(clock: nat -> TimeVal, script: nat -> seq<Op>)

  /** What the scheduler has done so far; `alarm` is the node as it was at that moment. */
  datatype Entry = Registered(alarm: Alarm) | Fired(alarm: Alarm, at: TimeVal)

  /** The last setitimer call. */
  datatype Arming = Unarmed | Armed(id: nat, delay: TimeVal, at: TimeVal)

  /** handle_t[0], the static counter of the burst callback, and the client calls it has made. */
  datatype Burst = Burst(handle: nat, time: nat, calls: nat)

  /** handle_t[1], the static interval, timer_count, and the client calls made. */
  datatype QueryFields = Query(handle: nat, interval: nat, count: nat, calls: nat)

  /** The interval follows the count, so the guard on the one keeps the other below the table size. */
  type Query = q: QueryFields | q.interval == PERIOD_STEP * q.count <= LAST_PERIOD
    witness Query(0, 0, 0, 0)

  datatype State = State(
    alarms: seq<Alarm>, regnum: nat, started: bool, itimer: Arming, tick: nat,
    burst: Burst, query: Query, log: seq<Entry>)

  const INITIAL := State([], 1, false, Unarmed, 0, Burst(0, 0, 0), Query(0, 0, 0, 0), [])

  /** The next reading of the clock. */
  function Now(env: Env, s: State): TimeVal {
    env.clock(s.tick)
  }

  // ---------------------------------------------------------------- searching and unlinking

  /** The position of the first alarm with this id, or the length of the list. */
  function IndexOf(alarms: seq<Alarm>, id: nat): (i: nat)
    ensures i <= |alarms|
    ensures i < |alarms| ==> alarms[i].id == id
    ensures forall j :: 0 <= j < i ==> alarms[j].id != id
  {
    IndexFrom(alarms, id, 0)
  }

  function IndexFrom(alarms: seq<Alarm>, id: nat, from: nat): (i: nat)
    requires from <= |alarms|
    ensures from <= i <= |alarms|
    ensures i < |alarms| ==> alarms[i].id == id
    ensures forall j :: from <= j < i ==> alarms[j].id != id
    decreases |alarms| - from
  {
    if from == |alarms| || alarms[from].id == id then from else IndexFrom(alarms, id, from + 1)
  }

  function DropAt(alarms: seq<Alarm>, i: nat): seq<Alarm>
    requires i < |alarms|
  {
    alarms[..i] + alarms[i + 1..]
  }

  function Remove(alarms: seq<Alarm>, id: nat): seq<Alarm> {
    var i := IndexOf(alarms, id);
    if i < |alarms| then DropAt(alarms, i) else alarms
  }

  /** The earliest deadline; the first such alarm if there are several. */
  function Earliest(alarms: seq<Alarm>): (i: nat)
    requires alarms != []
    ensures i < |alarms|
    ensures forall j :: 0 <= j < |alarms| ==> !Before(alarms[j].next, alarms[i].next)
    ensures forall j :: 0 <= j < i ==> Before(alarms[i].next, alarms[j].next)
  {
    EarliestOf(alarms, |alarms|)
  }

  /** The same among the first n alarms, in the order the scan visits them. */
  function EarliestOf(alarms: seq<Alarm>, n: nat): (i: nat)
    requires 0 < n <= |alarms|
    ensures i < n
    ensures forall j :: 0 <= j < n ==> !Before(alarms[j].next, alarms[i].next)
    ensures forall j :: 0 <= j < i ==> Before(alarms[i].next, alarms[j].next)
  {
    if n == 1 then 0
    else
      var k := EarliestOf(alarms, n - 1);
      if Before(alarms[n - 1].next, alarms[k].next) then n - 1 else k
  }

  // ---------------------------------------------------------------- one alarm's times

  /** sa_update_entry on the alarm at position i. */
  function UpdateEntry(env: Env, s: State, i: nat): State
    requires i < |s.alarms|
  {
    var a := s.alarms[i];
    if a.last == ZERO then
      var now := Now(env, s);
      s.(tick := s.tick + 1,
         alarms := s.alarms[i := a.(last := now, next := Carried(Sum(now, a.t)))])
    else if a.next == ZERO then
      if a.Repeats() then
        if a.t == ZERO then s.(alarms := Remove(s.alarms, a.id))
        else s.(alarms := s.alarms[i := a.(next := Carried(Sum(a.last, a.t)))])
      else s.(alarms := Remove(s.alarms, a.id))
    else s
  }

  /** What run_alarms does with the alarm it has just called, if that is still listed. */
  function Renew(env: Env, s: State, id: nat, now: TimeVal): State {
    var i := IndexOf(s.alarms, id);
    if i == |s.alarms| then s
    else
      UpdateEntry(env, s.(alarms := s.alarms[i := s.alarms[i].(last := now, next := ZERO)]), i)
  }

  // ---------------------------------------------------------------- the OS timer

  /** The delay get_next_alarm_delay_time computes for a deadline. */
  function Delay(next: TimeVal, now: TimeVal): TimeVal {
    if Before(next, now) then TimeVal(0, 1)
    else Borrowed(TimeVal(next.sec - now.sec, next.usec - now.usec))
  }

  /** set_an_alarm: an id of 0 counts as "no alarm". */
  function SetAnAlarm(env: Env, s: State): State {
    if s.alarms == [] then s
    else
      var a := s.alarms[Earliest(s.alarms)];
      var s' := s.(tick := s.tick + 1);
      if a.id == 0 then s' else s'.(itimer := Armed(a.id, Delay(a.next, Now(env, s)), Now(env, s)))
  }

  // ---------------------------------------------------------------- the client calls

  /** The interval snmp_alarm_register stores for a number of seconds. */
  function Interval(when: nat): TimeVal {
    if when == 0 then TimeVal(0, UNIT_BURST) else TimeVal(when, 0)
  }

  /** Both registration functions: append a zeroed node, fill it in, set its times, arm the timer. */
  function Append(env: Env, s: State, t: TimeVal, flags: nat, callback: Callback): State {
    var n := |s.alarms|;
    var a := Alarm(s.regnum, t, flags, ZERO, ZERO, callback);
    var s1 := UpdateEntry(env, s.(alarms := s.alarms + [a], regnum := s.regnum + 1), n);
    var s2 := s1.(log := s1.log + [Registered(s1.alarms[n])]);
    if s2.started then SetAnAlarm(env, s2) else s2
  }

  function UnregisterId(s: State, id: nat): State {
    s.(alarms := Remove(s.alarms, id))
  }

  /** Both places that register the query timer store its id in the handle. */
  function RegisterQuery(env: Env, s: State, period: nat): State {
    var s' := Append(env, s, Interval(period), SA_REPEAT, QueryTimer);
    s'.(query := s'.query.(handle := s.regnum))
  }

  /** One client call. The handle is stored after the registration has returned. */
  function Step(env: Env, s: State, op: Op): State {
    match op
    case Register(when, flags) => Append(env, s, Interval(when), flags, Client)
    case RegisterHr(t, flags) => Append(env, s, t, flags, Client)
    case Unregister(id) => UnregisterId(s, id)
    case UnregisterAll => s.(alarms := [])
    case StartBurst =>
      var s' := Append(env, s, Interval(0), SA_REPEAT, BurstTimer);
      s'.(burst := s'.burst.(handle := s.regnum))
    case StartQuery => RegisterQuery(env, s, FIRST_PERIOD)
    case StopQuery => UnregisterId(s, s.query.handle)
  }

  function Steps(env: Env, s: State, ops: seq<Op>): State
    decreases |ops|
  {
    if ops == [] then s else Steps(env, Step(env, s, ops[0]), ops[1..])
  }

  // ---------------------------------------------------------------- firing

  /** What a callback does before it reaches the client function. */
  function Prepare(env: Env, s: State, callback: Callback): State {
    match callback
    case Client => s
    case BurstTimer =>
      if s.burst.time < BURST_CALLS then s
      else
        var s' := UnregisterId(s, s.burst.handle);
        s'.(burst := s'.burst.(time := 0))
    case QueryTimer =>
      if s.query.interval < LAST_PERIOD then
        var s' := NextPeriod(UnregisterId(s, s.query.handle));
        RegisterQuery(env, s', s'.query.interval)
      else s
  }

  lemma TableEntry(k: nat)
    requires k < TABLE_SIZE
    ensures |PERIODS| == TABLE_SIZE && PERIODS[k] == PERIOD_STEP * (k + 1)
  {
  }

  /** The static interval moves to the next table entry. */
  function NextPeriod(s: State): (s': State)
    requires s.query.interval < LAST_PERIOD
    ensures s'.query.interval >= FIRST_PERIOD && s'.query.count == s.query.count + 1
    ensures s' == s.(query := s'.query) && s'.query.handle == s.query.handle && s'.query.calls == s.query.calls
  {
    TableEntry(s.query.count);
    var period := PERIODS[s.query.count];
    s.(query := s.query.(interval := period, count := s.query.count + 1))
  }

  /** The burst callback skips its client function on the closing firing. */
  predicate CallsClient(s: State, callback: Callback) {
    callback.BurstTimer? ==> s.burst.time < BURST_CALLS
  }

  /** What a callback does after its client function has returned. */
  function Conclude(s: State, callback: Callback): State {
    match callback
    case Client => s
    case BurstTimer => s.(burst := s.burst.(time := s.burst.time + 1, calls := s.burst.calls + 1))
    case QueryTimer => s.(query := s.query.(calls := s.query.calls + 1))
  }

  /** The whole callback, around the client calls it makes. */
  function Dispatch(env: Env, s: State, callback: Callback, ops: seq<Op>): State {
    var s1 := Prepare(env, s, callback);
    if CallsClient(s, callback) then Conclude(Steps(env, s1, ops), callback) else s1
  }

  /** Whether the next turn of the loop in run_alarms would call somebody. */
  predicate Due(env: Env, s: State) {
    s.alarms != [] && Before(s.alarms[Earliest(s.alarms)].next, Now(env, s))
  }

  /** The moment the callback is entered. */
  function Entered(env: Env, s: State): State
    requires Due(env, s)
  {
    var a := s.alarms[Earliest(s.alarms)];
    s.(tick := s.tick + 1, log := s.log + [Fired(a, Now(env, s))])
  }

  /** A turn of the loop in run_alarms that finds something due. */
  function Fire(env: Env, s: State): State
    requires Due(env, s)
  {
    var a := s.alarms[Earliest(s.alarms)];
    Renew(env, Dispatch(env, Entered(env, s), a.callback, env.script(s.tick)), a.id, Now(env, s))
  }

  /** Any turn of that loop: an empty list is left without reading the clock. */
  function Turn(env: Env, s: State): State {
    if s.alarms == [] then s
    else if Due(env, s) then Fire(env, s)
    else s.(tick := s.tick + 1)
  }

  // ---------------------------------------------------------------- histories

  /** init_alarm_post_config, a client call, set_an_alarm, or one turn of run_alarms. */
  datatype Event = Init | Call(op: Op) | Rearm | RunTurn

  function Happen(env: Env, s: State, e: Event): State {
    match e
    case Init => SetAnAlarm(env, s.(started := true))
    case Call(op) => Step(env, s, op)
    case Rearm => SetAnAlarm(env, s)
    case RunTurn => Turn(env, s)
  }

  function Exec(env: Env, s: State, events: seq<Event>): State
    decreases |events|
  {
    if events == [] then s else Exec(env, Happen(env, s, events[0]), events[1..])
  }
}
