/**
  The scheduler on linked nodes. Every method carries out the step of the state machine in
  Alarms.dfy of the same C function, on the view S(), and keeps the list a null-terminated chain
  of distinct nodes. The ghost sets account for the memory: every node ever allocated is either
  listed or freed, never both.
*/
module Scheduling {
  import opened TimeVals
  import opened Alarms
  import opened AlarmHistory
  import opened AlarmRuns

  class Node {
    var t: TimeVal
    var flags: nat
    var clientreg: nat
    var tLast: TimeVal
    var tNext: TimeVal
    var callback: Callback
    var next: Node?

    /** calloc: every field is zero. */
    constructor ()
      ensures t == tLast == tNext == ZERO && next == null
    {
      t, flags, clientreg := ZERO, 0, 0;
      tLast, tNext := ZERO, ZERO;
      callback, next := Client, null;
    }

    ghost function Value(): Alarm
      reads this
    {
      Alarm(clientreg, t, flags, tLast, tNext, callback)
    }
  }

  class Scheduler {
    const env: Env
    var thealarms: Node?
    var regnum: nat
    var startAlarms: bool
    ghost var itimer: Arming   // the last setitimer call, kept by the operating system
    var tick: nat
    var burst: Burst
    var query: Query

    ghost var nodes: seq<Node>
    ghost var alarms: seq<Alarm>
    ghost var log: seq<Entry>
    ghost var freed: set<Node>
    ghost var everAllocated: set<Node>

    ghost function At(i: nat): Node?
      reads this`nodes
    {
      if i < |nodes| then nodes[i] else null
    }

    /** The chain from thealarms is the sequence of nodes, and these hold the alarms of the view. */
    ghost predicate Linked()
      reads this`thealarms, this`nodes, this`alarms, nodes
    {
      && |alarms| == |nodes|
      && (forall i, j :: 0 <= i < j < |nodes| ==> nodes[i] != nodes[j])
      && thealarms == At(0)
      && (forall i {:trigger nodes[i].next} :: 0 <= i < |nodes| ==> nodes[i].next == At(i + 1))
      && (forall i {:trigger nodes[i].Value()} {:trigger alarms[i]} :: 0 <= i < |nodes| ==> nodes[i].Value() == alarms[i])
    }

    /**
      * Every node ever allocated is listed or freed, and never both. The two sets only grow, so no
      * node is lost, and Free takes none twice.
      */
    ghost predicate Accounted()
      reads this`nodes, this`freed, this`everAllocated
    {
      InBalance(nodes, freed, everAllocated)
    }

    static ghost predicate InBalance(nodes: seq<Node>, freed: set<Node>, everAllocated: set<Node>) {
      && (forall i :: 0 <= i < |nodes| ==> nodes[i] !in freed)
      && (forall n :: n in everAllocated ==> n in freed || n in nodes)
      && (forall n :: n in freed ==> n in everAllocated)
      && (forall n :: n in nodes ==> n in everAllocated)
    }

    ghost predicate Valid()
      reads this`thealarms, this`nodes, this`alarms, this`freed, this`everAllocated, nodes
    {
      Linked() && Accounted()
    }

    /** The state the real fields stand for. */
    ghost function S(): State
      reads this
    {
      State(alarms, regnum, startAlarms, itimer, tick, burst, query, log)
    }

    constructor (env: Env)
      ensures Valid() && S() == INITIAL && this.env == env && nodes == [] && everAllocated == {}
    {
      this.env := env;
      thealarms, regnum, startAlarms := null, 1, false;
      itimer, tick := Unarmed, 0;
      burst, query := Burst(0, 0, 0), Query(0, 0, 0, 0);
      nodes, alarms, log := [], [], [];
      freed, everAllocated := {}, {};
    }

    method GetTimeOfDay() returns (t: TimeVal)
      modifies this`tick
      ensures t == env.clock(old(tick)) && tick == old(tick) + 1
    {
      t := env.clock(tick);
      tick := tick + 1;
    }

    /** free: only a node that is out of the list and has not been freed before. */
    ghost method Free(n: Node)
      requires n !in freed && n !in nodes && n in everAllocated
      modifies this`freed
      ensures freed == old(freed) + {n}
    {
      freed := freed + {n};
    }

    // ---------------------------------------------------------------- sa_find_next, sa_find_specific

    method FindNext() returns (lowest: Node?)
      requires Valid()
      ensures lowest == if alarms == [] then null else nodes[Earliest(alarms)]
      ensures lowest != null ==> lowest !in freed
    {
      lowest := null;
      var a := thealarms;
      ghost var i := 0;
      while a != null
        invariant 0 <= i <= |nodes| && a == At(i)
        invariant lowest == if i == 0 then null else nodes[EarliestOf(alarms, i)]
        decreases |nodes| - i
      {
        if lowest == null {
          lowest := a;
        } else if a.tNext.sec == lowest.tNext.sec {
          if a.tNext.usec < lowest.tNext.usec {
            lowest := a;
          }
        } else if a.tNext.sec < lowest.tNext.sec {
          lowest := a;
        }
        a := a.next;
        i := i + 1;
      }
    }

    method FindSpecific(clientreg: nat) returns (a: Node?)
      requires Valid()
      ensures a == At(IndexOf(alarms, clientreg))
      ensures a != null ==> a !in freed
    {
      a := thealarms;
      ghost var i := 0;
      while a != null
        invariant 0 <= i <= |nodes| && a == At(i)
        invariant forall j :: 0 <= j < i ==> alarms[j].id != clientreg
        decreases |nodes| - i
      {
        assert a.Value() == alarms[i];
        if a.clientreg == clientreg {
          return;
        }
        a := a.next;
        i := i + 1;
      }
    }

    // ---------------------------------------------------------------- unregistering

    /** Take node i out of the chain through the link that leads to it: thealarms, or a field of its predecessor. */
    method Unlink(prev: Node?, a: Node, ghost i: nat)
      requires Linked() && i < |nodes| && a == nodes[i]
      requires prev == if i == 0 then null else nodes[i - 1]
      modifies this`thealarms, this`nodes, this`alarms, nodes
      ensures Linked() && alarms == DropAt(old(alarms), i)
      ensures nodes == old(nodes)[..i] + old(nodes)[i + 1..]
    {
      ghost var was := nodes;
      if prev == null {
        thealarms := a.next;
      } else {
        prev.next := a.next;
      }
      nodes := was[..i] + was[i + 1..];
      alarms := DropAt(alarms, i);
      Spliced(was, i);
      forall k | 0 <= k < |nodes|
        ensures nodes[k].next == At(k + 1) && nodes[k].Value() == alarms[k]
      {
        var m := if k < i then k else k + 1;
        assert was[m] == nodes[k] && old(was[m].Value()) == old(alarms)[m] && old(was[m].next) == old(At(m + 1));
      }
    }

    /** The sequence without its node i. */
    static lemma Spliced(was: seq<Node>, i: nat)
      requires i < |was| && forall j, k :: 0 <= j < k < |was| ==> was[j] != was[k]
      ensures var rest := was[..i] + was[i + 1..];
              && |rest| == |was| - 1
              && (forall k :: 0 <= k < |rest| ==> rest[k] == was[if k < i then k else k + 1])
              && (forall j, k :: 0 <= j < k < |rest| ==> rest[j] != rest[k])
              && (forall n :: n in rest ==> n in was && n != was[i])
              && (forall n :: n in was && n != was[i] ==> n in rest)
    {
    }

    static lemma StillInBalance(was: seq<Node>, i: nat, freed: set<Node>, everAllocated: set<Node>)
      requires i < |was| && forall j, k :: 0 <= j < k < |was| ==> was[j] != was[k]
      requires InBalance(was, freed, everAllocated)
      ensures var rest := was[..i] + was[i + 1..];
              && InBalance(rest, freed + {was[i]}, everAllocated) && was[i] !in rest
              && (forall n :: n in rest ==> n in was)
    {
      Spliced(was, i);
    }

    /** The walk that looks for an id and remembers the link it came through. */
    method FindLink(clientreg: nat) returns (prev: Node?, a: Node?, ghost i: nat)
      requires Linked()
      ensures i == IndexOf(alarms, clientreg)
      ensures a == At(IndexOf(alarms, clientreg))
      ensures prev == if IndexOf(alarms, clientreg) == 0 then null else nodes[IndexOf(alarms, clientreg) - 1]
    {
      a := thealarms;
      prev := null;
      i := 0;
      while a != null && a.clientreg != clientreg
        invariant 0 <= i <= |nodes| && a == At(i)
        invariant prev == if i == 0 then null else nodes[i - 1]
        invariant forall j :: 0 <= j < i ==> alarms[j].id != clientreg
        decreases |nodes| - i
      {
        assert a.Value() == alarms[i];
        prev := a;
        a := a.next;
        i := i + 1;
      }
      assert a != null ==> a.Value() == alarms[i];
    }

    method Unregister(clientreg: nat)
      requires Valid()
      modifies this`thealarms, this`nodes, this`alarms, this`freed, nodes
      ensures Valid() && S() == UnregisterId(old(S()), clientreg)
      ensures forall n :: n in nodes ==> n in old(nodes)
      ensures old(freed) <= freed && everAllocated == old(everAllocated)
    {
      var prev, a, i := FindLink(clientreg);
      if a != null {
        ghost var was := nodes;
        Unlink(prev, a, i);
        StillInBalance(was, i, freed, everAllocated);
        Free(a);
      }
    }

    method UnregisterAll()
      requires Valid()
      modifies this
      ensures Valid() && S() == old(S()).(alarms := []) && nodes == []
      ensures freed == old(freed) + set n | n in old(nodes)
      ensures everAllocated == old(everAllocated)
    {
      var a := thealarms;
      ghost var was := nodes;
      ghost var i := 0;
      nodes, alarms := [], [];
      while a != null
        invariant 0 <= i <= |was| && a == if i < |was| then was[i] else null
        invariant nodes == [] && alarms == [] && everAllocated == old(everAllocated)
        invariant freed == old(freed) + set n | n in was[..i]
        invariant S() == old(S()).(alarms := [])
        decreases |was| - i
      {
        var tmp := a.next;
        assert a !in was[..i];
        assert was[..i + 1] == was[..i] + [a];
        Free(a);
        a := tmp;
        i := i + 1;
      }
      assert was[..i] == was;
      thealarms := null;
    }

    // ---------------------------------------------------------------- sa_update_entry

    /** Store both times of a listed node. */
    method SetTimes(a: Node, ghost i: nat, last: TimeVal, next: TimeVal)
      requires Valid() && i < |nodes| && nodes[i] == a
      modifies a`tLast, a`tNext, this`alarms
      ensures Valid() && alarms == old(alarms)[i := old(alarms)[i].(last := last, next := next)]
      ensures a.t == old(a.t) && a.flags == old(a.flags) && a.clientreg == old(a.clientreg)
    {
      assert a.Value() == alarms[i];
      a.tLast := last;
      a.tNext := next;
      alarms := alarms[i := a.Value()];
    }

    method UpdateEntry(a: Node, ghost i: nat)
      requires Valid() && i < |nodes| && nodes[i] == a
      modifies this`thealarms, this`nodes, this`alarms, this`freed, this`tick, nodes
      ensures Valid() && S() == Alarms.UpdateEntry(env, old(S()), i)
      ensures forall n :: n in nodes ==> n in old(nodes)
      ensures old(freed) <= freed && everAllocated == old(everAllocated)
      ensures old(alarms)[i].last == ZERO ==> nodes == old(nodes) && freed == old(freed)
    {
      assert a.Value() == alarms[i];
      if a.tLast.sec == 0 && a.tLast.usec == 0 {
        var now := GetTimeOfDay();
        var next := Carry(Sum(now, a.t));
        SetTimes(a, i, now, next);
      } else if a.tNext.sec == 0 && a.tNext.usec == 0 {
        if a.flags % 2 == 1 {
          if a.t.sec == 0 && a.t.usec == 0 {
            Unregister(a.clientreg);
          } else {
            var next := Carry(Sum(a.tLast, a.t));
            SetTimes(a, i, a.tLast, next);
          }
        } else {
          Unregister(a.clientreg);
        }
      }
    }

    // ---------------------------------------------------------------- the OS timer

    /** The id is 0, and the delay untouched, when nothing is listed. */
    method GetNextAlarmDelayTime() returns (id: nat, delta: TimeVal)
      requires Valid()
      modifies this`tick
      ensures alarms == [] ==> id == 0 && tick == old(tick)
      ensures alarms != [] ==>
                var a := alarms[Earliest(alarms)];
                && id == a.id && delta == Delay(a.next, env.clock(old(tick))) && tick == old(tick) + 1
    {
      id, delta := 0, ZERO;
      var a := FindNext();
      if a != null {
        assert a.Value() == alarms[Earliest(alarms)];
        var now := GetTimeOfDay();
        if now.sec > a.tNext.sec || (now.sec == a.tNext.sec && now.usec > a.tNext.usec) {
          delta := TimeVal(0, 1);
        } else {
          delta := Borrow(TimeVal(a.tNext.sec - now.sec, a.tNext.usec - now.usec));
        }
        id := a.clientreg;
      }
    }

    method SetAnAlarm()
      requires Valid()
      modifies this`tick, this`itimer
      ensures Valid() && S() == Alarms.SetAnAlarm(env, old(S()))
    {
      ghost var now := env.clock(tick);
      var id, delta := GetNextAlarmDelayTime();
      if id != 0 {
        itimer := Armed(id, delta, now);
      }
    }

    // ---------------------------------------------------------------- registering

    /** Hang a detached node after the last one. */
    method Link(a: Node)
      requires Linked() && a !in nodes && a.next == null
      modifies this`thealarms, this`nodes, this`alarms, nodes
      ensures Linked() && nodes == old(nodes) + [a]
      ensures a.Value() == old(a.Value()) && alarms == old(alarms) + [old(a.Value())]
    {
      if thealarms == null {
        thealarms := a;
      } else {
        var p := FindLast();
        p.next := a;
      }
      nodes := nodes + [a];
      alarms := alarms + [a.Value()];
      forall k | 0 <= k < |nodes| - 1
        ensures nodes[k].next == At(k + 1) && nodes[k].Value() == alarms[k]
      {
        assert nodes[k] == old(nodes)[k] && old(nodes[k].Value()) == old(alarms)[k] && old(nodes[k].next) == old(At(k + 1));
      }
    }

    static ghost function Attached(s: State, t: TimeVal, flags: nat, callback: Callback): State {
      s.(alarms := s.alarms + [Alarm(s.regnum, t, flags, ZERO, ZERO, callback)], regnum := s.regnum + 1)
    }

    /** Allocate a node, fill in everything but its times, and link it. */
    method Attach(t: TimeVal, flags: nat, callback: Callback) returns (a: Node)
      requires Valid()
      modifies this`thealarms, this`regnum, this`nodes, this`alarms, this`everAllocated, nodes
      ensures Valid() && fresh(a) && nodes == old(nodes) + [a]
      ensures alarms == old(alarms) + [Alarm(old(regnum), t, flags, ZERO, ZERO, callback)]
      ensures regnum == old(regnum) + 1
      ensures freed == old(freed) && everAllocated == old(everAllocated) + {a}
    {
      a := new Node();
      a.t, a.flags, a.callback, a.clientreg := t, flags, callback, regnum;
      regnum := regnum + 1;
      assert a.Value() == Alarm(old(regnum), t, flags, ZERO, ZERO, callback);
      Link(a);
      everAllocated := everAllocated + {a};
    }

    method FindLast() returns (p: Node)
      requires Linked() && thealarms != null
      ensures |nodes| > 0 && p == nodes[|nodes| - 1]
    {
      p := thealarms;
      ghost var i := 0;
      while p.next != null
        invariant 0 <= i < |nodes| && p == nodes[i]
        decreases |nodes| - i
      {
        p := p.next;
        i := i + 1;
      }
      assert nodes[i].next == null;
    }

    static ghost function Noted(env: Env, s: State, t: TimeVal, flags: nat, callback: Callback): State {
      var s1 := Alarms.UpdateEntry(env, Attached(s, t, flags, callback), |s.alarms|);
      s1.(log := s1.log + [Registered(s1.alarms[|s.alarms|])])
    }

    /** The times of a node that has not run yet: it stays where it is. */
    method FirstTimes(a: Node, ghost i: nat)
      requires Valid() && i < |nodes| && nodes[i] == a && alarms[i].last == ZERO
      modifies this`thealarms, this`nodes, this`alarms, this`freed, this`tick, nodes
      ensures Valid() && S() == Alarms.UpdateEntry(env, old(S()), i)
      ensures nodes == old(nodes) && a.clientreg == alarms[i].id
      ensures freed == old(freed) && everAllocated == old(everAllocated)
    {
      UpdateEntry(a, i);
      assert a.Value() == alarms[i];
    }

    /** A node with its first deadline, before the OS timer is set. */
    method Enter(t: TimeVal, flags: nat, callback: Callback) returns (a: Node)
      requires Valid()
      modifies this, nodes
      ensures Valid() && S() == Noted(env, old(S()), t, flags, callback)
      ensures fresh(a) && a.clientreg == old(regnum) && nodes == old(nodes) + [a]
      ensures unchanged(`freed) && everAllocated == old(everAllocated) + {a}
    {
      ghost var i := |nodes|;
      ghost var s := S();
      a := Attach(t, flags, callback);
      assert S() == Attached(s, t, flags, callback);
      FirstTimes(a, i);
      Note(i);
    }

    ghost method Note(i: nat)
      requires Valid() && i < |alarms|
      modifies this`log
      ensures Valid() && S() == old(S()).(log := old(log) + [Registered(old(alarms)[i])])
    {
      log := log + [Registered(alarms[i])];
    }

    method Append(t: TimeVal, flags: nat, callback: Callback) returns (id: nat)
      requires Valid()
      modifies this, nodes
      ensures Valid() && S() == Alarms.Append(env, old(S()), t, flags, callback)
      ensures id == old(regnum)
      ensures forall n :: n in nodes ==> n in old(nodes) || fresh(n)
      ensures old(freed) <= freed && old(everAllocated) <= everAllocated
    {
      var a := Enter(t, flags, callback);
      id := a.clientreg;
      if startAlarms {
        SetAnAlarm();
      }
    }

    /** An interval of 0 seconds stands for the half second of a burst. */
    method Register(when: nat, flags: nat, callback: Callback) returns (id: nat)
      requires Valid()
      modifies this, nodes
      ensures Valid() && S() == Alarms.Append(env, old(S()), Interval(when), flags, callback)
      ensures id == old(regnum)
      ensures forall n :: n in nodes ==> n in old(nodes) || fresh(n)
      ensures old(freed) <= freed && old(everAllocated) <= everAllocated
    {
      if when == 0 {
        id := Append(TimeVal(0, UNIT_BURST), flags, callback);
      } else {
        id := Append(TimeVal(when, 0), flags, callback);
      }
    }

    method BroadcastTimerStart()
      requires Valid()
      modifies this, nodes
      ensures Valid() && S() == Step(env, old(S()), StartBurst)
      ensures forall n :: n in nodes ==> n in old(nodes) || fresh(n)
      ensures old(freed) <= freed && old(everAllocated) <= everAllocated
    {
      var id := Register(0, SA_REPEAT, BurstTimer);
      burst := burst.(handle := id);
    }

    method QueryServerTimer()
      requires Valid()
      modifies this, nodes
      ensures Valid() && S() == Step(env, old(S()), StartQuery)
      ensures forall n :: n in nodes ==> n in old(nodes) || fresh(n)
      ensures old(freed) <= freed && old(everAllocated) <= everAllocated
    {
      var id := Register(FIRST_PERIOD, SA_REPEAT, QueryTimer);
      query := query.(handle := id);
    }

    method InitAlarmPostConfig()
      requires Valid()
      modifies this
      ensures Valid() && S() == Happen(env, old(S()), Init) && nodes == old(nodes)
      ensures freed == old(freed) && everAllocated == old(everAllocated)
    {
      startAlarms := true;
      SetAnAlarm();
    }

    // ---------------------------------------------------------------- callbacks

    /** One call made by client code. */
    method Perform(op: Op)
      requires Valid()
      modifies this, nodes
      ensures Valid() && S() == Step(env, old(S()), op)
      ensures forall n :: n in nodes ==> n in old(nodes) || fresh(n)
      ensures old(freed) <= freed && old(everAllocated) <= everAllocated
    {
      match op
      case Register(when, flags) => var _ := Register(when, flags, Client);
      case RegisterHr(t, flags) => var _ := Append(t, flags, Client);
      case Unregister(id) => Unregister(id);
      case UnregisterAll => UnregisterAll();
      case StartBurst => BroadcastTimerStart();
      case StartQuery => QueryServerTimer();
      case StopQuery => Unregister(query.handle);
    }

    /** A client function: any list of calls. */
    method CallClient(ops: seq<Op>)
      requires Valid()
      modifies this, nodes
      ensures Valid() && S() == Steps(env, old(S()), ops)
      ensures forall n :: n in nodes ==> n in old(nodes) || fresh(n)
      ensures old(freed) <= freed && old(everAllocated) <= everAllocated
    {
      var k := 0;
      while k < |ops|
        invariant 0 <= k <= |ops| && Valid()
        invariant Steps(env, S(), ops[k..]) == Steps(env, old(S()), ops)
        invariant forall n :: n in nodes ==> n in old(nodes) || fresh(n)
        invariant old(freed) <= freed && old(everAllocated) <= everAllocated
      {
        assert ops[k..][0] == ops[k] && ops[k..][1..] == ops[k + 1..];
        Perform(ops[k]);
        k := k + 1;
      }
    }

    method BroadcastTimerProc(ops: seq<Op>)
      requires Valid()
      modifies this, nodes
      ensures Valid() && S() == Dispatch(env, old(S()), BurstTimer, ops)
      ensures forall n :: n in nodes ==> n in old(nodes) || fresh(n)
      ensures old(freed) <= freed && old(everAllocated) <= everAllocated
    {
      if burst.time < BURST_CALLS {
        CallClient(ops);
        burst := burst.(time := burst.time + 1, calls := burst.calls + 1);
      } else {
        Unregister(burst.handle);
        burst := burst.(time := 0);
      }
    }

    /** The next table entry becomes the interval. */
    method AdvancePeriod()
      requires query.interval < LAST_PERIOD
      modifies this`query
      ensures S() == NextPeriod(old(S()))
    {
      TableEntry(query.count);
      var period := PERIODS[query.count];
      query := query.(interval := period, count := query.count + 1);
    }

    /** The back-off step: the next period, under a new id. */
    method Reschedule()
      requires Valid() && query.interval < LAST_PERIOD
      modifies this, nodes
      ensures Valid() && S() == Prepare(env, old(S()), QueryTimer)
      ensures forall n :: n in nodes ==> n in old(nodes) || fresh(n)
      ensures old(freed) <= freed && old(everAllocated) <= everAllocated
    {
      Unregister(query.handle);
      AdvancePeriod();
      RegisterQuery();
    }

    /** Register the timer for the current interval, and keep its id. */
    method RegisterQuery()
      requires Valid()
      modifies this, nodes
      ensures Valid() && S() == Alarms.RegisterQuery(env, old(S()), old(query.interval))
      ensures forall n :: n in nodes ==> n in old(nodes) || fresh(n)
      ensures old(freed) <= freed && old(everAllocated) <= everAllocated
    {
      var id := Register(query.interval, SA_REPEAT, QueryTimer);
      query := query.(handle := id);
    }

    method MdyQueryServerTimer(ops: seq<Op>)
      requires Valid()
      modifies this, nodes
      ensures Valid() && S() == Dispatch(env, old(S()), QueryTimer, ops)
      ensures forall n :: n in nodes ==> n in old(nodes) || fresh(n)
      ensures old(freed) <= freed && old(everAllocated) <= everAllocated
    {
      if query.interval < LAST_PERIOD {
        Reschedule();
      }
      CallClient(ops);
      query := query.(calls := query.calls + 1);
    }

    /** The call through the function pointer of a node. */
    method CallBack(callback: Callback, ops: seq<Op>)
      requires Valid()
      modifies this, nodes
      ensures Valid() && S() == Dispatch(env, old(S()), callback, ops)
      ensures forall n :: n in nodes ==> n in old(nodes) || fresh(n)
      ensures old(freed) <= freed && old(everAllocated) <= everAllocated
    {
      match callback
      case Client => CallClient(ops);
      case BurstTimer => BroadcastTimerProc(ops);
      case QueryTimer => MdyQueryServerTimer(ops);
    }

    // ---------------------------------------------------------------- run_alarms

    /** Call the alarm that was found due; afterwards look it up again by its id. */
    method Call(a: Node, now: TimeVal, ghost s: State)
      requires Valid() && Due(env, s) && S() == s.(tick := s.tick + 1)
      requires a == nodes[Earliest(alarms)] && now == Now(env, s)
      modifies this, nodes
      ensures Valid() && S() == Fire(env, s)
      ensures forall n :: n in nodes ==> n in old(nodes) || fresh(n)
      ensures old(freed) <= freed && old(everAllocated) <= everAllocated
    {
      assert a.Value() == alarms[Earliest(alarms)];
      var clientreg := a.clientreg;
      log := log + [Fired(a.Value(), now)];
      assert S() == Entered(env, s);
      ghost var callback := a.callback;
      CallBack(a.callback, env.script(tick - 1));
      assert S() == Dispatch(env, Entered(env, s), callback, env.script(s.tick));
      Reset(clientreg, now);
      assert S() == Renew(env, Dispatch(env, Entered(env, s), callback, env.script(s.tick)), clientreg, now);
    }

    method Reset(clientreg: nat, now: TimeVal)
      requires Valid()
      modifies this, nodes
      ensures Valid() && S() == Renew(env, old(S()), clientreg, now)
      ensures forall n :: n in nodes ==> n in old(nodes)
      ensures old(freed) <= freed && old(everAllocated) <= everAllocated
    {
      var a := FindSpecific(clientreg);
      if a != null {
        ghost var i := IndexOf(alarms, clientreg);
        SetTimes(a, i, now, ZERO);
        UpdateEntry(a, i);
      }
    }

    /** One turn of the loop: nothing more to do if the list is empty or its first deadline is not past. */
    method OneTurn() returns (done: bool)
      requires Valid()
      modifies this, nodes
      ensures Valid() && S() == Turn(env, old(S())) && done == !Due(env, old(S()))
      ensures forall n :: n in nodes ==> n in old(nodes) || fresh(n)
      ensures old(freed) <= freed && old(everAllocated) <= everAllocated
    {
      ghost var s := S();
      var a := FindNext();
      if a == null {
        return true;
      }
      assert a.Value() == alarms[Earliest(alarms)];
      var now := GetTimeOfDay();
      done := true;
      if a.tNext.sec < now.sec || (a.tNext.sec == now.sec && a.tNext.usec < now.usec) {
        Call(a, now, s);
        done := false;
      }
    }

    method RunAlarms(ghost limit: int)
      requires Valid() && EnvOk(env) && Good(env, S(), None) && Bounded(env, limit)
      modifies this, nodes
      ensures Valid() && S() == Run(env, old(S()), limit)
      ensures forall n :: n in nodes ==> n in old(nodes) || fresh(n)
      ensures old(freed) <= freed && old(everAllocated) <= everAllocated
    {
      var done := false;
      ghost var whole, s := Run(env, S(), limit), S();
      while !done
        invariant Valid() && s == S()
        invariant if done then s == whole else Good(env, s, None) && Run(env, s, limit) == whole
        invariant forall n :: n in nodes ==> n in old(nodes) || fresh(n)
        invariant old(freed) <= freed && old(everAllocated) <= everAllocated
        decreases !done, limit - Micros(Now(env, s)), DueIds(s.alarms, Now(env, s))
      {
        RunUnfolds(env, s, limit);
        done := OneTurn();
        s := S();
      }
    }

    method AlarmHandler(ghost limit: int)
      requires Valid() && EnvOk(env) && Good(env, S(), None) && Bounded(env, limit)
      modifies this, nodes
      ensures Valid() && S() == Alarms.SetAnAlarm(env, Run(env, old(S()), limit))
      ensures forall n :: n in nodes ==> n in old(nodes) || fresh(n)
      ensures old(freed) <= freed && old(everAllocated) <= everAllocated
    {
      RunAlarms(limit);
      SetAnAlarm();
    }

    // ---------------------------------------------------------------- histories

    method PlayOne(e: Event)
      requires Valid()
      modifies this, nodes
      ensures Valid() && S() == Happen(env, old(S()), e)
      ensures forall n :: n in nodes ==> n in old(nodes) || fresh(n)
      ensures old(freed) <= freed && old(everAllocated) <= everAllocated
    {
      match e
      case Init => InitAlarmPostConfig();
      case Call(op) => Perform(op);
      case Rearm => SetAnAlarm();
      case RunTurn => var _ := OneTurn();
    }

    /** Any list of events, played on the linked nodes, does what the state machine says. */
    method Play(events: seq<Event>)
      requires Valid()
      modifies this, nodes
      ensures Valid() && S() == Exec(env, old(S()), events)
      ensures forall n :: n in nodes ==> n in old(nodes) || fresh(n)
      ensures old(freed) <= freed && old(everAllocated) <= everAllocated
    {
      var k := 0;
      while k < |events|
        invariant 0 <= k <= |events| && Valid()
        invariant Exec(env, S(), events[k..]) == Exec(env, old(S()), events)
        invariant forall n :: n in nodes ==> n in old(nodes) || fresh(n)
        invariant old(freed) <= freed && old(everAllocated) <= everAllocated
      {
        assert events[k..][0] == events[k] && events[k..][1..] == events[k + 1..];
        PlayOne(events[k]);
        k := k + 1;
      }
    }
  }
}
