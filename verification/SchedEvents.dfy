/**
 * The kernel entries that reach the scheduler, each as one atomic step, and the
 * whole-machine invariant over every run of them.
 */
module SchedEvents {
  import opened Lists
  import opened Options
  import opened SchedModel

  /** One kernel entry; the process on the CPU is the caller. */
  datatype Event<Id> =
    | Tick                       // timer interrupt
    | Yield                      // sched_force_yield
    | Create(id: Id, prio: int)  // proc_create, once a slot and its stack are reserved
    | Block(id: Id)              // proc_block
    | Unblock(id: Id)            // proc_unblock
    | Nice(id: Id, prio: int)    // proc_nice
    | Kill(id: Id)               // proc_kill of a process without living children
    | Exit                       // proc_exit of a process without living children
    | Reap(id: Id)               // collect_zombies releasing a slot

  /** `proc_block` on the caller, `proc_exit`, and `proc_kill` of the caller end in a forced yield. */
  predicate BlocksSelf<Id(==)>(m: Machine<Id>, e: Event<Id>) {
    && e.Block? && m.current == Some(e.id) && e.id != m.idle
    && e.id in m.procs && m.procs[e.id].st != Exited && m.procs[e.id].st != Blocked
  }

  predicate EndsSelf<Id(==)>(m: Machine<Id>, e: Event<Id>) {
    && m.current.Some? && m.current.value in m.procs && m.current.value != m.idle
    && (e.Exit? || (e == Kill(m.current.value) && m.procs[m.current.value].st != Ready))
  }

  /** Does the step run `schedule`? */
  predicate Schedules<Id(==)>(m: Machine<Id>, e: Event<Id>) {
    e.Tick? || e.Yield? || BlocksSelf(m, e) || EndsSelf(m, e)
  }

  /** The process on the CPU gives up the rest of its slice. */
  function Spent<Id(==)>(m: Machine<Id>): Machine<Id>
    requires m.current.Some? ==> m.current.value in m.procs
  {
    if m.current.None? then m
    else m.(procs := m.procs[m.current.value := m.procs[m.current.value].(ticks := 0)])
  }

  /** The machine as `schedule` finds it. */
  function Prep<Id(==)>(m: Machine<Id>, e: Event<Id>): Machine<Id>
    requires m.current.Some? ==> m.current.value in m.procs
  {
    if m.current.None? || e.Tick? then m
    else
      var c := m.current.value;
      var p := m.procs[c].(ticks := 0);
      if BlocksSelf(m, e) then m.(procs := m.procs[c := p.(st := Blocked)])
      else if EndsSelf(m, e) then m.(procs := m.procs[c := p.(st := Exited)])
      else m.(procs := m.procs[c := p])
  }

  /** The process with its new priority, out of its queue. */
  function NicedOut<Id(==)>(m: Machine<Id>, x: Id, np: int): (r: Machine<Id>)
    requires x in m.procs && |m.queues| == MAX_PRIOS
    ensures |r.queues| == MAX_PRIOS && r.procs.Keys == m.procs.Keys
  {
    var m2 := TakenOut(m.(procs := m.procs[x := m.procs[x].(base := np, aging := 0)]), x);
    m2.(procs := m2.procs[x := m2.procs[x].(prio := np)])
  }

  /** `proc_nice` */
  function Renice<Id(==)>(m: Machine<Id>, x: Id, prio: int): Machine<Id>
    requires Wf(m)
  {
    var np := Clamp(prio);
    if x !in m.procs || m.procs[x].prio == np then m
    else
      var m3 := NicedOut(m, x, np);
      // the caller is queued too, and its forced yield then finds no current process
      if m.procs[x].st == Ready || OnCpu(m, x) then Enqueue(m3, x) else m3
  }

  predicate OnCpu<Id(==)>(m: Machine<Id>, x: Id) {
    x in m.procs && m.procs[x].st == Running && m.current == Some(x)
  }

  /** A ready process leaves its queue; the running one becomes ready and clears `current`. */
  function TakenOut<Id(==)>(m: Machine<Id>, x: Id): (r: Machine<Id>)
    requires x in m.procs && |m.queues| == MAX_PRIOS
    ensures |r.queues| == MAX_PRIOS && r.procs.Keys == m.procs.Keys
  {
    if m.procs[x].st == Ready then Dequeue(m, x)
    else if OnCpu(m, x) then Dequeue(m.(procs := m.procs[x := m.procs[x].(st := Ready)]), x)
    else m
  }

  /** Taking another process off the ready queues and out of the running. */
  function Stop<Id(==)>(m: Machine<Id>, x: Id, st: ProcState): Machine<Id>
    requires Wf(m) && x in m.procs
  {
    var m1 := if m.procs[x].st == Ready then Dequeue(m, x) else m;
    m1.(procs := m1.procs[x := m1.procs[x].(st := st, ticks := 0)])
  }

  function Fresh(prio: int): Proc {
    Proc(Clamp(prio), Clamp(prio), New, TIME_SLICE_TICKS, 0)
  }

  /** `sched_init`: the idle process is created, taken off the ready queues, and given the CPU. */
  function Boot<Id(==)>(idle: Id): Machine<Id> {
    var made := Machine(map[idle := Fresh(MIN_PRIO)], [[], [], [], []], None, idle, false);
    var m := Dequeue(Enqueue(made, idle), idle);
    m.(procs := m.procs[idle := m.procs[idle].(st := Running, ticks := TIME_SLICE_TICKS)], current := Some(idle))
  }

  /** Starting the scheduler disturbs nothing. */
  lemma WfStart<Id>(m: Machine<Id>)
    requires Wf(m)
    ensures Wf(m.(enabled := true))
  {
    var m' := m.(enabled := true);
    forall l | 0 <= l < MAX_PRIOS ensures QueueOk(m', l) { assert QueueOk(m, l); }
    forall x | x in m.procs ensures ProcOk(m', x) { assert ProcOk(m, x); }
  }

  /** Once started, the machine satisfies the scheduler invariant, and no queue holds the idle process. */
  lemma BootOk<Id>(idle: Id)
    ensures Boot(idle) == Machine(map[idle := Proc(MIN_PRIO, MIN_PRIO, Running, TIME_SLICE_TICKS, 0)], [[], [], [], []], Some(idle), idle, false)
    ensures Wf(Boot(idle)) && Inv(Boot(idle).(enabled := true))
  {
    var m := Boot(idle).(enabled := true);
    assert m.queues == [[], [], [], []];
    forall l | 0 <= l < MAX_PRIOS ensures QueueOk(m, l) && QueueOk(Boot(idle), l) { assert m.queues[l] == []; }
    assert ProcOk(m, idle) && ProcOk(Boot(idle), idle);
  }

  /** The steps that do not switch process. */
  function Quiet<Id(==)>(m: Machine<Id>, e: Event<Id>): Machine<Id>
    requires Wf(m) && !e.Tick? && !e.Yield?
  {
    match e
    case Create(x, prio) =>
      if x in m.procs || |m.procs| >= MAX_PROCS then m
      else Enqueue(m.(procs := m.procs[x := Fresh(prio)]), x)
    case Block(x) =>
      if x !in m.procs || x == m.idle || m.procs[x].st == Exited || m.procs[x].st == Blocked || m.current == Some(x) then m
      else Stop(m, x, Blocked)
    case Unblock(x) =>
      if x in m.procs && m.procs[x].st == Blocked then
        Enqueue(m.(procs := m.procs[x := m.procs[x].(st := Ready, ticks := TIME_SLICE_TICKS, aging := 0)]), x)
      else m
    case Nice(x, prio) => Renice(m, x, prio)
    case Kill(x) =>
      if x !in m.procs || x == m.idle || (m.current == Some(x) && m.procs[x].st != Ready) then m
      else Stop(m, x, Exited)
    case Exit => m
    case Reap(x) =>
      if x in m.procs && m.procs[x].st == Exited && m.current != Some(x) then m.(procs := m.procs - {x}) else m
  }

  lemma WfPrep<Id>(m: Machine<Id>, e: Event<Id>)
    requires Wf(m) && Schedules(m, e)
    requires m.current.Some? ==> m.procs[m.current.value].st != Ready
    ensures Wf(Prep(m, e))
    ensures Prep(m, e).current == m.current && Prep(m, e).enabled == m.enabled && Prep(m, e).idle == m.idle
    ensures Prep(m, e).queues == m.queues
  {
    if m.current.Some? && !e.Tick? {
      var c := m.current.value;
      assert ProcOk(m, c);
      OthersRunning(m, m.current);
      var p := m.procs[c].(ticks := 0);
      WfSet(m, c, if BlocksSelf(m, e) then p.(st := Blocked) else if EndsSelf(m, e) then p.(st := Exited) else p, m.current);
    }
  }

  /** Nobody is `current` in a machine that runs. */
  ghost predicate Nobody<Id>(m: Machine<Id>) {
    Wf(m) && m.enabled && m.current.None?
  }

  function Step<Id(==)>(m: Machine<Id>, e: Event<Id>): Machine<Id>
    requires Inv(m) || Nobody(m)
  {
    WfPrep'(m, e);
    if Schedules(m, e) then Schedule(Prep(m, e)) else Quiet(m, e)
  }

  lemma WfPrep'<Id>(m: Machine<Id>, e: Event<Id>)
    requires Inv(m) || Nobody(m)
    ensures Schedules(m, e) ==> Wf(Prep(m, e))
    ensures Schedules(m, e) ==> Prep(m, e).current == m.current && Prep(m, e).enabled && Prep(m, e).idle == m.idle && Prep(m, e).queues == m.queues
  {
    if Schedules(m, e) { WfPrep(m, e); }
  }

  /** The one request the kernel does not survive: a process re-nicing itself. */
  predicate Allowed<Id(==)>(m: Machine<Id>, e: Event<Id>) {
    !(e.Nice? && m.current == Some(e.id) && e.id in m.procs && m.procs[e.id].prio != Clamp(e.prio))
  }

  lemma WfDequeue<Id>(m: Machine<Id>, x: Id, p: Proc)
    requires Wf(m) && x in m.procs && m.procs[x].st == Ready && m.current != Some(x)
    requires p.st != Ready && p.st != Running
    requires p.prio < HIGHEST_PRIO ==> p.aging < AGING_THRESHOLD
    requires 0 <= p.base <= p.prio <= HIGHEST_PRIO && 0 <= p.aging <= AGING_THRESHOLD && 0 <= p.ticks <= TIME_SLICE_TICKS
    ensures x != m.idle
    ensures var m1 := Dequeue(m, x); Wf(m1.(procs := m1.procs[x := p]))
  {
    assert ProcOk(m, x);
    var m1 := Dequeue(m, x);
    var m' := m1.(procs := m1.procs[x := p]);
    assert m'.procs.Keys == m.procs.Keys;
    assert |m'.procs| == |m'.procs.Keys| == |m.procs|;
    var l := m.procs[x].prio;
    assert QueueOk(m, l);
    FilterNoDup(m.queues[l], y => y != x);
    forall y ensures y in Without(m.queues[l], x) <==> y in m.queues[l] && y != x {
      FilterIn(m.queues[l], y => y != x, y);
    }
    forall y | y in m'.procs ensures ProcOk(m', y) { assert ProcOk(m, y); }
    forall k | 0 <= k < MAX_PRIOS ensures QueueOk(m', k) {
      assert QueueOk(m, k);
      forall y | y in m'.queues[k]
        ensures y in m'.procs && y != m'.idle && m'.procs[y].st == Ready && m'.procs[y].prio == k
      {
        if k == l { FilterIn(m.queues[l], z => z != x, y); }
        assert y in m.queues[k] && y != x;
      }
    }
  }

  /** The scheduler invariant survives every allowed step. */
  lemma InvStep<Id>(m: Machine<Id>, e: Event<Id>)
    requires Inv(m) && Allowed(m, e)
    ensures Inv(Step(m, e))
  {
    assert ProcOk(m, m.current.value);
    if Schedules(m, e) {
      WfPrep(m, e);
      InvSchedule(Prep(m, e));
    } else {
      InvQuiet(m, e);
    }
  }

  /** A step that does not switch process keeps the machine well-formed and the invariant if it holds. */
  ghost predicate Keeps<Id>(m: Machine<Id>, m': Machine<Id>) {
    Wf(m') && m'.current == m.current && m'.enabled == m.enabled && (Inv(m) ==> Inv(m'))
  }

  lemma InvQuiet<Id>(m: Machine<Id>, e: Event<Id>)
    requires (Inv(m) || Nobody(m)) && Allowed(m, e) && !Schedules(m, e)
    ensures Keeps(m, Quiet(m, e))
  {
    match e
    case Create(x, prio) => if x !in m.procs && |m.procs| < MAX_PROCS { InvCreate(m, x, prio); }
    case Block(x) => if x in m.procs && Quiet(m, e) != m { InvStop(m, x, Blocked); }
    case Unblock(x) => if x in m.procs && m.procs[x].st == Blocked { InvUnblock(m, x); }
    case Nice(x, prio) => InvRenice(m, x, prio);
    case Kill(x) => if x in m.procs && Quiet(m, e) != m { InvStop(m, x, Exited); }
    case Exit =>
    case Reap(x) => InvReap(m, x);
  }

  lemma InvCreate<Id>(m: Machine<Id>, x: Id, prio: int)
    requires Wf(m) && m.enabled && x !in m.procs && |m.procs| < MAX_PROCS
    ensures Keeps(m, Quiet(m, Create(x, prio)))
  {
    var m1 := m.(procs := m.procs[x := Fresh(prio)]);
    assert m1.procs.Keys == m.procs.Keys + {x};
    assert |m1.procs| == |m1.procs.Keys| <= MAX_PROCS;
    forall y | y in m1.procs ensures ProcOk(m1, y) { if y != x { assert ProcOk(m, y); } }
    forall l | 0 <= l < MAX_PRIOS ensures QueueOk(m1, l) { assert QueueOk(m, l); }
    WfEnqueue(m1, x);
  }

  lemma InvStop<Id>(m: Machine<Id>, x: Id, st: ProcState)
    requires Wf(m) && x in m.procs && x != m.idle && m.current != Some(x) && (st == Blocked || st == Exited)
    ensures Keeps(m, Stop(m, x, st))
  {
    assert ProcOk(m, x);
    var p := m.procs[x].(st := st, ticks := 0);
    if m.procs[x].st == Ready {
      WfDequeue(m, x, p);
    } else {
      OthersRunning(m, m.current);
      WfSet(m, x, p, m.current);
    }
  }

  lemma InvUnblock<Id>(m: Machine<Id>, x: Id)
    requires Wf(m) && m.enabled && x in m.procs && m.procs[x].st == Blocked
    ensures Keeps(m, Quiet(m, Unblock(x)))
  {
    assert ProcOk(m, x);
    WfJoin(m, x, m.procs[x].(st := Ready, ticks := TIME_SLICE_TICKS, aging := 0));
    var m1 := m.(procs := m.procs[x := m.procs[x].(st := Ready, ticks := TIME_SLICE_TICKS, aging := 0)]);
    assert m1.procs[x := m1.procs[x].(prio := Clamp(m1.procs[x].prio), st := Ready, ticks := TIME_SLICE_TICKS, aging := 0)] == m1.procs;
  }

  lemma InvRenice<Id>(m: Machine<Id>, x: Id, prio: int)
    requires Wf(m) && m.enabled && Allowed(m, Nice(x, prio))
    ensures Keeps(m, Renice(m, x, prio))
  {
    var np := Clamp(prio);
    if x in m.procs && m.procs[x].prio != np {
      assert ProcOk(m, x);
      assert m.current != Some(x);
      var p := m.procs[x].(base := np, aging := 0, prio := np);
      if m.procs[x].st == Ready {
        WfDequeue(m, x, p.(st := Blocked));
        var d := Dequeue(m, x);
        var m1 := m.(procs := m.procs[x := m.procs[x].(base := np, aging := 0)]);
        var m2 := TakenOut(m1, x);
        assert m2.queues == d.queues;
        var k := d.(procs := d.procs[x := p.(st := Blocked)]);
        var q := p.(st := Ready, ticks := TIME_SLICE_TICKS);
        WfJoin(k, x, q);
        assert k.procs[x := q] == m.procs[x := q];
        assert m2.procs[x := p][x := q] == m.procs[x := q];
      } else {
        OthersRunning(m, m.current);
        WfSet(m, x, p, m.current);
        assert m.procs[x := m.procs[x].(base := np, aging := 0)][x := p] == m.procs[x := p];
      }
    }
  }

  lemma InvReap<Id>(m: Machine<Id>, x: Id)
    requires Wf(m)
    ensures Keeps(m, Quiet(m, Reap(x)))
  {
    var m' := Quiet(m, Reap(x));
    if m' != m {
      assert m'.procs.Keys == m.procs.Keys - {x};
      assert |m'.procs| == |m'.procs.Keys| <= |m.procs.Keys| == |m.procs|;
      forall y | y in m'.procs ensures ProcOk(m', y) { assert ProcOk(m, y); }
      forall l | 0 <= l < MAX_PRIOS ensures QueueOk(m', l) { assert QueueOk(m, l); }
    }
  }

  // ---- proc_nice on the caller, and a request that is lost ----

  /** A process that re-nices itself: it sits in a ready queue while it runs, and nobody is `current`. */
  lemma SelfNice<Id>(m: Machine<Id>, prio: int)
    requires Inv(m) && m.current != Some(m.idle) && !Allowed(m, Nice(m.current.value, prio))
    ensures var x := m.current.value;
            var m' := Renice(m, x, prio);
            && Wf(m') && m'.enabled && m'.current.None? && x in m'.queues[Clamp(prio)]
            && Schedule(m') == m'
  {
    var x := m.current.value;
    var np := Clamp(prio);
    assert ProcOk(m, x);
    var p := m.procs[x].(base := np, aging := 0, st := Blocked, prio := np);
    OthersRunning(m, m.current);
    WfSet(m, x, m.procs[x].(st := Blocked), m.current);
    var k := m.(procs := m.procs[x := m.procs[x].(st := Blocked)]);
    forall y | y in k.procs && y != x && y != k.idle ensures k.procs[y].st != Running { assert ProcOk(k, y); }
    WfSet(k, x, p, None);
    var d := k.(procs := k.procs[x := p], current := None);
    var q := p.(st := Ready, ticks := TIME_SLICE_TICKS);
    WfJoin(d, x, q);
    var l := m.procs[x].prio;
    assert QueueOk(m, l);
    WithoutAbsent(m.queues[l], x);
    var m' := Renice(m, x, prio);
    assert m.queues[l := m.queues[l]] == m.queues;
    assert m' == Push(d.(procs := d.procs[x := q]), x) by {
      assert m'.procs == d.procs[x := q];
    }
  }

  /** Once nobody is `current`, no kernel entry of whatever kind makes anybody so. */
  lemma NobodyStep<Id>(m: Machine<Id>, e: Event<Id>)
    requires Nobody(m)
    ensures Nobody(Step(m, e))
  {
    if !Schedules(m, e) { InvQuiet(m, e); }
  }

  function RunOn<Id(==)>(m: Machine<Id>, es: seq<Event<Id>>): (r: Machine<Id>)
    requires Nobody(m)
    ensures Nobody(r)
    decreases |es|
  {
    if es == [] then m
    else
      NobodyStep(m, es[0]);
      RunOn(Step(m, es[0]), es[1..])
  }

  /** So after a process has re-niced itself, `schedule` does nothing at whatever later point it is called. */
  lemma SelfNiceForGood<Id>(m: Machine<Id>, prio: int, es: seq<Event<Id>>)
    requires Inv(m) && m.current != Some(m.idle) && !Allowed(m, Nice(m.current.value, prio))
    ensures var m' := Renice(m, m.current.value, prio);
            Nobody(m') && var r := RunOn(m', es); r.current.None? && Wf(r) && Schedule(r) == r
  {
    SelfNice(m, prio);
  }

  /** The caller's slice is used up when it yields. */
  lemma WfSpent<Id>(m: Machine<Id>)
    requires Wf(m) && m.current.Some?
    ensures Wf(Spent(m)) && m.current.value in m.procs
    ensures Spent(m) == m.(procs := m.procs[m.current.value := m.procs[m.current.value].(ticks := 0)])
  {
    var x := m.current.value;
    assert ProcOk(m, x);
    OthersRunning(m, m.current);
    WfSet(m, x, m.procs[x].(ticks := 0), m.current);
  }

  /** Whether or not it is allowed, a nice keeps the machine well-formed, and one of the caller leaves nobody on the CPU. */
  lemma AfterNice<Id>(m: Machine<Id>, x: Id, prio: int)
    requires Inv(m) && m.current != Some(m.idle) && x in m.procs && m.procs[x].prio != Clamp(prio)
    ensures Wf(Renice(m, x, prio)) && (OnCpu(m, x) ==> Renice(m, x, prio).current.None?)
  {
    WfRenice(m, x, prio);
    if OnCpu(m, x) { SelfNice(m, prio); }
  }

  lemma WfRenice<Id>(m: Machine<Id>, x: Id, prio: int)
    requires Inv(m) && m.current != Some(m.idle)
    ensures Wf(Renice(m, x, prio))
  {
    if Allowed(m, Nice(x, prio)) { InvRenice(m, x, prio); } else { SelfNice(m, prio); }
  }

  /** Before its new priority is set, a re-niced process is in no queue. */
  lemma OutOfQueues<Id>(m: Machine<Id>, x: Id, np: int)
    requires Inv(m) && x in m.procs && m.current != Some(m.idle)
    ensures var qs := TakenOut(m.(procs := m.procs[x := m.procs[x].(base := np, aging := 0)]), x).queues;
            forall l {:trigger qs[l]} | 0 <= l < MAX_PRIOS :: x !in qs[l]
  {
    assert ProcOk(m, x);
    var qs := TakenOut(m.(procs := m.procs[x := m.procs[x].(base := np, aging := 0)]), x).queues;
    forall l {:trigger qs[l]} | 0 <= l < MAX_PRIOS ensures x !in qs[l] {
      assert QueueOk(m, l);
      FilterIn(m.queues[l], y => y != x, x);
    }
  }

  /** `proc_nice` keeps the scheduler alive exactly when it is not the caller changing its own priority. */
  lemma NiceKeepsInv<Id>(m: Machine<Id>, x: Id, prio: int)
    requires Inv(m) && m.current != Some(m.idle)
    ensures Inv(Renice(m, x, prio)) <==> !(m.current == Some(x) && m.procs[x].prio != Clamp(prio))
  {
    if Allowed(m, Nice(x, prio)) {
      InvRenice(m, x, prio);
    } else {
      SelfNice(m, prio);
    }
  }

  /** The requested priority becomes the base priority unless aging has already lifted the process to just that level. */
  lemma NiceTakesEffect<Id>(m: Machine<Id>, x: Id, prio: int)
    requires Inv(m) && x in m.procs
    ensures x in Renice(m, x, prio).procs
    ensures Renice(m, x, prio).procs[x].base == Clamp(prio)
            <==> m.procs[x].prio != Clamp(prio) || m.procs[x].base == Clamp(prio)
  {
  }

  /** Such a process exists: base 1, lifted to 3; `nice 3` is then lost. */
  lemma NiceLost()
    ensures var m := Machine(map[0 := Proc(0, 0, Running, 0, 0), 1 := Proc(2, 2, Running, 3, 0), 2 := Proc(1, 3, Ready, 5, 0)],
                             [[], [], [], [2]], Some(1), 0, true);
            Inv(m) && Renice(m, 2, 3).procs[2].base == 1
  {
    var m := Machine(map[0 := Proc(0, 0, Running, 0, 0), 1 := Proc(2, 2, Running, 3, 0), 2 := Proc(1, 3, Ready, 5, 0)],
                     [[], [], [], [2]], Some(1), 0, true);
    assert m.procs.Keys == {0, 1, 2};
    assert |m.procs| == |m.procs.Keys| == 3;
    assert 2 in m.queues[3];
    forall x | x in m.procs ensures ProcOk(m, x) { assert x == 0 || x == 1 || x == 2; }
    forall l | 0 <= l < MAX_PRIOS ensures QueueOk(m, l) {}
    assert Wf(m);
  }
}
