/** No ready process waits for ever: a bound in scheduling decisions and in calls of `schedule`. */
module Starvation {
  import opened Fairness
  import opened Lists
  import opened Options
  import opened SchedEvents
  import opened SchedModel

  /** Aging passes until a process below the top level reaches it. */
  function Climb(p: Proc): int {
    10 * (3 - p.prio) - p.aging
  }

  lemma ClimbAge(p: Proc)
    requires p.prio < HIGHEST_PRIO && p.aging < AGING_THRESHOLD
    ensures Climb(AgeProc(p)) == Climb(p) - 1
  {
  }

  /** Decisions still needed, at most: aging passes up to the top level, then the processes in front. */
  ghost function Distance<Id>(m: Machine<Id>, a: Id): int
    requires Wf(m) && Waiting(m, a) && a != m.idle
  {
    assert ProcOk(m, a);
    var p := m.procs[a];
    if p.prio == HIGHEST_PRIO then Pos(m.queues[HIGHEST_PRIO], a)
    else Climb(p) + MAX_PROCS - 2
  }

  lemma QueueShort<Id>(m: Machine<Id>, l: nat)
    requires Wf(m) && l < MAX_PRIOS
    ensures |m.queues[l]| <= MAX_PROCS - 1
  {
    assert QueueOk(m, l);
    NoDupBound(m.queues[l], m.procs.Keys - {m.idle});
    assert |m.procs.Keys - {m.idle}| == |m.procs.Keys| - 1;
    assert |m.procs.Keys| == |m.procs|;
  }

  lemma DistanceBounds<Id>(m: Machine<Id>, a: Id)
    requires Wf(m) && Waiting(m, a) && a != m.idle
    ensures 0 <= Distance(m, a) <= HIGHEST_PRIO * AGING_THRESHOLD + MAX_PROCS - 2
  {
    assert ProcOk(m, a);
    QueueShort(m, HIGHEST_PRIO);
  }

  lemma DistanceRequeue<Id>(m: Machine<Id>, a: Id)
    requires Wf(m) && Waiting(m, a) && a != m.idle && m.current.Some?
    ensures Wf(Requeue(m)) && Waiting(Requeue(m), a)
    ensures Distance(Requeue(m), a) == Distance(m, a)
  {
    WfRequeue(m);
    assert ProcOk(m, a);
    PosAppend(m.queues[HIGHEST_PRIO], [m.current.value], a);
  }

  /** An aging pass and the dispatch after it bring `a` nearer, or run it. */
  lemma DistanceDecide<Id>(m: Machine<Id>, a: Id)
    requires Wf(m) && Waiting(m, a) && a != m.idle && m.enabled
    requires m.current.Some? && (m.procs[m.current.value].st != Running || m.current.value == m.idle)
    requires Chosen(Age(m)) in Age(m).procs && Waiting(Dispatch(Age(m)), a)
    ensures Wf(Dispatch(Age(m)))
    ensures Distance(Dispatch(Age(m)), a) < Distance(m, a)
  {
    WfAge(m);
    WfDispatch(Age(m));
    assert ProcOk(m, a);
    var g := Age(m);
    assert ProcOk(g, a);
    var p := g.procs[a];
    var d := Dispatch(g);
    assert Chosen(g) != a;
    assert d.procs[a] == p;
    if p.prio == HIGHEST_PRIO {
      QueueShort(g, HIGHEST_PRIO);
      var q := g.queues[HIGHEST_PRIO];
      assert TopLevel(g.queues, HIGHEST_PRIO) == HIGHEST_PRIO;
      assert d.queues[HIGHEST_PRIO] == q[1..] && q[0] != a;
      assert Distance(d, a) == Pos(q, a) - 1;
      if m.procs[a].prio == HIGHEST_PRIO { TopLevelAging(m, a); }
    }
    if m.procs[a].prio < HIGHEST_PRIO { ClimbAge(m.procs[a]); }
  }

  /** Aging leaves the top queue in place and appends to it. */
  lemma TopLevelAging<Id>(m: Machine<Id>, a: Id)
    requires Wf(m) && a in m.queues[HIGHEST_PRIO]
    ensures a in Age(m).queues[HIGHEST_PRIO]
    ensures Pos(Age(m).queues[HIGHEST_PRIO], a) == Pos(m.queues[HIGHEST_PRIO], a)
  {
    var q := m.queues[HIGHEST_PRIO];
    assert QueueOk(m, HIGHEST_PRIO);
    FilterAll(q, Stays(m.procs));
    PosAppend(q, Filter(m.queues[HIGHEST_PRIO - 1], Rises(m.procs)), a);
    assert Age(m).queues[HIGHEST_PRIO] == AgedQueue(m.procs, m.queues, HIGHEST_PRIO);
  }

  /** Ticks left before the next decision, counted into the distance. */
  ghost function TickDistance<Id>(m: Machine<Id>, a: Id): int
    requires Inv(m) && Waiting(m, a) && a != m.idle
  {
    TIME_SLICE_TICKS * Distance(m, a) + m.procs[m.current.value].ticks
  }

  lemma DistanceSchedule<Id>(m: Machine<Id>, a: Id)
    requires Wf(m) && m.enabled && m.current.Some? && Waiting(m, a) && a != m.idle && Waiting(Schedule(m), a)
    ensures Inv(Schedule(m)) && Schedule(m).idle == m.idle
    ensures Decides(m) ==> Distance(Schedule(m), a) < Distance(m, a)
                           && Schedule(m).procs[Schedule(m).current.value].ticks == TIME_SLICE_TICKS
    ensures !Decides(m) ==> Distance(Schedule(m), a) == Distance(m, a) && Schedule(m).current == m.current
                            && Schedule(m).procs[m.current.value].ticks < m.procs[m.current.value].ticks
  {
    InvSchedule(m);
    assert ProcOk(m, m.current.value);
    if Decides(m) {
      DistanceRequeue(m, a);
      WfAge(Requeue(m));
      DistanceDecide(Requeue(m), a);
    }
  }

  // ---- the other steps do not push `a` back ----

  lemma DistanceJoin<Id>(m: Machine<Id>, x: Id, p: Proc, a: Id)
    requires Wf(m) && Waiting(m, a) && a != m.idle && x != a && 0 <= p.prio < MAX_PRIOS
    requires Wf(Push(m.(procs := m.procs[x := p]), x))
    ensures Distance(Push(m.(procs := m.procs[x := p]), x), a) == Distance(m, a)
  {
    assert ProcOk(m, a);
    PosAppend(m.queues[HIGHEST_PRIO], [x], a);
  }

  lemma DistanceDrop<Id>(m: Machine<Id>, m': Machine<Id>, x: Id, a: Id)
    requires Wf(m) && Wf(m') && Waiting(m, a) && a != m.idle && a != m'.idle && x != a
    requires a in m'.procs && m'.procs[a] == m.procs[a]
    requires m'.queues[HIGHEST_PRIO] == m.queues[HIGHEST_PRIO]
             || m'.queues[HIGHEST_PRIO] == Without(m.queues[HIGHEST_PRIO], x)
    ensures Distance(m', a) <= Distance(m, a)
  {
    assert ProcOk(m, a);
    if a in m.queues[HIGHEST_PRIO] { PosFilter(m.queues[HIGHEST_PRIO], z => z != x, a); }
  }

  lemma DistanceQuiet<Id>(m: Machine<Id>, e: Event<Id>, a: Id)
    requires Inv(m) && Allowed(m, e) && !Schedules(m, e) && a != m.idle
    requires Waiting(m, a) && Waiting(Quiet(m, e), a) && !(e.Nice? && e.id == a)
    ensures Inv(Quiet(m, e)) && Quiet(m, e).idle == m.idle && Quiet(m, e).current == m.current
    ensures Quiet(m, e).procs[m.current.value].ticks == m.procs[m.current.value].ticks
    ensures Distance(Quiet(m, e), a) <= Distance(m, a)
  {
    InvQuiet(m, e);
    assert ProcOk(m, a) && ProcOk(m, m.current.value);
    var m' := Quiet(m, e);
    if m' != m {
      match e
      case Create(x, prio) =>
        assert m' == Push(m.(procs := m.procs[x := Fresh(prio).(st := Ready)]), x);
        DistanceJoin(m, x, Fresh(prio).(st := Ready), a);
      case Block(x) => assert ProcOk(m, x); DistanceDrop(m, m', x, a);
      case Unblock(x) =>
        assert ProcOk(m, x);
        var p := m.procs[x].(st := Ready, ticks := TIME_SLICE_TICKS, aging := 0);
        assert m' == Push(m.(procs := m.procs[x := p]), x);
        DistanceJoin(m, x, p, a);
      case Nice(x, prio) => DistanceRenice(m, x, prio, a);
      case Kill(x) => assert ProcOk(m, x); DistanceDrop(m, m', x, a);
      case Reap(x) =>
    }
  }

  lemma DistanceRenice<Id>(m: Machine<Id>, x: Id, prio: int, a: Id)
    requires Inv(m) && Allowed(m, Nice(x, prio)) && Waiting(m, a) && a != m.idle && x != a
    ensures Inv(Renice(m, x, prio)) && Waiting(Renice(m, x, prio), a)
    ensures Renice(m, x, prio).idle == m.idle && Renice(m, x, prio).current == m.current
    ensures Renice(m, x, prio).procs[m.current.value].ticks == m.procs[m.current.value].ticks
    ensures Distance(Renice(m, x, prio), a) <= Distance(m, a)
  {
    InvRenice(m, x, prio);
    var np := Clamp(prio);
    if x in m.procs && m.procs[x].prio != np && m.procs[x].st == Ready {
      assert ProcOk(m, x) && ProcOk(m, a);
      var l := m.procs[x].prio;
      var p := m.procs[x].(base := np, aging := 0, prio := np);
      WfDequeue(m, x, p.(st := Blocked));
      var d := m.(procs := m.procs[x := p.(st := Blocked)], queues := m.queues[l := Without(m.queues[l], x)]);
      DistanceDrop(m, d, x, a);
      var r := p.(st := Ready, ticks := TIME_SLICE_TICKS);
      WfJoin(d, x, r);
      DistanceJoin(d, x, r, a);
      assert Renice(m, x, prio) == Push(d.(procs := d.procs[x := r]), x);
    }
  }

  // ---- whole runs ----

  ghost function Decisions<Id>(ms: seq<Machine<Id>>, es: seq<Event<Id>>): nat
    requires Run(ms, es)
    decreases |es|
  {
    if es == [] then 0
    else
      RunTail(ms, es);
      WfPrep'(ms[0], es[0]);
      (if Schedules(ms[0], es[0]) && Decides(Prep(ms[0], es[0])) then 1 else 0) + Decisions(ms[1..], es[1..])
  }

  ghost function ScheduleCalls<Id>(ms: seq<Machine<Id>>, es: seq<Event<Id>>): nat
    requires Run(ms, es)
    decreases |es|
  {
    if es == [] then 0
    else
      RunTail(ms, es);
      (if Schedules(ms[0], es[0]) then 1 else 0) + ScheduleCalls(ms[1..], es[1..])
  }

  /** `a` stays in the ready queues, undispatched, not blocked, killed or re-niced, through the whole run. */
  ghost predicate Starved<Id>(ms: seq<Machine<Id>>, es: seq<Event<Id>>, a: Id) {
    && |ms| == |es| + 1
    && (forall i {:trigger ms[i]} | 0 <= i < |ms| :: a != ms[i].idle && Waiting(ms[i], a))
    && (forall i {:trigger es[i]} | 0 <= i < |es| :: !(es[i].Nice? && es[i].id == a))
  }

  lemma StarvationStep<Id>(m: Machine<Id>, e: Event<Id>, a: Id)
    requires Inv(m) && Allowed(m, e) && a != m.idle && Waiting(m, a) && Waiting(Step(m, e), a) && !(e.Nice? && e.id == a)
    requires a != Step(m, e).idle
    ensures Inv(Step(m, e))
    ensures Distance(Step(m, e), a) <= Distance(m, a)
    ensures Schedules(m, e) && Wf(Prep(m, e)) && Decides(Prep(m, e)) ==> Distance(Step(m, e), a) < Distance(m, a)
    ensures TickDistance(Step(m, e), a) <= TickDistance(m, a)
    ensures Schedules(m, e) ==> TickDistance(Step(m, e), a) < TickDistance(m, a)
  {
    InvStep(m, e);
    assert ProcOk(m, m.current.value) && ProcOk(m, a);
    if Schedules(m, e) {
      WfPrep(m, e);
      assert Distance(Prep(m, e), a) == Distance(m, a);
      DistanceSchedule(Prep(m, e), a);
    } else {
      DistanceQuiet(m, e, a);
    }
  }

  lemma {:induction false} StarvationMeasure<Id>(ms: seq<Machine<Id>>, es: seq<Event<Id>>, a: Id)
    requires Run(ms, es) && Starved(ms, es, a)
    ensures Waiting(ms[0], a) && a != ms[0].idle
    ensures Decisions(ms, es) <= Distance(ms[0], a)
    ensures ScheduleCalls(ms, es) <= TickDistance(ms[0], a)
    decreases |es|
  {
    assert Waiting(ms[0], a);
    DistanceBounds(ms[0], a);
    assert ProcOk(ms[0], ms[0].current.value);
    if es != [] {
      RunTail(ms, es);
      assert Waiting(ms[1], a);
      assert !(es[0].Nice? && es[0].id == a);
      StarvationStep(ms[0], es[0], a);
      StarvationMeasure(ms[1..], es[1..], a);
    }
  }

  /**
   * Starvation bound.  A process that is still waiting after a run has seen
   * fewer than 30 + MAX_PROCS scheduling decisions, hence fewer than
   * 5 * (30 + MAX_PROCS) calls of `schedule`; by then it is dispatched.
   */
  lemma StarvationBound<Id>(ms: seq<Machine<Id>>, es: seq<Event<Id>>, a: Id)
    requires Run(ms, es) && Starved(ms, es, a)
    ensures Decisions(ms, es) < HIGHEST_PRIO * AGING_THRESHOLD + MAX_PROCS
    ensures ScheduleCalls(ms, es) < TIME_SLICE_TICKS * (HIGHEST_PRIO * AGING_THRESHOLD + MAX_PROCS)
  {
    StarvationMeasure(ms, es, a);
    DistanceBounds(ms[0], a);
    assert ProcOk(ms[0], ms[0].current.value);
  }
}
