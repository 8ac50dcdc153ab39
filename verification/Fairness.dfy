/**
 * Fairness of the scheduler over every run: how often one process can be
 * dispatched ahead of another, and how long a ready process can wait.
 */
module Fairness {
  import opened Lists
  import opened Options
  import opened SchedEvents
  import opened SchedModel

  ghost predicate Waiting<Id>(m: Machine<Id>, a: Id) {
    a in m.procs && m.procs[a].st == Ready
  }

  /** Does this step hand the CPU to `x`? */
  predicate Dispatches<Id(==)>(m: Machine<Id>, e: Event<Id>, x: Id)
    requires Inv(m)
  {
    WfPrep'(m, e);
    Schedules(m, e) && Decides(Prep(m, e)) && Winner(Prep(m, e)) == x
  }

  function Winner<Id(==)>(m: Machine<Id>): Id
    requires Wf(m) && m.current.Some?
  {
    Chosen(Age(Requeue(m)))
  }

  ghost predicate BaseLe<Id>(m: Machine<Id>, b: Id, a: Id)
    requires a in m.procs
  {
    b in m.procs ==> m.procs[b].base <= m.procs[a].base
  }

  ghost predicate Before<Id>(q: seq<Id>, a: Id, b: Id) {
    a in q && b in q && Pos(q, a) < Pos(q, b)
  }

  /** `a` is queued in a place from which `b` cannot get ahead of it. */
  ghost predicate Ahead<Id>(m: Machine<Id>, a: Id, b: Id)
    requires a in m.procs
  {
    b in m.procs ==>
      var (pa, pb) := (m.procs[a], m.procs[b]);
      if pb.st == Ready then
        pa.prio > pb.prio
        || (pa.prio == pb.prio && 0 <= pa.prio < |m.queues| && Before(m.queues[pa.prio], a, b) && pa.aging >= pb.aging)
      else pb.st != Exited ==> pb.prio <= pa.prio
  }

  ghost predicate Rivals<Id>(m: Machine<Id>, a: Id, b: Id) {
    && Wf(m) && a != b && a != m.idle && b != m.idle && Waiting(m, a) && BaseLe(m, b, a)
  }

  // ---- the decision itself ----

  /** Joining the tail of a queue overtakes nobody who is already there. */
  lemma AheadPush<Id>(m: Machine<Id>, x: Id, p: Proc, a: Id, b: Id)
    requires |m.queues| == MAX_PRIOS && Waiting(m, a) && a != b && x != a
    requires 0 <= m.procs[a].prio < MAX_PRIOS && a in m.queues[m.procs[a].prio] && 0 <= m.procs[a].aging
    requires 0 <= p.prio < MAX_PRIOS
    requires x == b ==> p.st == Ready && p.aging == 0 && p.prio <= m.procs[a].prio && b !in m.queues[p.prio]
    requires x != b ==> Ahead(m, a, b)
    ensures var m' := Push(m.(procs := m.procs[x := p]), x); Ahead(m', a, b)
  {
    PosAppend(m.queues[p.prio], [x], a);
    PosAppend(m.queues[p.prio], [x], b);
  }

  lemma AheadLeave<Id>(m: Machine<Id>, a: Id, b: Id)
    requires Rivals(m, a, b) && Ahead(m, a, b) && m.current.Some?
    ensures Wf(Leave(m)) && Rivals(Leave(m), a, b) && Ahead(Leave(m), a, b)
  {
    WfLeave(m);
    var c := m.current.value;
    assert ProcOk(m, a) && ProcOk(m, c);
    var p := m.procs[c];
    if p.st == Running && c != m.idle {
      assert QueueOk(m, p.base);
      AheadPush(m, c, Rejoined(p, false), a, b);
    }
  }

  lemma AheadRequeue<Id>(m: Machine<Id>, a: Id, b: Id)
    requires Rivals(m, a, b) && Ahead(m, a, b) && m.current.Some?
    ensures Wf(Requeue(m)) && Rivals(Requeue(m), a, b) && Ahead(Requeue(m), a, b)
  {
    WfTick(m);
    assert ProcOk(m, m.current.value);
    assert Ahead(TickCurrent(m), a, b);
    AheadLeave(TickCurrent(m), a, b);
  }

  lemma AheadAge<Id>(m: Machine<Id>, a: Id, b: Id)
    requires Rivals(m, a, b) && Ahead(m, a, b)
    ensures Wf(Age(m)) && Rivals(Age(m), a, b) && Ahead(Age(m), a, b)
  {
    WfAge(m);
    assert ProcOk(m, a) && ProcOk(Age(m), a);
    if b in m.procs && m.procs[b].st == Ready {
      assert ProcOk(m, b) && ProcOk(Age(m), b);
      var (pa, pb) := (m.procs[a], m.procs[b]);
      if AgeProc(pa).prio == AgeProc(pb).prio { AgePositions(m, a, b); }
    }
  }

  lemma ConcatOrder<Id>(s: seq<Id>, r: seq<Id>, a: Id, b: Id)
    requires Before(s, a, b) || (a in s && b in r && b !in s) || (a !in s && b !in s && Before(r, a, b))
    ensures Before(s + r, a, b)
  {
    PosAppend(s, r, a);
    PosAppend(s, r, b);
  }

  /** In an aged queue those of the level stand before those lifted to it, each group in its old order. */
  lemma AgedOrder<Id>(procs: map<Id, Proc>, queues: seq<seq<Id>>, l: nat, a: Id, b: Id)
    requires l < |queues| && a in procs && b in procs
    requires
      || (Before(queues[l], a, b) && !Promoted(procs[a]) && !Promoted(procs[b]))
      || (l > 0 && a in queues[l] && !Promoted(procs[a]) && b in queues[l - 1] && Promoted(procs[b]) && b !in queues[l])
      || (l > 0 && Before(queues[l - 1], a, b) && Promoted(procs[a]) && Promoted(procs[b]) && a !in queues[l] && b !in queues[l])
    ensures Before(AgedQueue(procs, queues, l), a, b)
  {
    var stay := Filter(queues[l], Stays(procs));
    var rise := if l > 0 then Filter(queues[l - 1], Rises(procs)) else [];
    FilterIn(queues[l], Stays(procs), a);
    FilterIn(queues[l], Stays(procs), b);
    if Before(queues[l], a, b) {
      OrderFilter(queues[l], Stays(procs), a, b);
    } else {
      FilterIn(queues[l - 1], Rises(procs), b);
      if a !in queues[l] { OrderFilter(queues[l - 1], Rises(procs), a, b); }
    }
    ConcatOrder(stay, rise, a, b);
  }

  lemma AgePositions<Id>(m: Machine<Id>, a: Id, b: Id)
    requires Wf(m) && a != m.idle && b != m.idle && Waiting(m, a) && Waiting(m, b)
    requires AgeProc(m.procs[a]).prio == AgeProc(m.procs[b]).prio
    requires m.procs[a].prio > m.procs[b].prio
             || (m.procs[a].prio == m.procs[b].prio && 0 <= m.procs[a].prio < MAX_PRIOS && Before(m.queues[m.procs[a].prio], a, b))
    ensures 0 <= AgeProc(m.procs[a]).prio < MAX_PRIOS
    ensures Before(Age(m).queues[AgeProc(m.procs[a]).prio], a, b)
  {
    assert ProcOk(m, a) && ProcOk(m, b);
    var l := AgeProc(m.procs[a]).prio;
    assert QueueOk(m, l);
    AgedOrder(m.procs, m.queues, l, a, b);
  }

  lemma AheadDispatch<Id>(m: Machine<Id>, a: Id, b: Id)
    requires Rivals(m, a, b) && Ahead(m, a, b) && m.enabled && Chosen(m) in m.procs
    requires m.current.Some? && (m.procs[m.current.value].st != Running || m.current.value == m.idle)
    ensures Chosen(m) != b
    ensures Inv(Dispatch(m))
    ensures Chosen(m) != a ==> Rivals(Dispatch(m), a, b) && Ahead(Dispatch(m), a, b)
  {
    WfDispatch(m);
    assert ProcOk(m, a);
    var l := TopLevel(m.queues, HIGHEST_PRIO);
    assert m.procs[a].prio <= l;
    assert QueueOk(m, l);
    var x := Chosen(m);
    assert x in m.queues[l];
    if b in m.procs { assert ProcOk(m, b); }
  }

  lemma AheadSchedule<Id>(m: Machine<Id>, a: Id, b: Id)
    requires Rivals(m, a, b) && Ahead(m, a, b) && m.enabled && m.current.Some?
    requires Waiting(Schedule(m), a)
    ensures Inv(Schedule(m)) && Rivals(Schedule(m), a, b) && Ahead(Schedule(m), a, b)
    ensures Decides(m) ==> Winner(m) != b
  {
    InvSchedule(m);
    assert ProcOk(m, m.current.value);
    if Decides(m) {
      AheadRequeue(m, a, b);
      WfAge(Requeue(m));
      AheadAge(Requeue(m), a, b);
      AheadDispatch(Age(Requeue(m)), a, b);
    }
  }

  // ---- the steps that do not switch process ----

  /** Taking a third process out of its queue keeps the order of the other two. */
  lemma AheadDrop<Id>(m: Machine<Id>, x: Id, p: Proc, a: Id, b: Id)
    requires |m.queues| == MAX_PRIOS && x in m.procs && 0 <= m.procs[x].prio < MAX_PRIOS
    requires x != a && x != b && a in m.procs && Ahead(m, a, b)
    ensures var l := m.procs[x].prio;
            Ahead(m.(procs := m.procs[x := p], queues := m.queues[l := Without(m.queues[l], x)]), a, b)
  {
    var l := m.procs[x].prio;
    if Before(m.queues[l], a, b) { OrderFilter(m.queues[l], z => z != x, a, b); }
  }

  lemma AheadStop<Id>(m: Machine<Id>, x: Id, st: ProcState, a: Id, b: Id)
    requires Rivals(m, a, b) && Ahead(m, a, b) && x in m.procs && x != a && x != m.idle && m.current != Some(x)
    requires st == Exited || (st == Blocked && m.procs[x].st != Exited)
    ensures Ahead(Stop(m, x, st), a, b)
  {
    assert ProcOk(m, x);
    if x != b && m.procs[x].st == Ready { AheadDrop(m, x, m.procs[x].(st := st, ticks := 0), a, b); }
  }

  lemma AheadRenice<Id>(m: Machine<Id>, x: Id, prio: int, a: Id, b: Id)
    requires Inv(m) && Rivals(m, a, b) && Ahead(m, a, b) && x != a && Allowed(m, Nice(x, prio))
    requires BaseLe(Renice(m, x, prio), b, a)
    ensures Ahead(Renice(m, x, prio), a, b)
  {
    var np := Clamp(prio);
    if x in m.procs && m.procs[x].prio != np && m.procs[x].st == Ready {
      assert ProcOk(m, x) && ProcOk(m, a);
      var l := m.procs[x].prio;
      var p := m.procs[x].(base := np, aging := 0, prio := np);
      var d := m.(procs := m.procs[x := p], queues := m.queues[l := Without(m.queues[l], x)]);
      if x != b { AheadDrop(m, x, p, a, b); }
      WithoutIn(m.queues[l], x, a);
      assert QueueOk(m, np);
      AheadPush(d, x, p.(st := Ready, ticks := TIME_SLICE_TICKS), a, b);
      assert Renice(m, x, prio) == Push(d.(procs := d.procs[x := p.(st := Ready, ticks := TIME_SLICE_TICKS)]), x);
    } else {
      assert m.current != Some(x) || Renice(m, x, prio) == m;
    }
  }

  lemma AheadQuiet<Id>(m: Machine<Id>, e: Event<Id>, a: Id, b: Id)
    requires Inv(m) && Allowed(m, e) && !Schedules(m, e)
    requires Rivals(m, a, b) && Ahead(m, a, b)
    requires Waiting(Quiet(m, e), a) && BaseLe(Quiet(m, e), b, a)
    requires !(e.Nice? && e.id == a)
    ensures Ahead(Quiet(m, e), a, b)
  {
    assert ProcOk(m, a);
    if Quiet(m, e) != m {
      match e
      case Create(x, prio) =>
        var m1 := m.(procs := m.procs[x := Fresh(prio)]);
        assert QueueOk(m, Clamp(prio));
        AheadPush(m, x, Fresh(prio).(st := Ready), a, b);
        assert Quiet(m, e) == Push(m.(procs := m.procs[x := Fresh(prio).(st := Ready)]), x);
      case Block(x) => AheadStop(m, x, Blocked, a, b);
      case Unblock(x) =>
        assert ProcOk(m, x);
        assert QueueOk(m, m.procs[x].prio);
        var p := m.procs[x].(st := Ready, ticks := TIME_SLICE_TICKS, aging := 0);
        AheadPush(m, x, p, a, b);
        assert Quiet(m, e) == Push(m.(procs := m.procs[x := p]), x);
      case Nice(x, prio) => AheadRenice(m, x, prio, a, b);
      case Kill(x) => AheadStop(m, x, Exited, a, b);
      case Reap(x) =>
    }
  }

  // ---- whole runs ----

  ghost predicate Moves<Id>(m: Machine<Id>, e: Event<Id>, m': Machine<Id>) {
    Allowed(m, e) && (Inv(m) ==> m' == Step(m, e))
  }

  /** `ms` is a run of the machine driven by the kernel entries `es`. */
  ghost predicate Run<Id>(ms: seq<Machine<Id>>, es: seq<Event<Id>>) {
    && |ms| == |es| + 1
    && Inv(ms[0])
    && forall i | 0 <= i < |es| :: Moves(ms[i], es[i], ms[i + 1])
  }

  lemma RunTail<Id>(ms: seq<Machine<Id>>, es: seq<Event<Id>>)
    requires Run(ms, es) && es != []
    ensures Run(ms[1..], es[1..])
    ensures ms[1] == Step(ms[0], es[0])
  {
    assert Moves(ms[0], es[0], ms[1]);
    InvStep(ms[0], es[0]);
    forall i | 0 <= i < |es[1..]| ensures Moves(ms[1..][i], es[1..][i], ms[1..][i + 1]) {
      assert Moves(ms[i + 1], es[i + 1], ms[i + 2]);
    }
  }

  /** Every state of every run satisfies the whole-machine invariant. */
  lemma {:induction false} InvRun<Id>(ms: seq<Machine<Id>>, es: seq<Event<Id>>, k: nat)
    requires Run(ms, es) && k < |ms|
    ensures Inv(ms[k])
  {
    if k > 0 {
      RunTail(ms, es);
      InvRun(ms[1..], es[1..], k - 1);
    }
  }

  /** How often `x` is given the CPU in a run. */
  ghost function TimesDispatched<Id>(ms: seq<Machine<Id>>, es: seq<Event<Id>>, x: Id): nat
    requires Run(ms, es)
    decreases |es|
  {
    if es == [] then 0
    else
      RunTail(ms, es);
      (if Dispatches(ms[0], es[0], x) then 1 else 0) + TimesDispatched(ms[1..], es[1..], x)
  }

  /** `a` waits in the ready queues throughout, and never has a smaller base priority than `b`. */
  ghost predicate Overtakable<Id>(ms: seq<Machine<Id>>, es: seq<Event<Id>>, a: Id, b: Id) {
    && |ms| == |es| + 1
    && (forall i {:trigger ms[i]} | 0 <= i < |ms| :: a != ms[i].idle && b != ms[i].idle && Waiting(ms[i], a) && BaseLe(ms[i], b, a))
    && (forall i {:trigger es[i]} | 0 <= i < |es| :: !(es[i].Nice? && es[i].id == a))
  }

  lemma AheadStep<Id>(m: Machine<Id>, e: Event<Id>, a: Id, b: Id)
    requires Inv(m) && Allowed(m, e) && Rivals(m, a, b) && Ahead(m, a, b)
    requires Waiting(Step(m, e), a) && BaseLe(Step(m, e), b, a)
    requires !(e.Nice? && e.id == a)
    ensures Ahead(Step(m, e), a, b) && !Dispatches(m, e, b)
  {
    assert ProcOk(m, m.current.value) && ProcOk(m, a);
    if Schedules(m, e) {
      WfPrep(m, e);
      AheadSchedule(Prep(m, e), a, b);
    } else {
      AheadQuiet(m, e, a, b);
    }
  }

  /** Once `a` is ahead of `b` it stays ahead: `b` does not run again before `a`. */
  lemma {:induction false} NeverOvertaken<Id>(ms: seq<Machine<Id>>, es: seq<Event<Id>>, a: Id, b: Id)
    requires Run(ms, es) && Overtakable(ms, es, a, b) && a != b && Ahead(ms[0], a, b)
    ensures TimesDispatched(ms, es, b) == 0
    decreases |es|
  {
    if es != [] {
      RunTail(ms, es);
      assert Waiting(ms[1], a) && BaseLe(ms[1], b, a);
      assert !(es[0].Nice? && es[0].id == a);
      AheadStep(ms[0], es[0], a, b);
      NeverOvertaken(ms[1..], es[1..], a, b);
    }
  }

  /** A dispatch of `b` puts `a` ahead of it. */
  lemma DispatchYields<Id>(m: Machine<Id>, e: Event<Id>, a: Id, b: Id)
    requires Inv(m) && Allowed(m, e) && a != b && a != m.idle && b != m.idle && Dispatches(m, e, b)
    requires Waiting(Step(m, e), a) && BaseLe(Step(m, e), b, a)
    ensures Ahead(Step(m, e), a, b)
  {
    assert ProcOk(m, m.current.value);
    WfPrep(m, e);
    InvSchedule(Prep(m, e));
    assert Step(m, e).current == Some(b);
    assert ProcOk(Step(m, e), a) && ProcOk(Step(m, e), b);
  }

  /**
   * Bounded overtaking.  While `a` stays ready, a process whose base priority
   * is never above that of `a` is dispatched at most once: among equals the
   * scheduler is round-robin, whatever aging does to their places.
   */
  lemma {:induction false} BoundedOvertaking<Id>(ms: seq<Machine<Id>>, es: seq<Event<Id>>, a: Id, b: Id)
    requires Run(ms, es) && Overtakable(ms, es, a, b) && a != b
    ensures TimesDispatched(ms, es, b) <= 1
    decreases |es|
  {
    if es != [] {
      RunTail(ms, es);
      assert Waiting(ms[1], a) && BaseLe(ms[1], b, a);
      if Dispatches(ms[0], es[0], b) {
        DispatchYields(ms[0], es[0], a, b);
        NeverOvertaken(ms[1..], es[1..], a, b);
      } else {
        BoundedOvertaking(ms[1..], es[1..], a, b);
      }
    }
  }
}
