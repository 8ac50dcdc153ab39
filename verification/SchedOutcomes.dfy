/**
 * What each kernel entry leaves behind, process by process: who has the CPU and
 * for how many ticks, and in which state and queue everybody is.
 */
module SchedOutcomes {
  import opened Fairness
  import opened Lists
  import opened Options
  import opened SchedEvents
  import opened SchedModel

  // ------------------------------------------------------------------
  // The time slice
  // ------------------------------------------------------------------

  /** With more than one tick left, a running process keeps the CPU and only its slice changes. */
  lemma TickKeeps<Id>(m: Machine<Id>)
    requires Wf(m) && m.enabled && m.current.Some?
    requires m.procs[m.current.value].st == Running && m.procs[m.current.value].ticks > 1
    ensures var c := m.current.value;
            Schedule(m) == m.(procs := m.procs[c := m.procs[c].(ticks := m.procs[c].ticks - 1)])
  {
  }

  /** One aging pass over a process: a ready one grows older and is lifted at the threshold. */
  function Older(p: Proc): Proc {
    if p.st != Ready then p
    else if p.prio < HIGHEST_PRIO && p.aging + 1 >= AGING_THRESHOLD then p.(prio := p.prio + 1, aging := 0)
    else if p.aging < AGING_THRESHOLD then p.(aging := p.aging + 1)
    else p
  }

  /** Everybody but the one who leaves and the one who comes only grows older. */
  ghost predicate OthersAge<Id>(m: Machine<Id>, r: Machine<Id>, c: Id, x: Id) {
    && r.procs.Keys == m.procs.Keys
    && forall y | y in m.procs && y != c && y != x :: r.procs[y] == Older(m.procs[y])
  }

  /** Where a process stands when the choice is made. */
  function Standing(p: Proc): int {
    if p.st == Ready then Older(p).prio else p.base
  }

  /** `c` gives up the CPU for a new choice, and `x` is chosen: among the ready ones and `c` itself, nobody stood higher. */
  ghost predicate Switched<Id>(m: Machine<Id>, r: Machine<Id>, c: Id, x: Id) {
    && r.current == Some(x) && x in m.procs && r.idle == m.idle && r.enabled == m.enabled
    && OthersAge(m, r, c, x)
    && r.procs[x].st == Running && r.procs[x].ticks == TIME_SLICE_TICKS && r.procs[x].base == m.procs[x].base
    && (x != m.idle ==>
          && (m.procs[x].st == Ready || (x == c && m.procs[c].st == Running))
          && r.procs[x].prio == r.procs[x].base && r.procs[x].aging == 0
          && forall y | y in r.procs && r.procs[y].st == Ready :: r.procs[y].prio <= Standing(m.procs[x]))
    && (x == m.idle ==> forall y | y in r.procs :: r.procs[y].st != Ready)
  }

  /** What becomes of the one who had it. */
  ghost predicate Left<Id>(m: Machine<Id>, r: Machine<Id>, c: Id)
    requires c in m.procs && c in r.procs
  {
    var (p, q) := (m.procs[c], r.procs[c]);
    if p.st == Running then
      q.st == Ready && q.ticks == TIME_SLICE_TICKS && q.base == p.base && q.prio == p.base
      && 0 <= q.prio < |r.queues| && c in r.queues[q.prio]
    else q == p.(ticks := 0)
  }

  /** The choice falls on the head of the highest queue. */
  lemma ChosenTop<Id>(m: Machine<Id>)
    requires Wf(m)
    ensures var x := Chosen(m);
            && x in m.procs
            && (x != m.idle ==> m.procs[x].st == Ready && forall y | y in m.procs && m.procs[y].st == Ready :: m.procs[y].prio <= m.procs[x].prio)
            && (x == m.idle ==> forall y | y in m.procs :: m.procs[y].st != Ready)
  {
    var l := TopLevel(m.queues, HIGHEST_PRIO);
    assert l >= 0 ==> QueueOk(m, l) && m.queues[l][0] in m.queues[l];
    forall y | y in m.procs && m.procs[y].st == Ready ensures 0 <= m.procs[y].prio <= l {
      assert ProcOk(m, y);
      assert y in m.queues[m.procs[y].prio];
    }
  }

  lemma AgeFields<Id>(m: Machine<Id>, y: Id)
    requires Wf(m) && y in m.procs
    ensures y in Age(m).procs && Age(m).procs[y] == Older(m.procs[y])
  {
    assert ProcOk(m, y);
  }

  /** The process that leaves, before the aging pass. */
  lemma RequeueFields<Id>(m: Machine<Id>)
    requires Wf(m) && m.current.Some? && m.procs[m.current.value].st != Ready && m.procs[m.current.value].st != New
    requires m.procs[m.current.value].st != Running || m.procs[m.current.value].ticks <= 1
    ensures var (c, k) := (m.current.value, Requeue(m)); var p := m.procs[c];
            && k.procs.Keys == m.procs.Keys && k.idle == m.idle && k.enabled == m.enabled
            && (forall y | y in m.procs && y != c :: k.procs[y] == m.procs[y])
            && (c != m.idle ==> k.procs[c] == if p.st == Running then Proc(p.base, p.base, Ready, TIME_SLICE_TICKS, 0) else p.(ticks := 0))
            && (c == m.idle ==> k.procs[c] == p.(ticks := 0))
  {
    assert ProcOk(m, m.current.value);
  }

  /** Giving the CPU to the choice. */
  lemma DispatchFields<Id>(m: Machine<Id>)
    requires Wf(m) && Chosen(m) in m.procs
    ensures var (x, r) := (Chosen(m), Dispatch(m)); var p := m.procs[x];
            && r.procs == m.procs[x := r.procs[x]] && r.current == Some(x) && r.idle == m.idle && r.enabled == m.enabled
            && r.procs[x] == if x == m.idle then p.(st := Running, ticks := TIME_SLICE_TICKS)
                             else Proc(p.base, p.base, Running, TIME_SLICE_TICKS, 0)
  {
  }

  /** With the last tick, or when it has been blocked or has ended, a process leaves the CPU or is chosen anew. */
  lemma TickSwitches<Id>(m: Machine<Id>) returns (x: Id)
    requires Wf(m) && m.enabled && m.current.Some? && m.procs[m.current.value].st != Ready && m.procs[m.current.value].st != New
    requires m.procs[m.current.value].st != Running || m.procs[m.current.value].ticks <= 1
    ensures var c := m.current.value;
            && Switched(m, Schedule(m), c, x)
            && (x != c && c != m.idle ==> Left(m, Schedule(m), c))
  {
    var c := m.current.value;
    var k := Requeue(m);
    Parts(m);
    x := Chosen(Age(k));
    DispatchFields(Age(k));
    SwitchOthers(m, k, c, x);
    SwitchChoice(m, k, c, x);
    InvSchedule(m);
    if x != c && c != m.idle { LeftQueued(m, k, c, x); }
  }

  lemma Parts<Id>(m: Machine<Id>)
    requires Wf(m) && m.enabled && m.current.Some? && m.procs[m.current.value].st != Ready && m.procs[m.current.value].st != New
    requires m.procs[m.current.value].st != Running || m.procs[m.current.value].ticks <= 1
    ensures var k := Requeue(m);
            && Requeued(m, k, m.current.value) && Wf(Age(k)) && Chosen(Age(k)) in Age(k).procs && Schedule(m) == Dispatch(Age(k))
  {
    WfRequeue(m);
    WfAge(Requeue(m));
    RequeueFields(m);
  }

  ghost predicate Requeued<Id>(m: Machine<Id>, k: Machine<Id>, c: Id) {
    && Wf(m) && Wf(k) && c in m.procs && m.procs[c].st != Ready
    && k.procs.Keys == m.procs.Keys && k.idle == m.idle && k.enabled == m.enabled
    && (forall y | y in m.procs && y != c :: k.procs[y] == m.procs[y])
    && var p := m.procs[c];
       && (c != m.idle ==> k.procs[c] == if p.st == Running then Proc(p.base, p.base, Ready, TIME_SLICE_TICKS, 0) else p.(ticks := 0))
       && (c == m.idle ==> k.procs[c] == p.(ticks := 0))
  }

  lemma SwitchOthers<Id>(m: Machine<Id>, k: Machine<Id>, c: Id, x: Id)
    requires Requeued(m, k, c) && Wf(Age(k)) && x == Chosen(Age(k)) && x in Age(k).procs
    ensures OthersAge(m, Dispatch(Age(k)), c, x)
  {
    DispatchFields(Age(k));
    var r := Dispatch(Age(k));
    forall y | y in m.procs && y != c && y != x ensures r.procs[y] == Older(m.procs[y]) { AgeFields(k, y); }
  }

  lemma SwitchChoice<Id>(m: Machine<Id>, k: Machine<Id>, c: Id, x: Id)
    requires Requeued(m, k, c) && Wf(Age(k)) && x == Chosen(Age(k)) && x in Age(k).procs
    ensures var r := Dispatch(Age(k));
            && (x != m.idle ==>
                  && (m.procs[x].st == Ready || (x == c && m.procs[c].st == Running))
                  && forall y | y in r.procs && r.procs[y].st == Ready :: r.procs[y].prio <= Standing(m.procs[x]))
            && (x == m.idle ==> forall y | y in r.procs :: r.procs[y].st != Ready)
            && r.procs[x].base == m.procs[x].base
  {
    var a := Age(k);
    ChosenTop(a);
    DispatchFields(a);
    AgeFields(k, x);
    assert ProcOk(m, x);
  }

  lemma LeftQueued<Id>(m: Machine<Id>, k: Machine<Id>, c: Id, x: Id)
    requires Requeued(m, k, c) && Wf(Age(k)) && x == Chosen(Age(k)) && x in Age(k).procs && Inv(Dispatch(Age(k)))
    requires x != c && c != m.idle && m.procs[c].st != New
    ensures Left(m, Dispatch(Age(k)), c)
  {
    var r := Dispatch(Age(k));
    DispatchFields(Age(k));
    AgeFields(k, c);
    assert ProcOk(r, c) && ProcOk(m, c);
  }

  /** `n` calls of `schedule`. */
  function Ticks<Id(==)>(m: Machine<Id>, n: nat): Machine<Id>
    requires Inv(m)
    decreases n
  {
    if n == 0 then m
    else
      InvSchedule(m);
      Ticks(Schedule(m), n - 1)
  }

  /** A process keeps the CPU through every call of `schedule` but the last of its slice. */
  lemma {:induction false} SliceLasts<Id>(m: Machine<Id>, n: nat)
    requires Inv(m) && n < m.procs[m.current.value].ticks
    ensures var c := m.current.value;
            Ticks(m, n) == m.(procs := m.procs[c := m.procs[c].(ticks := m.procs[c].ticks - n)])
    decreases n
  {
    if n > 0 {
      var c := m.current.value;
      InvSchedule(m);
      TickKeeps(m);
      SliceLasts(Schedule(m), n - 1);
    } else {
      assert m.procs[m.current.value := m.procs[m.current.value]] == m.procs;
    }
  }

  /** A process that has just been given the CPU keeps it through 4 calls of `schedule`, which change its slice and nothing else; the 5th makes a new choice. */
  lemma FullSlice<Id>(m: Machine<Id>) returns (x: Id)
    requires Inv(m) && m.procs[m.current.value].ticks == TIME_SLICE_TICKS
    ensures var c := m.current.value;
            && (forall n: nat | n < 5 :: Ticks(m, n) == m.(procs := m.procs[c := m.procs[c].(ticks := 5 - n)]))
            && Switched(Ticks(m, 4), Ticks(m, 5), c, x)
            && (x != c && c != m.idle ==> Left(Ticks(m, 4), Ticks(m, 5), c))
  {
    forall n: nat | n < 5
      ensures var c := m.current.value; Ticks(m, n) == m.(procs := m.procs[c := m.procs[c].(ticks := 5 - n)])
    {
      SliceLasts(m, n);
    }
    TicksInv(m, 4);
    TicksNext(m, 4);
    x := TickSwitches(Ticks(m, 4));
  }

  lemma {:induction false} TicksInv<Id>(m: Machine<Id>, n: nat)
    requires Inv(m)
    ensures Inv(Ticks(m, n))
    decreases n
  {
    if n > 0 {
      InvSchedule(m);
      TicksInv(Schedule(m), n - 1);
    }
  }

  lemma {:induction false} TicksNext<Id>(m: Machine<Id>, n: nat)
    requires Inv(m)
    ensures Wf(Ticks(m, n)) && Ticks(m, n + 1) == Schedule(Ticks(m, n))
    decreases n
  {
    TicksInv(m, n);
    if n > 0 {
      InvSchedule(m);
      TicksNext(Schedule(m), n - 1);
    }
  }

  // ------------------------------------------------------------------
  // What a call does to its caller
  // ------------------------------------------------------------------

  /** A forced yield makes a new choice at once; the caller stays ready. */
  lemma YieldOutcome<Id>(m: Machine<Id>) returns (x: Id)
    requires Inv(m)
    ensures var (c, r) := (m.current.value, Step(m, Yield));
            && Switched(m, r, c, x)
            && (x != c && c != m.idle ==> Left(m, r, c))
  {
    WfPrep(m, Yield);
    x := TickSwitches(Prep(m, Yield));
  }

  /** `proc_block` of the caller, `proc_exit`, and `proc_kill` of the caller: it is blocked or has ended, and somebody else is chosen. */
  lemma LeaveOutcome<Id>(m: Machine<Id>, e: Event<Id>, st: ProcState) returns (x: Id)
    requires Inv(m) && m.current != Some(m.idle)
    requires (e == Block(m.current.value) && st == Blocked) || ((e == Exit || e == Kill(m.current.value)) && st == Exited)
    ensures var (c, r) := (m.current.value, Step(m, e));
            && Switched(m.(procs := m.procs[c := m.procs[c].(st := st)]), r, c, x) && x != c
            && r.procs[c] == m.procs[c].(st := st, ticks := 0)
  {
    var c := m.current.value;
    WfPrep(m, e);
    LeavePrep(m, e, st);
    x := TickSwitches(Prep(m, e));
  }

  lemma LeavePrep<Id>(m: Machine<Id>, e: Event<Id>, st: ProcState)
    requires Inv(m) && m.current != Some(m.idle)
    requires (e == Block(m.current.value) && st == Blocked) || ((e == Exit || e == Kill(m.current.value)) && st == Exited)
    ensures var c := m.current.value;
            Schedules(m, e) && Prep(m, e) == m.(procs := m.procs[c := m.procs[c].(st := st, ticks := 0)])
  {
  }

  // ------------------------------------------------------------------
  // What a call does to its target
  // ------------------------------------------------------------------

  /** Everybody else has the state and the queue they had, and the CPU its process. */
  ghost predicate OthersSame<Id>(m: Machine<Id>, r: Machine<Id>, x: Id) {
    && r.current == m.current && r.idle == m.idle && r.enabled == m.enabled && |r.queues| == |m.queues|
    && r.procs.Keys - {x} == m.procs.Keys - {x} && (forall y | y in m.procs && y != x :: y in r.procs && r.procs[y] == m.procs[y])
    && (forall l | 0 <= l < |m.queues| :: Without(r.queues[l], x) == Without(m.queues[l], x))
  }

  ghost predicate InNoQueue<Id>(m: Machine<Id>, x: Id) {
    forall l | 0 <= l < |m.queues| :: x !in m.queues[l]
  }

  /** `x` stands last in the queue of level `l` and in no other. */
  ghost predicate Last<Id>(m: Machine<Id>, x: Id, l: int) {
    && 0 <= l < |m.queues| && m.queues[l] != [] && m.queues[l][|m.queues[l]| - 1] == x
    && forall k | 0 <= k < |m.queues| && k != l :: x !in m.queues[k]
  }

  lemma Unqueued<Id>(m: Machine<Id>, x: Id)
    requires Wf(m) && (x !in m.procs || m.procs[x].st != Ready)
    ensures InNoQueue(m, x)
  {
    forall l | 0 <= l < |m.queues| ensures x !in m.queues[l] { assert QueueOk(m, l); }
  }

  /** Stopping another process takes it from its queue and leaves the rest alone. */
  lemma StopOutcome<Id>(m: Machine<Id>, x: Id, st: ProcState)
    requires Inv(m) && x in m.procs && x != m.idle && m.current != Some(x) && (st == Blocked || st == Exited)
    ensures var r := Stop(m, x, st);
            && OthersSame(m, r, x) && x in r.procs && r.procs[x] == m.procs[x].(st := st, ticks := 0) && InNoQueue(r, x)
  {
    InvStop(m, x, st);
    var r := Stop(m, x, st);
    Unqueued(r, x);
    forall l | 0 <= l < |m.queues| ensures Without(r.queues[l], x) == Without(m.queues[l], x) { WithoutTwice(m.queues[l], x); }
  }

  lemma WithoutTwice<Id>(q: seq<Id>, x: Id)
    ensures Without(Without(q, x), x) == Without(q, x)
  {
    WithoutIn(q, x, x);
    WithoutAbsent(Without(q, x), x);
  }

  lemma WithoutLast<Id>(q: seq<Id>, x: Id)
    ensures Without(q + [x], x) == Without(q, x)
  {
    FilterAppend(q, [x], y => y != x);
  }

  /** Joining the tail of a queue moves nobody else. */
  lemma PushSame<Id>(m: Machine<Id>, x: Id)
    requires |m.queues| == MAX_PRIOS && x in m.procs && InNoQueue(m, x) && 0 <= m.procs[x].prio < MAX_PRIOS
    ensures Last(Push(m, x), x, m.procs[x].prio)
    ensures forall l | 0 <= l < |m.queues| :: Without(Push(m, x).queues[l], x) == Without(m.queues[l], x)
  {
    WithoutLast(m.queues[m.procs[x].prio], x);
  }

  /** `proc_kill` of another process: it has ended, whatever it was doing. */
  lemma KillOutcome<Id>(m: Machine<Id>, x: Id)
    requires Inv(m) && x in m.procs && x != m.idle && m.current != Some(x)
    ensures var r := Step(m, Kill(x));
            && OthersSame(m, r, x) && x in r.procs && r.procs[x] == m.procs[x].(st := Exited, ticks := 0) && InNoQueue(r, x)
  {
    StopOutcome(m, x, Exited);
  }

  /** `proc_block` of another process. */
  lemma BlockOutcome<Id>(m: Machine<Id>, x: Id)
    requires Inv(m) && x in m.procs && x != m.idle && m.current != Some(x)
    ensures var r := Step(m, Block(x));
            && OthersSame(m, r, x) && x in r.procs && InNoQueue(r, x) == (r.procs[x].st != Ready)
            && r.procs[x] == (if m.procs[x].st == Exited || m.procs[x].st == Blocked then m.procs[x] else m.procs[x].(st := Blocked, ticks := 0))
  {
    if m.procs[x].st == Exited || m.procs[x].st == Blocked { Unqueued(m, x); } else { StopOutcome(m, x, Blocked); }
  }

  /** `proc_unblock`: a blocked process is ready, last at its own priority; no other is touched. */
  lemma UnblockOutcome<Id>(m: Machine<Id>, x: Id)
    requires Inv(m) && x in m.procs
    ensures var (p, r) := (m.procs[x], Step(m, Unblock(x)));
            if p.st == Blocked then
              && OthersSame(m, r, x) && x in r.procs
              && r.procs[x] == Proc(p.base, p.prio, Ready, TIME_SLICE_TICKS, 0) && Last(r, x, p.prio)
            else r == m
  {
    if m.procs[x].st == Blocked {
      assert ProcOk(m, x);
      Unqueued(m, x);
      PushSame(m.(procs := m.procs[x := Proc(m.procs[x].base, m.procs[x].prio, Ready, TIME_SLICE_TICKS, 0)]), x);
    }
  }

  /** `proc_create`: the new process is ready, last at the priority asked for, or at the nearest there is. */
  lemma CreateOutcome<Id>(m: Machine<Id>, x: Id, prio: int)
    requires Inv(m) && x !in m.procs
    ensures var r := Step(m, Create(x, prio));
            if |m.procs| < MAX_PROCS then
              && OthersSame(m, r, x) && x in r.procs
              && var b := r.procs[x].base;
                 && r.procs[x] == Proc(b, b, Ready, TIME_SLICE_TICKS, 0) && Last(r, x, b)
                 && (if prio < 0 then b == 0 else if prio > 3 then b == 3 else b == prio)
            else r == m
  {
    if |m.procs| < MAX_PROCS {
      Unqueued(m, x);
      PushSame(m.(procs := m.procs[x := Proc(Clamp(prio), Clamp(prio), Ready, TIME_SLICE_TICKS, 0)]), x);
    }
  }

  /** `proc_nice` of another process: new priority and base, and last in the new queue if it is ready. */
  lemma NiceOutcome<Id>(m: Machine<Id>, x: Id, prio: int)
    requires Inv(m) && x in m.procs && m.current != Some(x) && x != m.idle && 0 <= prio <= 3
    ensures var (p, r) := (m.procs[x], Step(m, Nice(x, prio)));
            if p.prio == prio then r == m
            else
              && OthersSame(m, r, x) && x in r.procs
              && r.procs[x] == Proc(prio, prio, p.st, if p.st == Ready then TIME_SLICE_TICKS else p.ticks, 0)
              && (p.st == Ready ==> Last(r, x, prio))
  {
    var (p, r) := (m.procs[x], Step(m, Nice(x, prio)));
    if p.prio != prio {
      assert ProcOk(m, x);
      NicedQueues(m, x, prio);
    }
  }

  lemma NicedQueues<Id>(m: Machine<Id>, x: Id, np: int)
    requires Inv(m) && x in m.procs && m.current != Some(x) && x != m.idle && 0 <= np <= 3 && m.procs[x].prio != np
    ensures var r := Renice(m, x, np);
            && |r.queues| == |m.queues|
            && (forall l | 0 <= l < |m.queues| :: Without(r.queues[l], x) == Without(m.queues[l], x))
            && (m.procs[x].st == Ready ==> Last(r, x, np))
  {
    var k := NicedOut(m, x, np);
    assert InNoQueue(k, x) by {
      forall l | 0 <= l < |k.queues| ensures x !in k.queues[l] {
        assert QueueOk(m, l);
        WithoutIn(m.queues[l], x, x);
      }
    }
    forall l | 0 <= l < |m.queues| ensures Without(k.queues[l], x) == Without(m.queues[l], x) { WithoutTwice(m.queues[l], x); }
    if m.procs[x].st == Ready { PushSame(k.(procs := k.procs[x := Enqueued(k.procs[x])]), x); }
  }

  /** `collect_zombies`: an ended process leaves the table, unless it has the CPU. */
  lemma ReapOutcome<Id>(m: Machine<Id>, x: Id)
    requires Inv(m) && x in m.procs
    ensures var r := Step(m, Reap(x));
            if m.procs[x].st == Exited then OthersSame(m, r, x) && x !in r.procs else r == m
  {
  }

  // ------------------------------------------------------------------
  // Ended for good
  // ------------------------------------------------------------------

  /** Only a reap takes a process out of the table, and an ended one changes no more. */
  lemma TableStep<Id>(m: Machine<Id>, e: Event<Id>, x: Id)
    requires Inv(m) && Allowed(m, e) && x in m.procs && e != Reap(x) && x != m.idle
    ensures x in Step(m, e).procs
    ensures m.procs[x].st == Exited ==> Step(m, e).procs[x].st == Exited
  {
    if Schedules(m, e) {
      WfPrep(m, e);
      ScheduleTable(Prep(m, e), x);
    } else if e.Block? && e.id == x && m.current != Some(x) {
      BlockOutcome(m, x);
    }
  }

  lemma ScheduleTable<Id>(m: Machine<Id>, x: Id)
    requires Wf(m) && m.enabled && m.current.Some? && m.procs[m.current.value].st != Ready && m.procs[m.current.value].st != New
    requires x in m.procs && x != m.idle
    ensures x in Schedule(m).procs
    ensures m.procs[x].st == Exited ==> Schedule(m).procs[x].st == Exited
  {
    if m.procs[m.current.value].st == Running && m.procs[m.current.value].ticks > 1 {
      TickKeeps(m);
    } else {
      var y := TickSwitches(m);
    }
  }

  /** A process that has ended never runs or is ready again, in any run, until it is reaped. */
  lemma {:induction false} EndedForGood<Id>(ms: seq<Machine<Id>>, es: seq<Event<Id>>, x: Id, k: nat)
    requires Run(ms, es) && k < |ms| && x in ms[0].procs && x != ms[0].idle && ms[0].procs[x].st == Exited && Reap(x) !in es[..k]
    ensures x in ms[k].procs && ms[k].procs[x].st == Exited
    decreases k
  {
    if k > 0 {
      RunTail(ms, es);
      TableStep(ms[0], es[0], x);
      IdleStays(ms[0], es[0]);
      assert es[..k][1..] == es[1..][..k - 1] && es[..k][0] == es[0];
      EndedForGood(ms[1..], es[1..], x, k - 1);
    }
  }

  lemma IdleStays<Id>(m: Machine<Id>, e: Event<Id>)
    requires Inv(m) && Allowed(m, e)
    ensures Step(m, e).idle == m.idle
  {
    if Schedules(m, e) { WfPrep(m, e); }
  }

  /** Before the scheduler is started the first process to be enqueued has the CPU at once, with a full slice. */
  lemma FirstEnqueued<Id>(m: Machine<Id>, x: Id)
    requires x in m.procs && |m.queues| == MAX_PRIOS && !m.enabled && m.current.None?
    ensures var p := m.procs[x];
            Enqueue(m, x) == m.(current := Some(x), procs := m.procs[x := Proc(p.base, p.prio, Running, TIME_SLICE_TICKS, p.aging)])
  {
  }
}
