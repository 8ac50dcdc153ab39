/**
 * The scheduler as a machine over values: a process table, four FIFO ready
 * queues, the process that owns the CPU and the idle process.  `Scheduler`
 * implements these transitions in place; the theorems of `Fairness` are about
 * every run of them.
 */
module SchedModel {
  import opened Lists
  import opened Options

  const MAX_PROCS := 128
  const MAX_PRIOS := 4
  const MIN_PRIO := 0
  const HIGHEST_PRIO := 3
  const TIME_SLICE_TICKS := 5
  const AGING_THRESHOLD := 10

  datatype ProcState = New | Ready | Running | Blocked | Exited

  datatype Proc = Proc(base: int, prio: int, st: ProcState, ticks: int, aging: int)

  datatype Machine<Id(==)> = Machine(
    procs: map<Id, Proc>,
    queues: seq<seq<Id>>,
    current: Option<Id>,
    idle: Id,
    enabled: bool)

  function Clamp(prio: int): (r: int)
    ensures MIN_PRIO <= r <= HIGHEST_PRIO
    ensures MIN_PRIO <= prio <= HIGHEST_PRIO ==> r == prio
  {
    if prio < MIN_PRIO then MIN_PRIO else if prio > HIGHEST_PRIO then HIGHEST_PRIO else prio
  }

  // ------------------------------------------------------------------
  // Transitions
  // ------------------------------------------------------------------

  /** `q_push`: `x` joins the tail of the queue of its priority. */
  function Push<Id(==)>(m: Machine<Id>, x: Id): Machine<Id>
    requires x in m.procs && |m.queues| == MAX_PRIOS
  {
    var l := Clamp(m.procs[x].prio);
    m.(queues := m.queues[l := m.queues[l] + [x]])
  }

  function Enqueued(p: Proc): Proc {
    p.(prio := Clamp(p.prio), st := Ready, ticks := TIME_SLICE_TICKS, aging := 0)
  }

  /** `sched_enqueue` */
  function Enqueue<Id(==)>(m: Machine<Id>, x: Id): Machine<Id>
    requires x in m.procs && |m.queues| == MAX_PRIOS
  {
    var p := m.procs[x];
    if !m.enabled && m.current.None? then
      m.(current := Some(x), procs := m.procs[x := p.(st := Running, ticks := TIME_SLICE_TICKS)])
    else
      Push(m.(procs := m.procs[x := Enqueued(p)]), x)
  }

  /** `sched_remove` */
  function Dequeue<Id(==)>(m: Machine<Id>, x: Id): Machine<Id>
    requires x in m.procs && |m.queues| == MAX_PRIOS
  {
    var m1 := if m.current == Some(x) then m.(current := None) else m;
    var l := m.procs[x].prio;
    if m.procs[x].st == Ready && MIN_PRIO <= l <= HIGHEST_PRIO then
      m1.(queues := m1.queues[l := Without(m1.queues[l], x)])
    else m1
  }

  /** Does this aging pass lift the process one level? */
  predicate Promoted(p: Proc) {
    p.prio < HIGHEST_PRIO && p.aging + 1 >= AGING_THRESHOLD
  }

  function AgeProc(p: Proc): Proc {
    if Promoted(p) then p.(prio := p.prio + 1, aging := 0)
    else p.(aging := if p.aging + 1 > AGING_THRESHOLD then AGING_THRESHOLD else p.aging + 1)
  }

  function Rises<Id(==)>(procs: map<Id, Proc>): Id -> bool {
    x => x in procs && Promoted(procs[x])
  }

  function Stays<Id(==)>(procs: map<Id, Proc>): Id -> bool {
    x => !(x in procs && Promoted(procs[x]))
  }

  /** Queue `l` after an aging pass: those left of it, then those lifted from the level below. */
  function AgedQueue<Id(==)>(procs: map<Id, Proc>, queues: seq<seq<Id>>, l: nat): seq<Id>
    requires l < |queues|
  {
    Filter(queues[l], Stays(procs)) + if l > 0 then Filter(queues[l - 1], Rises(procs)) else []
  }

  function AgedProcs<Id(==)>(procs: map<Id, Proc>): map<Id, Proc> {
    map x | x in procs :: if procs[x].st == Ready then AgeProc(procs[x]) else procs[x]
  }

  /** `apply_aging` */
  function Age<Id(==)>(m: Machine<Id>): Machine<Id>
    requires |m.queues| == MAX_PRIOS
  {
    m.(procs := AgedProcs(m.procs),
       queues := seq(MAX_PRIOS, l requires 0 <= l < MAX_PRIOS => AgedQueue(m.procs, m.queues, l)))
  }

  /** The level `pick_next` takes its process from, or -1. */
  function TopLevel<Id>(queues: seq<seq<Id>>, from: int): (l: int)
    requires -1 <= from < |queues|
    ensures -1 <= l <= from
    ensures l >= 0 ==> queues[l] != []
    ensures forall k | l < k <= from :: queues[k] == []
    decreases from + 1
  {
    if from < 0 then -1
    else if queues[from] != [] then from
    else TopLevel(queues, from - 1)
  }

  /** The tick at the start of `schedule`. */
  function Ticked(p: Proc): Proc {
    if p.ticks > 0 then p.(ticks := p.ticks - 1) else p
  }

  /** Does this call of `schedule` go on to choose a process? */
  predicate Decides<Id(==)>(m: Machine<Id>)
    requires m.current.Some? ==> m.current.value in m.procs
  {
    m.enabled && m.current.Some?
    && var p := Ticked(m.procs[m.current.value]);
    !(p.ticks > 0 && p.st == Running)
  }

  /** A preempted process becomes ready at its base priority; a blocked or exited one loses its slice. */
  function Rejoined(p: Proc, isIdle: bool): Proc {
    if p.st == Running && !isIdle then p.(st := Ready, ticks := TIME_SLICE_TICKS, prio := p.base, aging := 0)
    else if p.st == Blocked || p.st == Exited then p.(ticks := 0)
    else p
  }

  /** The process on the CPU leaves it. */
  function Leave<Id(==)>(m: Machine<Id>): Machine<Id>
    requires |m.queues| == MAX_PRIOS
    requires m.current.Some? && m.current.value in m.procs
  {
    var c := m.current.value;
    var p := m.procs[c];
    var m1 := m.(procs := m.procs[c := Rejoined(p, c == m.idle)]);
    if p.st == Running && c != m.idle then Push(m1, c) else m1
  }

  function TickCurrent<Id(==)>(m: Machine<Id>): Machine<Id>
    requires m.current.Some? && m.current.value in m.procs
  {
    m.(procs := m.procs[m.current.value := Ticked(m.procs[m.current.value])])
  }

  /** What `schedule` does with the process that had the CPU, once it decides to choose again. */
  function Requeue<Id(==)>(m: Machine<Id>): Machine<Id>
    requires |m.queues| == MAX_PRIOS
    requires m.current.Some? && m.current.value in m.procs
  {
    Leave(TickCurrent(m))
  }

  /** `pick_next` with the idle process as fallback: who runs next. */
  function Chosen<Id(==)>(m: Machine<Id>): Id
    requires |m.queues| == MAX_PRIOS
  {
    var l := TopLevel(m.queues, HIGHEST_PRIO);
    if l < 0 then m.idle else m.queues[l][0]
  }

  /** A process that is given the CPU. */
  function Given(p: Proc, isIdle: bool): Proc {
    var q := p.(st := Running, ticks := TIME_SLICE_TICKS);
    if isIdle then q else q.(prio := q.base, aging := 0)
  }

  function Dispatch<Id(==)>(m: Machine<Id>): Machine<Id>
    requires |m.queues| == MAX_PRIOS && Chosen(m) in m.procs
  {
    var l := TopLevel(m.queues, HIGHEST_PRIO);
    var x := Chosen(m);
    m.(procs := m.procs[x := Given(m.procs[x], x == m.idle)],
       queues := if l < 0 then m.queues else m.queues[l := m.queues[l][1..]],
       current := Some(x))
  }

  /** `schedule`, for processes that all have a saved frame. */
  function Schedule<Id(==)>(m: Machine<Id>): Machine<Id>
    requires Wf(m)
  {
    if !m.enabled || m.current.None? then m
    else if !Decides(m) then TickCurrent(m)
    else
      WfRequeue(m);
      WfAge(Requeue(m));
      Dispatch(Age(Requeue(m)))
  }

  // ------------------------------------------------------------------
  // The invariant
  // ------------------------------------------------------------------

  ghost predicate ProcOk<Id>(m: Machine<Id>, x: Id)
    requires x in m.procs && |m.queues| == MAX_PRIOS
  {
    var p := m.procs[x];
    && MIN_PRIO <= p.base <= HIGHEST_PRIO && MIN_PRIO <= p.prio <= HIGHEST_PRIO
    && 0 <= p.aging <= AGING_THRESHOLD && 0 <= p.ticks <= TIME_SLICE_TICKS
    && (x != m.idle ==>
          && p.base <= p.prio
          && (p.prio < HIGHEST_PRIO ==> p.aging < AGING_THRESHOLD)
          && (p.st == Ready ==> x in m.queues[p.prio])
          && (p.st == Running ==> m.current == Some(x) && p.prio == p.base))
  }

  ghost predicate QueueOk<Id>(m: Machine<Id>, l: nat)
    requires l < |m.queues|
  {
    && NoDup(m.queues[l])
    && forall x | x in m.queues[l] ::
         x in m.procs && x != m.idle && m.procs[x].st == Ready && m.procs[x].prio == l
  }

  /** What every transition of the scheduler keeps, also half-way through a system call. */
  ghost predicate Wf<Id>(m: Machine<Id>) {
    && |m.queues| == MAX_PRIOS
    && |m.procs| <= MAX_PROCS
    && m.idle in m.procs && m.procs[m.idle].st == Running
    && (m.current.Some? ==> m.current.value in m.procs)
    && (forall x {:trigger ProcOk(m, x)} | x in m.procs :: ProcOk(m, x))
    && (forall l {:trigger QueueOk(m, l)} | 0 <= l < MAX_PRIOS :: QueueOk(m, l))
  }

  /** What holds between two system calls or ticks. */
  ghost predicate Inv<Id>(m: Machine<Id>) {
    && Wf(m)
    && m.enabled
    && m.current.Some?
    && m.procs[m.current.value].st == Running
    && m.procs[m.current.value].ticks >= 1
  }

  // ------------------------------------------------------------------
  // Each transition keeps it
  // ------------------------------------------------------------------

  /** Rewriting one table entry, without moving it in or out of the ready state. */
  lemma WfSet<Id>(m: Machine<Id>, x: Id, p: Proc, cur: Option<Id>)
    requires Wf(m) && x in m.procs && (x == m.idle ==> p.st == Running)
    requires (m.procs[x].st == Ready) == (p.st == Ready) && (p.st == Ready ==> p.prio == m.procs[x].prio)
    requires cur.Some? ==> cur.value in m.procs
    requires forall y | y in m.procs && y != x && y != m.idle && m.procs[y].st == Running :: cur == Some(y)
    requires 0 <= p.base <= HIGHEST_PRIO && 0 <= p.prio <= HIGHEST_PRIO
    requires 0 <= p.aging <= AGING_THRESHOLD && 0 <= p.ticks <= TIME_SLICE_TICKS
    requires x != m.idle ==> p.base <= p.prio && (p.prio < HIGHEST_PRIO ==> p.aging < AGING_THRESHOLD)
    requires x != m.idle ==> (p.st == Running ==> cur == Some(x) && p.prio == p.base)
    ensures Wf(m.(procs := m.procs[x := p], current := cur))
  {
    var m' := m.(procs := m.procs[x := p], current := cur);
    assert m'.procs.Keys == m.procs.Keys;
    assert |m'.procs| == |m'.procs.Keys| == |m.procs|;
    forall y | y in m'.procs ensures ProcOk(m', y) { assert ProcOk(m, y); }
    forall l | 0 <= l < MAX_PRIOS ensures QueueOk(m', l) { assert QueueOk(m, l); }
  }

  /** A process that was not ready joins the tail of a queue. */
  lemma WfJoin<Id>(m: Machine<Id>, x: Id, p: Proc)
    requires Wf(m) && x in m.procs && x != m.idle && m.procs[x].st != Ready && p.st == Ready
    requires 0 <= p.base <= p.prio <= HIGHEST_PRIO && (p.prio < HIGHEST_PRIO ==> p.aging < AGING_THRESHOLD)
    requires 0 <= p.aging <= AGING_THRESHOLD && 0 <= p.ticks <= TIME_SLICE_TICKS
    ensures Wf(Push(m.(procs := m.procs[x := p]), x))
  {
    var m' := Push(m.(procs := m.procs[x := p]), x);
    assert m'.procs.Keys == m.procs.Keys;
    assert |m'.procs| == |m'.procs.Keys| == |m.procs|;
    forall y | y in m'.procs ensures ProcOk(m', y) { assert ProcOk(m, y); }
    forall l | 0 <= l < MAX_PRIOS ensures QueueOk(m', l) { assert QueueOk(m, l); }
  }

  lemma OthersRunning<Id>(m: Machine<Id>, cur: Option<Id>)
    requires Wf(m) && (cur == m.current || (m.current.Some? && (m.current.value == m.idle || m.procs[m.current.value].st != Running)))
    ensures forall y | y in m.procs && y != m.idle && m.procs[y].st == Running :: cur == Some(y)
  {
    forall y | y in m.procs && y != m.idle && m.procs[y].st == Running ensures cur == Some(y) { assert ProcOk(m, y); }
  }

  lemma WfTick<Id>(m: Machine<Id>)
    requires Wf(m) && m.current.Some?
    ensures Wf(TickCurrent(m))
  {
    var c := m.current.value;
    assert ProcOk(m, c);
    OthersRunning(m, m.current);
    WfSet(m, c, Ticked(m.procs[c]), m.current);
  }

  lemma WfLeave<Id>(m: Machine<Id>)
    requires Wf(m) && m.current.Some?
    ensures Wf(Leave(m))
    ensures Leave(m).procs[m.current.value].st != Running || m.current.value == m.idle
  {
    var c := m.current.value;
    var p := m.procs[c];
    assert ProcOk(m, c);
    if p.st == Running && c != m.idle {
      WfJoin(m, c, Rejoined(p, false));
    } else {
      OthersRunning(m, m.current);
      WfSet(m, c, Rejoined(p, c == m.idle), m.current);
    }
  }

  lemma WfRequeue<Id>(m: Machine<Id>)
    requires Wf(m) && m.current.Some?
    ensures Wf(TickCurrent(m)) && Wf(Requeue(m))
    ensures Requeue(m).procs[m.current.value].st != Running || m.current.value == m.idle
  {
    WfTick(m);
    WfLeave(TickCurrent(m));
  }

  lemma WfAge<Id>(m: Machine<Id>)
    requires Wf(m)
    ensures Wf(Age(m))
    ensures Chosen(Age(m)) in Age(m).procs
  {
    var m' := Age(m);
    assert m'.procs.Keys == m.procs.Keys;
    assert |m'.procs| == |m'.procs.Keys| == |m.procs.Keys| == |m.procs|;
    forall l | 0 <= l < MAX_PRIOS ensures QueueOk(m', l) { AgedQueueOk(m, l); }
    forall x | x in m'.procs ensures ProcOk(m', x) { AgedProcOk(m, x); }
    var l := TopLevel(m'.queues, HIGHEST_PRIO);
    if l >= 0 { assert QueueOk(m', l); assert m'.queues[l][0] in m'.queues[l]; }
  }

  /** Who is in the stay and rise parts of the queue of level `l`. */
  lemma AgedMember<Id>(m: Machine<Id>, l: nat, x: Id)
    requires Wf(m) && l < MAX_PRIOS
    ensures x in Filter(m.queues[l], Stays(m.procs)) <==> x in m.queues[l] && x in m.procs && !Promoted(m.procs[x])
    ensures x in Filter(m.queues[l], Rises(m.procs)) <==> x in m.queues[l] && x in m.procs && Promoted(m.procs[x])
  {
    assert QueueOk(m, l);
    FilterIn(m.queues[l], Stays(m.procs), x);
    FilterIn(m.queues[l], Rises(m.procs), x);
  }

  lemma AgedQueueOk<Id>(m: Machine<Id>, l: nat)
    requires Wf(m) && l < MAX_PRIOS
    ensures QueueOk(Age(m), l)
  {
    var q := Age(m).queues[l];
    assert q == AgedQueue(m.procs, m.queues, l);
    assert QueueOk(m, l);
    FilterNoDup(m.queues[l], Stays(m.procs));
    if l > 0 {
      assert QueueOk(m, l - 1);
      FilterNoDup(m.queues[l - 1], Rises(m.procs));
    }
    forall x | x in q
      ensures x in m.procs && x != m.idle && Age(m).procs[x].st == Ready && Age(m).procs[x].prio == l
    {
      AgedMember(m, l, x);
      if l > 0 { AgedMember(m, l - 1, x); }
    }
    forall i, j | 0 <= i < j < |q| ensures q[i] != q[j] {
      AgedMember(m, l, q[i]);
      if l > 0 { AgedMember(m, l - 1, q[j]); }
    }
  }

  lemma AgedProcOk<Id>(m: Machine<Id>, x: Id)
    requires Wf(m) && x in m.procs
    ensures ProcOk(Age(m), x)
  {
    var p := m.procs[x];
    assert ProcOk(m, x);
    if x != m.idle && p.st == Ready {
      FilterIn(m.queues[p.prio], Stays(m.procs), x);
      FilterIn(m.queues[p.prio], Rises(m.procs), x);
    }
  }

  lemma WfDispatch<Id>(m: Machine<Id>)
    requires Wf(m) && m.enabled && Chosen(m) in m.procs
    requires m.current.Some? && (m.procs[m.current.value].st != Running || m.current.value == m.idle)
    ensures Inv(Dispatch(m))
  {
    var m' := Dispatch(m);
    var l := TopLevel(m.queues, HIGHEST_PRIO);
    var x := Chosen(m);
    assert l >= 0 ==> QueueOk(m, l) && x in m.queues[l];
    forall k | 0 <= k < MAX_PRIOS ensures QueueOk(m', k) {
      assert QueueOk(m, k);
      if k == l { assert x !in m.queues[l][1..]; }
    }
    forall y | y in m'.procs ensures ProcOk(m', y) {
      assert ProcOk(m, y);
      if y != x && m.procs[y].prio == l && l >= 0 { assert m.queues[l] == [x] + m.queues[l][1..]; }
    }
  }

  /** After the process on the CPU is blocked, exits, is preempted or just ticks, the machine is consistent again. */
  lemma InvSchedule<Id>(m: Machine<Id>)
    requires Wf(m) && m.enabled && m.current.Some?
    ensures Inv(Schedule(m))
  {
    var c := m.current.value;
    assert ProcOk(m, c);
    if !Decides(m) {
      WfTick(m);
    } else {
      WfRequeue(m);
      WfAge(Requeue(m));
      WfDispatch(Age(Requeue(m)));
    }
  }

  lemma WfEnqueue<Id>(m: Machine<Id>, x: Id)
    requires Wf(m) && x in m.procs && x != m.idle && (m.enabled || m.current.Some?)
    requires m.procs[x].st != Ready
    ensures Wf(Enqueue(m, x))
  {
    assert ProcOk(m, x);
    WfJoin(m, x, m.procs[x].(st := Ready, ticks := TIME_SLICE_TICKS, aging := 0));
  }
}
