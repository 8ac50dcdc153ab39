/**
 * One pipe and the processes that use it, interleaved at the sections of
 * `pipe.c` in which interrupts are off: the check, the second check that queues
 * the caller, the wake-up after the section, and each turn of the loops that
 * wake everybody on close.
 */
module PipeProtocol {
  import opened Lists
  import opened Options
  import Runs

  const PIPE_CAP := 4096

  type Byte = n: nat | n < 256
  type Pos = n: int | n > 0 witness 1
  type Pid = nat         // a process by its slot in the process table

  /** Where a process is in `kpipe_read`, `kpipe_write` or `kpipe_close`. */
  datatype Phase =
    | Idle
    | ReadTop(n: Pos)                 // about to look at the buffer
    | ReadAlloc(n: Pos)               // saw it empty; has a waiter, not yet queued
    | ReadQueued(n: Pos)              // blocked
    | WriteTop(data: seq<Byte>)
    | WriteAlloc(data: seq<Byte>)
    | WriteQueued(data: seq<Byte>)    // blocked
    | Waking(target: Pid)             // done but for proc_unblock(target)
    | Closing(wakeReaders: bool, wakeWriters: bool, hand: Option<Pid>)
    | Dead                            // killed; its slot is free
    | Stopped(owesReaders: bool, owesWriters: bool, held: Option<Pid>)      // ended for good in the middle of that

  datatype Pipe = Pipe(
    contents: seq<Byte>,              // what the ring buffer holds
    readers: nat, writers: nat,
    rq: seq<Pid>, wq: seq<Pid>,       // the two queues of waiters
    procs: seq<Phase>,
    written: seq<Byte>,               // everything ever put into the buffer
    taken: seq<Byte>                  // everything ever taken out
  )

  datatype Event =
    | Open(rd: bool, wr: bool)
    | StartRead(p: Pid, n: Pos)
    | StartWrite(p: Pid, data: seq<Byte>)
    | StartClose(p: Pid, rd: bool, wr: bool)
    | Go(p: Pid)                      // the next section of p's call
    | Kill(p: Pid)                    // proc_kill, which takes nobody off a pipe's queues
    | Spawn(p: Pid)                   // a new process in the slot
    | Rouse(p: Pid)                   // p is unblocked by something other than this pipe
    | Stop(p: Pid)                    // p closes from proc_exit with interrupts on, and the timer takes the CPU

  ghost predicate Enabled(s: Pipe, e: Event) {
    match e
    case Open(rd, wr) => true
    case StartRead(p, n) => p < |s.procs| && s.procs[p].Idle?
    case StartWrite(p, data) => p < |s.procs| && s.procs[p].Idle? && data != []
    case StartClose(p, rd, wr) => p < |s.procs| && s.procs[p].Idle?
    case Go(p) => p < |s.procs| && !s.procs[p].Idle? && !Sleeps(s.procs[p]) && !s.procs[p].Stopped? && !s.procs[p].Dead?
    case Kill(p) => p < |s.procs| && !Inside(s.procs[p]) && !s.procs[p].Stopped? && !s.procs[p].Dead?
    case Spawn(p) => p < |s.procs| && s.procs[p].Dead?
    case Rouse(p) => p < |s.procs| && Sleeps(s.procs[p])
    case Stop(p) => p < |s.procs| && s.procs[p].Closing?
  }

  /** Between two sections of a call. */
  predicate Inside(ph: Phase) { ph.ReadAlloc? || ph.WriteAlloc? || ph.Waking? || ph.Closing? }

  function Min(a: int, b: int): int { if a < b then a else b }

  function SetPhase(s: Pipe, p: Pid, ph: Phase): Pipe {
    if p < |s.procs| then s.(procs := s.procs[p := ph]) else s
  }

  /** `proc_unblock` on a process that waits for the pipe: it goes back to the top of its loop. */
  function Unblock(s: Pipe, t: Pid): Pipe {
    if t >= |s.procs| then s
    else match s.procs[t]
      case ReadQueued(n) => SetPhase(s, t, ReadTop(n))
      case WriteQueued(data) => SetPhase(s, t, WriteTop(data))
      case _ => s
  }

  /** The first section of `kpipe_read`. */
  function ReadSection(s: Pipe, p: Pid, n: Pos): Pipe {
    if s.contents != [] then
      var k := Min(|s.contents|, n);
      var t := s.(contents := s.contents[k..], taken := s.taken + s.contents[..k]);
      if s.wq == [] then SetPhase(t, p, Idle) else SetPhase(t.(wq := s.wq[1..]), p, Waking(s.wq[0]))
    else if s.writers == 0 then SetPhase(s, p, Idle)
    else SetPhase(s, p, ReadAlloc(n))
  }

  /** The second one, with the waiter at hand. */
  function ReadRecheck(s: Pipe, p: Pid, n: Pos): Pipe {
    if s.contents != [] then SetPhase(s, p, ReadTop(n))
    else if s.writers == 0 then SetPhase(s, p, Idle)
    else SetPhase(s.(rq := s.rq + [p]), p, ReadQueued(n))
  }

  function WriteSection(s: Pipe, p: Pid, data: seq<Byte>): Pipe {
    if s.readers == 0 then SetPhase(s, p, Idle)
    else if |s.contents| < PIPE_CAP then
      var k := Min(PIPE_CAP - |s.contents|, |data|);
      var t := s.(contents := s.contents + data[..k], written := s.written + data[..k]);
      if s.rq == [] then SetPhase(t, p, Idle) else SetPhase(t.(rq := s.rq[1..]), p, Waking(s.rq[0]))
    else SetPhase(s, p, WriteAlloc(data))
  }

  /** Unlike the read, it does not look at the other end again. */
  function WriteRecheck(s: Pipe, p: Pid, data: seq<Byte>): Pipe {
    if |s.contents| < PIPE_CAP then SetPhase(s, p, WriteTop(data))
    else SetPhase(s.(wq := s.wq + [p]), p, WriteQueued(data))
  }

  function CloseSection(s: Pipe, p: Pid, rd: bool, wr: bool): Pipe {
    var t := s.(readers := if rd && s.readers > 0 then s.readers - 1 else s.readers,
                writers := if wr && s.writers > 0 then s.writers - 1 else s.writers);
    SetPhase(t, p, Closing(t.writers == 0 && s.rq != [], t.readers == 0 && s.wq != [], None))
  }

  /** One turn of the loops that wake all readers and then all writers. */
  function CloseTurn(s: Pipe, p: Pid, ph: Phase): Pipe
    requires ph.Closing?
  {
    if ph.hand.Some? then SetPhase(Unblock(s, ph.hand.value), p, ph.(hand := None))
    else if ph.wakeReaders then
      if s.rq == [] then SetPhase(s, p, ph.(wakeReaders := false))
      else SetPhase(s.(rq := s.rq[1..]), p, ph.(hand := Some(s.rq[0])))
    else if ph.wakeWriters then
      if s.wq == [] then SetPhase(s, p, ph.(wakeWriters := false))
      else SetPhase(s.(wq := s.wq[1..]), p, ph.(hand := Some(s.wq[0])))
    else SetPhase(s, p, Idle)
  }

  function Step(s: Pipe, e: Event): Pipe {
    match e
    case Open(rd, wr) => s.(readers := if rd then s.readers + 1 else s.readers, writers := if wr then s.writers + 1 else s.writers)
    case StartRead(p, n) => SetPhase(s, p, ReadTop(n))
    case StartWrite(p, data) => SetPhase(s, p, WriteTop(data))
    case StartClose(p, rd, wr) => CloseSection(s, p, rd, wr)
    case Go(p) =>
      if p >= |s.procs| then s
      else (match s.procs[p]
        case ReadTop(n) => ReadSection(s, p, n)
        case ReadAlloc(n) => ReadRecheck(s, p, n)
        case WriteTop(data) => WriteSection(s, p, data)
        case WriteAlloc(data) => WriteRecheck(s, p, data)
        case Waking(t) => SetPhase(Unblock(s, t), p, Idle)
        case Closing(_, _, _) => CloseTurn(s, p, s.procs[p])
        case _ => s)
    case Kill(p) => SetPhase(s, p, Dead)
    case Spawn(p) => SetPhase(s, p, Idle)
    case Rouse(p) => Unblock(s, p)
    case Stop(p) =>
      if p < |s.procs| && s.procs[p].Closing? then
        SetPhase(s, p, Stopped(s.procs[p].wakeReaders, s.procs[p].wakeWriters, s.procs[p].hand))
      else s
  }

  /** A read that ends with this step and returns 0 bytes. */
  ghost predicate ReturnsEof(s: Pipe, e: Event) {
    && e.Go? && Enabled(s, e) && (s.procs[e.p].ReadTop? || s.procs[e.p].ReadAlloc?)
    && Step(s, e).procs[e.p].Idle? && Step(s, e).taken == s.taken
  }

  // ------------------------------------------------------------------
  // The pipe is a byte stream
  // ------------------------------------------------------------------

  ghost predicate Stream(s: Pipe) {
    s.written == s.taken + s.contents && |s.contents| <= PIPE_CAP
  }

  lemma StreamStep(s: Pipe, e: Event)
    requires Stream(s) && Enabled(s, e)
    ensures Stream(Step(s, e))
  {
    if e.Go? {
      match s.procs[e.p]
      case ReadTop(n) => StreamRead(s, e.p, n);
      case WriteTop(data) => StreamWrite(s, e.p, data);
      case Closing(_, _, _) => StreamTurn(s, e.p, s.procs[e.p]);
      case _ =>
    }
  }

  lemma StreamRead(s: Pipe, p: Pid, n: Pos)
    requires Stream(s)
    ensures Stream(ReadSection(s, p, n))
  {
    if s.contents != [] {
      var k := Min(|s.contents|, n);
      assert s.contents == s.contents[..k] + s.contents[k..];
      assert s.taken + s.contents == s.taken + s.contents[..k] + s.contents[k..];
    }
  }

  lemma StreamWrite(s: Pipe, p: Pid, data: seq<Byte>)
    requires Stream(s)
    ensures Stream(WriteSection(s, p, data))
  {
    if s.readers != 0 && |s.contents| < PIPE_CAP {
      var k := Min(PIPE_CAP - |s.contents|, |data|);
      assert s.taken + s.contents + data[..k] == s.taken + (s.contents + data[..k]);
    }
  }

  lemma StreamTurn(s: Pipe, p: Pid, ph: Phase)
    requires Stream(s) && ph.Closing?
    ensures Stream(CloseTurn(s, p, ph))
  {
  }

  lemma TakesSome(s: Pipe, p: Pid, n: Pos)
    requires s.contents != []
    ensures |ReadSection(s, p, n).taken| > |s.taken|
  {
  }

  /** A read returns 0 only when no writer is left and everything written has been read. */
  lemma EofMeansDrained(s: Pipe, e: Event)
    requires Stream(s) && ReturnsEof(s, e)
    ensures s.writers == 0 && s.contents == [] && s.taken == s.written
  {
    if s.procs[e.p].ReadTop? && s.contents != [] { TakesSome(s, e.p, s.procs[e.p].n); }
  }

  // ------------------------------------------------------------------
  // Every blocked process is queued or about to be woken
  // ------------------------------------------------------------------

  predicate Sleeps(ph: Phase) { ph.ReadQueued? || ph.WriteQueued? }

  /** The process this one has taken off a queue and will wake, unless it is stopped before. */
  function Hand(ph: Phase): Option<Pid> {
    match ph
    case Waking(t) => Some(t)
    case Closing(_, _, h) => h
    case Stopped(_, _, h) => h
    case _ => None
  }

  ghost predicate AboutToWake(procs: seq<Phase>, t: Pid) {
    exists h | 0 <= h < |procs| :: !procs[h].Stopped? && Hand(procs[h]) == Some(t)
  }

  ghost predicate Stranded(procs: seq<Phase>, t: Pid) {
    exists h | 0 <= h < |procs| :: procs[h].Stopped? && Hand(procs[h]) == Some(t)
  }

  ghost predicate Held(procs: seq<Phase>, t: Pid) {
    exists h | 0 <= h < |procs| :: Hand(procs[h]) == Some(t)
  }

  /** A sleeper is in one of the queues or in somebody's hand. */
  ghost predicate Kept(q: seq<Pid>, q': seq<Pid>, procs: seq<Phase>, p: Pid) {
    p < |procs| && Sleeps(procs[p]) ==> p in q || p in q' || Held(procs, p)
  }

  /** What `h` has in its hand is a sleeper, in neither queue and in no other hand. */
  ghost predicate HandOk(q: seq<Pid>, q': seq<Pid>, procs: seq<Phase>, h: Pid) {
    h < |procs| && Hand(procs[h]).Some? ==>
      var t := Hand(procs[h]).value;
      && t < |procs| && Sleeps(procs[t]) && t !in q && t !in q'
      && forall i | 0 <= i < |procs| && Hand(procs[i]) == Some(t) :: i == h
  }

  ghost predicate Placed(q: seq<Pid>, q': seq<Pid>, procs: seq<Phase>) {
    && NoDup(q) && NoDup(q')
    && (forall i | 0 <= i < |q| :: q[i] < |procs| && Sleeps(procs[q[i]]) && q[i] !in q')
    && (forall i | 0 <= i < |q'| :: q'[i] < |procs| && Sleeps(procs[q'[i]]))
    && AllKept(q, q', procs)
    && (forall h {:trigger HandOk(q, q', procs, h)} :: HandOk(q, q', procs, h))
  }

  ghost predicate AllKept(q: seq<Pid>, q': seq<Pid>, procs: seq<Phase>) {
    forall p {:trigger Kept(q, q', procs, p)} :: Kept(q, q', procs, p)
  }

  /** A process goes to a phase in which it does not sleep, and keeps what it has in its hand. */
  lemma KeptPlain(q: seq<Pid>, q': seq<Pid>, procs: seq<Phase>, p: Pid, ph: Phase)
    requires AllKept(q, q', procs) && p < |procs| && !Sleeps(ph) && Hand(ph) == Hand(procs[p])
    ensures AllKept(q, q', procs[p := ph])
  {
    var r := procs[p := ph];
    forall x: Pid ensures Kept(q, q', r, x) {
      assert Kept(q, q', procs, x);
      if h :| 0 <= h < |procs| && Hand(procs[h]) == Some(x) { assert Hand(r[h]) == Some(x); }
    }
  }

  lemma PlacedPlain(q: seq<Pid>, q': seq<Pid>, procs: seq<Phase>, p: Pid, ph: Phase)
    requires Placed(q, q', procs) && p < |procs| && !Sleeps(procs[p]) && !Sleeps(ph) && Hand(ph) == Hand(procs[p])
    ensures Placed(q, q', procs[p := ph])
  {
    KeptPlain(q, q', procs, p, ph);
    var r := procs[p := ph];
    forall h: Pid ensures HandOk(q, q', r, h) { assert HandOk(q, q', procs, h); }
  }

  /** It queues up. */
  lemma KeptJoin(q: seq<Pid>, q': seq<Pid>, procs: seq<Phase>, p: Pid, ph: Phase)
    requires AllKept(q, q', procs) && p < |procs| && Hand(procs[p]).None? && Sleeps(ph)
    ensures AllKept(q + [p], q', procs[p := ph])
  {
    var r := procs[p := ph];
    forall x: Pid ensures Kept(q + [p], q', r, x) {
      assert Kept(q, q', procs, x);
      if h :| 0 <= h < |procs| && Hand(procs[h]) == Some(x) { assert Hand(r[h]) == Some(x); }
    }
  }

  lemma PlacedJoin(q: seq<Pid>, q': seq<Pid>, procs: seq<Phase>, p: Pid, ph: Phase)
    requires Placed(q, q', procs) && p < |procs| && !Sleeps(procs[p]) && Hand(procs[p]).None? && Sleeps(ph)
    ensures Placed(q + [p], q', procs[p := ph])
  {
    KeptJoin(q, q', procs, p, ph);
    var r := procs[p := ph];
    forall h: Pid ensures HandOk(q + [p], q', r, h) { assert HandOk(q, q', procs, h); }
  }

  /** It takes the first of a queue into its hand. */
  lemma KeptPop(q: seq<Pid>, q': seq<Pid>, procs: seq<Phase>, p: Pid, ph: Phase)
    requires AllKept(q, q', procs) && p < |procs| && Hand(procs[p]).None? && q != []
    requires !Sleeps(ph) && Hand(ph) == Some(q[0])
    ensures AllKept(q[1..], q', procs[p := ph])
  {
    var (r, t) := (procs[p := ph], q[0]);
    forall x: Pid ensures Kept(q[1..], q', r, x) {
      assert Kept(q, q', procs, x);
      assert Hand(r[p]) == Some(t);
      if h :| 0 <= h < |procs| && Hand(procs[h]) == Some(x) { assert Hand(r[h]) == Some(x); }
    }
  }

  lemma PlacedPop(q: seq<Pid>, q': seq<Pid>, procs: seq<Phase>, p: Pid, ph: Phase)
    requires Placed(q, q', procs) && p < |procs| && !Sleeps(procs[p]) && Hand(procs[p]).None? && q != []
    requires !Sleeps(ph) && Hand(ph) == Some(q[0])
    ensures Placed(q[1..], q', procs[p := ph])
  {
    var (r, t) := (procs[p := ph], q[0]);
    KeptPop(q, q', procs, p, ph);
    forall i | 0 <= i < |procs| ensures Hand(procs[i]) != Some(t) { assert HandOk(q, q', procs, i); }
    forall h: Pid ensures HandOk(q[1..], q', r, h) { assert HandOk(q, q', procs, h); }
  }

  /** It wakes the one in its hand, if that one sleeps. */
  lemma KeptWake(q: seq<Pid>, q': seq<Pid>, procs: seq<Phase>, p: Pid, ph: Phase, t: Pid, woken: seq<Phase>)
    requires AllKept(q, q', procs) && p < |procs| && Hand(procs[p]) == Some(t) && |woken| == |procs|
    requires forall i | 0 <= i < |procs| && i != t :: woken[i] == procs[i]
    requires t < |procs| ==> !Sleeps(woken[t]) && Hand(woken[t]) == Hand(procs[t])
    requires !Sleeps(ph) && Hand(ph).None?
    ensures AllKept(q, q', woken[p := ph])
  {
    var r := woken[p := ph];
    forall x: Pid ensures Kept(q, q', r, x) {
      assert Kept(q, q', procs, x);
      if h :| 0 <= h < |procs| && Hand(procs[h]) == Some(x) { assert h != p ==> Hand(r[h]) == Some(x); }
    }
  }

  lemma PlacedWake(q: seq<Pid>, q': seq<Pid>, procs: seq<Phase>, p: Pid, ph: Phase, t: Pid, top: Phase)
    requires Placed(q, q', procs) && p < |procs| && !Sleeps(procs[p]) && Hand(procs[p]) == Some(t) && t < |procs|
    requires !Sleeps(ph) && Hand(ph).None? && !Sleeps(top) && Hand(top).None?
    ensures Placed(q, q', procs[t := top][p := ph])
  {
    assert HandOk(q, q', procs, p);
    KeptWake(q, q', procs, p, ph, t, procs[t := top]);
    var r := procs[t := top][p := ph];
    forall h: Pid ensures HandOk(q, q', r, h) { assert HandOk(q, q', procs, h); }
  }

  lemma PlacedSwap(q: seq<Pid>, q': seq<Pid>, procs: seq<Phase>)
    requires Placed(q, q', procs)
    ensures Placed(q', q, procs)
  {
    forall p: Pid ensures Kept(q', q, procs, p) { assert Kept(q, q', procs, p); }
    forall h: Pid ensures HandOk(q', q, procs, h) { assert HandOk(q, q', procs, h); }
  }

  /** The queues hold what they should, in any state of any number of processes. */
  ghost predicate QueuesOk(s: Pipe) {
    && Placed(s.rq, s.wq, s.procs)
    && (forall i | 0 <= i < |s.rq| :: s.procs[s.rq[i]].ReadQueued?)
    && (forall i | 0 <= i < |s.wq| :: s.procs[s.wq[i]].WriteQueued?)
  }

  /** A sleeper is killed or unblocked from elsewhere, and its node stays where it is. */
  predicate Disturbs(s: Pipe, e: Event) {
    (e.Kill? || e.Rouse?) && e.p < |s.procs| && Sleeps(s.procs[e.p])
  }

  /** The queues stop holding what they should exactly then. */
  lemma QueuesIff(s: Pipe, e: Event)
    requires QueuesOk(s) && Enabled(s, e)
    ensures QueuesOk(Step(s, e)) <==> !Disturbs(s, e)
  {
    if Disturbs(s, e) {
      var t := Step(s, e);
      assert Kept(s.rq, s.wq, s.procs, e.p);
      if h :| 0 <= h < |s.procs| && Hand(s.procs[h]) == Some(e.p) {
        assert Hand(t.procs[h]) == Some(e.p) && !HandOk(t.rq, t.wq, t.procs, h);
      }
    } else {
      QueuesStep(s, e);
    }
  }

  lemma QueuesStep(s: Pipe, e: Event)
    requires QueuesOk(s) && Enabled(s, e) && !Disturbs(s, e)
    ensures QueuesOk(Step(s, e))
  {
    match e
    case Open(rd, wr) =>
    case Go(p) => QueuesGo(s, p);
    case Rouse(p) =>
    case _ => PlacedPlain(s.rq, s.wq, s.procs, e.p, Step(s, e).procs[e.p]);
  }

  lemma QueuesGo(s: Pipe, p: Pid)
    requires QueuesOk(s) && Enabled(s, Go(p))
    ensures QueuesOk(Step(s, Go(p)))
  {
    match s.procs[p]
    case ReadTop(n) => QueuesTake(s, p, n);
    case WriteTop(data) => QueuesPut(s, p, data);
    case ReadAlloc(n) =>
      var t := ReadRecheck(s, p, n);
      if t.rq != s.rq { PlacedJoin(s.rq, s.wq, s.procs, p, t.procs[p]); } else { PlacedPlain(s.rq, s.wq, s.procs, p, t.procs[p]); }
    case WriteAlloc(data) => QueuesFull(s, p, data);
    case Waking(x) => QueuesWake(s, p, x, Idle);
    case Closing(_, _, hand) => QueuesTurn(s, p, s.procs[p]);
  }

  lemma QueuesTake(s: Pipe, p: Pid, n: Pos)
    requires QueuesOk(s) && p < |s.procs| && s.procs[p] == ReadTop(n)
    ensures QueuesOk(ReadSection(s, p, n))
  {
    var t := ReadSection(s, p, n);
    if t.wq != s.wq {
      PlacedSwap(s.rq, s.wq, s.procs);
      PlacedPop(s.wq, s.rq, s.procs, p, t.procs[p]);
      PlacedSwap(t.wq, t.rq, t.procs);
    } else {
      PlacedPlain(s.rq, s.wq, s.procs, p, t.procs[p]);
    }
  }

  lemma QueuesPut(s: Pipe, p: Pid, data: seq<Byte>)
    requires QueuesOk(s) && p < |s.procs| && s.procs[p] == WriteTop(data)
    ensures QueuesOk(WriteSection(s, p, data))
  {
    var t := WriteSection(s, p, data);
    if t.rq != s.rq {
      PlacedPop(s.rq, s.wq, s.procs, p, t.procs[p]);
    } else {
      PlacedPlain(s.rq, s.wq, s.procs, p, t.procs[p]);
    }
  }

  lemma QueuesFull(s: Pipe, p: Pid, data: seq<Byte>)
    requires QueuesOk(s) && p < |s.procs| && s.procs[p] == WriteAlloc(data)
    ensures QueuesOk(WriteRecheck(s, p, data))
  {
    var t := WriteRecheck(s, p, data);
    if t.wq != s.wq {
      PlacedSwap(s.rq, s.wq, s.procs);
      PlacedJoin(s.wq, s.rq, s.procs, p, t.procs[p]);
      PlacedSwap(t.wq, t.rq, t.procs);
    } else {
      PlacedPlain(s.rq, s.wq, s.procs, p, t.procs[p]);
    }
  }

  lemma QueuesWake(s: Pipe, p: Pid, x: Pid, ph: Phase)
    requires QueuesOk(s) && p < |s.procs| && !Sleeps(s.procs[p]) && Hand(s.procs[p]) == Some(x)
    requires !Sleeps(ph) && Hand(ph).None?
    ensures QueuesOk(SetPhase(Unblock(s, x), p, ph))
  {
    assert HandOk(s.rq, s.wq, s.procs, p);
    PlacedWake(s.rq, s.wq, s.procs, p, ph, x, Unblock(s, x).procs[x]);
  }

  lemma QueuesTurn(s: Pipe, p: Pid, ph: Phase)
    requires QueuesOk(s) && p < |s.procs| && s.procs[p] == ph && ph.Closing?
    ensures QueuesOk(CloseTurn(s, p, ph))
  {
    var t := CloseTurn(s, p, ph);
    if ph.hand.Some? {
      QueuesWake(s, p, ph.hand.value, ph.(hand := None));
    } else if ph.wakeReaders && s.rq != [] {
      PlacedPop(s.rq, s.wq, s.procs, p, t.procs[p]);
    } else if !ph.wakeReaders && ph.wakeWriters && s.wq != [] {
      PlacedSwap(s.rq, s.wq, s.procs);
      PlacedPop(s.wq, s.rq, s.procs, p, t.procs[p]);
      PlacedSwap(t.wq, t.rq, t.procs);
    } else {
      PlacedPlain(s.rq, s.wq, s.procs, p, t.procs[p]);
    }
  }

  /** Whatever happens, no sleeper drops out of both queues and every hand. */
  lemma KeptStep(s: Pipe, e: Event)
    requires AllKept(s.rq, s.wq, s.procs) && Enabled(s, e)
    ensures AllKept(Step(s, e).rq, Step(s, e).wq, Step(s, e).procs)
  {
    match e
    case Open(rd, wr) =>
    case Go(p) => KeptGo(s, p);
    case _ => KeptPlain(s.rq, s.wq, s.procs, e.p, Step(s, e).procs[e.p]);
  }

  lemma KeptSwap(q: seq<Pid>, q': seq<Pid>, procs: seq<Phase>)
    requires AllKept(q, q', procs)
    ensures AllKept(q', q, procs)
  {
    forall p: Pid ensures Kept(q', q, procs, p) { assert Kept(q, q', procs, p); }
  }

  lemma KeptGo(s: Pipe, p: Pid)
    requires AllKept(s.rq, s.wq, s.procs) && Enabled(s, Go(p))
    ensures var t := Step(s, Go(p)); AllKept(t.rq, t.wq, t.procs)
  {
    match s.procs[p]
    case Waking(x) => KeptUnblock(s, p, x, Idle);
    case Closing(_, _, _) => KeptTurn(s, p, s.procs[p]);
    case _ => KeptMove(s, p);
  }

  lemma KeptUnblock(s: Pipe, p: Pid, x: Pid, ph: Phase)
    requires AllKept(s.rq, s.wq, s.procs) && p < |s.procs| && Hand(s.procs[p]) == Some(x) && !Sleeps(ph) && Hand(ph).None?
    ensures var t := SetPhase(Unblock(s, x), p, ph); AllKept(t.rq, t.wq, t.procs)
  {
    KeptWake(s.rq, s.wq, s.procs, p, ph, x, Unblock(s, x).procs);
  }

  lemma KeptTurn(s: Pipe, p: Pid, ph: Phase)
    requires AllKept(s.rq, s.wq, s.procs) && p < |s.procs| && s.procs[p] == ph && ph.Closing?
    ensures var t := CloseTurn(s, p, ph); AllKept(t.rq, t.wq, t.procs)
  {
    var t := CloseTurn(s, p, ph);
    if ph.hand.Some? {
      KeptUnblock(s, p, ph.hand.value, ph.(hand := None));
    } else {
      KeptQueues(s, p, t);
    }
  }

  /** The queues and the actor's phase change together: it joins one, takes the first of one, or leaves them as they are. */
  lemma KeptQueues(s: Pipe, p: Pid, t: Pipe)
    requires AllKept(s.rq, s.wq, s.procs) && p < |s.procs| && Hand(s.procs[p]).None? && p < |t.procs| && t.procs == s.procs[p := t.procs[p]]
    requires var ph := t.procs[p];
             || (t.rq == s.rq && t.wq == s.wq && !Sleeps(ph) && Hand(ph).None?)
             || (t.rq == s.rq + [p] && t.wq == s.wq && Sleeps(ph))
             || (t.wq == s.wq + [p] && t.rq == s.rq && Sleeps(ph))
             || (s.rq != [] && t.rq == s.rq[1..] && t.wq == s.wq && !Sleeps(ph) && Hand(ph) == Some(s.rq[0]))
             || (s.wq != [] && t.wq == s.wq[1..] && t.rq == s.rq && !Sleeps(ph) && Hand(ph) == Some(s.wq[0]))
    ensures AllKept(t.rq, t.wq, t.procs)
  {
    var ph := t.procs[p];
    if Sleeps(ph) && t.rq == s.rq + [p] {
      KeptJoin(s.rq, s.wq, s.procs, p, ph);
    } else if Sleeps(ph) {
      KeptSwap(s.rq, s.wq, s.procs);
      KeptJoin(s.wq, s.rq, s.procs, p, ph);
      KeptSwap(t.wq, t.rq, t.procs);
    } else if Hand(ph).None? {
      KeptPlain(s.rq, s.wq, s.procs, p, ph);
    } else if t.wq == s.wq {
      KeptPop(s.rq, s.wq, s.procs, p, ph);
    } else {
      KeptSwap(s.rq, s.wq, s.procs);
      KeptPop(s.wq, s.rq, s.procs, p, ph);
      KeptSwap(t.wq, t.rq, t.procs);
    }
  }

  lemma KeptMove(s: Pipe, p: Pid)
    requires AllKept(s.rq, s.wq, s.procs) && Enabled(s, Go(p)) && !s.procs[p].Waking? && !s.procs[p].Closing?
    ensures var t := Step(s, Go(p)); AllKept(t.rq, t.wq, t.procs)
  {
    KeptQueues(s, p, Step(s, Go(p)));
  }

  // ------------------------------------------------------------------
  // One reader and one writer
  // ------------------------------------------------------------------

  predicate Reads(ph: Phase) { ph.ReadTop? || ph.ReadAlloc? || ph.ReadQueued? }
  predicate Writes(ph: Phase) { ph.WriteTop? || ph.WriteAlloc? || ph.WriteQueued? }

  /** Only `r` reads and only `w` writes; anybody may open and close. */
  ghost predicate Solo(s: Pipe, r: Pid, w: Pid) {
    forall p | 0 <= p < |s.procs| :: (Reads(s.procs[p]) ==> p == r) && (Writes(s.procs[p]) ==> p == w)
  }

  predicate SoloEvent(e: Event, r: Pid, w: Pid) {
    (e.StartRead? ==> e.p == r) && (e.StartWrite? ==> e.p == w)
  }

  ghost predicate ClosingReaders(s: Pipe) {
    exists c | 0 <= c < |s.procs| :: s.procs[c].Closing? && s.procs[c].wakeReaders
  }

  ghost predicate ClosingWriters(s: Pipe) {
    exists c | 0 <= c < |s.procs| :: s.procs[c].Closing? && s.procs[c].wakeWriters
  }

  /** A close was stopped before it had woken all readers. */
  ghost predicate StoppedReaders(s: Pipe) {
    exists c | 0 <= c < |s.procs| :: s.procs[c].Stopped? && s.procs[c].owesReaders
  }

  /** The reader sleeps only on an empty pipe that somebody can still write, the writer only on a full one. */
  ghost predicate Discipline(s: Pipe) {
    && (s.rq != [] ==> s.contents == [] && (s.writers > 0 || ClosingReaders(s) || StoppedReaders(s)))
    && (s.wq != [] ==> |s.contents| == PIPE_CAP)
  }

  /** The phase it had is of the same kind. */
  predicate SameKind(ph: Phase, was: Phase) {
    (Reads(ph) ==> Reads(was)) && (Writes(ph) ==> Writes(was))
  }

  lemma KindsGo(s: Pipe, q: Pid, p: Pid)
    requires Enabled(s, Go(q)) && p < |s.procs|
    ensures SameKind(Step(s, Go(q)).procs[p], s.procs[p])
  {
    match s.procs[q]
    case Closing(_, _, _) => KindsTurn(s, q, s.procs[q], p);
    case Waking(t) => KindsWake(s, t, p);
    case _ =>
  }

  lemma KindsWake(s: Pipe, t: Pid, p: Pid)
    requires p < |s.procs|
    ensures |Unblock(s, t).procs| == |s.procs| && SameKind(Unblock(s, t).procs[p], s.procs[p])
  {
  }

  lemma KindsTurn(s: Pipe, q: Pid, ph: Phase, p: Pid)
    requires q < |s.procs| && p < |s.procs| && ph.Closing?
    ensures SameKind(CloseTurn(s, q, ph).procs[p], s.procs[p])
  {
    if ph.hand.Some? { KindsWake(s, ph.hand.value, p); }
  }

  lemma SoloStep(s: Pipe, e: Event, r: Pid, w: Pid)
    requires Solo(s, r, w) && Enabled(s, e) && SoloEvent(e, r, w)
    ensures Solo(Step(s, e), r, w)
  {
    forall p | 0 <= p < |s.procs| ensures (Reads(Step(s, e).procs[p]) ==> p == r) && (Writes(Step(s, e).procs[p]) ==> p == w) {
      if e.Go? { KindsGo(s, e.p, p); }
    }
  }

  lemma AllSame(q: seq<Pid>, x: Pid)
    requires NoDup(q) && forall i | 0 <= i < |q| :: q[i] == x
    ensures |q| <= 1
  {
    NoDupBound(q, {x});
  }

  /** A process that is running is in no queue, so the only reader's queue is empty while it runs. */
  lemma RunningNotQueued(s: Pipe, r: Pid, w: Pid)
    requires QueuesOk(s) && Solo(s, r, w)
    ensures |s.rq| <= 1 && |s.wq| <= 1
    ensures s.rq != [] ==> r < |s.procs| && s.procs[r].ReadQueued?
    ensures s.wq != [] ==> w < |s.procs| && s.procs[w].WriteQueued?
  {
    AllSame(s.rq, r);
    AllSame(s.wq, w);
    if s.rq != [] { assert s.rq[0] == r; }
    if s.wq != [] { assert s.wq[0] == w; }
  }

  lemma ClosersStay(s: Pipe, e: Event)
    requires Enabled(s, e)
    ensures ClosingReaders(s) && !(e.Go? && s.procs[e.p].Closing?) ==> ClosingReaders(Step(s, e)) || StoppedReaders(Step(s, e))
    ensures StoppedReaders(s) ==> StoppedReaders(Step(s, e))
  {
    if ClosingReaders(s) && !(e.Go? && s.procs[e.p].Closing?) {
      var c :| 0 <= c < |s.procs| && s.procs[c].Closing? && s.procs[c].wakeReaders;
      assert Step(s, e).procs[c] == s.procs[c] || (e == Stop(c) && Step(s, e).procs[c].Stopped?);
    }
    if StoppedReaders(s) {
      var c :| 0 <= c < |s.procs| && s.procs[c].Stopped? && s.procs[c].owesReaders;
      assert Step(s, e).procs[c] == s.procs[c];
    }
  }

  lemma DisciplineStep(s: Pipe, e: Event, r: Pid, w: Pid)
    requires Stream(s) && QueuesOk(s) && Solo(s, r, w) && Discipline(s) && Enabled(s, e) && SoloEvent(e, r, w)
    ensures Discipline(Step(s, e))
  {
    RunningNotQueued(s, r, w);
    ClosersStay(s, e);
    var t := Step(s, e);
    match e
    case StartClose(p, rd, wr) =>
      if t.writers == 0 && s.rq != [] { assert t.procs[p].wakeReaders; }
    case Go(p) => 
      match s.procs[p] {
        case Closing(_, _, _) => DisciplineTurn(s, p, s.procs[p]);
        case _ =>
      }
    case _ =>
  }

  lemma DisciplineTurn(s: Pipe, p: Pid, ph: Phase)
    requires QueuesOk(s) && Discipline(s) && |s.rq| <= 1 && |s.wq| <= 1 && p < |s.procs| && s.procs[p] == ph && ph.Closing?
    requires StoppedReaders(s) ==> StoppedReaders(CloseTurn(s, p, ph))
    ensures Discipline(CloseTurn(s, p, ph))
  {
    var t := CloseTurn(s, p, ph);
    if t.rq != [] && s.writers <= 0 && !StoppedReaders(s) {
      var c :| 0 <= c < |s.procs| && s.procs[c].Closing? && s.procs[c].wakeReaders;
      assert t.procs[c].Closing? && t.procs[c].wakeReaders;
    }
  }

  // ------------------------------------------------------------------
  // Runs
  // ------------------------------------------------------------------

  ghost predicate CanRun(s: Pipe, es: seq<Event>) {
    Runs.Can(s, es, Enabled, Step)
  }

  ghost function Run(s: Pipe, es: seq<Event>): Pipe {
    Runs.After(s, es, Step)
  }

  function Initial(n: nat): Pipe {
    Pipe([], 0, 0, [], [], seq(n, i => Idle), [], [])
  }

  lemma InitialOk(n: nat, r: Pid, w: Pid)
    ensures Stream(Initial(n)) && QueuesOk(Initial(n)) && Solo(Initial(n), r, w) && Discipline(Initial(n))
  {
    var s := Initial(n);
    forall p: Pid ensures Kept(s.rq, s.wq, s.procs, p) {}
    forall h: Pid ensures HandOk(s.rq, s.wq, s.procs, h) {}
  }

  lemma {:induction false} StreamRun(s: Pipe, es: seq<Event>)
    requires Stream(s) && AllKept(s.rq, s.wq, s.procs) && CanRun(s, es)
    ensures var t := Run(s, es); Stream(t) && AllKept(t.rq, t.wq, t.procs)
    decreases |es|
  {
    if es != [] {
      StreamStep(s, es[0]);
      KeptStep(s, es[0]);
      StreamRun(Step(s, es[0]), es[1..]);
    }
  }

  /** No sleeper of the run is killed or unblocked from elsewhere. */
  ghost predicate Undisturbed(s: Pipe, es: seq<Event>)
    decreases |es|
  {
    es == [] || (!Disturbs(s, es[0]) && Undisturbed(Step(s, es[0]), es[1..]))
  }

  lemma {:induction false} NobodyDisturbs(s: Pipe, es: seq<Event>)
    requires forall i | 0 <= i < |es| :: !es[i].Kill? && !es[i].Rouse?
    ensures Undisturbed(s, es)
    decreases |es|
  {
    if es != [] { NobodyDisturbs(Step(s, es[0]), es[1..]); }
  }

  lemma {:induction false} QueuesRun(s: Pipe, es: seq<Event>)
    requires QueuesOk(s) && CanRun(s, es) && Undisturbed(s, es)
    ensures QueuesOk(Run(s, es))
    decreases |es|
  {
    if es != [] {
      QueuesStep(s, es[0]);
      QueuesRun(Step(s, es[0]), es[1..]);
    }
  }

  /**
   * Any number of readers, writers and closers, every interleaving, whoever is
   * killed and whatever its slot is used for: what was
   * written is what was read followed by what the buffer holds; a process that
   * sleeps is in one queue, in the hand of a process about to wake it, or in that
   * of one stopped for good; and a read that now returns 0 does so because no
   * writer is left and all has been read.
   */
  lemma PipeIsStream(n: nat, es: seq<Event>, e: Event)
    requires CanRun(Initial(n), es)
    ensures var s := Run(Initial(n), es);
            && s.written == s.taken + s.contents && |s.contents| <= PIPE_CAP
            && (forall p: Pid | p < |s.procs| && Sleeps(s.procs[p]) ::
                  p in s.rq || p in s.wq || AboutToWake(s.procs, p) || Stranded(s.procs, p))
            && (ReturnsEof(s, e) ==> s.writers == 0 && s.taken == s.written)
  {
    InitialOk(n, 0, 0);
    StreamRun(Initial(n), es);
    var s := Run(Initial(n), es);
    forall p: Pid | p < |s.procs| && Sleeps(s.procs[p])
      ensures p in s.rq || p in s.wq || AboutToWake(s.procs, p) || Stranded(s.procs, p)
    {
      assert Kept(s.rq, s.wq, s.procs, p);
    }
    if ReturnsEof(s, e) { EofMeansDrained(s, e); }
  }

  lemma {:induction false} DisciplineRun(s: Pipe, es: seq<Event>, r: Pid, w: Pid)
    requires Stream(s) && QueuesOk(s) && Solo(s, r, w) && Discipline(s)
    requires CanRun(s, es) && Undisturbed(s, es) && forall i | 0 <= i < |es| :: SoloEvent(es[i], r, w)
    ensures QueuesOk(Run(s, es)) && Solo(Run(s, es), r, w) && Discipline(Run(s, es))
    decreases |es|
  {
    if es != [] {
      StreamStep(s, es[0]);
      QueuesStep(s, es[0]);
      SoloStep(s, es[0], r, w);
      DisciplineStep(s, es[0], r, w);
      DisciplineRun(Step(s, es[0]), es[1..], r, w);
    }
  }

  /** With one reading and one writing process whose sleep nothing else ends, neither sleeps while it could go on, and they never sleep in the queues together. */
  lemma WakeUpDiscipline(n: nat, es: seq<Event>, r: Pid, w: Pid)
    requires CanRun(Initial(n), es) && Undisturbed(Initial(n), es) && forall i | 0 <= i < |es| :: SoloEvent(es[i], r, w)
    ensures var s := Run(Initial(n), es);
            && (s.rq != [] ==> s.contents == [] && (s.writers > 0 || ClosingReaders(s) || StoppedReaders(s)))
            && (s.wq != [] ==> |s.contents| == PIPE_CAP)
            && (s.rq == [] || s.wq == [])
  {
    InitialOk(n, r, w);
    DisciplineRun(Initial(n), es, r, w);
  }

  // ------------------------------------------------------------------
  // Where it fails
  // ------------------------------------------------------------------

  /** A queued writer has a reader to wait for, or is about to be woken by a close. */
  ghost predicate WriterSafe(s: Pipe) {
    s.wq != [] ==> s.readers > 0 || ClosingWriters(s)
  }

  ghost predicate OtherClosing(s: Pipe, p: Pid) {
    exists c | 0 <= c < |s.procs| :: c != p && s.procs[c].Closing? && s.procs[c].wakeWriters
  }

  lemma WakersStay(s: Pipe, e: Event)
    requires Enabled(s, e)
    ensures ClosingWriters(s) && !(e.Go? && s.procs[e.p].Closing?) && !e.Stop? ==> ClosingWriters(Step(s, e))
  {
    if ClosingWriters(s) && !(e.Go? && s.procs[e.p].Closing?) && !e.Stop? {
      var c :| 0 <= c < |s.procs| && s.procs[c].Closing? && s.procs[c].wakeWriters;
      assert Step(s, e).procs[c] == s.procs[c];
    }
  }

  lemma WriterSafeTurn(s: Pipe, p: Pid, ph: Phase)
    requires WriterSafe(s) && p < |s.procs| && s.procs[p] == ph && ph.Closing?
    ensures WriterSafe(CloseTurn(s, p, ph))
  {
    var t := CloseTurn(s, p, ph);
    if t.wq != [] && s.readers == 0 {
      var c :| 0 <= c < |s.procs| && s.procs[c].Closing? && s.procs[c].wakeWriters;
      assert t.procs[c].Closing? && t.procs[c].wakeWriters;
    }
  }

  /**
   * At this grain, where any section may come between two of another call, it is
   * lost by exactly two kinds of step, with any number of processes: a writer that
   * saw a full pipe with readers queues after the last one has closed, or the
   * only close that would wake the writers is stopped. When calls are not
   * interrupted the first cannot occur (`PipeCalls.SleepersHavePeers`).
   */
  lemma WriterSafeIff(s: Pipe, e: Event)
    requires WriterSafe(s) && Enabled(s, e)
    ensures WriterSafe(Step(s, e)) <==>
              && !(e.Go? && s.procs[e.p].WriteAlloc? && |s.contents| >= PIPE_CAP && s.readers == 0 && !ClosingWriters(s))
              && !(e.Stop? && s.wq != [] && s.readers == 0 && !OtherClosing(s, e.p))
  {
    WakersStay(s, e);
    match e
    case StartClose(p, rd, wr) =>
      if Step(s, e).readers == 0 && s.wq != [] { assert Step(s, e).procs[p].wakeWriters; }
    case Go(p) => WriterSafeGo(s, p);
    case Stop(p) =>
      var t := Step(s, e);
      assert forall c | 0 <= c < |s.procs| && c != p :: t.procs[c] == s.procs[c];
    case _ => WriterSafeOther(s, e);
  }

  /** A step that touches neither queues, ends nor closes. */
  lemma WriterSafeOther(s: Pipe, e: Event)
    requires WriterSafe(s) && Enabled(s, e) && !e.StartClose? && !e.Go? && !e.Stop?
    ensures WriterSafe(Step(s, e))
  {
    WakersStay(s, e);
  }

  lemma WriterSafeGo(s: Pipe, p: Pid)
    requires WriterSafe(s) && Enabled(s, Go(p))
    ensures WriterSafe(Step(s, Go(p))) <==>
              !(s.procs[p].WriteAlloc? && |s.contents| >= PIPE_CAP && s.readers == 0 && !ClosingWriters(s))
  {
    WakersStay(s, Go(p));
    match s.procs[p]
    case Closing(_, _, _) => WriterSafeTurn(s, p, s.procs[p]);
    case WriteAlloc(data) =>
      var t := Step(s, Go(p));
      if c :| 0 <= c < |t.procs| && t.procs[c].Closing? && t.procs[c].wakeWriters { assert s.procs[c] == t.procs[c]; }
    case _ =>
  }

  /** A reader sleeps in the queue only when there is nothing to read. */
  ghost predicate ReaderSafe(s: Pipe) {
    s.rq != [] ==> s.contents == []
  }

  /** With any number of processes, this is lost by exactly one kind of step: a write that finds two readers queued, for it wakes one. */
  lemma ReaderSafeIff(s: Pipe, e: Event)
    requires ReaderSafe(s) && Enabled(s, e)
    ensures ReaderSafe(Step(s, e)) <==>
              !(e.Go? && s.procs[e.p].WriteTop? && s.procs[e.p].data != [] && s.readers != 0 && |s.contents| < PIPE_CAP && |s.rq| >= 2)
  {
    if e.Go? { ReaderSafeGo(s, e.p); }
  }

  lemma ReaderSafeGo(s: Pipe, p: Pid)
    requires ReaderSafe(s) && Enabled(s, Go(p))
    ensures ReaderSafe(Step(s, Go(p))) <==>
              !(s.procs[p].WriteTop? && s.procs[p].data != [] && s.readers != 0 && |s.contents| < PIPE_CAP && |s.rq| >= 2)
  {
    match s.procs[p]
    case Closing(_, _, _) => assert ReaderSafe(CloseTurn(s, p, s.procs[p]));
    case _ =>
  }

  /** A writer sleeps in the queue only when there is no room. */
  ghost predicate RoomSafe(s: Pipe) {
    s.wq != [] ==> |s.contents| == PIPE_CAP
  }

  /** This is lost by exactly one kind of step too: a read that finds two writers queued, for it wakes one. */
  lemma RoomSafeIff(s: Pipe, e: Event)
    requires Stream(s) && RoomSafe(s) && Enabled(s, e)
    ensures RoomSafe(Step(s, e)) <==> !(e.Go? && s.procs[e.p].ReadTop? && s.contents != [] && |s.wq| >= 2)
  {
    if e.Go? { RoomSafeGo(s, e.p); }
  }

  lemma RoomSafeGo(s: Pipe, p: Pid)
    requires Stream(s) && RoomSafe(s) && Enabled(s, Go(p))
    ensures RoomSafe(Step(s, Go(p))) <==> !(s.procs[p].ReadTop? && s.contents != [] && |s.wq| >= 2)
  {
    match s.procs[p]
    case Closing(_, _, _) => assert RoomSafe(CloseTurn(s, p, s.procs[p]));
    case _ =>
  }
}
