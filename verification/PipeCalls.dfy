/**
 * The pipe under calls as the kernel makes them: interrupts stay off until a
 * system call sleeps or returns, so its sections follow each other.  Only a
 * close in proc_exit of a process that returned from its entry function has
 * interrupts on; the process is EXITED by then, so a timer tick ends it for good.
 */
module PipeCalls {
  import opened Lists
  import opened Options
  import opened PipeProtocol
  import Runs

  /** The pipe, and the process whose call is under way. */
  datatype Kernel = Kernel(pipe: Pipe, cur: Option<Pid>)

  /** Who has to go on next, after this event. */
  function Caller(s: Pipe, e: Event): Option<Pid> {
    if e.Open? || e.Stop? || e.Kill? || e.Spawn? || e.Rouse? || e.p >= |s.procs| || s.procs[e.p].Idle? || Sleeps(s.procs[e.p]) then None else Some(e.p)
  }

  ghost predicate CallEnabled(k: Kernel, e: Event) {
    Enabled(k.pipe, e) && (k.cur.Some? ==> e == Go(k.cur.value) || e == Stop(k.cur.value))
  }

  function CallStep(k: Kernel, e: Event): Kernel {
    var t := Step(k.pipe, e);
    Kernel(t, Caller(t, e))
  }

  ghost predicate CanCall(k: Kernel, es: seq<Event>) {
    Runs.Can(k, es, CallEnabled, CallStep)
  }

  ghost function After(k: Kernel, es: seq<Event>): Kernel {
    Runs.After(k, es, CallStep)
  }

  function Boot(n: nat): Kernel { Kernel(Initial(n), None) }

  /** A run of whole calls is a run of the pipe. */
  lemma {:induction false} CallsAreRuns(k: Kernel, es: seq<Event>)
    requires CanCall(k, es)
    ensures CanRun(k.pipe, es) && After(k, es).pipe == Run(k.pipe, es)
    decreases |es|
  {
    if es != [] { CallsAreRuns(CallStep(k, es[0]), es[1..]); }
  }

  /** Only the current call is between two sections, what it saw is still so, and whoever sleeps is not in the hand of a stopped process and has an open end to wait for. */
  ghost predicate Sound(k: Kernel) {
    var s := k.pipe;
    && (forall p | 0 <= p < |s.procs| && Inside(s.procs[p]) :: k.cur == Some(p))
    && (forall p | 0 <= p < |s.procs| && s.procs[p].Stopped? :: s.procs[p].held.None?)
    && (k.cur.Some? ==> k.cur.value < |s.procs|)
    && EndsOk(s, if k.cur.Some? then s.procs[k.cur.value] else Idle)
  }

  ghost predicate EndsOk(s: Pipe, ph: Phase) {
    && (ph.ReadAlloc? || (s.rq != [] && !(ph.Closing? && ph.wakeReaders)) ==> s.writers > 0)
    && (ph.WriteAlloc? || (s.wq != [] && !(ph.Closing? && ph.wakeWriters)) ==> s.readers > 0)
  }

  /** The step stops a close that has somebody in its hand, or a queue to wake that is not empty. */
  ghost predicate Strands(s: Pipe, e: Event) {
    && e.Stop? && e.p < |s.procs| && s.procs[e.p].Closing?
    && (s.procs[e.p].hand.Some? || (s.writers == 0 && s.rq != []) || (s.readers == 0 && s.wq != []))
  }

  lemma InsideGo(s: Pipe, q: Pid, p: Pid)
    requires Enabled(s, Go(q)) && p < |s.procs| && p != q
    ensures var t := Step(s, Go(q));
            && (Inside(t.procs[p]) ==> Inside(s.procs[p]))
            && (t.procs[p].Stopped? ==> t.procs[p] == s.procs[p])
  {
  }

  lemma OnlyCaller(k: Kernel, e: Event)
    requires CallEnabled(k, e) && forall p | 0 <= p < |k.pipe.procs| && Inside(k.pipe.procs[p]) :: k.cur == Some(p)
    ensures var t := Step(k.pipe, e); forall p | 0 <= p < |t.procs| && Inside(t.procs[p]) :: Caller(t, e) == Some(p)
  {
    var t := Step(k.pipe, e);
    forall p | 0 <= p < |t.procs| && Inside(t.procs[p]) ensures Caller(t, e) == Some(p) {
      if e.Go? && p != e.p { InsideGo(k.pipe, e.p, p); }
    }
  }

  lemma GoStops(s: Pipe, p: Pid)
    requires Enabled(s, Go(p)) && forall q | 0 <= q < |s.procs| && s.procs[q].Stopped? :: s.procs[q].held.None?
    ensures var t := Step(s, Go(p));
            !t.procs[p].Stopped? && forall q | 0 <= q < |t.procs| && t.procs[q].Stopped? :: t.procs[q].held.None?
  {
    var t := Step(s, Go(p));
    forall q | 0 <= q < |t.procs| && t.procs[q].Stopped? ensures t.procs[q].held.None? {
      if q != p { InsideGo(s, p, q); }
    }
  }

  lemma EndsTurn(s: Pipe, p: Pid, ph: Phase)
    requires p < |s.procs| && s.procs[p] == ph && ph.Closing? && EndsOk(s, ph)
    ensures EndsOk(CloseTurn(s, p, ph), CloseTurn(s, p, ph).procs[p])
  {
  }

  lemma EndsGo(k: Kernel, p: Pid)
    requires Sound(k) && CallEnabled(k, Go(p))
    ensures var t := Step(k.pipe, Go(p)); EndsOk(t, if Caller(t, Go(p)).Some? then t.procs[p] else Idle)
  {
    var s := k.pipe;
    match s.procs[p]
    case Closing(_, _, _) => EndsTurn(s, p, s.procs[p]);
    case Waking(t) => assert Unblock(s, t).rq == s.rq && Unblock(s, t).wq == s.wq;
    case _ =>
  }

  /** That is lost by exactly those steps. */
  lemma SoundIff(k: Kernel, e: Event)
    requires Sound(k) && CallEnabled(k, e)
    ensures Sound(CallStep(k, e)) <==> !Strands(k.pipe, e)
  {
    OnlyCaller(k, e);
    match e
    case Go(p) =>
      GoStops(k.pipe, p);
      EndsGo(k, p);
    case Stop(p) => assert Step(k.pipe, e).procs[p].held == k.pipe.procs[p].hand;
    case _ =>
  }

  /** No step of the run does that. */
  ghost predicate Spared(s: Pipe, es: seq<Event>)
    decreases |es|
  {
    es == [] || (!Strands(s, es[0]) && Spared(Step(s, es[0]), es[1..]))
  }

  lemma {:induction false} SoundRun(k: Kernel, es: seq<Event>)
    requires Sound(k) && CanCall(k, es) && Spared(k.pipe, es)
    ensures Sound(After(k, es))
    decreases |es|
  {
    if es != [] {
      SoundIff(k, es[0]);
      SoundRun(CallStep(k, es[0]), es[1..]);
    }
  }

  /**
   * Any number of processes whose calls are not interrupted, and no close that
   * is stopped while it has somebody left to wake: a queued process has
   * somebody to wait for at the other end, or a close is waking its queue; and
   * whenever no call is under way, each sleeper is in a queue; in its own, and
   * with its other end open, if no sleep was ended by anything else.  So a close of the last writer has woken every reader by the
   * time it returns, and a close of the last reader every writer.
   */
  lemma SleepersHavePeers(n: nat, es: seq<Event>)
    requires CanCall(Boot(n), es) && Spared(Initial(n), es)
    ensures var k := After(Boot(n), es); var s := k.pipe;
            && s == Run(Initial(n), es)
            && (s.rq != [] ==> s.writers > 0 || ClosingReaders(s))
            && (s.wq != [] ==> s.readers > 0 || ClosingWriters(s))
            && (k.cur.None? ==> forall p: Pid | p < |s.procs| && Sleeps(s.procs[p]) :: p in s.rq || p in s.wq)
            && (k.cur.None? && Undisturbed(Initial(n), es) ==>
                  forall p | 0 <= p < |s.procs| ::
                    && (s.procs[p].ReadQueued? ==> p in s.rq && s.writers > 0)
                    && (s.procs[p].WriteQueued? ==> p in s.wq && s.readers > 0))
  {
    InitialOk(n, 0, 0);
    CallsAreRuns(Boot(n), es);
    StreamRun(Initial(n), es);
    SoundRun(Boot(n), es);
    var k := After(Boot(n), es);
    var s := k.pipe;
    if k.cur.None? {
      forall p: Pid | p < |s.procs| && Sleeps(s.procs[p]) ensures p in s.rq || p in s.wq {
        assert Kept(s.rq, s.wq, s.procs, p);
      }
    }
    if Undisturbed(Initial(n), es) { QueuesRun(Initial(n), es); }
  }

  lemma StrandedStep(s: Pipe, e: Event, p: Pid)
    requires QueuesOk(s) && Enabled(s, e) && !Disturbs(s, e) && p < |s.procs| && Stranded(s.procs, p)
    ensures p < |Step(s, e).procs| && Step(s, e).procs[p] == s.procs[p] && Stranded(Step(s, e).procs, p)
  {
    var t := Step(s, e);
    var h :| 0 <= h < |s.procs| && s.procs[h].Stopped? && Hand(s.procs[h]) == Some(p);
    assert HandOk(s.rq, s.wq, s.procs, h) && Sleeps(s.procs[p]);
    if e.Go? {
      StrandedGo(s, e.p, p, h);
    } else {
      assert t.procs[h] == s.procs[h];
    }
  }

  lemma StrandedGo(s: Pipe, q: Pid, p: Pid, h: Pid)
    requires Enabled(s, Go(q)) && p < |s.procs| && h < |s.procs| && s.procs[h].Stopped? && q != p
    requires Hand(s.procs[q]) != Some(p)
    ensures var t := Step(s, Go(q)); |t.procs| == |s.procs| && t.procs[h] == s.procs[h] && t.procs[p] == s.procs[p]
  {
  }

  /** A process in the hand of a stopped close sleeps on in every later run, interrupted calls or not, unless something else unblocks or kills it. */
  lemma {:induction false} StrandedSleeps(s: Pipe, es: seq<Event>, p: Pid)
    requires QueuesOk(s) && CanRun(s, es) && Undisturbed(s, es) && p < |s.procs| && Stranded(s.procs, p)
    ensures p < |Run(s, es).procs| && Run(s, es).procs[p] == s.procs[p] && Sleeps(s.procs[p])
    decreases |es|
  {
    if es == [] {
      var h :| 0 <= h < |s.procs| && s.procs[h].Stopped? && Hand(s.procs[h]) == Some(p);
      assert HandOk(s.rq, s.wq, s.procs, h);
    } else {
      StrandedStep(s, es[0], p);
      QueuesStep(s, es[0]);
      StrandedSleeps(Step(s, es[0]), es[1..], p);
    }
  }

  // ------------------------------------------------------------------
  // A close from beginning to end
  // ------------------------------------------------------------------

  /** What a close has left to do. */
  function Left(s: Pipe, p: Pid): nat {
    if p >= |s.procs| || !s.procs[p].Closing? then 0
    else
      var ph := s.procs[p];
      1 + 2 * (|s.rq| + |s.wq|) + (if ph.wakeReaders then 1 else 0) + (if ph.wakeWriters then 1 else 0) + (if ph.hand.Some? then 1 else 0)
  }

  lemma TurnLeft(s: Pipe, p: Pid)
    requires p < |s.procs| && s.procs[p].Closing?
    ensures Left(CloseTurn(s, p, s.procs[p]), p) < Left(s, p)
  {
  }

  /** The turns of `kpipe_close` from here until it returns. */
  function FinishClose(s: Pipe, p: Pid): Pipe
    decreases Left(s, p)
  {
    if p < |s.procs| && s.procs[p].Closing? then
      TurnLeft(s, p);
      FinishClose(CloseTurn(s, p, s.procs[p]), p)
    else s
  }

  function Awake(ph: Phase): Phase {
    match ph
    case ReadQueued(n) => ReadTop(n)
    case WriteQueued(data) => WriteTop(data)
    case _ => ph
  }

  /** Everybody in `q` wakes up. */
  function AllAwake(procs: seq<Phase>, q: seq<Pid>): (r: seq<Phase>)
    ensures |r| == |procs|
  {
    seq(|procs|, i requires 0 <= i < |procs| => if i in q then Awake(procs[i]) else procs[i])
  }

  lemma AwakeTwice(procs: seq<Phase>, q: seq<Pid>)
    requires q != []
    ensures AllAwake(AllAwake(procs, [q[0]]), q[1..]) == AllAwake(procs, q)
  {
    assert q == [q[0]] + q[1..];
  }

  /** Taking the first of a queue in hand and waking it. */
  lemma HandAndWake(s: Pipe, p: Pid, ph: Phase, t: Pid)
    requires p < |s.procs| && p != t && ph.Closing? && ph.hand.None? && s.procs[p] == ph.(hand := Some(t))
    ensures CloseTurn(s, p, s.procs[p]) == s.(procs := AllAwake(s.procs[p := ph], [t]))
  {
    assert CloseTurn(s, p, s.procs[p]).procs == AllAwake(s.procs[p := ph], [t]);
  }

  lemma WriterTurns(s: Pipe, p: Pid)
    requires p < |s.procs| && p !in s.wq && s.wq != [] && s.procs[p] == Closing(false, true, None)
    ensures FinishClose(s, p) == FinishClose(s.(wq := s.wq[1..], procs := AllAwake(s.procs, [s.wq[0]])), p)
  {
    var t := CloseTurn(s, p, s.procs[p]);
    HandAndWake(t, p, s.procs[p], s.wq[0]);
    assert t.procs[p := s.procs[p]] == s.procs;
    assert FinishClose(s, p) == FinishClose(t, p);
  }

  lemma ReaderTurns(s: Pipe, p: Pid, ph: Phase)
    requires p < |s.procs| && p !in s.rq && s.rq != [] && s.procs[p] == ph && ph.Closing? && ph.wakeReaders && ph.hand.None?
    ensures FinishClose(s, p) == FinishClose(s.(rq := s.rq[1..], procs := AllAwake(s.procs, [s.rq[0]])), p)
  {
    var t := CloseTurn(s, p, ph);
    HandAndWake(t, p, ph, s.rq[0]);
    assert t.procs[p := ph] == s.procs;
    assert FinishClose(s, p) == FinishClose(t, p);
  }

  lemma {:induction false} WritersPart(s: Pipe, p: Pid)
    requires p < |s.procs| && p !in s.wq && s.procs[p] == Closing(false, true, None)
    ensures FinishClose(s, p) == s.(wq := [], procs := AllAwake(s.procs, s.wq)[p := Idle])
    decreases |s.wq|
  {
    if s.wq == [] {
      var t := CloseTurn(s, p, s.procs[p]);
      assert FinishClose(s, p) == FinishClose(t, p) == FinishClose(CloseTurn(t, p, t.procs[p]), p);
      assert AllAwake(s.procs, []) == s.procs;
    } else {
      WriterTurns(s, p);
      AwakeTwice(s.procs, s.wq);
      WritersPart(s.(wq := s.wq[1..], procs := AllAwake(s.procs, [s.wq[0]])), p);
    }
  }

  lemma {:induction false} ReadersPart(s: Pipe, p: Pid, ww: bool)
    requires p < |s.procs| && p !in s.rq && s.procs[p] == Closing(true, ww, None)
    ensures FinishClose(s, p) == FinishClose(s.(rq := [], procs := AllAwake(s.procs, s.rq)[p := Closing(false, ww, None)]), p)
    decreases |s.rq|
  {
    if s.rq == [] {
      assert AllAwake(s.procs, []) == s.procs;
    } else {
      ReaderTurns(s, p, s.procs[p]);
      AwakeTwice(s.procs, s.rq);
      ReadersPart(s.(rq := s.rq[1..], procs := AllAwake(s.procs, [s.rq[0]])), p, ww);
    }
  }

  /**
   * A whole close: if it leaves no writer it wakes every queued reader, if it
   * leaves no reader every queued writer, and nobody else.
   */
  lemma CloseWakes(s: Pipe, p: Pid, rd: bool, wr: bool)
    requires QueuesOk(s) && p < |s.procs| && s.procs[p].Idle?
    ensures var t := CloseSection(s, p, rd, wr);
            var (r, w) := (if t.writers == 0 then s.rq else [], if t.readers == 0 then s.wq else []);
            FinishClose(t, p) == t.(rq := if t.writers == 0 then [] else s.rq, wq := if t.readers == 0 then [] else s.wq,
                                    procs := AllAwake(s.procs, r + w))
  {
    var t := CloseSection(s, p, rd, wr);
    var (r, w) := (if t.writers == 0 then s.rq else [], if t.readers == 0 then s.wq else []);
    assert p !in r && p !in w;
    ReadersDone(t, p, r, t.readers == 0 && s.wq != []);
    var u := t.(rq := if r == [] then t.rq else [], procs := AllAwake(t.procs, r)[p := Closing(false, t.readers == 0 && s.wq != [], None)]);
    WritersDone(u, p, w);
    AwakeBoth(s.procs, p, t.procs[p], u.procs[p], r, w);
  }

  lemma WritersDone(s: Pipe, p: Pid, w: seq<Pid>)
    requires p < |s.procs| && p !in w && s.procs[p] == Closing(false, w != [], None) && (w == [] || w == s.wq)
    ensures FinishClose(s, p) == s.(wq := if w == [] then s.wq else [], procs := AllAwake(s.procs, w)[p := Idle])
  {
    if w != [] {
      WritersPart(s, p);
    } else {
      Done(s, p);
      assert AllAwake(s.procs, w) == s.procs;
    }
  }

  lemma AwakeBoth(procs: seq<Phase>, p: Pid, x: Phase, y: Phase, r: seq<Pid>, w: seq<Pid>)
    requires p < |procs| && procs[p].Idle? && p !in r && p !in w
    ensures AllAwake(AllAwake(procs[p := x], r)[p := y], w)[p := Idle] == AllAwake(procs, r + w)
  {
  }

  lemma ReadersDone(s: Pipe, p: Pid, r: seq<Pid>, ww: bool)
    requires p < |s.procs| && p !in r && s.procs[p] == Closing(r != [], ww, None) && (r == [] || r == s.rq)
    ensures FinishClose(s, p) ==
            FinishClose(s.(rq := if r == [] then s.rq else [], procs := AllAwake(s.procs, r)[p := Closing(false, ww, None)]), p)
  {
    if r != [] { ReadersPart(s, p, ww); } else { assert AllAwake(s.procs, r)[p := s.procs[p]] == s.procs; }
  }

  lemma Done(s: Pipe, p: Pid)
    requires p < |s.procs| && s.procs[p] == Closing(false, false, None)
    ensures FinishClose(s, p) == SetPhase(s, p, Idle)
  {
  }

  /** These are steps of the pipe, none of them anybody else's. */
  lemma {:induction false} FinishIsRun(s: Pipe, p: Pid) returns (es: seq<Event>)
    requires p < |s.procs| && s.procs[p].Closing?
    ensures CanCall(Kernel(s, Some(p)), es) && After(Kernel(s, Some(p)), es) == Kernel(FinishClose(s, p), None)
    decreases Left(s, p)
  {
    TurnLeft(s, p);
    var t := CloseTurn(s, p, s.procs[p]);
    var k := CallStep(Kernel(s, Some(p)), Go(p));
    assert k == Kernel(t, Caller(t, Go(p)));
    var rest := [];
    if t.procs[p].Closing? {
      rest := FinishIsRun(t, p);
    } else {
      assert CanCall(k, []) && After(k, []) == k == Kernel(FinishClose(t, p), None);
    }
    es := [Go(p)] + rest;
    assert es[1..] == rest;
  }
}
