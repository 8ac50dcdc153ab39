/** Runs of a pipe that end badly, step by step. */
module PipeWitness {
  import opened Options
  import opened PipeCalls
  import opened PipeProtocol
  import Runs

  /**
   * A run that ends there, with the close between the two sections of the write:
   * a writer sleeps on a full pipe that nobody can read, and no close is on its
   * way to wake it. A later one may still: here the last writing end is closed.
   */
  lemma StuckWriter() returns (es: seq<Event>)
    ensures CanRun(Initial(2), es)
    ensures var s := Run(Initial(2), es);
            && s.wq == [0] && s.readers == 0 && s.procs == [WriteQueued([1]), Idle]
            && var fs := [StartClose(1, false, true), Go(1), Go(1)];
               CanRun(s, fs) && Run(s, fs).procs == [WriteTop([1]), Closing(false, true, None)]
  {
    var s;
    es, s := FullPipe();
    var s0 := Initial(2);
    es, s := Runs.Extend(s0, es, s, StartWrite(0, [1]), Enabled, Step);
    es, s := Runs.Extend(s0, es, s, Go(0), Enabled, Step);
    assert s.procs == [WriteAlloc([1]), Idle];
    es, s := Runs.Extend(s0, es, s, StartClose(1, true, false), Enabled, Step);
    es, s := Runs.Extend(s0, es, s, Go(1), Enabled, Step);
    es, s := Runs.Extend(s0, es, s, Go(0), Enabled, Step);
    LastCloseWakes(s);
  }

  lemma FullPipe() returns (es: seq<Event>, s: Pipe)
    ensures CanRun(Initial(2), es) && Run(Initial(2), es) == s
    ensures |s.contents| == PIPE_CAP && s.procs == [Idle, Idle] && s.readers == 1 && s.writers == 1 && s.rq == [] && s.wq == []
  {
    var s0 := Initial(2);
    var full: seq<Byte> := seq(PIPE_CAP, i => 0);
    es, s := [], s0;
    es, s := Runs.Extend(s0, es, s, Open(true, true), Enabled, Step);
    es, s := Runs.Extend(s0, es, s, StartWrite(0, full), Enabled, Step);
    es, s := Runs.Extend(s0, es, s, Go(0), Enabled, Step);
    assert s.contents == full && s.procs == [Idle, Idle];
  }

  lemma LastCloseWakes(s: Pipe)
    requires s.procs == [WriteQueued([1]), Idle] && s.wq == [0] && s.rq == [] && s.readers == 0
    ensures var fs := [StartClose(1, false, true), Go(1), Go(1)];
            CanRun(s, fs) && Run(s, fs).procs == [WriteTop([1]), Closing(false, true, None)]
  {
    var fs := [StartClose(1, false, true), Go(1), Go(1)];
    assert fs[1..] == [Go(1), Go(1)];
    var t := Step(s, fs[0]);
    assert t.procs == [WriteQueued([1]), Closing(false, true, None)];
    CloserTakes(t);
  }

  lemma CloserTakes(s: Pipe)
    requires s.procs == [WriteQueued([1]), Closing(false, true, None)] && s.wq == [0]
    ensures CanRun(s, [Go(1), Go(1)]) && Run(s, [Go(1), Go(1)]).procs == [WriteTop([1]), Closing(false, true, None)]
  {
    var fs := [Go(1), Go(1)];
    assert fs[1..] == [Go(1)];
    var t := Step(s, Go(1));
    assert t.procs == [WriteQueued([1]), Closing(false, true, Some(0))];
    CloserWakes(t);
  }

  lemma CloserWakes(s: Pipe)
    requires s.procs == [WriteQueued([1]), Closing(false, true, Some(0))]
    ensures CanRun(s, [Go(1)]) && Run(s, [Go(1)]).procs == [WriteTop([1]), Closing(false, true, None)]
  {
    var t := Step(s, Go(1));
    assert [Go(1)][1..] == [];
    assert CanRun(t, []) && Run(t, []) == t;
    assert t.procs == [WriteTop([1]), Closing(false, true, None)];
  }

  lemma OneQueued() returns (es: seq<Event>)
    ensures CanCall(Boot(3), es) && forall i | 0 <= i < |es| :: !es[i].Kill? && !es[i].Rouse?
    ensures After(Boot(3), es) == Kernel(Pipe([], 1, 1, [0], [], [ReadQueued(1), Idle, Idle], [], []), None)
  {
    var k0 := Boot(3);
    var k := k0;
    es := [];
    es, k := Runs.Extend(k0, es, k, Open(true, true), CallEnabled, CallStep);
    assert k.pipe.procs == [Idle, Idle, Idle] && k.pipe.rq == [];
    es, k := Runs.Extend(k0, es, k, StartRead(0, 1), CallEnabled, CallStep);
    es, k := Runs.Extend(k0, es, k, Go(0), CallEnabled, CallStep);
    es, k := Runs.Extend(k0, es, k, Go(0), CallEnabled, CallStep);
    assert k.pipe.procs == [ReadQueued(1), Idle, Idle] && k.pipe.rq == [0];
  }

  lemma TwoQueued() returns (es: seq<Event>)
    ensures CanCall(Boot(3), es)
    ensures After(Boot(3), es) == Kernel(Pipe([], 1, 1, [0, 1], [], [ReadQueued(1), ReadQueued(1), Idle], [], []), None)
  {
    es := OneQueued();
    var k0 := Boot(3);
    var k := After(k0, es);
    es, k := Runs.Extend(k0, es, k, StartRead(1, 1), CallEnabled, CallStep);
    es, k := Runs.Extend(k0, es, k, Go(1), CallEnabled, CallStep);
    es, k := Runs.Extend(k0, es, k, Go(1), CallEnabled, CallStep);
    assert k.pipe.procs == [ReadQueued(1), ReadQueued(1), Idle];
  }

  lemma Written() returns (es: seq<Event>, k: Kernel)
    ensures CanCall(Boot(3), es) && After(Boot(3), es) == k
    ensures k == Kernel(Pipe([7, 8], 1, 1, [1], [], [ReadQueued(1), ReadQueued(1), Waking(0)], [7, 8], []), Some(2))
  {
    es := TwoQueued();
    var k0 := Boot(3);
    k := After(k0, es);
    es, k := Runs.Extend(k0, es, k, StartWrite(2, [7, 8]), CallEnabled, CallStep);
    assert k.pipe.procs == [ReadQueued(1), ReadQueued(1), WriteTop([7, 8])];
    es, k := Runs.Extend(k0, es, k, Go(2), CallEnabled, CallStep);
    assert k.pipe.procs == [ReadQueued(1), ReadQueued(1), Waking(0)] && k.pipe.rq == [1] && k.pipe.contents == [7, 8];
  }

  /** After which one reader can be left asleep while there is data, and nobody is about to wake it, with no call interrupted. */
  lemma SleepsOnData() returns (es: seq<Event>)
    ensures CanCall(Boot(3), es)
    ensures var s := After(Boot(3), es).pipe; s.rq == [1] && s.contents == [8] && s.procs == [Idle, ReadQueued(1), Idle]
  {
    var k;
    es, k := Written();
    var k0 := Boot(3);
    es, k := Runs.Extend(k0, es, k, Go(2), CallEnabled, CallStep);
    es, k := Runs.Extend(k0, es, k, Go(0), CallEnabled, CallStep);
    assert k.pipe.procs == [Idle, ReadQueued(1), Idle] && k.pipe.contents == [8];
  }

  lemma LastCloseStarted() returns (es: seq<Event>, k: Kernel)
    ensures CanCall(Boot(3), es) && After(Boot(3), es) == k && forall i | 0 <= i < |es| :: !es[i].Kill? && !es[i].Rouse?
    ensures k == Kernel(Pipe([], 1, 0, [0], [], [ReadQueued(1), Closing(true, false, None), Idle], [], []), Some(1))
  {
    es := OneQueued();
    k := After(Boot(3), es);
    es, k := Runs.Extend(Boot(3), es, k, StartClose(1, false, true), CallEnabled, CallStep);
    assert k.pipe.procs == [ReadQueued(1), Closing(true, false, None), Idle];
  }

  /** The last writer ends on the way to waking the reader: a reader is queued, nobody can write, and nobody is about to wake it. */
  lemma CloserStopped() returns (es: seq<Event>)
    ensures CanCall(Boot(3), es)
    ensures After(Boot(3), es) == Kernel(Pipe([], 1, 0, [0], [], [ReadQueued(1), Stopped(true, false, None), Idle], [], []), None)
  {
    var k;
    es, k := LastCloseStarted();
    es, k := Runs.Extend(Boot(3), es, k, Stop(1), CallEnabled, CallStep);
    assert k.pipe.procs == [ReadQueued(1), Stopped(true, false, None), Idle];
  }

  lemma ReaderTaken() returns (es: seq<Event>, k: Kernel)
    ensures CanCall(Boot(3), es) && After(Boot(3), es) == k && forall i | 0 <= i < |es| :: !es[i].Kill? && !es[i].Rouse?
    ensures k == Kernel(Pipe([], 1, 0, [], [], [ReadQueued(1), Closing(true, false, Some(0)), Idle], [], []), Some(1))
  {
    es, k := LastCloseStarted();
    es, k := Runs.Extend(Boot(3), es, k, Go(1), CallEnabled, CallStep);
    assert k.pipe.procs == [ReadQueued(1), Closing(true, false, Some(0)), Idle];
  }

  /** One section later the reader is in its hand, and sleeps on in every later run in which nothing else unblocks or kills it. */
  lemma ReaderStranded() returns (es: seq<Event>)
    ensures CanCall(Boot(3), es)
    ensures var s := After(Boot(3), es).pipe;
            && s == Pipe([], 1, 0, [], [], [ReadQueued(1), Stopped(true, false, Some(0)), Idle], [], [])
            && forall fs | CanRun(s, fs) && Undisturbed(s, fs) :: |Run(s, fs).procs| > 0 && Run(s, fs).procs[0] == ReadQueued(1)
  {
    var k;
    es, k := ReaderTaken();
    es, k := Runs.Extend(Boot(3), es, k, Stop(1), CallEnabled, CallStep);
    assert k.pipe.procs == [ReadQueued(1), Stopped(true, false, Some(0)), Idle];
    StrandedHere(es);
  }

  lemma StrandedHere(es: seq<Event>)
    requires CanCall(Boot(3), es) && forall i | 0 <= i < |es| :: !es[i].Kill? && !es[i].Rouse?
    requires After(Boot(3), es).pipe.procs == [ReadQueued(1), Stopped(true, false, Some(0)), Idle]
    ensures var s := After(Boot(3), es).pipe;
            forall fs | CanRun(s, fs) && Undisturbed(s, fs) :: |Run(s, fs).procs| > 0 && Run(s, fs).procs[0] == ReadQueued(1)
  {
    CallsAreRuns(Boot(3), es);
    InitialOk(3, 0, 0);
    NobodyDisturbs(Initial(3), es);
    QueuesRun(Initial(3), es);
    var s := After(Boot(3), es).pipe;
    assert Hand(s.procs[1]) == Some(0);
    forall fs | CanRun(s, fs) && Undisturbed(s, fs) ensures |Run(s, fs).procs| > 0 && Run(s, fs).procs[0] == ReadQueued(1) {
      StrandedSleeps(s, fs, 0);
    }
  }

  lemma DeadQueued() returns (es: seq<Event>)
    ensures CanCall(Boot(3), es)
    ensures After(Boot(3), es) == Kernel(Pipe([], 1, 1, [0, 1], [], [Dead, ReadQueued(1), Idle], [], []), None)
  {
    es := TwoQueued();
    var k0 := Boot(3);
    var k := After(k0, es);
    es, k := Runs.Extend(k0, es, k, Kill(0), CallEnabled, CallStep);
    assert k.pipe.procs == [Dead, ReadQueued(1), Idle];
  }

  lemma DeadTaken() returns (es: seq<Event>)
    ensures CanCall(Boot(3), es)
    ensures After(Boot(3), es) == Kernel(Pipe([7], 1, 1, [1], [], [Dead, ReadQueued(1), Waking(0)], [7], []), Some(2))
  {
    es := DeadQueued();
    var k0 := Boot(3);
    var k := After(k0, es);
    es, k := Runs.Extend(k0, es, k, StartWrite(2, [7]), CallEnabled, CallStep);
    assert k.pipe.procs == [Dead, ReadQueued(1), WriteTop([7])];
    es, k := Runs.Extend(k0, es, k, Go(2), CallEnabled, CallStep);
    assert k.pipe.procs == [Dead, ReadQueued(1), Waking(0)] && k.pipe.rq == [1] && k.pipe.contents == [7];
  }

  /** The first of two queued readers is killed: the next write's wake-up goes to its node, and the living reader sleeps beside the data. */
  lemma KilledReader() returns (es: seq<Event>)
    ensures CanCall(Boot(3), es)
    ensures After(Boot(3), es) == Kernel(Pipe([7], 1, 1, [1], [], [Dead, ReadQueued(1), Idle], [7], []), None)
  {
    es := DeadTaken();
    var k0 := Boot(3);
    var k := After(k0, es);
    es, k := Runs.Extend(k0, es, k, Go(2), CallEnabled, CallStep);
    assert k.pipe.procs == [Dead, ReadQueued(1), Idle];
  }
}
