/** Runs of a parent and its children that end badly, step by step. */
module WaitWitness {
  import opened Lists
  import opened Options
  import opened WaitModel
  import Runs

  /** The only child exits and leaves its result; the parent, waiting for -2, sleeps on unless something else unblocks it. */
  lemma WaitBelowMinusOne() returns (es: seq<Event>)
    ensures es == [Create, Wait(-2), Exit(1, 0, true)] && CanRun(Initial(1), es)
    ensures var f := Run(Initial(1), es);
            f.results == [Result(1, 0)] && f.children == [] && forall fs | CanRun(f, fs) && Rouse !in fs :: Run(f, fs).phase == Asleep(-2)
  {
    var (f0, f) := (Initial(1), Initial(1));
    es := [];
    es, f := Runs.Extend(f0, es, f, Create, Enabled, Next);
    es, f := Runs.Extend(f0, es, f, Wait(-2), Enabled, Next);
    assert f.phase == Asleep(-2);
    es, f := Runs.Extend(f0, es, f, Exit(1, 0, true), Enabled, Next);
    SleepsForeverIff(f);
  }

  lemma Sleeping() returns (es: seq<Event>)
    ensures es == [Create, Wait(1)] && CanRun(Initial(1), es)
    ensures Run(Initial(1), es) == Family([1], {}, [], None, Asleep(1), 2, [], [], [])
  {
    var (f0, f) := (Initial(1), Initial(1));
    es := [];
    es, f := Runs.Extend(f0, es, f, Create, Enabled, Next);
    es, f := Runs.Extend(f0, es, f, Wait(1), Enabled, Next);
    assert f.children == [1];
  }

  /** The only child is preempted after it has left its result and before it wakes its parent, which sleeps on beside the result unless something else unblocks it. */
  lemma WaitCutShort() returns (es: seq<Event>)
    ensures es == [Create, Wait(1), CutShort(1, 0, true, BeforeWake)] && CanRun(Initial(1), es)
    ensures var f := Run(Initial(1), es);
            f.results == [Result(1, 0)] && forall fs | CanRun(f, fs) && Rouse !in fs :: Run(f, fs).phase == Asleep(1)
  {
    es := Sleeping();
    var (f0, f) := (Initial(1), Run(Initial(1), es));
    es, f := Runs.Extend(f0, es, f, CutShort(1, 0, true, BeforeWake), Enabled, Next);
    SleepsForeverIff(f);
  }

  /** Preempted before it tells its parent anything, it leaves the parent asleep until somebody kills it once more. */
  lemma KillWakes() returns (es: seq<Event>)
    ensures es == [Create, Wait(1), CutShort(1, 0, true, BeforeUnlink), KillDead(1, true)] && CanRun(Initial(1), es)
    ensures var f := Run(Initial(1), es[..3]); f.phase == Asleep(1) && Living(f) == {} && Run(Initial(1), es).phase == Woken(1)
  {
    es := Sleeping();
    var (f0, f) := (Initial(1), Run(Initial(1), es));
    es, f := Runs.Extend(f0, es, f, CutShort(1, 0, true, BeforeUnlink), Enabled, Next);
    var es3 := es;
    assert Run(Initial(1), es3).phase == Asleep(1) && Living(Run(Initial(1), es3)) == {};
    es, f := Runs.Extend(f0, es, f, KillDead(1, true), Enabled, Next);
    assert es[..3] == es3;
  }

  lemma LeftTwice() returns (es: seq<Event>)
    ensures es == [Create, CutShort(1, 0, true, BeforeClear), KillDead(1, true)] && CanRun(Initial(1), es)
    ensures Run(Initial(1), es) == Family([], {}, [Result(1, 0), Result(1, 0)], None, Running, 2, [Result(1, 0), Result(1, 0)], [], [])
  {
    var (f0, f) := (Initial(1), Initial(1));
    es := [];
    es, f := Runs.Extend(f0, es, f, Create, Enabled, Next);
    assert f.children == [1];
    es, f := Runs.Extend(f0, es, f, CutShort(1, 0, true, BeforeClear), Enabled, Next);
    assert f == Family([], {1}, [Result(1, 0)], None, Running, 2, [Result(1, 0)], [], []);
    es, f := Runs.Extend(f0, es, f, KillDead(1, true), Enabled, Next);
    assert f.dead == {} && f.children == [] && f.results == [Result(1, 0), Result(1, 0)];
  }

  lemma TakeFirst(f: Family)
    requires f.results != [] && f.phase.Running?
    ensures Next(f, Wait(-1)) == f.(results := f.results[1..], reports := f.reports + [f.results[0]])
  {
    assert Cut(f.results, 0) == f.results[1..];
  }

  /** Preempted between leaving its result and clearing its parent_pid, and then killed, a child is reported twice. */
  lemma ReportedTwice() returns (es: seq<Event>)
    ensures es == [Create, CutShort(1, 0, true, BeforeClear), KillDead(1, true), Wait(-1), Wait(-1)] && CanRun(Initial(1), es)
    ensures Run(Initial(1), es).reports == [Result(1, 0), Result(1, 0)]
  {
    es := LeftTwice();
    var (f0, f) := (Initial(1), Run(Initial(1), es));
    TakeFirst(f);
    es, f := Runs.Extend(f0, es, f, Wait(-1), Enabled, Next);
    TakeFirst(f);
    es, f := Runs.Extend(f0, es, f, Wait(-1), Enabled, Next);
  }

  /** Two children exit while no memory is left, and the second result takes the place of the first. */
  lemma ResultOverwritten() returns (es: seq<Event>)
    ensures es == [Create, Create, Exit(1, 5, false), Exit(2, 6, false)] && CanRun(Initial(1), es)
    ensures var f := Run(Initial(1), es); f.lost == [Result(1, 5)] && f.pending == Some(Result(2, 6)) && f.results == []
  {
    var (f0, f) := (Initial(1), Initial(1));
    es := [];
    es, f := Runs.Extend(f0, es, f, Create, Enabled, Next);
    es, f := Runs.Extend(f0, es, f, Create, Enabled, Next);
    assert f == Family([2, 1], {}, [], None, Running, 3, [], [], []);
    FirstKept();
    es, f := Runs.Extend(f0, es, f, Exit(1, 5, false), Enabled, Next);
    es, f := Runs.Extend(f0, es, f, Exit(2, 6, false), Enabled, Next);
  }

  lemma FirstKept()
    ensures Next(Family([2, 1], {}, [], None, Running, 3, [], [], []), Exit(1, 5, false))
            == Family([2], {}, [], Some(Result(1, 5)), Running, 3, [Result(1, 5)], [], [])
  {
    TwoWithout();
  }

  lemma TwoWithout()
    ensures Without<Pid>([2, 1], 1) == [2]
  {
    assert Without<Pid>([1], 1) == [];
  }
}
