/** What the parent learns of its children, told from the events alone. */
module WaitOutcomes {
  import opened Lists
  import opened Options
  import opened WaitModel

  /** The result the event leaves for the parent: the child's exit code, or 0 when a child that was cut short is killed. */
  function LeftBy(e: Event): seq<Result> {
    match e
    case Exit(pid, code, room) => [Result(pid, code)]
    case CutShort(pid, code, room, stage) => if stage == BeforeUnlink || stage == BeforePush then [] else [Result(pid, code)]
    case KillDead(pid, room) => [Result(pid, 0)]
    case _ => []
  }

  function AllLeft(es: seq<Event>): seq<Result> {
    if es == [] then [] else LeftBy(es[0]) + AllLeft(es[1..])
  }

  lemma StepLeaves(f: Family, e: Event)
    requires Enabled(f, e)
    ensures Next(f, e).exits == f.exits + LeftBy(e)
  {
    match e
    case Wait(target) => ConsumeExits(f, Normal(target));
    case Resume => ConsumeExits(f, f.phase.target);
    case _ =>
  }

  lemma {:induction false} RunLeaves(f: Family, es: seq<Event>)
    requires CanRun(f, es)
    ensures Run(f, es).exits == f.exits + AllLeft(es)
    decreases |es|
  {
    if es != [] {
      StepLeaves(f, es[0]);
      RunLeaves(Next(f, es[0]), es[1..]);
      assert f.exits + LeftBy(es[0]) + AllLeft(es[1..]) == f.exits + (LeftBy(es[0]) + AllLeft(es[1..]));
    }
  }

  /**
   * In every run the results that the children's ends left are, each as often
   * as it was left, those that waits have reported, those in the queue, the one
   * in the spare slot and those overwritten there; and the queue holds its own
   * in the order in which they were left.
   */
  lemma ResultsAreOfEvents(next: Pid, es: seq<Event>)
    requires CanRun(Initial(next), es)
    ensures var f := Run(Initial(next), es);
            && multiset(AllLeft(es)) == multiset(f.reports) + multiset(f.results) + multiset(Kept(f.pending)) + multiset(f.lost)
            && Within(f.results, AllLeft(es))
  {
    RunOk(Initial(next), es);
    RunLeaves(Initial(next), es);
    assert Initial(next).exits + AllLeft(es) == AllLeft(es);
  }

  lemma {:induction false} LeftFrom(es: seq<Event>, r: Result) returns (i: nat)
    requires r in AllLeft(es)
    ensures i < |es| && LeftBy(es[i]) == [r]
  {
    if r in LeftBy(es[0]) {
      i := 0;
    } else {
      var j := LeftFrom(es[1..], r);
      i := j + 1;
    }
  }

  /** So whatever a wait reports is the pid and the exit code of a child that ended so, or that was killed after it was cut short. */
  lemma ReportedAsLeft(next: Pid, es: seq<Event>, r: Result) returns (i: nat)
    requires CanRun(Initial(next), es) && r in Run(Initial(next), es).reports
    ensures i < |es|
    ensures match es[i]
            case Exit(pid, code, room) => r == Result(pid, code)
            case CutShort(pid, code, room, stage) => r == Result(pid, code) && stage != BeforeUnlink && stage != BeforePush
            case KillDead(pid, room) => r == Result(pid, 0)
            case _ => false
  {
    ResultsAreOfEvents(next, es);
    assert r in multiset(AllLeft(es));
    i := LeftFrom(es, r);
  }

  // ------------------------------------------------------------------
  // Each call
  // ------------------------------------------------------------------

  ghost predicate Acceptable(f: Family, target: int, r: Result) {
    (r in f.results || f.pending == Some(r)) && (target <= 0 || r.pid == target)
  }

  /** `proc_wait`: it reports an acceptable result if there is one; else it sleeps if there is a child to wait for; else it returns at once. */
  lemma WaitOutcome(f: Family, target: int)
    requires f.phase.Running?
    ensures var g := Next(f, Wait(target));
            if exists r :: Acceptable(f, target, r) then
              && |g.reports| == |f.reports| + 1 && g.reports[..|f.reports|] == f.reports && Acceptable(f, target, g.reports[|f.reports|])
              && g.phase == Running && g.children == f.children && g.dead == f.dead
              && |g.results| + |Kept(g.pending)| == |f.results| + |Kept(f.pending)| - 1
            else if if target > 0 then target in f.children else f.children != [] then
              g == f.(phase := Asleep(if target == 0 then -1 else target))
            else g == f
  {
    var t := Normal(target);
    ConsumeFinds(f, t);
    if r :| Acceptable(f, target, r) { assert Accepts(t, r); }
    if x :| x in f.results && Accepts(t, x) { assert Acceptable(f, target, x); }
    if f.pending.Some? && Accepts(t, f.pending.value) { assert Acceptable(f, target, f.pending.value); }
  }

  /** A child's end, told in full: it leaves the parent's children, and the parent wakes exactly if it sleeps for this child or for -1. */
  lemma ExitOutcome(f: Family, pid: Pid, code: int, room: bool)
    requires Enabled(f, Exit(pid, code, room))
    ensures var g := Next(f, Exit(pid, code, room));
            && g.children == Without(f.children, pid) && g.dead == f.dead && g.reports == f.reports && g.nextPid == f.nextPid
            && (room ==> g.results == f.results + [Result(pid, code)] && g.pending == f.pending && g.lost == f.lost)
            && (!room ==> g.results == f.results && g.pending == Some(Result(pid, code)) && g.lost == f.lost + Kept(f.pending))
            && g.phase == if f.phase == Asleep(pid) || f.phase == Asleep(-1) then Woken(f.phase.target) else f.phase
  {
  }

  /** A new child is linked in front, and nothing else changes. */
  lemma CreateOutcome(f: Family)
    requires f.phase.Running?
    ensures var g := Next(f, Create);
            g == f.(children := [f.nextPid] + f.children, nextPid := f.nextPid + 1)
  {
  }

  /** `proc_wait` after it has been woken returns, with an acceptable result if there is one. */
  lemma ResumeOutcome(f: Family)
    requires f.phase.Woken?
    ensures var (g, t) := (Next(f, Resume), f.phase.target);
            && g.phase == Running && g.children == f.children
            && if exists r :: Acceptable(f, t, r) then
                 |g.reports| == |f.reports| + 1 && g.reports[..|f.reports|] == f.reports && Acceptable(f, t, g.reports[|f.reports|])
               else g == f.(phase := Running)
  {
    var t := f.phase.target;
    ConsumeFinds(f, t);
    if r :| Acceptable(f, t, r) { assert Accepts(t, r); }
    if x :| x in f.results && Accepts(t, x) { assert Acceptable(f, t, x); }
    if f.pending.Some? && Accepts(t, f.pending.value) { assert Acceptable(f, t, f.pending.value); }
  }

  /** An exit cut short: how far it got decides what the parent has of it, and whether a later kill can notify the parent again. */
  lemma CutOutcome(f: Family, pid: Pid, code: int, room: bool, stage: Stage)
    requires Enabled(f, CutShort(pid, code, room, stage))
    ensures var g := Next(f, CutShort(pid, code, room, stage)); var x := Next(f, Exit(pid, code, room));
            && g.reports == f.reports && g.nextPid == f.nextPid
            && g.children == (if stage == BeforeUnlink then f.children else x.children)
            && g.dead == (if stage == BeforeWake || stage == BeforeUnblock then f.dead else f.dead + {pid})
            && (if stage == BeforeUnlink || stage == BeforePush
                then (g.results, g.pending, g.lost) == (f.results, f.pending, f.lost)
                else (g.results, g.pending, g.lost) == (x.results, x.pending, x.lost))
            && g.phase == if stage == BeforeUnblock && x.phase != f.phase then Asleep(0) else f.phase
  {
  }

  /** A kill of a child that was cut short does what its exit with code 0 would have done, once. */
  lemma KillDeadOutcome(f: Family, pid: Pid, room: bool)
    requires Enabled(f, KillDead(pid, room))
    ensures var g := Next(f, KillDead(pid, room));
            && g.children == Without(f.children, pid) && g.dead == f.dead - {pid} && g.reports == f.reports && g.nextPid == f.nextPid
            && (room ==> g.results == f.results + [Result(pid, 0)] && g.pending == f.pending && g.lost == f.lost)
            && (!room ==> g.results == f.results && g.pending == Some(Result(pid, 0)) && g.lost == f.lost + Kept(f.pending))
            && g.phase == if f.phase == Asleep(pid) || f.phase == Asleep(-1) then Woken(f.phase.target) else f.phase
  {
  }
}
