/** One parent and its children: exits, the results they leave, and `proc_wait`. */
module WaitModel {
  import opened Lists
  import opened Options
  import Runs

  type Pid = p: int | p > 0 witness 1

  /** A terminated child and its exit code. */
  datatype Result = Result(pid: Pid, code: int)

  /** Where the parent is: not waiting, asleep in proc_wait, or awake and about to look for its result. */
  datatype Phase = Running | Asleep(target: int) | Woken(target: int)

  datatype Family = Family(
    children: seq<Pid>,         // the linked ones, latest first
    dead: set<Pid>,             // those cut short in their exit that still have their parent_pid
    results: seq<Result>,       // the wait-result queue
    pending: Option<Result>,    // the one result kept when no memory is left
    phase: Phase,
    nextPid: Pid,
    exits: seq<Result>,         // every result left for the parent, in order
    reports: seq<Result>,       // what proc_wait has returned
    lost: seq<Result>           // results overwritten in `pending`
  )

  /** How far an exit got with the parent when the timer took the CPU from it: the process is EXITED by then and does not run again. */
  datatype Stage = BeforeUnlink | BeforePush | BeforeClear | BeforeWake | BeforeUnblock

  datatype Event =
    | Create                                      // the parent forks
    | Exit(pid: Pid, code: int, room: bool)       // a child terminates; is there memory for its result?
    | CutShort(pid: Pid, code: int, room: bool, stage: Stage)
    | KillDead(pid: Pid, room: bool)              // proc_kill of one that was cut short: it notifies the parent again
    | Wait(target: int)                           // proc_wait, until it returns or sleeps
    | Resume                                      // proc_wait, after it has been woken
    | Rouse                                       // something else than a child unblocks the sleeping parent

  ghost predicate Enabled(f: Family, e: Event) {
    match e
    case Create => f.phase.Running?
    case Exit(pid, code, room) => pid in f.children && pid !in f.dead
    case CutShort(pid, code, room, stage) => pid in f.children && pid !in f.dead
    case KillDead(pid, room) => pid in f.dead
    case Wait(t) => f.phase.Running?
    case Resume => f.phase.Woken?
    case Rouse => f.phase.Asleep?
  }

  /** `notify_parent_exit` waits for this child, or for any. */
  predicate Awaited(target: int, pid: Pid) { target == pid || target == -1 }

  /** Does a search for `target` accept this result?  Any target that is not positive accepts all. */
  predicate Accepts(target: int, r: Result) { target <= 0 || r.pid == target }

  /** Where the first acceptable result of the queue is, or its length. */
  function FirstFor(q: seq<Result>, target: int): (i: nat)
    ensures i <= |q| && (i < |q| ==> Accepts(target, q[i]))
    ensures forall j | 0 <= j < i :: !Accepts(target, q[j])
  {
    if q == [] || Accepts(target, q[0]) then 0 else 1 + FirstFor(q[1..], target)
  }

  /** `consume_wait_result` */
  function Consume(f: Family, target: int): (Family, Option<Result>) {
    var i := FirstFor(f.results, target);
    if i < |f.results| then (f.(results := Cut(f.results, i)), Some(f.results[i]))
    else if f.pending.Some? && Accepts(target, f.pending.value) then (f.(pending := None), f.pending)
    else (f, None)
  }

  /** `push_wait_result` */
  function Push(f: Family, r: Result, room: bool): Family {
    if room then f.(results := f.results + [r])
    else f.(pending := Some(r), lost := if f.pending.Some? then f.lost + [f.pending.value] else f.lost)
  }

  /** The child is unlinked and its result kept. */
  function Bury(f: Family, pid: Pid, code: int, room: bool): Family {
    Push(f.(children := Without(f.children, pid), exits := f.exits + [Result(pid, code)]), Result(pid, code), room)
  }

  /** A child's exit, up to the waking of its parent. */
  function ExitOf(f: Family, pid: Pid, code: int, room: bool): Family {
    var g := Bury(f, pid, code, room);
    if f.phase.Asleep? && Awaited(f.phase.target, pid) then g.(phase := Woken(f.phase.target)) else g
  }

  /** An exit that stops on the way: `parent_pid` is cleared after the result is kept, and `waiting_for` before the parent is unblocked. */
  function CutOf(f: Family, pid: Pid, code: int, room: bool, stage: Stage): Family {
    match stage
    case BeforeUnlink => f.(dead := f.dead + {pid})
    case BeforePush => f.(children := Without(f.children, pid), dead := f.dead + {pid})
    case BeforeClear => Bury(f, pid, code, room).(dead := f.dead + {pid})
    case BeforeWake => Bury(f, pid, code, room)
    case BeforeUnblock =>
      var g := Bury(f, pid, code, room);
      if f.phase.Asleep? && Awaited(f.phase.target, pid) then g.(phase := Asleep(0)) else g
  }

  /** `proc_kill` finds the process in its slot and runs `notify_parent_exit` from the start, with exit code 0. */
  function KillOf(f: Family, pid: Pid, room: bool): Family {
    ExitOf(f.(dead := f.dead - {pid}), pid, 0, room)
  }

  function Reported(f: Family, r: Option<Result>): Family {
    if r.Some? then f.(reports := f.reports + [r.value], phase := Running) else f.(phase := Running)
  }

  /** 0 stands for -1. */
  function Normal(target: int): int { if target == 0 then -1 else target }

  function WaitOf(f: Family, target: int): Family {
    var t := Normal(target);
    var (g, r) := Consume(f, t);
    if r.Some? then Reported(g, r)
    else if if t > 0 then t in f.children else f.children != [] then f.(phase := Asleep(t))
    else f
  }

  function Next(f: Family, e: Event): Family {
    match e
    case Create => f.(children := [f.nextPid] + f.children, nextPid := f.nextPid + 1)
    case Exit(pid, code, room) => ExitOf(f, pid, code, room)
    case CutShort(pid, code, room, stage) => CutOf(f, pid, code, room, stage)
    case KillDead(pid, room) => KillOf(f, pid, room)
    case Wait(target) => WaitOf(f, target)
    case Resume =>
      if !f.phase.Woken? then f
      else var (g, r) := Consume(f, f.phase.target); Reported(g, r)
    case Rouse => if f.phase.Asleep? then f.(phase := Woken(f.phase.target)) else f
  }

  // ------------------------------------------------------------------
  // Exactly once
  // ------------------------------------------------------------------

  function Kept(o: Option<Result>): seq<Result> {
    if o.Some? then [o.value] else []
  }

  function Pids(q: seq<Result>): (r: seq<Pid>)
    ensures |r| == |q| && forall i | 0 <= i < |q| :: r[i] == q[i].pid
  {
    seq(|q|, i requires 0 <= i < |q| => q[i].pid)
  }

  /** Children and exits are of different processes, all numbered so far. */
  ghost predicate Distinct(f: Family) {
    && NoDup(f.children) && NoDup(Pids(f.exits))
    && (forall p | p in f.children :: p < f.nextPid && p !in Pids(f.exits))
    && (forall p | p in Pids(f.exits) :: p < f.nextPid)
    && (forall p | p in f.dead :: p < f.nextPid)
  }

  /** Every exit is in exactly one place: reported, queued, in the spare slot, or overwritten there. */
  ghost predicate Accounted(f: Family) {
    multiset(f.exits) == multiset(f.reports) + multiset(f.results) + multiset(Kept(f.pending)) + multiset(f.lost)
  }

  lemma CutMultiset<T>(q: seq<T>, i: nat)
    requires i < |q|
    ensures multiset(q) == multiset(Cut(q, i)) + multiset{q[i]}
  {
    assert q == q[..i] + [q[i]] + q[i + 1..];
  }

  lemma ConsumeOk(f: Family, target: int)
    ensures var (g, r) := Consume(f, target);
            && multiset(f.results) + multiset(Kept(f.pending)) == multiset(g.results) + multiset(Kept(g.pending)) + multiset(Kept(r))
            && g == f.(results := g.results, pending := g.pending)
            && (r.Some? ==> Accepts(target, r.value))
  {
    var i := FirstFor(f.results, target);
    if i < |f.results| { CutMultiset(f.results, i); }
  }

  lemma MoveAcross(e: multiset<Result>, a: multiset<Result>, b: multiset<Result>, c: multiset<Result>, d: multiset<Result>,
                   b': multiset<Result>, c': multiset<Result>, k: multiset<Result>)
    requires e == a + b + c + d && b + c == b' + c' + k
    ensures e == (a + k) + b' + c' + d
  {
    assert a + b + c + d == a + (b + c) + d;
  }

  /** A result that is reported leaves the place it was in. */
  lemma ReportAccounted(f: Family, target: int)
    requires Accounted(f)
    ensures Accounted(Reported(Consume(f, target).0, Consume(f, target).1))
  {
    var (g, r) := Consume(f, target);
    ConsumeOk(f, target);
    assert f.reports + Kept(r) == Reported(g, r).reports;
    MoveAcross(multiset(f.exits), multiset(f.reports), multiset(f.results), multiset(Kept(f.pending)), multiset(f.lost),
               multiset(g.results), multiset(Kept(g.pending)), multiset(Kept(r)));
  }

  lemma AccountedNext(f: Family, e: Event)
    requires Accounted(f) && Enabled(f, e)
    ensures Accounted(Next(f, e))
  {
    match e
    case Create =>
    case Exit(pid, code, room) => ExitAccounted(f, pid, code, room);
    case CutShort(pid, code, room, stage) => CutAccounted(f, pid, code, room, stage);
    case KillDead(pid, room) => ExitAccounted(f.(dead := f.dead - {pid}), pid, 0, room);
    case Wait(target) => ReportAccounted(f, Normal(target));
    case Resume => ReportAccounted(f, f.phase.target);
    case Rouse =>
  }

  lemma ExitAccounted(f: Family, pid: Pid, code: int, room: bool)
    requires Accounted(f)
    ensures Accounted(ExitOf(f, pid, code, room))
  {
    BuryAccounted(f, pid, code, room);
  }

  lemma CutAccounted(f: Family, pid: Pid, code: int, room: bool, stage: Stage)
    requires Accounted(f)
    ensures Accounted(CutOf(f, pid, code, room, stage))
  {
    if !stage.BeforeUnlink? && !stage.BeforePush? { BuryAccounted(f, pid, code, room); }
  }

  /** The step kills a process that was cut short after it had left its result and before it cleared `parent_pid`: it leaves another. */
  predicate Doubles(f: Family, e: Event) {
    e.KillDead? && e.pid in Pids(f.exits)
  }

  /** No other step makes a process exit twice. */
  lemma DistinctIff(f: Family, e: Event)
    requires Distinct(f) && Enabled(f, e)
    ensures Distinct(Next(f, e)) <==> !Doubles(f, e)
  {
    match e
    case Create => assert f.nextPid !in f.children;
    case Exit(pid, code, room) => BuryDistinct(f, pid, code, room);
    case CutShort(pid, code, room, stage) => CutDistinct(f, pid, code, room, stage);
    case KillDead(pid, room) =>
      if pid in Pids(f.exits) { ExitTwice(f, pid); } else { BuryDistinct(f.(dead := f.dead - {pid}), pid, 0, room); }
    case _ =>
  }

  lemma CutDistinct(f: Family, pid: Pid, code: int, room: bool, stage: Stage)
    requires Distinct(f) && pid in f.children
    ensures Distinct(CutOf(f, pid, code, room, stage))
  {
    BuryDistinct(f, pid, code, room);
    if stage.BeforePush? {
      forall p ensures p in Without(f.children, pid) <==> p in f.children && p != pid { WithoutIn(f.children, pid, p); }
      WithoutNoDup(f.children, pid);
    }
  }

  lemma ExitTwice(f: Family, pid: Pid)
    requires pid in Pids(f.exits)
    ensures forall code :: !NoDup(Pids(f.exits + [Result(pid, code)]))
  {
    var i :| 0 <= i < |f.exits| && Pids(f.exits)[i] == pid;
    forall code ensures !NoDup(Pids(f.exits + [Result(pid, code)])) {
      PidsSnoc(f.exits, Result(pid, code));
      var q := Pids(f.exits + [Result(pid, code)]);
      assert q[i] == q[|f.exits|];
    }
  }

  lemma BuryDistinct(f: Family, pid: Pid, code: int, room: bool)
    requires Distinct(f) && pid < f.nextPid && pid !in Pids(f.exits)
    ensures Distinct(Bury(f, pid, code, room))
  {
    forall p ensures p in Without(f.children, pid) <==> p in f.children && p != pid { WithoutIn(f.children, pid, p); }
    WithoutNoDup(f.children, pid);
    PidsSnoc(f.exits, Result(pid, code));
  }

  lemma PidsSnoc(q: seq<Result>, r: Result)
    ensures Pids(q + [r]) == Pids(q) + [r.pid]
  {
  }

  lemma BuryAccounted(f: Family, pid: Pid, code: int, room: bool)
    requires Accounted(f)
    ensures Accounted(Bury(f, pid, code, room))
  {
    var r := Result(pid, code);
    PushAccounts(f, r, room);
    var g := Bury(f, pid, code, room);
    assert multiset(f.exits + [r]) == multiset(f.exits) + multiset{r};
    Balance(multiset(f.exits), multiset(f.reports), multiset(f.results), multiset(Kept(f.pending)), multiset(f.lost),
            multiset(g.results), multiset(Kept(g.pending)), multiset(g.lost), multiset{r});
  }

  lemma Balance(e: multiset<Result>, a: multiset<Result>, b: multiset<Result>, c: multiset<Result>, d: multiset<Result>,
                b': multiset<Result>, c': multiset<Result>, d': multiset<Result>, k: multiset<Result>)
    requires e == a + b + c + d && b' + c' + d' == b + c + d + k
    ensures e + k == a + b' + c' + d'
  {
    assert a + b + c + d == a + (b + c + d);
    assert a + b' + c' + d' == a + (b' + c' + d');
  }

  lemma PushAccounts(f: Family, r: Result, room: bool)
    ensures var g := Push(f, r, room);
            multiset(g.results) + multiset(Kept(g.pending)) + multiset(g.lost)
            == multiset(f.results) + multiset(Kept(f.pending)) + multiset(f.lost) + multiset{r}
  {
  }

  predicate Buries(e: Event) {
    e.Exit? || e.KillDead? || (e.CutShort? && (e.stage.BeforeClear? || e.stage.BeforeWake? || e.stage.BeforeUnblock?))
  }

  /** A child's result is overwritten exactly when it sits in the spare slot and another child leaves its own without memory. */
  lemma LosesIff(f: Family, e: Event)
    requires Enabled(f, e)
    ensures Next(f, e).lost != f.lost <==> Buries(e) && !e.room && f.pending.Some?
  {
    match e
    case Wait(target) => ConsumeOk(f, Normal(target));
    case Resume => ConsumeOk(f, f.phase.target);
    case _ =>
  }

  /** A look for a result finds one exactly when there is an acceptable one, in the queue or in the spare slot, and the queue comes first. */
  lemma ConsumeFinds(f: Family, target: int)
    ensures var r := Consume(f, target).1;
            && (r.Some? <==> (exists x | x in f.results :: Accepts(target, x)) || (f.pending.Some? && Accepts(target, f.pending.value)))
            && (target <= 0 && f.results != [] ==> r == Some(f.results[0]))
            && (r.Some? ==> Accepts(target, r.value) && (r.value in f.results || r == f.pending))
  {
  }

  // ------------------------------------------------------------------
  // Order
  // ------------------------------------------------------------------

  /** `q` is `r` with some elements left out. */
  predicate Within(q: seq<Result>, r: seq<Result>)
    decreases |r|
  {
    q == [] || (r != [] && ((q[0] == r[0] && Within(q[1..], r[1..])) || Within(q, r[1..])))
  }

  /** The queue holds results in the order in which they were left. */
  ghost predicate InOrder(f: Family) {
    Within(f.results, f.exits)
  }

  lemma {:induction false} WithinSnoc(q: seq<Result>, r: seq<Result>, x: Result)
    requires Within(q, r)
    ensures Within(q, r + [x]) && Within(q + [x], r + [x])
    decreases |r|
  {
    if r == [] {
      assert q + [x] == [x] && r + [x] == [x] && [x][1..] == [];
    } else {
      assert (r + [x])[1..] == r[1..] + [x];
      if q == [] {
        WithinSnoc([], r[1..], x);
        assert q + [x] == [] + [x];
      } else if q[0] == r[0] && Within(q[1..], r[1..]) {
        WithinSnoc(q[1..], r[1..], x);
        assert (q + [x])[1..] == q[1..] + [x];
      } else {
        WithinSnoc(q, r[1..], x);
      }
    }
  }

  lemma {:induction false} WithinTail(q: seq<Result>, r: seq<Result>)
    requires Within(q, r) && q != []
    ensures Within(q[1..], r)
    decreases |r|
  {
    if q[0] == r[0] && Within(q[1..], r[1..]) {
      WithinMore(q[1..], r);
    } else {
      WithinTail(q, r[1..]);
      WithinMore(q[1..], r);
    }
  }

  lemma WithinMore(q: seq<Result>, r: seq<Result>)
    requires r != [] && Within(q, r[1..])
    ensures Within(q, r)
  {
  }

  lemma {:induction false} WithinCut(q: seq<Result>, i: nat, r: seq<Result>)
    requires Within(q, r) && i < |q|
    ensures Within(Cut(q, i), r)
    decreases |r|
  {
    if i == 0 {
      WithinTail(q, r);
      assert Cut(q, 0) == q[1..];
    } else if q[0] == r[0] && Within(q[1..], r[1..]) {
      WithinCut(q[1..], i - 1, r[1..]);
      assert Cut(q, i)[0] == q[0] && Cut(q, i)[1..] == Cut(q[1..], i - 1);
    } else {
      WithinCut(q, i, r[1..]);
      WithinMore(Cut(q, i), r);
    }
  }

  lemma InOrderNext(f: Family, e: Event)
    requires InOrder(f) && Enabled(f, e)
    ensures InOrder(Next(f, e))
  {
    match e
    case Create =>
    case Exit(pid, code, room) => WithinSnoc(f.results, f.exits, Result(pid, code));
    case CutShort(pid, code, room, stage) => WithinSnoc(f.results, f.exits, Result(pid, code));
    case KillDead(pid, room) => WithinSnoc(f.results, f.exits, Result(pid, 0));
    case Wait(target) => InOrderConsume(f, Normal(target));
    case Resume => InOrderConsume(f, f.phase.target);
    case Rouse =>
  }

  lemma InOrderConsume(f: Family, target: int)
    requires InOrder(f)
    ensures InOrder(Consume(f, target).0)
  {
    var i := FirstFor(f.results, target);
    if i < |f.results| { WithinCut(f.results, i, f.exits); }
  }

  lemma {:induction false} WithinCounts(q: seq<Result>, r: seq<Result>)
    requires Within(q, r)
    ensures multiset(q) <= multiset(r)
    decreases |r|
  {
    if q != [] {
      assert r == [r[0]] + r[1..] && q == [q[0]] + q[1..];
      if q[0] == r[0] && Within(q[1..], r[1..]) { WithinCounts(q[1..], r[1..]); } else { WithinCounts(q, r[1..]); }
    }
  }

  /** What comes before the first of `q` in `r` is not counted in `q`. */
  lemma {:induction false} FewerWithin(q: seq<Result>, r: seq<Result>, y: Result)
    requires Within(q, r) && q != [] && y in r && q[0] in r && Pos(r, y) < Pos(r, q[0])
    ensures multiset(q)[y] < multiset(r)[y]
    decreases |r|
  {
    assert r == [r[0]] + r[1..];
    assert q[0] != r[0];
    if y == r[0] {
      WithinCounts(q, r[1..]);
    } else {
      FewerWithin(q, r[1..], y);
    }
  }

  // ------------------------------------------------------------------
  // No wake-up is lost
  // ------------------------------------------------------------------

  /** Somebody among these children ends a wait for `t`, or for any child if `t` is negative. */
  ghost predicate Hope(children: set<Pid>, t: int) {
    if t > 0 then t in children else children != {}
  }

  function SetOf(q: seq<Pid>): set<Pid> { set p | p in q }

  /** The children that are alive. */
  function Living(f: Family): set<Pid> { SetOf(f.children) - f.dead }

  /** Those that can still notify the parent: by exiting, or by being killed after they were cut short. */
  function Notifiers(f: Family): set<Pid> { SetOf(f.children) + f.dead }

  /** A parent that sleeps has a living child to wait for and nothing to take. */
  ghost predicate SleepOk(f: Family) {
    f.phase.Asleep? ==>
      var t := f.phase.target;
      && t != 0 && Hope(Living(f), t)
      && (forall i | 0 <= i < |f.results| :: !Accepts(t, f.results[i]))
      && (f.pending.Some? ==> !Accepts(t, f.pending.value))
  }

  /**
   * What breaks that: a child exits, or is killed after it was cut short, while
   * its parent waits for a number below -1, which means any child but wakes
   * nobody; an exit is cut short after it has left a result the sleeping parent
   * accepts, or before it has left one when no other child can end the wait; or
   * the parent goes to sleep when every child it could wait for is one that was
   * cut short.
   */
  ghost predicate Breaks(f: Family, e: Event) {
    match e
    case Create => false
    case Exit(pid, code, room) => f.phase.Asleep? && f.phase.target < -1
    case KillDead(pid, room) => f.phase.Asleep? && f.phase.target < -1
    case CutShort(pid, code, room, stage) =>
      && f.phase.Asleep?
      && if Buries(e) then Accepts(f.phase.target, Result(pid, code))
         else !Hope(Living(f) - {pid}, f.phase.target)
    case Wait(target) => Next(f, e).phase.Asleep? && !Hope(Living(f), Normal(target))
    case Resume => false
    case Rouse => false
  }

  lemma SleepIff(f: Family, e: Event)
    requires SleepOk(f) && Enabled(f, e)
    ensures SleepOk(Next(f, e)) <==> !Breaks(f, e)
  {
    match e
    case Exit(pid, code, room) => if f.phase.Asleep? { SleepBury(f, pid, code, room); }
    case KillDead(pid, room) =>
      if f.phase.Asleep? {
        SleepBury(f, pid, 0, room);
        SetWithout(f.children, pid);
        assert Living(KillOf(f, pid, room)) == Living(Bury(f, pid, 0, room));
      }
    case CutShort(pid, code, room, stage) => if f.phase.Asleep? { SleepCut(f, pid, code, room, stage); }
    case _ =>
  }

  lemma SetWithout(q: seq<Pid>, x: Pid)
    ensures SetOf(Without(q, x)) == SetOf(q) - {x}
  {
    forall p ensures p in Without(q, x) <==> p in q && p != x { WithoutIn(q, x, p); }
  }

  lemma SleepBury(f: Family, pid: Pid, code: int, room: bool)
    requires SleepOk(f) && f.phase.Asleep?
    ensures SleepOk(Bury(f, pid, code, room)) <==> !Accepts(f.phase.target, Result(pid, code))
  {
    var g := Bury(f, pid, code, room);
    SetWithout(f.children, pid);
    if room { assert g.results[|f.results|] == Result(pid, code); }
  }

  lemma SleepCut(f: Family, pid: Pid, code: int, room: bool, stage: Stage)
    requires SleepOk(f) && f.phase.Asleep?
    ensures SleepOk(CutOf(f, pid, code, room, stage)) <==> !Breaks(f, CutShort(pid, code, room, stage))
  {
    var g := CutOf(f, pid, code, room, stage);
    SetWithout(f.children, pid);
    assert Living(g) == Living(f) - {pid};
    assert Living(Bury(f, pid, code, room)) == Living(f) - {pid};
    SleepBury(f, pid, code, room);
  }

  /** Nothing that can still happen wakes the parent. */
  ghost predicate Hopeless(f: Family) {
    f.phase.Asleep? && (f.phase.target < -1 || f.phase.target == 0 || !Hope(Notifiers(f), f.phase.target))
  }

  lemma NotifiersShrink(f: Family, e: Event)
    requires Enabled(f, e) && f.phase.Asleep? && !e.Rouse?
    ensures Notifiers(Next(f, e)) <= Notifiers(f) && e.pid in Notifiers(f)
  {
    SetWithout(f.children, e.pid);
  }

  lemma {:induction false} HopelessRun(f: Family, es: seq<Event>)
    requires Hopeless(f) && CanRun(f, es) && Rouse !in es
    ensures Run(f, es).phase == f.phase
    decreases |es|
  {
    if es != [] {
      NotifiersShrink(f, es[0]);
      HopelessRun(Next(f, es[0]), es[1..]);
    }
  }

  /** Unless something else unblocks it, a sleeping parent sleeps on in every run exactly when it waits for a number below -1, its wake-up was cut short half-way, or no child can still notify it. */
  lemma SleepsForeverIff(f: Family)
    requires f.phase.Asleep?
    ensures (forall es | CanRun(f, es) && Rouse !in es :: Run(f, es).phase == f.phase) <==> Hopeless(f)
  {
    if Hopeless(f) {
      forall es | CanRun(f, es) && Rouse !in es ensures Run(f, es).phase == f.phase { HopelessRun(f, es); }
    } else {
      var es := HopefulWakes(f);
      assert CanRun(f, es) && Run(f, es).phase != f.phase;
    }
  }

  lemma HopefulWakes(f: Family) returns (es: seq<Event>)
    requires f.phase.Asleep? && !Hopeless(f)
    ensures CanRun(f, es) && Run(f, es).phase == Woken(f.phase.target) && Rouse !in es
  {
    var t := f.phase.target;
    var p: Pid :| p in Notifiers(f) && (t > 0 ==> p == t);
    es := [if p in f.dead then KillDead(p, true) else Exit(p, 0, true)];
    var g := Next(f, es[0]);
    assert es[1..] == [];
    assert CanRun(g, []) && Run(g, []) == g;
  }

  /** A parent that has been woken will find the result it was woken for, unless that has been overwritten. */
  ghost predicate WokenOk(f: Family) {
    f.phase.Woken? ==>
      var t := f.phase.target;
      || Consume(f, t).1.Some?
      || t in Pids(f.lost)
  }

  /** This is lost by exactly one kind of step: something else than a child unblocks the parent, with nothing there for it. */
  lemma WokenIff(f: Family, e: Event)
    requires WokenOk(f) && Enabled(f, e)
    ensures WokenOk(Next(f, e)) <==>
              !(e.Rouse? && Consume(f, f.phase.target).1.None? && f.phase.target !in Pids(f.lost))
  {
    if !f.phase.Running? {
      match e
      case Exit(pid, code, room) => WokenBury(f, pid, code, room);
      case CutShort(pid, code, room, stage) => WokenBury(f, pid, code, room);
      case KillDead(pid, room) => WokenBury(f.(dead := f.dead - {pid}), pid, 0, room);
      case _ =>
    }
  }

  /** Burying a child never takes away what a parent was woken for, and leaves something for one that is woken now. */
  lemma WokenBury(f: Family, pid: Pid, code: int, room: bool)
    requires WokenOk(f) && !f.phase.Running?
    ensures var (t, g) := (f.phase.target, Bury(f, pid, code, room));
            f.phase.Woken? || Awaited(t, pid) ==> Consume(g, t).1.Some? || t in Pids(g.lost)
  {
    var (t, g) := (f.phase.target, Bury(f, pid, code, room));
    PidsGrow(f.lost, g.lost, t);
    if room {
      FirstSnoc(f.results, Result(pid, code), t);
    } else if FirstFor(f.results, t) == |f.results| && f.pending.Some? && Accepts(t, f.pending.value) {
      assert t > 0 ==> Pids(g.lost)[|f.lost|] == t;
      assert t <= 0 ==> Accepts(t, g.pending.value);
    }
  }

  lemma PidsGrow(q: seq<Result>, q': seq<Result>, t: int)
    requires q <= q'
    ensures t in Pids(q) ==> t in Pids(q')
  {
    if i :| 0 <= i < |Pids(q)| && Pids(q)[i] == t { assert Pids(q')[i] == t; }
  }

  lemma {:induction false} FirstSnoc(q: seq<Result>, r: Result, target: int)
    ensures FirstFor(q + [r], target) == if FirstFor(q, target) < |q| then FirstFor(q, target) else if Accepts(target, r) then |q| else |q| + 1
  {
    if q != [] {
      assert (q + [r])[1..] == q[1..] + [r];
      FirstSnoc(q[1..], r, target);
    }
  }

  // ------------------------------------------------------------------
  // Runs
  // ------------------------------------------------------------------

  ghost predicate CanRun(s: Family, es: seq<Event>) {
    Runs.Can(s, es, Enabled, Next)
  }

  ghost function Run(s: Family, es: seq<Event>): Family {
    Runs.After(s, es, Next)
  }

  function Initial(next: Pid): Family {
    Family([], {}, [], None, Running, next, [], [], [])
  }

  lemma {:induction false} RunOk(f: Family, es: seq<Event>)
    requires Accounted(f) && InOrder(f) && CanRun(f, es)
    ensures Accounted(Run(f, es)) && InOrder(Run(f, es))
    decreases |es|
  {
    if es != [] {
      AccountedNext(f, es[0]);
      InOrderNext(f, es[0]);
      RunOk(Next(f, es[0]), es[1..]);
    }
  }

  lemma {:induction false} WokenRun(f: Family, es: seq<Event>)
    requires WokenOk(f) && CanRun(f, es) && Rouse !in es
    ensures WokenOk(Run(f, es))
    decreases |es|
  {
    if es != [] {
      WokenIff(f, es[0]);
      WokenRun(Next(f, es[0]), es[1..]);
    }
  }

  lemma {:induction false} SleepRun(f: Family, es: seq<Event>)
    requires SleepOk(f) && f.dead == {} && CanRun(f, es) && (f.phase.Asleep? ==> f.phase.target >= -1)
    requires forall i | 0 <= i < |es| :: !es[i].CutShort? && (es[i].Wait? ==> es[i].target >= -1)
    ensures var g := Run(f, es); SleepOk(g) && g.dead == {} && (g.phase.Asleep? ==> g.phase.target >= -1)
    decreases |es|
  {
    if es != [] {
      SleepIff(f, es[0]);
      assert f.children != [] ==> f.children[0] in Living(f);
      SleepRun(Next(f, es[0]), es[1..]);
    }
  }

  /** A run in which some step makes a process exit twice. */
  ghost predicate EverDoubles(f: Family, es: seq<Event>)
    decreases |es|
  {
    es != [] && (Doubles(f, es[0]) || EverDoubles(Next(f, es[0]), es[1..]))
  }

  lemma ExitsGrow(f: Family, e: Event)
    ensures f.exits <= Next(f, e).exits
  {
    match e
    case Wait(target) => ConsumeExits(f, Normal(target));
    case Resume => if f.phase.Woken? { ConsumeExits(f, f.phase.target); }
    case _ =>
  }

  lemma ConsumeExits(f: Family, target: int)
    ensures Consume(f, target).0.exits == f.exits
  {
  }

  lemma {:induction false} TwiceStays(f: Family, es: seq<Event>)
    requires !NoDup(Pids(f.exits))
    ensures !NoDup(Pids(Run(f, es).exits))
    decreases |es|
  {
    if es != [] {
      ExitsGrow(f, es[0]);
      var i, j :| 0 <= i < j < |Pids(f.exits)| && Pids(f.exits)[i] == Pids(f.exits)[j];
      var q := Pids(Next(f, es[0]).exits);
      assert q[i] == q[j];
      TwiceStays(Next(f, es[0]), es[1..]);
    }
  }

  lemma {:induction false} DistinctRun(f: Family, es: seq<Event>)
    requires Distinct(f) && CanRun(f, es)
    ensures NoDup(Pids(Run(f, es).exits)) <==> !EverDoubles(f, es)
    decreases |es|
  {
    if es != [] {
      DistinctIff(f, es[0]);
      if Doubles(f, es[0]) {
        ExitTwice(f, es[0].pid);
        TwiceStays(Next(f, es[0]), es[1..]);
      } else {
        DistinctRun(Next(f, es[0]), es[1..]);
      }
    }
  }

  /**
   * In every run each report is of a child that ended, with the code it left,
   * and as often as it was left; no child leaves two results, and then none is
   * reported twice, exactly as long as none is killed that was cut short
   * between leaving its result and clearing its `parent_pid`.
   */
  lemma ExactlyOnce(next: Pid, es: seq<Event>)
    requires CanRun(Initial(next), es)
    ensures var f := Run(Initial(next), es);
            && multiset(f.reports) <= multiset(f.exits)
            && (NoDup(Pids(f.exits)) <==> !EverDoubles(Initial(next), es))
            && (NoDup(Pids(f.exits)) ==> NoDup(Pids(f.reports)))
            && |f.exits| == |f.reports| + |f.results| + (if f.pending.Some? then 1 else 0) + |f.lost|
  {
    RunOk(Initial(next), es);
    DistinctRun(Initial(next), es);
    var f := Run(Initial(next), es);
    Sizes(f);
    if NoDup(Pids(f.exits)) {
      forall i, j | 0 <= i < j < |f.reports| ensures f.reports[i].pid != f.reports[j].pid { Apart(f, i, j); }
    }
  }

  lemma Sizes(f: Family)
    requires Accounted(f)
    ensures |f.exits| == |f.reports| + |f.results| + |Kept(f.pending)| + |f.lost|
  {
    assert |multiset(f.exits)| == |multiset(f.reports)| + |multiset(f.results)| + |multiset(Kept(f.pending))| + |multiset(f.lost)|;
  }

  lemma Apart(f: Family, i: nat, j: nat)
    requires Accounted(f) && NoDup(Pids(f.exits)) && i < j < |f.reports|
    ensures f.reports[i].pid != f.reports[j].pid
  {
    var (a, b) := (f.reports[i], f.reports[j]);
    assert a in multiset(f.exits) && b in multiset(f.exits);
    var k :| 0 <= k < |f.exits| && f.exits[k] == a;
    var l :| 0 <= l < |f.exits| && f.exits[l] == b;
    assert Pids(f.exits)[k] == a.pid && Pids(f.exits)[l] == b.pid;
    OnceIn(f.exits, k);
    assert multiset(f.exits)[a] >= multiset(f.reports)[a];
    if a == b { TwiceIn(f.reports, i, j); }
  }

  lemma TwiceIn(q: seq<Result>, i: nat, j: nat)
    requires i < j < |q| && q[i] == q[j]
    ensures multiset(q)[q[i]] >= 2
  {
    assert q == q[..i] + [q[i]] + q[i + 1..j] + [q[j]] + q[j + 1..];
  }

  lemma OnceIn(q: seq<Result>, k: nat)
    requires k < |q| && NoDup(Pids(q))
    ensures multiset(q)[q[k]] == 1
  {
    assert q == q[..k] + [q[k]] + q[k + 1..];
    forall i | 0 <= i < |q| && i != k ensures q[i] != q[k] { assert Pids(q)[i] != Pids(q)[k]; }
    assert q[k] !in q[..k] && q[k] !in q[k + 1..];
  }

  /** Waiting for any child reports the earliest exit not yet reported, as long as there was memory for every result. */
  lemma AnyInExitOrder(next: Pid, es: seq<Event>)
    requires CanRun(Initial(next), es)
    requires var f := Run(Initial(next), es); f.phase.Running? && f.pending.None? && f.lost == [] && f.results != []
    ensures var f := Run(Initial(next), es);
            var g := Next(f, Wait(-1));
            && g.reports == f.reports + [f.results[0]] && f.results[0] in f.exits
            && forall r | r in f.exits && Pos(f.exits, r) < Pos(f.exits, f.results[0]) :: r in f.reports
  {
    RunOk(Initial(next), es);
    var f := Run(Initial(next), es);
    WithinCounts(f.results, f.exits);
    assert f.results[0] in multiset(f.results) && f.results[0] in multiset(f.exits);
    forall r | r in f.exits && Pos(f.exits, r) < Pos(f.exits, f.results[0]) ensures r in f.reports {
      FewerWithin(f.results, f.exits, r);
      assert multiset(f.exits)[r] == multiset(f.reports)[r] + multiset(f.results)[r];
      assert r in multiset(f.reports);
    }
  }

  /** With targets of -1 and above, and no exit cut short, a sleeping parent always has a living child that will wake it and nothing to collect; woken by a child it collects. */
  lemma NoLostWakeUp(next: Pid, es: seq<Event>)
    requires CanRun(Initial(next), es)
    requires forall i | 0 <= i < |es| :: !es[i].CutShort? && (es[i].Wait? ==> es[i].target >= -1)
    ensures var f := Run(Initial(next), es);
            && (f.phase.Asleep? ==>
                  && (exists p :: p in f.children && p !in f.dead && Awaited(f.phase.target, p))
                  && (forall r | r in f.results :: !Accepts(f.phase.target, r)))
            && (f.phase.Woken? && Rouse !in es ==> Consume(f, f.phase.target).1.Some? || f.phase.target in Pids(f.lost))
  {
    SleepRun(Initial(next), es);
    if Rouse !in es { WokenRun(Initial(next), es); }
    var f := Run(Initial(next), es);
    if f.phase.Asleep? {
      var t := f.phase.target;
      var p: Pid :| p in Living(f) && (t > 0 ==> p == t);
      assert Awaited(t, p);
    }
  }
}
