/**
 * The synchronisation test: workers add to one shared counter by reading it,
 * yielding, and writing it back, with or without a semaphore around this.
 */
module SyncCounter {
  import opened Options
  import opened SemClients
  import opened SemModel
  import opened SemProtocol

  const WORD := 0x1_0000_0000_0000_0000

  /** Where a worker is in `my_process_inc`. */
  datatype Pc =
    | Outside
    | Waiting
    | Inside              // about to call slowInc
    | Loaded(aux: int)    // in slowInc, at the yield
    | Stored              // about to post

  /** `left` counts the increments the worker has still to store. */
  datatype Worker = Worker(inc: int, left: nat, pc: Pc)

  datatype World = World(
    guarded: bool,
    sem: State,
    counter: int,           // modulo 2^64
    ws: seq<Worker>,        // process p runs ws[p]
    log: seq<int>           // the increments stored so far
  )

  datatype Move = Enter(p: Pid) | Load(p: Pid) | Store(p: Pid) | Leave(p: Pid) | WakeUp(p: Pid) | Die(p: Pid)

  ghost predicate Can(w: World, m: Move) {
    && m.p < |w.ws|
    && match m
       case Enter(p) => w.guarded && w.ws[p].pc.Outside? && w.ws[p].left > 0 && Enabled(w.sem, Wait(p))
       case Load(p) => Alive(w.sem, p) && (if w.guarded then w.ws[p].pc.Inside? else w.ws[p].pc.Outside? && w.ws[p].left > 0)
       case Store(p) => Alive(w.sem, p) && w.ws[p].pc.Loaded?
       case Leave(p) => w.guarded && w.ws[p].pc.Stored? && Enabled(w.sem, Post(p))
       case WakeUp(p) => Enabled(w.sem, Wake(p))
       case Die(p) => Enabled(w.sem, Kill(p))
  }

  function Set(pc: Pc): Worker -> Worker {
    (k: Worker) => k.(pc := pc)
  }

  function SemStep(w: World, e: Event, idle: Pc): World {
    w.(sem := SemProtocol.Step(w.sem, e), ws := Moved(w.ws, w.sem, e, Set(Inside), Set(idle)))
  }

  function Next(w: World, m: Move): World
    requires m.p < |w.ws|
  {
    match m
    case Enter(p) => SemStep(w, Wait(p), Waiting)
    case Load(p) => w.(ws := Change(w.ws, p, Set(Loaded(w.counter))))
    case Store(p) =>
      var k := w.ws[p];
      if !k.pc.Loaded? || k.left == 0 then w
      else w.(counter := (k.pc.aux + k.inc) % WORD, log := w.log + [k.inc],
              ws := w.ws[p := Worker(k.inc, k.left - 1, if w.guarded then Stored else Outside)])
    case Leave(p) => SemStep(w, Post(p), Outside)
    case WakeUp(p) => SemStep(w, Wake(p), Outside)
    case Die(p) => SemStep(w, Kill(p), Outside)
  }

  // ------------------------------------------------------------------
  // At most one worker is inside
  // ------------------------------------------------------------------

  predicate Busy(k: Worker) { k.pc.Inside? || k.pc.Loaded? || k.pc.Stored? }

  ghost predicate WaitOk(w: World, p: Pid) {
    p in w.sem.here ==> p < |w.ws| && w.ws[p].pc.Waiting?
  }

  ghost predicate Guarded(w: World) {
    && w.guarded && w.sem.away == {} && |Owners(w.ws, Busy)| + Tokens(w.sem) == 1
    && forall p: Pid {:trigger WaitOk(w, p)} :: WaitOk(w, p)
  }

  /** No update is lost: the counter is the sum of the stored increments, and a worker that has read it has the latest value. */
  ghost predicate Exact(w: World) {
    && w.counter == Sum(w.log) % WORD
    && (forall p | 0 <= p < |w.ws| && w.ws[p].pc.Loaded? :: w.ws[p].pc.aux == w.counter)
    && (forall p | 0 <= p < |w.ws| && (w.ws[p].pc.Waiting? || w.ws[p].pc.Inside? || w.ws[p].pc.Loaded?) :: w.ws[p].left > 0)
  }

  function Sum(q: seq<int>): int {
    if q == [] then 0 else Sum(q[..|q| - 1]) + q[|q| - 1]
  }

  /** What the workers still have to add. */
  function Owed(ws: seq<Worker>): int {
    if ws == [] then 0 else ws[0].inc * ws[0].left + Owed(ws[1..])
  }

  lemma {:induction false} OwedUpdate(ws: seq<Worker>, p: nat, k: Worker)
    requires p < |ws|
    ensures Owed(ws[p := k]) == Owed(ws) - ws[p].inc * ws[p].left + k.inc * k.left
  {
    if p == 0 {
      assert ws[0 := k][1..] == ws[1..];
    } else {
      assert ws[p := k][1..] == ws[1..][p - 1 := k];
      OwedUpdate(ws[1..], p - 1, k);
    }
  }

  ghost predicate SemMove(w: World, e: Event, idle: Pc) {
    && Guarded(w) && e.p < |w.ws| && Enabled(w.sem, e) && !e.Sleep? && !e.Rouse? && (idle.Outside? || idle.Waiting?)
    && (e.Wait? ==> !Busy(w.ws[e.p]) && idle == Waiting)
    && (e.Post? ==> Busy(w.ws[e.p]) && idle == Outside)
  }

  /** Whoever is granted the token was waiting or asking for it. */
  lemma GrantedWaits(w: World, e: Event, idle: Pc)
    requires SemMove(w, e, idle)
    ensures Granted(w.sem, e).Some? ==> var g := Granted(w.sem, e).value; g < |w.ws| && !Busy(w.ws[g])
  {
    if e.Wake? {
      if Granted(w.sem, e).Some? { assert WaitOk(w, Granted(w.sem, e).value); }
    }
  }

  lemma OwnersStep(w: World, e: Event, idle: Pc)
    requires SemMove(w, e, idle)
    ensures Owners(SemStep(w, e, idle).ws, Busy) == HoldersAfter(w.sem, e, Owners(w.ws, Busy))
  {
    GrantedWaits(w, e, idle);
    OwnersMoved(w.ws, w.sem, e, Set(Inside), Set(idle), Busy);
  }

  lemma WaitersStep(w: World, e: Event, idle: Pc, p: Pid)
    requires SemMove(w, e, idle)
    ensures WaitOk(SemStep(w, e, idle), p)
  {
    GrantedWaits(w, e, idle);
    assert WaitOk(w, p);
    StepWaits(w.sem, e, p);
  }

  /** The semaphore side of one step. */
  lemma SemStepGuarded(w: World, e: Event, idle: Pc)
    requires SemMove(w, e, idle)
    ensures Guarded(SemStep(w, e, idle))
  {
    var h := Owners(w.ws, Busy);
    forall p | p in h ensures p !in w.sem.here { assert WaitOk(w, p); }
    assert Disciplined(w.sem, [e], h);
    HeldStep(w.sem, e, h);
    NobodyAway(w.sem, e);
    OwnersStep(w, e, idle);
    forall p: Pid ensures WaitOk(SemStep(w, e, idle), p) { WaitersStep(w, e, idle, p); }
  }

  lemma GuardedStep(w: World, m: Move)
    requires Guarded(w) && Can(w, m)
    ensures Guarded(Next(w, m))
  {
    match m
    case Enter(p) => SemStepGuarded(w, Wait(p), Waiting);
    case Leave(p) => SemStepGuarded(w, Post(p), Outside);
    case WakeUp(p) => SemStepGuarded(w, Wake(p), Outside);
    case Die(p) => SemStepGuarded(w, Kill(p), Outside);
    case _ =>
      var v := Next(w, m);
      assert Owners(v.ws, Busy) == Owners(w.ws, Busy);
      forall p: Pid ensures WaitOk(v, p) { assert WaitOk(w, p); }
  }

  // ------------------------------------------------------------------
  // No update is lost
  // ------------------------------------------------------------------

  lemma OnlyOwner(w: World, p: nat, q: nat)
    requires Guarded(w) && p < |w.ws| && q < |w.ws| && Busy(w.ws[p]) && Busy(w.ws[q])
    ensures p == q
  {
    AtMostOne(Owners(w.ws, Busy), p, q);
  }

  lemma ExactStep(w: World, m: Move)
    requires Guarded(w) && Exact(w) && Can(w, m)
    ensures Exact(Next(w, m))
    ensures Sum(Next(w, m).log) + Owed(Next(w, m).ws) == Sum(w.log) + Owed(w.ws)
  {
    match m
    case Load(p) => LoadExact(w, p);
    case Store(p) =>
      StoreExact(w, p);
      StoreOwed(w, p);
    case Enter(p) => SemStepExact(w, Wait(p), Waiting);
    case Leave(p) => SemStepExact(w, Post(p), Outside);
    case WakeUp(p) => SemStepExact(w, Wake(p), Outside);
    case Die(p) => SemStepExact(w, Kill(p), Outside);
  }

  lemma LoadExact(w: World, p: Pid)
    requires Guarded(w) && Exact(w) && Can(w, Load(p))
    ensures Exact(Next(w, Load(p))) && Owed(Next(w, Load(p)).ws) == Owed(w.ws) && Next(w, Load(p)).log == w.log
  {
    OwedUpdate(w.ws, p, Next(w, Load(p)).ws[p]);
  }

  lemma StoreExact(w: World, p: Pid)
    requires Guarded(w) && Exact(w) && Can(w, Store(p))
    ensures Exact(Next(w, Store(p)))
  {
    var (v, k) := (Next(w, Store(p)), w.ws[p]);
    SumSnoc(w.log, k.inc);
    StoreSum(w.counter, Sum(w.log), k.inc, k.left);
    forall q | 0 <= q < |w.ws| && w.ws[q].pc.Loaded? ensures q == p { OnlyOwner(w, p, q); }
  }

  lemma StoreOwed(w: World, p: Pid)
    requires Exact(w) && Can(w, Store(p))
    ensures Sum(Next(w, Store(p)).log) + Owed(Next(w, Store(p)).ws) == Sum(w.log) + Owed(w.ws)
  {
    var k := w.ws[p];
    SumSnoc(w.log, k.inc);
    OwedUpdate(w.ws, p, Next(w, Store(p)).ws[p]);
    StoreSum(w.counter, Sum(w.log), k.inc, k.left);
  }

  lemma SumSnoc(q: seq<int>, x: int)
    ensures Sum(q + [x]) == Sum(q) + x
  {
    assert (q + [x])[..|q|] == q;
  }

  lemma StoreSum(counter: int, sum: int, inc: int, left: nat)
    requires counter == sum % WORD && left > 0
    ensures (counter + inc) % WORD == (sum + inc) % WORD
    ensures inc * left == inc + inc * (left - 1)
  {
  }

  lemma SemStepExact(w: World, e: Event, idle: Pc)
    requires Exact(w) && SemMove(w, e, idle)
    requires e.Wait? ==> w.ws[e.p].left > 0
    ensures Exact(SemStep(w, e, idle)) && SemStep(w, e, idle).log == w.log
    ensures Owed(SemStep(w, e, idle).ws) == Owed(w.ws)
  {
    var v := SemStep(w, e, idle);
    GrantedWaits(w, e, idle);
    match Granted(w.sem, e)
    case Some(g) =>
      if e.Wake? { assert WaitOk(w, g); }
      OwedUpdate(w.ws, g, v.ws[g]);
    case None =>
      if e.Wait? || e.Post? { OwedUpdate(w.ws, e.p, v.ws[e.p]); }
  }

  // ------------------------------------------------------------------
  // Runs
  // ------------------------------------------------------------------

  ghost predicate CanAll(w: World, ms: seq<Move>)
    decreases |ms|
  {
    ms == [] || (Can(w, ms[0]) && CanAll(Next(w, ms[0]), ms[1..]))
  }

  ghost function After(w: World, ms: seq<Move>): World
    requires CanAll(w, ms)
    decreases |ms|
  {
    if ms == [] then w else After(Next(w, ms[0]), ms[1..])
  }

  function Start(guarded: bool, ws: seq<Worker>): World {
    World(guarded, SemProtocol.Initial(1, |ws|), 0, ws, [])
  }

  ghost predicate Fresh(ws: seq<Worker>) {
    forall p | 0 <= p < |ws| :: ws[p].pc.Outside?
  }

  lemma StartOk(ws: seq<Worker>)
    requires Fresh(ws)
    ensures Guarded(Start(true, ws)) && Exact(Start(true, ws))
  {
    var w := Start(true, ws);
    assert Owners(w.ws, Busy) == {};
    forall p: Pid ensures WaitOk(w, p) {}
  }

  lemma {:induction false} RunExact(w: World, ms: seq<Move>)
    requires Guarded(w) && Exact(w) && CanAll(w, ms)
    ensures Guarded(After(w, ms)) && Exact(After(w, ms))
    ensures Sum(After(w, ms).log) + Owed(After(w, ms).ws) == Sum(w.log) + Owed(w.ws)
    decreases |ms|
  {
    if ms != [] {
      GuardedStep(w, ms[0]);
      ExactStep(w, ms[0]);
      RunExact(Next(w, ms[0]), ms[1..]);
    }
  }

  /** With the semaphore the counter is, after every step of every run, the sum of the increments completed so far. */
  lemma NoLostUpdate(ws: seq<Worker>, ms: seq<Move>)
    requires Fresh(ws) && CanAll(Start(true, ws), ms)
    ensures var w := After(Start(true, ws), ms);
            w.counter == Sum(w.log) % WORD && Sum(w.log) + Owed(w.ws) == Owed(ws)
  {
    StartOk(ws);
    RunExact(Start(true, ws), ms);
  }

  /** `test_sync`: two workers count down and two count up, `n` times each. */
  function TestWorkers(n: nat): seq<Worker> {
    [Worker(-1, n, Outside), Worker(1, n, Outside), Worker(-1, n, Outside), Worker(1, n, Outside)]
  }

  lemma {:induction false} NothingOwed(ws: seq<Worker>)
    requires forall p | 0 <= p < |ws| :: ws[p].left == 0
    ensures Owed(ws) == 0
  {
    if ws != [] { NothingOwed(ws[1..]); }
  }

  lemma TestOwed(n: nat)
    ensures Owed(TestWorkers(n)) == 0
  {
    var (a, b) := (Worker(-1, n, Outside), Worker(1, n, Outside));
    assert TestWorkers(n)[1..] == [b, a, b] && [b, a, b][1..] == [a, b] && [a, b][1..] == [b];
    assert Owed([b]) == 1 * n && Owed([a, b]) == 0;
  }

  /** Every run of the test in which the workers finish leaves the counter at 0. */
  lemma BalancedRun(n: nat, ms: seq<Move>)
    requires CanAll(Start(true, TestWorkers(n)), ms)
    requires forall k | k in After(Start(true, TestWorkers(n)), ms).ws :: k.left == 0
    ensures After(Start(true, TestWorkers(n)), ms).counter == 0
  {
    var ws := TestWorkers(n);
    NoLostUpdate(ws, ms);
    NothingOwed(After(Start(true, ws), ms).ws);
    TestOwed(n);
  }

  /** Without it, two workers that read before either writes lose an increment. */
  lemma UnguardedLoses()
    ensures var ws := [Worker(1, 1, Outside), Worker(1, 1, Outside)];
            var ms := [Load(0), Load(1), Store(0), Store(1)];
            CanAll(Start(false, ws), ms)
            && After(Start(false, ws), ms).counter == 1 && Sum(After(Start(false, ws), ms).log) == 2
  {
    LoadsMeet(Start(false, [Worker(1, 1, Outside), Worker(1, 1, Outside)]));
    SumSnoc([1], 1);
    assert [1] + [1] == [1, 1] && [1][..0] == [];
  }

  lemma LoadsMeet(w: World)
    requires !w.guarded && w.counter == 0 && w.log == [] && Alive(w.sem, 0) && Alive(w.sem, 1)
    requires w.ws == [Worker(1, 1, Outside), Worker(1, 1, Outside)]
    ensures CanAll(w, [Load(0), Load(1), Store(0), Store(1)])
    ensures var v := After(w, [Load(0), Load(1), Store(0), Store(1)]); v.counter == 1 && v.log == [1, 1]
  {
    var ms := [Load(0), Load(1), Store(0), Store(1)];
    var w1 := Next(w, Load(0));
    var w2 := Next(w1, Load(1));
    assert w1.ws == [Worker(1, 1, Loaded(0)), Worker(1, 1, Outside)] && w2.ws == [Worker(1, 1, Loaded(0)), Worker(1, 1, Loaded(0))];
    StoresLose(w2);
    assert ms[1..] == [Load(1), Store(0), Store(1)] && ms[1..][1..] == [Store(0), Store(1)];
    assert CanAll(w1, [Load(1), Store(0), Store(1)]);
  }

  lemma StoresLose(w: World)
    requires !w.guarded && w.counter == 0 && w.log == [] && Alive(w.sem, 0) && Alive(w.sem, 1)
    requires w.ws == [Worker(1, 1, Loaded(0)), Worker(1, 1, Loaded(0))]
    ensures CanAll(w, [Store(0), Store(1)])
    ensures var v := After(w, [Store(0), Store(1)]); v.counter == 1 && v.log == [1, 1]
  {
    var ms := [Store(0), Store(1)];
    var w3 := Next(w, Store(0));
    var w4 := Next(w3, Store(1));
    assert w3.ws == [Worker(1, 0, Outside), Worker(1, 1, Loaded(0))] && w4.log == [1, 1];
    assert ms[1..] == [Store(1)] && ms[1..][1..] == [];
    assert CanAll(w3, [Store(1)]) && After(w3, [Store(1)]) == After(w4, []);
  }
}
