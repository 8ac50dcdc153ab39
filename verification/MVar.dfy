/**
 * The shared variable of `mvar.c`: any number of writers and readers, a
 * semaphore `empty` that starts at 1 and a semaphore `full` that starts at 0.
 */
module MVar {
  import opened Options
  import opened SemClients
  import opened SemModel
  import opened SemProtocol

  /** Where a process is in its loop; `Touched` is after the write or the read and before the post. */
  datatype Pc = Outside | Waiting | Inside | Touched

  datatype Role = Writer(letter: int) | Reader

  datatype Proc = Proc(role: Role, pc: Pc)

  /** The semaphore a process waits on: writers on `empty`, readers on `full`; it posts the other one. */
  datatype Which = Empty | Full

  function Source(r: Role): Which { if r.Writer? then Empty else Full }
  function Target(r: Role): Which { if r.Writer? then Full else Empty }

  datatype Access = Wrote(v: int) | ReadOut(v: int)

  datatype World = World(empty: State, full: State, value: int, ps: seq<Proc>, trace: seq<Access>)

  datatype Move = Ask(p: Pid) | Touch(p: Pid) | Give(p: Pid) | WakeUp(s: Which, p: Pid) | Die(p: Pid)

  function At(w: World, s: Which): State { if s.Empty? then w.empty else w.full }

  ghost predicate Can(w: World, m: Move) {
    && m.p < |w.ps|
    && match m
       case Ask(p) => w.ps[p].pc.Outside? && p !in w.empty.handed && p !in w.full.handed
                      && Enabled(At(w, Source(w.ps[p].role)), Wait(p))
       case Touch(p) => w.ps[p].pc.Inside? && Alive(w.empty, p)
       case Give(p) => w.ps[p].pc.Touched? && Enabled(At(w, Target(w.ps[p].role)), Post(p))
       case WakeUp(s, p) => Enabled(At(w, s), Wake(p))
       case Die(p) => Enabled(w.empty, Kill(p)) && Enabled(w.full, Kill(p))
  }

  function Set(pc: Pc): Proc -> Proc {
    (k: Proc) => k.(pc := pc)
  }

  function SemStep(w: World, s: Which, e: Event, idle: Pc): World {
    var v := w.(ps := Moved(w.ps, At(w, s), e, Set(Inside), Set(idle)));
    if s.Empty? then v.(empty := Step(w.empty, e)) else v.(full := Step(w.full, e))
  }

  function Next(w: World, m: Move): World
    requires m.p < |w.ps|
  {
    match m
    case Ask(p) => SemStep(w, Source(w.ps[p].role), Wait(p), Waiting)
    case Touch(p) =>
      var v := w.(ps := Change(w.ps, p, Set(Touched)));
      (match w.ps[p].role
       case Writer(c) => v.(value := c, trace := w.trace + [Wrote(c)])
       case Reader => v.(trace := w.trace + [ReadOut(w.value)]))
    case Give(p) => SemStep(w, Target(w.ps[p].role), Post(p), Outside)
    case WakeUp(s, p) => SemStep(w, s, Wake(p), Outside)
    case Die(p) => SemStep(SemStep(w, Empty, Kill(p), Outside), Full, Kill(p), Outside)
  }

  // ------------------------------------------------------------------
  // One token
  // ------------------------------------------------------------------

  predicate Busy(k: Proc) { k.pc.Inside? || k.pc.Touched? }

  ghost predicate WaitOk(w: World, s: Which, p: Pid) {
    p in At(w, s).here ==> p < |w.ps| && w.ps[p].pc.Waiting? && Source(w.ps[p].role) == s
  }

  /** Tokens on `empty`, tokens on `full` and processes in either section add up to one. */
  ghost predicate OneToken(w: World) {
    && w.empty.away == {} && w.full.away == {}
    && Tokens(w.empty) + Tokens(w.full) + |Owners(w.ps, Busy)| == 1
    && forall s, p: Pid {:trigger WaitOk(w, s, p)} :: WaitOk(w, s, p)
  }

  ghost predicate SemMove(w: World, s: Which, e: Event, idle: Pc) {
    && OneToken(w) && e.p < |w.ps| && Enabled(At(w, s), e) && !e.Sleep? && !e.Rouse?
    && (idle.Outside? || idle.Waiting?)
    && (e.Wait? ==> w.ps[e.p].pc.Outside? && idle == Waiting && Source(w.ps[e.p].role) == s)
    && (e.Post? ==> w.ps[e.p].pc.Touched? && idle == Outside && Target(w.ps[e.p].role) == s)
  }

  /** Whoever is granted a token was waiting for it, or is asking. */
  lemma GrantedWaits(w: World, s: Which, e: Event, idle: Pc)
    requires SemMove(w, s, e, idle)
    ensures Granted(At(w, s), e).Some? ==>
              var g := Granted(At(w, s), e).value;
              g < |w.ps| && !Busy(w.ps[g]) && Source(w.ps[g].role) == s
  {
    if e.Wake? {
      if Granted(At(w, s), e).Some? { assert WaitOk(w, s, Granted(At(w, s), e).value); }
    }
  }

  lemma OwnersStep(w: World, s: Which, e: Event, idle: Pc)
    requires SemMove(w, s, e, idle)
    ensures Owners(SemStep(w, s, e, idle).ps, Busy) == HoldersAfter(At(w, s), e, Owners(w.ps, Busy))
  {
    GrantedWaits(w, s, e, idle);
    OwnersMoved(w.ps, At(w, s), e, Set(Inside), Set(idle), Busy);
  }

  lemma WaitersStep(w: World, s: Which, e: Event, idle: Pc, r: Which, p: Pid)
    requires SemMove(w, s, e, idle)
    ensures WaitOk(SemStep(w, s, e, idle), r, p)
  {
    GrantedWaits(w, s, e, idle);
    assert WaitOk(w, r, p);
    if r == s { StepWaits(At(w, s), e, p); }
  }

  lemma SemStepToken(w: World, s: Which, e: Event, idle: Pc)
    requires SemMove(w, s, e, idle)
    ensures OneToken(SemStep(w, s, e, idle))
  {
    var h := Owners(w.ps, Busy);
    forall p | p in h ensures p !in At(w, s).here { assert WaitOk(w, s, p); }
    assert Disciplined(At(w, s), [e], h);
    HeldStep(At(w, s), e, h);
    NobodyAway(At(w, s), e);
    OwnersStep(w, s, e, idle);
    forall r, p: Pid ensures WaitOk(SemStep(w, s, e, idle), r, p) { WaitersStep(w, s, e, idle, r, p); }
  }

  lemma TokenStep(w: World, m: Move)
    requires OneToken(w) && Can(w, m)
    ensures OneToken(Next(w, m))
  {
    match m
    case Ask(p) => SemStepToken(w, Source(w.ps[p].role), Wait(p), Waiting);
    case Touch(p) =>
      var v := Next(w, m);
      OwnersUpdate(w.ps, p, v.ps[p], Busy);
      assert Owners(w.ps, Busy) + {p} == Owners(w.ps, Busy);
      forall s, q: Pid ensures WaitOk(v, s, q) { assert WaitOk(w, s, q); }
    case Give(p) => SemStepToken(w, Target(w.ps[p].role), Post(p), Outside);
    case WakeUp(s, p) => SemStepToken(w, s, Wake(p), Outside);
    case Die(p) =>
      SemStepToken(w, Empty, Kill(p), Outside);
      SemStepToken(SemStep(w, Empty, Kill(p), Outside), Full, Kill(p), Outside);
  }

  // ------------------------------------------------------------------
  // What the readers see
  // ------------------------------------------------------------------

  /** Writes come at even places, and the read after each returns what it wrote. */
  ghost predicate TurnOk(t: seq<Access>, i: nat) {
    i < |t| && if i % 2 == 0 then t[i].Wrote? else t[i] == ReadOut(t[i - 1].v)
  }

  ghost predicate Alternates(t: seq<Access>) {
    forall i: nat {:trigger TurnOk(t, i)} | i < |t| :: TurnOk(t, i)
  }

  /** The variable holds a value that nobody has read yet. */
  predicate Unread(w: World) { |w.trace| % 2 == 1 }

  /** A process inside that makes the variable unread: a writer after its write, a reader before its read. */
  predicate Ahead(k: Proc) { if k.role.Writer? then k.pc.Touched? else k.pc.Inside? }

  ghost predicate InStep(w: World) {
    && Alternates(w.trace)
    && (Unread(w) ==> w.trace[|w.trace| - 1] == Wrote(w.value))
    && (Tokens(w.empty) > 0 ==> !Unread(w))
    && (Tokens(w.full) > 0 ==> Unread(w))
    && (forall p | 0 <= p < |w.ps| && Busy(w.ps[p]) :: Ahead(w.ps[p]) == Unread(w))
  }

  /** While a process is inside it is alone, and there is no token anywhere. */
  lemma Alone(w: World, p: nat)
    requires OneToken(w) && p < |w.ps| && Busy(w.ps[p])
    ensures Tokens(w.empty) == 0 && Tokens(w.full) == 0
    ensures forall q | 0 <= q < |w.ps| && Busy(w.ps[q]) :: q == p
  {
    assert p in Owners(w.ps, Busy);
    assert |Owners(w.ps, Busy)| >= 1 by { assert |Owners(w.ps, Busy) - {p}| == |Owners(w.ps, Busy)| - 1; }
    forall q | 0 <= q < |w.ps| && Busy(w.ps[q]) ensures q == p { AtMostOne(Owners(w.ps, Busy), p, q); }
  }

  lemma TouchInStep(w: World, p: Pid)
    requires OneToken(w) && InStep(w) && Can(w, Touch(p))
    ensures InStep(Next(w, Touch(p)))
  {
    Alone(w, p);
    var v := Next(w, Touch(p));
    forall i: nat | i < |v.trace| ensures TurnOk(v.trace, i) {
      if i < |w.trace| { assert TurnOk(w.trace, i); }
    }
  }

  /** With nobody blocked for another reason, no token strays. */
  lemma TokensAt(w: World, s: Which, e: Event, idle: Pc)
    requires SemMove(w, s, e, idle)
    ensures var v := SemStep(w, s, e, idle);
            && Tokens(At(v, s)) == Tokens(At(w, s)) + (if e.Post? then 1 else 0) - (if Granted(At(w, s), e).Some? then 1 else 0)
            && (s.Empty? ==> v.full == w.full) && (s.Full? ==> v.empty == w.empty)
  {
    StepTokens(At(w, s), e);
    NobodyAway(At(w, s), e);
  }

  lemma SemStepInStep(w: World, s: Which, e: Event, idle: Pc)
    requires InStep(w) && SemMove(w, s, e, idle)
    ensures InStep(SemStep(w, s, e, idle))
  {
    GrantedWaits(w, s, e, idle);
    TokensAt(w, s, e, idle);
    if e.Post? { Alone(w, e.p); }
    var v := SemStep(w, s, e, idle);
    if Granted(At(w, s), e).Some? { SourceToken(w, s, e, idle); }
    MovedInStep(w, s, e, idle);
  }

  /** Those inside afterwards are on their side of the access, the one that enters included. */
  lemma MovedInStep(w: World, s: Which, e: Event, idle: Pc)
    requires InStep(w) && SemMove(w, s, e, idle)
    requires Granted(At(w, s), e).Some? ==> Tokens(At(w, s)) > 0
    ensures var v := SemStep(w, s, e, idle);
            forall p | 0 <= p < |v.ps| && Busy(v.ps[p]) :: Ahead(v.ps[p]) == Unread(v)
  {
    GrantedWaits(w, s, e, idle);
    var v := SemStep(w, s, e, idle);
    forall p | 0 <= p < |v.ps| && Busy(v.ps[p]) ensures Ahead(v.ps[p]) == Unread(v) {
      if Granted(At(w, s), e) != Some(p) { assert v.ps[p] == w.ps[p]; }
    }
  }

  /** The token that is granted was on the semaphore. */
  lemma SourceToken(w: World, s: Which, e: Event, idle: Pc)
    requires SemMove(w, s, e, idle) && Granted(At(w, s), e).Some?
    ensures Tokens(At(w, s)) > 0
  {
    if e.Wake? { assert |At(w, s).handed| > 0 by { assert e.p in At(w, s).handed.Keys; } }
  }

  lemma InStepNext(w: World, m: Move)
    requires OneToken(w) && InStep(w) && Can(w, m)
    ensures InStep(Next(w, m))
  {
    match m
    case Ask(p) => SemStepInStep(w, Source(w.ps[p].role), Wait(p), Waiting);
    case Touch(p) => TouchInStep(w, p);
    case Give(p) => SemStepInStep(w, Target(w.ps[p].role), Post(p), Outside);
    case WakeUp(s, p) => SemStepInStep(w, s, Wake(p), Outside);
    case Die(p) =>
      SemStepInStep(w, Empty, Kill(p), Outside);
      SemStepToken(w, Empty, Kill(p), Outside);
      SemStepInStep(SemStep(w, Empty, Kill(p), Outside), Full, Kill(p), Outside);
  }

  // ------------------------------------------------------------------
  // Runs
  // ------------------------------------------------------------------

  ghost predicate CanAll(w: World, ms: seq<Move>)
    decreases |ms|
  {
    ms == [] || (Can(w, ms[0]) && CanAll(Next(w, ms[0]), ms[1..]))
  }

  ghost function After(w: World, ms: seq<Move>): World
    requires CanAll(w, ms)
    decreases |ms|
  {
    if ms == [] then w else After(Next(w, ms[0]), ms[1..])
  }

  function Start(roles: seq<Role>): World {
    World(Initial(1, |roles|), Initial(0, |roles|), 0, seq(|roles|, i requires 0 <= i < |roles| => Proc(roles[i], Outside)), [])
  }

  lemma StartOk(roles: seq<Role>)
    ensures OneToken(Start(roles)) && InStep(Start(roles))
  {
    var w := Start(roles);
    assert Owners(w.ps, Busy) == {};
    forall s, p: Pid ensures WaitOk(w, s, p) {}
  }

  lemma {:induction false} RunInStep(w: World, ms: seq<Move>)
    requires OneToken(w) && InStep(w) && CanAll(w, ms)
    ensures OneToken(After(w, ms)) && InStep(After(w, ms))
    decreases |ms|
  {
    if ms != [] {
      TokenStep(w, ms[0]);
      InStepNext(w, ms[0]);
      RunInStep(Next(w, ms[0]), ms[1..]);
    }
  }

  function Written(t: seq<Access>): seq<int> {
    if t == [] then [] else Written(t[..|t| - 1]) + (if t[|t| - 1].Wrote? then [t[|t| - 1].v] else [])
  }

  function ReadBack(t: seq<Access>): seq<int> {
    if t == [] then [] else ReadBack(t[..|t| - 1]) + (if t[|t| - 1].ReadOut? then [t[|t| - 1].v] else [])
  }

  lemma {:induction false} ReadsFollow(t: seq<Access>)
    requires Alternates(t)
    ensures |t| % 2 == 0 ==> ReadBack(t) == Written(t)
    ensures |t| % 2 == 1 ==> Written(t) == ReadBack(t) + [t[|t| - 1].v]
    decreases |t|
  {
    if t != [] {
      var r := t[..|t| - 1];
      forall i: nat | i < |r| ensures TurnOk(r, i) { assert TurnOk(t, i); }
      assert TurnOk(t, |t| - 1);
      ReadsFollow(r);
    }
  }

  /**
   * In every interleaving of any writers and readers, kills included: at most
   * one process is inside, writes and reads alternate, and the values read are
   * those written, in order, less at most the last one.
   */
  lemma ReadsAreWrites(roles: seq<Role>, ms: seq<Move>)
    requires CanAll(Start(roles), ms)
    ensures var w := After(Start(roles), ms);
            && Tokens(w.empty) + Tokens(w.full) + |Owners(w.ps, Busy)| == 1
            && Alternates(w.trace)
            && (ReadBack(w.trace) == Written(w.trace) || Written(w.trace) == ReadBack(w.trace) + [w.value])
  {
    StartOk(roles);
    RunInStep(Start(roles), ms);
    ReadsFollow(After(Start(roles), ms).trace);
  }

  /** The letters of the writers that touch the variable, in the order in which they do. */
  function Letters(roles: seq<Role>, ms: seq<Move>): seq<int> {
    if ms == [] then []
    else
      (if ms[0].Touch? && ms[0].p < |roles| && roles[ms[0].p].Writer? then [roles[ms[0].p].letter] else []) + Letters(roles, ms[1..])
  }

  ghost predicate HasRoles(w: World, roles: seq<Role>) {
    |w.ps| == |roles| && forall p | 0 <= p < |roles| :: w.ps[p].role == roles[p]
  }

  lemma RolesStay(w: World, m: Move, roles: seq<Role>)
    requires HasRoles(w, roles) && Can(w, m)
    ensures HasRoles(Next(w, m), roles)
  {
  }

  lemma WrittenStep(w: World, m: Move, roles: seq<Role>)
    requires HasRoles(w, roles) && Can(w, m)
    ensures Written(Next(w, m).trace) == Written(w.trace) + Letters(roles, [m])
  {
    var t := Next(w, m).trace;
    if m.Touch? { assert t[..|t| - 1] == w.trace; }
    assert [m][1..] == [];
  }

  lemma LettersCons(roles: seq<Role>, ms: seq<Move>)
    requires ms != []
    ensures Letters(roles, ms) == Letters(roles, [ms[0]]) + Letters(roles, ms[1..])
  {
    assert [ms[0]][1..] == [];
  }

  lemma Assoc(a: seq<int>, b: seq<int>, c: seq<int>)
    ensures a + b + c == a + (b + c)
  {
  }

  /** What is written is, in order, the letter of each writer that came to write. */
  lemma {:induction false} WritesOwnLetters(w: World, ms: seq<Move>, roles: seq<Role>)
    requires HasRoles(w, roles) && CanAll(w, ms)
    ensures Written(After(w, ms).trace) == Written(w.trace) + Letters(roles, ms)
    decreases |ms|
  {
    if ms != [] {
      RolesStay(w, ms[0], roles);
      WrittenStep(w, ms[0], roles);
      WritesOwnLetters(Next(w, ms[0]), ms[1..], roles);
      LettersCons(roles, ms);
      Assoc(Written(w.trace), Letters(roles, [ms[0]]), Letters(roles, ms[1..]));
    }
  }

  /** So what the readers have read are the letters of the writers, in the order of their writes, less at most the last. */
  lemma ReadsAreLetters(roles: seq<Role>, ms: seq<Move>)
    requires CanAll(Start(roles), ms)
    ensures var (r, l) := (ReadBack(After(Start(roles), ms).trace), Letters(roles, ms));
            r == l || (l != [] && r == l[..|l| - 1])
  {
    ReadsAreWrites(roles, ms);
    WritesOwnLetters(Start(roles), ms, roles);
    assert Written([]) + Letters(roles, ms) == Letters(roles, ms);
  }
}
