/**
 * Any number of processes using one semaphore, interleaved at its atomic
 * sections: a post that finds a waiter takes it off the queue in one section
 * and wakes it afterwards, and other steps may come between the two.  A waiter
 * is a slot of the process table, and the wake goes to whoever is in it by then.
 */
module SemProtocol {
  import opened Lists
  import opened Options
  import opened SemModel
  import Runs

  type Pid = nat         // a process; never used again
  type Slot = nat        // a place in the process table; used again once its process is dead

  /** A waiter; tickets number the arrivals. */
  datatype Arrival = Arrival(slot: Slot, ticket: nat)

  datatype State = State(
    sem: Sem<Arrival>,
    next: nat,                   // the next ticket
    pops: seq<Arrival>,          // waiters taken off the queue by posts, in order
    handed: map<Pid, Arrival>,   // poster -> waiter it has taken off the queue and not yet woken
    named: bool,                 // not unlinked: a kill still finds it
    table: map<Slot, Pid>,       // the process in each slot in use
    home: map<Pid, Slot>,        // the slot of every process there has been
    here: set<Pid>,              // blocked in a wait on this semaphore
    away: set<Pid>,              // blocked for another reason
    gone: set<nat>,              // tickets of waiters removed by a kill
    posts: nat, grants: nat,     // calls of post; waits that got their token
    lost: nat,                   // tokens dropped because the counter was full
    failed: nat,                 // wakes that did not find a blocked process
    spent: nat                   // wakes that ended another kind of wait, and took a token with them
  )

  datatype Event =
    | Wait(p: Pid)
    | Post(p: Pid)
    | Wake(p: Pid)               // the second section of p's post
    | Kill(p: Pid)               // proc_exit, or proc_kill: with ksem_remove_waiters_for
    | Orphan(p: Pid)             // p ends with its parent, in detach_children: without it
    | Unlink(p: Pid)
    | Spawn(p: Pid, x: Slot)     // a new process in a free slot
    | Sleep(p: Pid)              // p blocks for another reason
    | Rouse(p: Pid)              // p is unblocked by something other than this semaphore

  /** Process `i` in slot `i`. */
  function FirstTable(n: nat): (m: map<nat, nat>)
    ensures forall i: nat :: i in m <==> i < n
    ensures forall i | 0 <= i < n :: m[i] == i
  {
    if n == 0 then map[] else FirstTable(n - 1)[n - 1 := n - 1]
  }

  function Initial(init: nat, n: nat): State {
    State(Sem(init, []), 0, [], map[], true, FirstTable(n), FirstTable(n), {}, {}, {}, 0, 0, 0, 0, 0)
  }

  predicate Alive(s: State, p: Pid) {
    p in s.home && s.home[p] in s.table && s.table[s.home[p]] == p
  }

  /** A process acts when it is alive and not blocked; what it may start while inside a post is the wake. */
  predicate Free(s: State, p: Pid) {
    Alive(s, p) && p !in s.here && p !in s.away && p !in s.handed
  }

  /** A killer does not catch one inside a post. */
  predicate Enabled(s: State, e: Event) {
    match e
    case Wake(p) => p in s.handed
    case Kill(p) => Alive(s, p) && p !in s.handed
    case Orphan(p) => Alive(s, p) && p !in s.handed
    case Spawn(p, x) => p !in s.home && x !in s.table
    case Rouse(p) => p in s.here || p in s.away
    case _ => Free(s, e.p)
  }

  function SlotOf(s: State, p: Pid): Slot { if p in s.home then s.home[p] else p }

  function Occupant(s: State, x: Slot): Option<Pid> {
    if x in s.table then Some(s.table[x]) else None
  }

  /** Whom `proc_unblock` finds when the poster `p` calls it. */
  function Target(s: State, p: Pid): Option<Pid> {
    if p in s.handed then Occupant(s, s.handed[p].slot) else None
  }

  /** The process that gets a token by this step. */
  function Granted(s: State, e: Event): Option<Pid> {
    match e
    case Wait(p) => if s.sem.count > 0 then Some(p) else None
    case Wake(p) => if Target(s, p).Some? && Target(s, p).value in s.here then Target(s, p) else None
    case _ => None
  }

  /** The wake ends a wait that was for something else. */
  predicate Strays(s: State, e: Event) {
    e.Wake? && Target(s, e.p).Some? && Target(s, e.p).value !in s.here && Target(s, e.p).value in s.away
  }

  /** The wake finds nobody blocked. */
  predicate Fails(s: State, e: Event) {
    e.Wake? && (Target(s, e.p).Some? ==> Target(s, e.p).value !in s.here && Target(s, e.p).value !in s.away)
  }

  function OtherThan(x: Slot): Arrival -> bool {
    (a: Arrival) => a.slot != x
  }

  /** The process ends and its slot is free. */
  function Buried(s: State, p: Pid): State {
    s.(table := s.table - {SlotOf(s, p)}, here := s.here - {p}, away := s.away - {p})
  }

  function Step(s: State, e: Event): State {
    match e
    case Wait(p) =>
      var (sem, got) := Take(s.sem, Arrival(SlotOf(s, p), s.next));
      if got then s.(sem := sem, grants := s.grants + 1)
      else s.(sem := sem, next := s.next + 1, here := s.here + {p})
    case Post(p) =>
      var (sem, w) := Give(s.sem);
      var t := s.(sem := sem, posts := s.posts + 1);
      if w.Some? then t.(handed := s.handed[p := w.value], pops := s.pops + [w.value])
      else t.(lost := if sem == s.sem then s.lost + 1 else s.lost)
    case Wake(p) =>
      if p !in s.handed then s
      else
        var t := s.(handed := s.handed - {p});
        if Granted(s, e).Some? then t.(here := s.here - {Granted(s, e).value}, grants := s.grants + 1)
        else if Strays(s, e) then t.(away := s.away - {Target(s, p).value}, spent := s.spent + 1)
        else
          var sem := Return(s.sem);
          t.(sem := sem, failed := s.failed + 1, lost := if sem == s.sem then s.lost + 1 else s.lost)
    case Kill(p) =>
      // ksem_remove_waiters_for looks for the slot among the waiters of named semaphores only
      var t := Buried(s, p);
      if !s.named then t
      else t.(sem := s.sem.(queue := Filter(s.sem.queue, OtherThan(SlotOf(s, p)))),
              gone := s.gone + (set a | a in s.sem.queue && a.slot == SlotOf(s, p) :: a.ticket))
    case Orphan(p) => Buried(s, p)
    case Unlink(p) => s.(named := false)
    case Spawn(p, x) => s.(table := s.table[x := p], home := s.home[p := x])
    case Sleep(p) => s.(away := s.away + {p})
    case Rouse(p) => s.(here := s.here - {p}, away := s.away - {p})
  }

  // ------------------------------------------------------------------
  // What a step does to the kernel's semaphore, which knows slots but no tickets
  // ------------------------------------------------------------------

  function Slots(q: seq<Arrival>): (r: seq<Slot>)
    ensures |r| == |q|
  {
    if q == [] then [] else [q[0].slot] + Slots(q[1..])
  }

  function Plain(s: Sem<Arrival>): Sem<nat> {
    Sem(s.count, Slots(s.queue))
  }

  lemma {:induction false} SlotsAppend(q: seq<Arrival>, a: Arrival)
    ensures Slots(q + [a]) == Slots(q) + [a.slot]
  {
    if q != [] {
      SlotsAppend(q[1..], a);
      assert (q + [a])[1..] == q[1..] + [a];
    }
  }

  lemma {:induction false} SlotsFilter(q: seq<Arrival>, x: Slot)
    ensures Slots(Filter(q, OtherThan(x))) == Without(Slots(q), x)
  {
    if q != [] {
      SlotsFilter(q[1..], x);
      assert Slots(q)[1..] == Slots(q[1..]);
      var r := Filter(q[1..], OtherThan(x));
      assert ([q[0]] + r)[1..] == r && [] + r == r;
    }
  }

  /** The steps act on the semaphore as `Semaphore.Wait`, `Post` and `Forget` do. */
  lemma PlainStep(s: State, e: Event)
    requires Enabled(s, e)
    ensures Plain(Step(s, e).sem) ==
              match e
              case Wait(p) => Take(Plain(s.sem), SlotOf(s, p)).0
              case Post(p) => Give(Plain(s.sem)).0
              case Wake(p) => if Fails(s, e) then Return(Plain(s.sem)) else Plain(s.sem)
              case Kill(p) => if s.named then Forgotten(Plain(s.sem), SlotOf(s, p)) else Plain(s.sem)
              case _ => Plain(s.sem)
  {
    match e
    case Wait(p) => SlotsAppend(s.sem.queue, Arrival(SlotOf(s, p), s.next));
    case Kill(p) => SlotsFilter(s.sem.queue, SlotOf(s, p));
    case _ =>
  }

  // ------------------------------------------------------------------
  // Conservation of tokens
  // ------------------------------------------------------------------

  /** Tokens not held by anybody: counted, on their way to a waiter, or dropped. */
  ghost function Tokens(s: State): nat {
    s.sem.count + |s.handed| + s.lost
  }

  /** A step changes the number of tokens by the posts and grants it makes, by a wake that strays, and by nothing else. */
  lemma StepTokens(s: State, e: Event)
    requires Enabled(s, e)
    ensures Tokens(Step(s, e)) ==
            Tokens(s) + (if e.Post? then 1 else 0) - (if Granted(s, e).Some? then 1 else 0) - (if Strays(s, e) then 1 else 0)
    ensures Step(s, e).spent == s.spent + (if Strays(s, e) then 1 else 0)
  {
    if e.Post? && s.sem.queue != [] {
      assert |s.handed[e.p := s.sem.queue[0]]| == |s.handed| + 1;
    } else if e.Wake? {
      assert (s.handed - {e.p}).Keys == s.handed.Keys - {e.p};
    }
  }

  ghost function Run(s: State, es: seq<Event>): State {
    Runs.After(s, es, Step)
  }

  ghost predicate CanRun(s: State, es: seq<Event>) {
    Runs.Can(s, es, Enabled, Step)
  }

  /** Initial value + posts = count + grants + hand-offs in flight + tokens dropped at a full counter + tokens spent on other waits, in every run. */
  lemma {:induction false} Conservation(s: State, es: seq<Event>)
    requires CanRun(s, es)
    ensures var t := Run(s, es);
            Tokens(t) + t.spent + t.grants - t.posts == Tokens(s) + s.spent + s.grants - s.posts
    decreases |es|
  {
    if es != [] {
      StepTokens(s, es[0]);
      Conservation(Step(s, es[0]), es[1..]);
    }
  }

  // ------------------------------------------------------------------
  // Order of service
  // ------------------------------------------------------------------

  ghost predicate Increasing(q: seq<Arrival>) {
    forall i, j | 0 <= i < j < |q| :: q[i].ticket < q[j].ticket
  }

  /** Those served so far, then those still queued, stand in the order of their tickets. */
  ghost predicate InOrder(s: State) {
    && Increasing(s.pops) && Increasing(s.sem.queue)
    && (forall a, b | a in s.pops && b in s.sem.queue :: a.ticket < b.ticket)
  }

  /** Was the arrival with ticket `t` served, or is it still queued? */
  ghost predicate InLine(s: State, t: nat) {
    (exists a | a in s.pops :: a.ticket == t) || (exists a | a in s.sem.queue :: a.ticket == t)
  }

  /** Every ticket given out is in the line or was removed with its process; never both. */
  ghost predicate Accounted(s: State) {
    && (forall t: nat {:trigger InLine(s, t)} | t < s.next :: InLine(s, t) <==> t !in s.gone)
    && (forall t: nat {:trigger InLine(s, t)} | t >= s.next :: !InLine(s, t) && t !in s.gone)
  }

  /** Nobody queues while a token is free. */
  ghost predicate NoIdle(s: State) {
    s.sem.count > 0 ==> s.sem.queue == []
  }

  /** This is lost by exactly one kind of step: a wake finds nobody blocked while there is a queue. */
  lemma NoIdleIff(s: State, e: Event)
    requires Enabled(s, e) && NoIdle(s)
    ensures NoIdle(Step(s, e)) <==> !(Fails(s, e) && s.sem.queue != [])
  {
  }

  ghost predicate Inv(s: State) {
    InOrder(s) && Accounted(s) && (s.failed == 0 ==> NoIdle(s))
  }

  lemma {:induction false} FilterIncreasing(q: seq<Arrival>, f: Arrival -> bool)
    requires Increasing(q)
    ensures Increasing(Filter(q, f))
    decreases |q|
  {
    if q != [] {
      FilterIncreasing(q[1..], f);
      forall i | 0 <= i < |Filter(q[1..], f)| ensures q[0].ticket < Filter(q[1..], f)[i].ticket {
        FilterIn(q[1..], f, Filter(q[1..], f)[i]);
      }
    }
  }

  lemma InvKill(s: State, p: Pid)
    requires Inv(s) && s.named
    ensures Inv(Step(s, Kill(p)))
  {
    var t := Step(s, Kill(p));
    FilterIncreasing(s.sem.queue, OtherThan(SlotOf(s, p)));
    FilterMembers(s.sem.queue, OtherThan(SlotOf(s, p)));
    forall n: nat ensures InLine(t, n) <==> InLine(s, n) && n !in t.gone { KillTicket(s, p, n); }
    forall n: nat | n in t.gone ensures n < s.next {
      if n in s.gone { assert InLine(s, n) <==> InLine(t, n); } else { assert InLine(s, n); }
    }
    forall n: nat | n < s.next ensures InLine(t, n) <==> n !in t.gone { assert InLine(s, n) <==> n !in s.gone; }
  }

  /** Killing takes out of the line exactly the tickets it records. */
  lemma KillTicket(s: State, p: Pid, n: nat)
    requires Inv(s) && s.named
    ensures var t := Step(s, Kill(p)); InLine(t, n) <==> InLine(s, n) && n !in t.gone
  {
    var t := Step(s, Kill(p));
    FilterMembers(s.sem.queue, OtherThan(SlotOf(s, p)));
    if InLine(t, n) {
      assert InLine(s, n);
      assert n !in s.gone;
    }
  }

  lemma InvStep(s: State, e: Event)
    requires Inv(s) && Enabled(s, e)
    ensures Inv(Step(s, e))
  {
    match e
    case Wait(p) => InvWait(s, p);
    case Post(p) => InvPost(s, p);
    case Kill(p) => if s.named { InvKill(s, p); } else { SameLine(s, Step(s, e)); }
    case _ => SameLine(s, Step(s, e));
  }

  lemma SameLine(s: State, t: State)
    requires Inv(s) && t.sem.queue == s.sem.queue && t.pops == s.pops && t.gone == s.gone && t.next == s.next
    ensures InOrder(t) && Accounted(t)
  {
    forall n: nat ensures InLine(t, n) == InLine(s, n) {}
  }

  lemma InvWait(s: State, p: Pid)
    requires Inv(s) && Enabled(s, Wait(p))
    ensures Inv(Step(s, Wait(p)))
  {
    var t := Step(s, Wait(p));
    if s.sem.count > 0 {
      SameLine(s, t);
    } else {
      var a := Arrival(SlotOf(s, p), s.next);
      forall n: nat ensures InLine(t, n) <==> InLine(s, n) || n == s.next {
        if n == s.next { assert a in t.sem.queue; }
      }
      forall b | b in s.pops || b in s.sem.queue ensures b.ticket < s.next { assert InLine(s, b.ticket); }
      assert !InLine(s, s.next);
      forall n: nat | n < t.next ensures InLine(t, n) <==> n !in t.gone {
        if n < s.next { assert InLine(s, n) <==> n !in s.gone; }
      }
    }
  }

  lemma InvPost(s: State, p: Pid)
    requires Inv(s) && Enabled(s, Post(p))
    ensures Inv(Step(s, Post(p)))
  {
    var t := Step(s, Post(p));
    if s.sem.queue == [] {
      SameLine(s, t);
    } else {
      PopLine(s, t);
    }
  }

  /** The first of the queue becomes the last of those taken off. */
  lemma PopLine(s: State, t: State)
    requires InOrder(s) && Accounted(s) && s.sem.queue != [] && t.gone == s.gone && t.next == s.next
    requires t.pops == s.pops + [s.sem.queue[0]] && t.sem.queue == s.sem.queue[1..]
    ensures InOrder(t) && Accounted(t)
  {
    var a := s.sem.queue[0];
    assert s.sem.queue == [a] + t.sem.queue;
    forall n: nat ensures InLine(t, n) == InLine(s, n) {}
    forall b | b in t.sem.queue ensures a.ticket < b.ticket {}
  }

  lemma {:induction false} InvRun(s: State, es: seq<Event>)
    requires Inv(s) && CanRun(s, es)
    ensures Inv(Run(s, es))
    decreases |es|
  {
    if es != [] {
      InvStep(s, es[0]);
      InvRun(Step(s, es[0]), es[1..]);
    }
  }

  lemma InitialOk(init: nat, n: nat)
    ensures Inv(Initial(init, n))
  {
    var s := Initial(init, n);
    forall t: nat ensures !InLine(s, t) {}
  }

  /**
   * In every run from the start: waiters are taken off the queue in the order
   * in which they joined it; every waiter has been taken off, is still queued,
   * or was removed by a kill while the semaphore had its name; and while no wake
   * has failed, nobody queues beside a free token.
   */
  lemma ServedInOrder(init: nat, n: nat, es: seq<Event>)
    requires CanRun(Initial(init, n), es)
    ensures var s := Run(Initial(init, n), es); InOrder(s) && Accounted(s) && (s.failed == 0 ==> NoIdle(s))
  {
    InitialOk(init, n);
    InvRun(Initial(init, n), es);
  }

  // ------------------------------------------------------------------
  // Mutual exclusion
  // ------------------------------------------------------------------

  /** Who waits after a step: a process starts by an ungranted wait and stops by being granted a token, by ending, or by being unblocked from elsewhere. */
  lemma StepWaits(s: State, e: Event, x: Pid)
    requires Enabled(s, e)
    ensures x in Step(s, e).here <==>
              (x in s.here && Granted(s, e) != Some(x) && !((e.Kill? || e.Orphan? || e.Rouse?) && x == e.p))
              || (e.Wait? && x == e.p && s.sem.count == 0)
  {
  }

  /** Those who have returned from a wait and have not posted since. */
  function HoldersAfter(s: State, e: Event, h: set<Pid>): set<Pid> {
    (if e.Post? then h - {e.p} else h) + (match Granted(s, e) case Some(p) => {p} case None => {})
    + (if e.Rouse? && e.p in s.here then {e.p} else {})
  }

  /** Processes post what they hold, and wait when they hold nothing. */
  ghost predicate Disciplined(s: State, es: seq<Event>, h: set<Pid>)
    decreases |es|
  {
    es == [] || (
      && Enabled(s, es[0]) && (es[0].Post? ==> es[0].p in h) && (es[0].Wait? ==> es[0].p !in h)
      && Disciplined(Step(s, es[0]), es[1..], HoldersAfter(s, es[0], h)))
  }

  ghost function Holders(s: State, es: seq<Event>, h: set<Pid>): set<Pid>
    decreases |es|
  {
    if es == [] then h else Holders(Step(s, es[0]), es[1..], HoldersAfter(s, es[0], h))
  }

  /** How many waits of the run end without a token, because something else unblocks the process. */
  ghost function Roused(s: State, es: seq<Event>): nat
    decreases |es|
  {
    if es == [] then 0
    else (if es[0].Rouse? && es[0].p in s.here then 1 else 0) + Roused(Step(s, es[0]), es[1..])
  }

  lemma HeldStep(s: State, e: Event, h: set<Pid>)
    requires Disciplined(s, [e], h) && h !! s.here
    ensures var (t, g) := (Step(s, e), HoldersAfter(s, e, h));
            && g !! t.here
            && |g| + Tokens(t) + t.spent == |h| + Tokens(s) + s.spent + (if e.Rouse? && e.p in s.here then 1 else 0)
  {
    StepTokens(s, e);
    HoldersCount(s, e, h);
    forall p | p in HoldersAfter(s, e, h) ensures p !in Step(s, e).here { StepWaits(s, e, p); }
  }

  lemma HoldersCount(s: State, e: Event, h: set<Pid>)
    requires Disciplined(s, [e], h) && h !! s.here
    ensures |HoldersAfter(s, e, h)| ==
            |h| - (if e.Post? then 1 else 0) + (if Granted(s, e).Some? then 1 else 0) + (if e.Rouse? && e.p in s.here then 1 else 0)
  {
  }

  /** With nobody blocked for another reason no token strays. */
  lemma NobodyAway(s: State, e: Event)
    requires Enabled(s, e) && s.away == {} && !e.Sleep?
    ensures Step(s, e).away == {} && Step(s, e).spent == s.spent && !Strays(s, e)
  {
  }

  /** In every interleaving, whoever dies and whatever its slot is used for next: those inside, the tokens and the tokens spent on other waits change only by waits that something else ends. */
  lemma {:induction false} TokensHeld(s: State, es: seq<Event>, h: set<Pid>)
    requires Disciplined(s, es, h) && h !! s.here
    ensures var t := Run(s, es);
            |Holders(s, es, h)| + Tokens(t) + t.spent == |h| + Tokens(s) + s.spent + Roused(s, es)
    decreases |es|
  {
    if es != [] {
      HeldStep(s, es[0], h);
      TokensHeld(Step(s, es[0]), es[1..], HoldersAfter(s, es[0], h));
    }
  }

  /** With initial value 1, at most one process is inside exactly as long as no more waits were ended from elsewhere than there are tokens left and spent; so always, if none was. */
  lemma MutualExclusion(n: nat, es: seq<Event>)
    requires Disciplined(Initial(1, n), es, {})
    ensures var (t, h) := (Run(Initial(1, n), es), Holders(Initial(1, n), es, {}));
            var r := Roused(Initial(1, n), es);
            && (|h| <= 1 <==> r <= Tokens(t) + t.spent)
            && (r == 0 ==> forall p, q | p in h && q in h :: p == q)
  {
    TokensHeld(Initial(1, n), es, {});
    var h := Holders(Initial(1, n), es, {});
    if |h| <= 1 {
      forall p, q | p in h && q in h ensures p == q { AtMostOne(h, p, q); }
    }
  }

  lemma AtMostOne(h: set<Pid>, p: Pid, q: Pid)
    requires |h| <= 1 && p in h && q in h
    ensures p == q
  {
    assert |h - {p}| == |h| - 1;
    assert h - {p} == {};
  }
}
