/**
 * The nodes of a semaphore's wait queue: each stands for a slot, and is right as
 * long as the process in that slot is the one that waits.
 */
module SemNodes {
  import opened Lists
  import opened Options
  import opened SemModel
  import opened SemProtocol
  import Runs

  ghost predicate Queued(s: State, x: Slot) {
    exists a :: a in s.sem.queue && a.slot == x
  }

  ghost predicate InHand(s: State, x: Slot) {
    exists q :: q in s.handed && s.handed[q].slot == x
  }

  /** The slot's process waits here. */
  predicate Waiting(s: State, x: Slot) {
    x in s.table && s.table[x] in s.here && SlotOf(s, s.table[x]) == x
  }

  /** Every node is of a waiting process, which has no other, and every waiting process has one. */
  ghost predicate Tidy(s: State) {
    && (forall i | 0 <= i < |s.sem.queue| :: Waiting(s, s.sem.queue[i].slot))
    && (forall q | q in s.handed :: Waiting(s, s.handed[q].slot) && !Queued(s, s.handed[q].slot))
    && SlotsDiffer(s.sem.queue)
    && (forall p, q | p in s.handed && q in s.handed && p != q :: s.handed[p].slot != s.handed[q].slot)
    && (forall p | p in s.here :: Alive(s, p) && p !in s.away && (Queued(s, s.home[p]) || InHand(s, s.home[p])))
  }

  /**
   * The steps that leave a node behind: a waiter is killed when its semaphore
   * has lost its name or its node is in a poster's hand, ends with its parent,
   * or is unblocked from elsewhere.
   */
  ghost predicate LeavesNode(s: State, e: Event) {
    && e.p in s.here
    && (e.Orphan? || e.Rouse? || (e.Kill? && !(s.named && Queued(s, SlotOf(s, e.p)))))
  }

  /** That is lost by exactly those steps. */
  lemma TidyIff(s: State, e: Event)
    requires Tidy(s) && Enabled(s, e)
    ensures Tidy(Step(s, e)) <==> !LeavesNode(s, e)
  {
    match e
    case Wait(p) => TidyWait(s, p);
    case Post(p) => TidyPost(s, p);
    case Wake(p) => TidyWake(s, p);
    case Kill(p) => TidyKill(s, p);
    case Orphan(p) => TidyOrphan(s, p);
    case Rouse(p) => TidyRouse(s, p);
    case _ => SameNodes(s, Step(s, e));
  }

  lemma SameNodes(s: State, t: State)
    requires Tidy(s) && t.sem.queue == s.sem.queue && t.handed == s.handed && t.here == s.here
    requires forall x | x in s.table :: x in t.table && t.table[x] == s.table[x]
    requires forall p | p in s.home :: p in t.home && t.home[p] == s.home[p]
    requires t.away !! t.here
    ensures Tidy(t)
  {
    forall x ensures Queued(t, x) == Queued(s, x) && InHand(t, x) == InHand(s, x) {}
  }

  lemma TidyWait(s: State, p: Pid)
    requires Tidy(s) && Free(s, p)
    ensures Tidy(Step(s, Wait(p)))
  {
    var t := Step(s, Wait(p));
    if s.sem.count > 0 {
      SameNodes(s, t);
    } else {
      var a := Arrival(s.home[p], s.next);
      assert a in t.sem.queue;
      forall x ensures Queued(t, x) <==> Queued(s, x) || x == a.slot {
        if b :| b in s.sem.queue && b.slot == x { assert b in t.sem.queue; }
      }
      forall x ensures InHand(t, x) == InHand(s, x) {}
    }
  }

  lemma TidyPost(s: State, p: Pid)
    requires Tidy(s) && Free(s, p)
    ensures Tidy(Step(s, Post(p)))
  {
    var t := Step(s, Post(p));
    if s.sem.queue == [] {
      SameNodes(s, t);
    } else {
      var a := s.sem.queue[0];
      assert s.sem.queue == [a] + t.sem.queue;
      assert t.handed[p] == a;
      forall x ensures Queued(t, x) <==> Queued(s, x) && x != a.slot {
        if b :| b in t.sem.queue && b.slot == x { assert b in s.sem.queue; }
      }
      forall x ensures InHand(t, x) <==> InHand(s, x) || x == a.slot {
        if q :| q in s.handed && s.handed[q].slot == x { assert t.handed[q].slot == x; }
      }
    }
  }

  /** What a wake of a tidy semaphore does: the waiter gets its token. */
  lemma TidyWake(s: State, p: Pid)
    requires Tidy(s) && p in s.handed
    ensures var x := s.handed[p].slot;
            Granted(s, Wake(p)) == Some(s.table[x]) && x in s.table && Tidy(Step(s, Wake(p)))
  {
    var t := Step(s, Wake(p));
    var x := s.handed[p].slot;
    forall y ensures Queued(t, y) == Queued(s, y) {}
    forall y ensures InHand(t, y) <==> InHand(s, y) && y != x {
      if q :| q in s.handed && s.handed[q].slot == y && y != x { assert t.handed[q].slot == y; }
    }
  }

  lemma TidyKill(s: State, p: Pid)
    requires Tidy(s) && Enabled(s, Kill(p))
    ensures Tidy(Step(s, Kill(p))) <==> !LeavesNode(s, Kill(p))
  {
    var t := Step(s, Kill(p));
    forall y ensures InHand(t, y) == InHand(s, y) {}
    if s.named {
      TidyKillNamed(s, p);
    } else {
      forall y ensures Queued(t, y) == Queued(s, y) {}
    }
  }

  lemma TidyKillNamed(s: State, p: Pid)
    requires Tidy(s) && Enabled(s, Kill(p)) && s.named
    requires forall y :: InHand(Step(s, Kill(p)), y) == InHand(s, y)
    ensures Tidy(Step(s, Kill(p))) <==> !LeavesNode(s, Kill(p))
  {
    var (t, x) := (Step(s, Kill(p)), s.home[p]);
    FilterMembers(s.sem.queue, OtherThan(x));
    DropDiffer(s.sem.queue, x);
    forall y ensures Queued(t, y) <==> Queued(s, y) && y != x {
      if a :| a in s.sem.queue && a.slot == y && y != x { assert a in t.sem.queue; }
    }
    forall i | 0 <= i < |t.sem.queue| ensures Waiting(t, t.sem.queue[i].slot) { assert t.sem.queue[i] in s.sem.queue; }
  }

  ghost predicate SlotsDiffer(q: seq<Arrival>) {
    forall i, j | 0 <= i < j < |q| :: q[i].slot != q[j].slot
  }

  lemma {:induction false} DropDiffer(q: seq<Arrival>, x: Slot)
    requires SlotsDiffer(q)
    ensures SlotsDiffer(Filter(q, OtherThan(x)))
  {
    if q != [] {
      DropDiffer(q[1..], x);
      var r := Filter(q[1..], OtherThan(x));
      forall i | 0 <= i < |r| ensures r[i].slot != q[0].slot { FilterIn(q[1..], OtherThan(x), r[i]); }
    }
  }

  lemma TidyOrphan(s: State, p: Pid)
    requires Tidy(s) && Enabled(s, Orphan(p))
    ensures Tidy(Step(s, Orphan(p))) <==> p !in s.here
  {
  }

  lemma TidyRouse(s: State, p: Pid)
    requires Tidy(s) && Enabled(s, Rouse(p))
    ensures Tidy(Step(s, Rouse(p))) <==> p !in s.here
  {
  }

  // ------------------------------------------------------------------
  // Runs
  // ------------------------------------------------------------------

  /** All this holds at the start. */
  lemma InitialTidy(init: nat, n: nat)
    ensures Tidy(Initial(init, n)) && NoIdle(Initial(init, n))
  {
  }

  /** While the nodes are tidy every wake succeeds, and on the process it is meant for. */
  lemma TidyWakes(s: State, e: Event)
    requires Tidy(s) && Enabled(s, e)
    ensures !Fails(s, e) && !Strays(s, e)
    ensures Step(s, e).failed == s.failed && Step(s, e).spent == s.spent
  {
    if e.Wake? { TidyWake(s, e.p); }
  }

  ghost predicate LeavesNone(s: State, es: seq<Event>)
    decreases |es|
  {
    es == [] || (!LeavesNode(s, es[0]) && LeavesNone(Step(s, es[0]), es[1..]))
  }

  /** In every interleaving in which no step leaves a node behind, no wake fails or strays, and nobody queues beside a free token. */
  lemma {:induction false} TidyRun(s: State, es: seq<Event>)
    requires Tidy(s) && NoIdle(s) && CanRun(s, es) && LeavesNone(s, es)
    ensures var t := Run(s, es); Tidy(t) && NoIdle(t) && t.failed == s.failed && t.spent == s.spent
    decreases |es|
  {
    if es != [] {
      TidyIff(s, es[0]);
      TidyWakes(s, es[0]);
      NoIdleIff(s, es[0]);
      TidyRun(Step(s, es[0]), es[1..]);
    }
  }

  /** The wake follows its post at once, as it does in a system call with interrupts off. */
  predicate EnabledWhole(s: State, e: Event) {
    Enabled(s, e) && (s.handed != map[] ==> e.Wake?)
  }

  ghost predicate CanRunWhole(s: State, es: seq<Event>) {
    Runs.Can(s, es, EnabledWhole, Step)
  }

  /** Nobody who waits here ends with its parent or is unblocked from elsewhere. */
  ghost predicate Undisturbed(s: State, es: seq<Event>)
    decreases |es|
  {
    es == [] || (!((es[0].Orphan? || es[0].Rouse?) && es[0].p in s.here) && Undisturbed(Step(s, es[0]), es[1..]))
  }

  lemma {:induction false} StaysUnlinked(s: State, es: seq<Event>)
    ensures !s.named ==> !Run(s, es).named
    decreases |es|
  {
    if es != [] { StaysUnlinked(Step(s, es[0]), es[1..]); }
  }

  /** When posts are not interrupted, whoever is killed and whatever its slot is used for next, this is so as long as the semaphore keeps its name. */
  lemma {:induction false} NamedNeverIdle(s: State, es: seq<Event>)
    requires Tidy(s) && NoIdle(s) && CanRunWhole(s, es) && Undisturbed(s, es) && Run(s, es).named
    ensures CanRun(s, es) && LeavesNone(s, es)
    ensures var t := Run(s, es); Tidy(t) && NoIdle(t) && t.failed == s.failed && t.spent == s.spent
    decreases |es|
  {
    if es != [] {
      StaysUnlinked(s, es);
      TidyIff(s, es[0]);
      TidyWakes(s, es[0]);
      NoIdleIff(s, es[0]);
      NamedNeverIdle(Step(s, es[0]), es[1..]);
    }
  }
}
