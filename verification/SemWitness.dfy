/** Runs of the semaphore table that end badly, one kernel entry at a time. */
module SemWitness {
  import opened Options
  import opened SemModel
  import opened TableModel
  import Runs

  /** The only semaphore is `a`, in this state, and process 9 holds handle 0 on it. */
  ghost predicate One(t: Table, unlinked: bool, s: Sem<nat>) {
    && |t.handles| == KSEM_HANDLE_MAX && t.handles[0] == Handle(Some(0), 9)
    && t.sems == map[0 := KSem("a", s, 1, unlinked, false)]
    && (!unlinked ==> t.names == map["a" := 0])
  }

  lemma OneSemaphore() returns (es: seq<Event>, t: Table)
    ensures CanRun(Initial(), es) && Run(Initial(), es) == t && One(t, false, Sem(0, []))
    ensures es == [EOpen(9, "a", 0), EInstall(9)]
  {
    es, t := [], Initial();
    es, t := Runs.Extend(Initial(), es, t, EOpen(9, "a", 0), Enabled, Next);
    assert t.handles[0].sem.None?;
    es, t := Runs.Extend(Initial(), es, t, EInstall(9), Enabled, Next);
  }

  lemma OneWaits(t: Table, unlinked: bool, q: seq<Pid>, p: Pid)
    requires One(t, unlinked, Sem(0, q))
    ensures One(Next(t, EWait(p, 0)), unlinked, Sem(0, q + [p]))
  {
  }

  lemma OneUnlinked(t: Table, s: Sem<nat>)
    requires One(t, false, s)
    ensures One(Next(t, EUnlink("a")), true, s)
  {
  }

  lemma OneKilled(t: Table, s: Sem<nat>, p: Pid)
    requires One(t, true, s)
    ensures One(Next(t, EKill(p)), true, s)
  {
  }

  lemma OneFailedPost(t: Table, unlinked: bool, q: seq<Pid>)
    requires One(t, unlinked, Sem(0, q)) && q != []
    ensures One(Next(t, EPost(0, false)), unlinked, Sem(1, q[1..]))
  {
  }

  lemma OneWaiter() returns (es: seq<Event>, t: Table)
    ensures CanRun(Initial(), es) && Run(Initial(), es) == t && One(t, false, Sem(0, [1]))
    ensures es == [EOpen(9, "a", 0), EInstall(9), EWait(1, 0)]
  {
    es, t := OneSemaphore();
    OneWaits(t, false, [], 1);
    es, t := Runs.Extend(Initial(), es, t, EWait(1, 0), Enabled, Next);
    assert [] + [1] == [1];
  }

  lemma TwoWaiters() returns (es: seq<Event>, t: Table)
    ensures CanRun(Initial(), es) && Run(Initial(), es) == t && One(t, false, Sem(0, [1, 2]))
    ensures es == [EOpen(9, "a", 0), EInstall(9), EWait(1, 0), EWait(2, 0)]
  {
    es, t := OneWaiter();
    OneWaits(t, false, [1], 2);
    es, t := Runs.Extend(Initial(), es, t, EWait(2, 0), Enabled, Next);
    assert [1] + [2] == [1, 2];
  }

  /**
   * After an unlink a killed waiter stays in the queue; the next post hands it
   * the token, its wake fails, and the token lies in the counter while process 2
   * waits for it.
   */
  lemma DeadWaiterTakesToken() returns (es: seq<Event>)
    ensures es == [EOpen(9, "a", 0), EInstall(9), EWait(1, 0), EWait(2, 0), EUnlink("a"), EKill(1), EPost(0, false)]
    ensures CanRun(Initial(), es) && One(Run(Initial(), es), true, Sem(1, [2]))
  {
    var t;
    es, t := TwoWaiters();
    OneUnlinked(t, Sem(0, [1, 2]));
    es, t := Runs.Extend(Initial(), es, t, EUnlink("a"), Enabled, Next);
    OneKilled(t, Sem(0, [1, 2]), 1);
    es, t := Runs.Extend(Initial(), es, t, EKill(1), Enabled, Next);
    OneFailedPost(t, true, [1, 2]);
    es, t := Runs.Extend(Initial(), es, t, EPost(0, false), Enabled, Next);
    assert [1, 2][1..] == [2];
  }

  /** A semaphore whose last handle is closed after its unlink, while process 1 waits, stays in memory for ever, waiter and all. */
  lemma StrandedRun() returns (es: seq<Event>)
    ensures es == [EOpen(9, "a", 0), EInstall(9), EWait(1, 0), EUnlink("a"), EClose(0)]
    ensures CanRun(Initial(), es)
    ensures var t := Run(Initial(), es);
            && 0 in t.sems && t.sems[0].unlinked && t.sems[0].refcount == 0 && t.sems[0].sem.queue == [1]
            && forall fs | CanRun(t, fs) :: 0 in Run(t, fs).sems && Run(t, fs).sems[0] == t.sems[0]
  {
    var t;
    es, t := OneWaiter();
    OneUnlinked(t, Sem(0, [1]));
    es, t := Runs.Extend(Initial(), es, t, EUnlink("a"), Enabled, Next);
    es, t := Runs.Extend(Initial(), es, t, EClose(0), Enabled, Next);
    InitialOk();
    InvRun(Initial(), es);
    forall fs | CanRun(t, fs) ensures 0 in Run(t, fs).sems && Run(t, fs).sems[0] == t.sems[0] { Stranded(t, fs, 0); }
  }
}
