/** Runs of one semaphore that end badly, step by step, with posts that are not interrupted. */
module SemRuns {
  import opened Options
  import opened SemModel
  import opened SemNodes
  import opened SemProtocol
  import Runs

  /** A waiter killed after the unlink takes the next post's token with it into the counter, where it lies while process 1 waits for it. */
  lemma IdleToken() returns (es: seq<Event>)
    ensures es == [Wait(0), Wait(1), Unlink(2), Kill(0), Post(2), Wake(2)] && CanRunWhole(Initial(0, 3), es)
    ensures var t := Run(Initial(0, 3), es); t.sem == Sem(1, [Arrival(1, 1)]) && 1 in t.here && t.handed == map[]
  {
    var s;
    es, s := TwoWaiters();
    var s0 := Initial(0, 3);
    es, s := Runs.Extend(s0, es, s, Unlink(2), EnabledWhole, Step);
    es, s := Runs.Extend(s0, es, s, Kill(0), EnabledWhole, Step);
    es, s := Runs.Extend(s0, es, s, Post(2), EnabledWhole, Step);
    es, s := Runs.Extend(s0, es, s, Wake(2), EnabledWhole, Step);
  }

  lemma TwoWaiters() returns (es: seq<Event>, s: State)
    ensures es == [Wait(0), Wait(1)] && CanRunWhole(Initial(0, 3), es) && Run(Initial(0, 3), es) == s
    ensures s == Initial(0, 3).(sem := Sem(0, [Arrival(0, 0), Arrival(1, 1)]), next := 2, here := {0, 1})
  {
    var s0 := Initial(0, 3);
    es, s := [], s0;
    es, s := Runs.Extend(s0, es, s, Wait(0), EnabledWhole, Step);
    es, s := Runs.Extend(s0, es, s, Wait(1), EnabledWhole, Step);
    assert s.sem.queue == [Arrival(0, 0), Arrival(1, 1)];
  }

  /** So does one that ends with its parent, and then the semaphore may have its name. */
  lemma OrphanToken() returns (es: seq<Event>)
    ensures es == [Wait(0), Wait(1), Orphan(0), Post(2), Wake(2)] && CanRunWhole(Initial(0, 3), es)
    ensures var t := Run(Initial(0, 3), es); t.named && t.sem == Sem(1, [Arrival(1, 1)]) && 1 in t.here && t.handed == map[]
  {
    var s;
    es, s := TwoWaiters();
    var s0 := Initial(0, 3);
    es, s := Runs.Extend(s0, es, s, Orphan(0), EnabledWhole, Step);
    es, s := Runs.Extend(s0, es, s, Post(2), EnabledWhole, Step);
    es, s := Runs.Extend(s0, es, s, Wake(2), EnabledWhole, Step);
  }

  /** A dead waiter's node on an unlinked semaphore, and a new process in its slot. */
  function Stale(): State {
    Initial(0, 3).(sem := Sem(0, [Arrival(0, 0)]), next := 1, named := false, table := FirstTable(3)[0 := 3], home := FirstTable(3)[3 := 0])
  }

  lemma DeadWaiter() returns (es: seq<Event>, s: State)
    ensures es == [Wait(0), Unlink(2), Kill(0)] && CanRunWhole(Initial(0, 3), es) && Run(Initial(0, 3), es) == s
    ensures s == Initial(0, 3).(sem := Sem(0, [Arrival(0, 0)]), next := 1, named := false, table := FirstTable(3) - {0})
  {
    var s0 := Initial(0, 3);
    es, s := [], s0;
    es, s := Runs.Extend(s0, es, s, Wait(0), EnabledWhole, Step);
    assert s.sem.queue == [Arrival(0, 0)] && s.here == {0};
    es, s := Runs.Extend(s0, es, s, Unlink(2), EnabledWhole, Step);
    es, s := Runs.Extend(s0, es, s, Kill(0), EnabledWhole, Step);
    assert s.here == {};
  }

  lemma StaleNode() returns (es: seq<Event>)
    ensures es == [Wait(0), Unlink(2), Kill(0), Spawn(3, 0)] && CanRunWhole(Initial(0, 3), es) && Run(Initial(0, 3), es) == Stale()
  {
    var s;
    es, s := DeadWaiter();
    es, s := Runs.Extend(Initial(0, 3), es, s, Spawn(3, 0), EnabledWhole, Step);
    assert s.table == FirstTable(3)[0 := 3];
  }

  /** The new process blocks for another reason; the next post wakes it from there, and the token is gone. */
  lemma StrangerWoken() returns (es: seq<Event>)
    ensures es == [Wait(0), Unlink(2), Kill(0), Spawn(3, 0), Sleep(3), Post(2), Wake(2)] && CanRunWhole(Initial(0, 3), es)
    ensures var t := Run(Initial(0, 3), es);
            t.sem == Sem(0, []) && t.handed == map[] && t.grants == 0 && t.posts == 1 && t.lost == 0 && t.spent == 1 && t.away == {}
  {
    es := StaleNode();
    var (s0, s) := (Initial(0, 3), Stale());
    es, s := Runs.Extend(s0, es, s, Sleep(3), EnabledWhole, Step);
    es, s := Runs.Extend(s0, es, s, Post(2), EnabledWhole, Step);
    assert s.handed == map[2 := Arrival(0, 0)] && s.sem.queue == [];
    es, s := Runs.Extend(s0, es, s, Wake(2), EnabledWhole, Step);
  }

  lemma NewWaiters() returns (es: seq<Event>)
    ensures es == [Wait(0), Unlink(2), Kill(0), Spawn(3, 0), Wait(3), Wait(1)] && CanRunWhole(Initial(0, 3), es)
    ensures Run(Initial(0, 3), es) == Stale().(sem := Sem(0, [Arrival(0, 0), Arrival(0, 1), Arrival(1, 2)]), next := 3, here := {1, 3})
  {
    es := StaleNode();
    var (s0, s) := (Initial(0, 3), Stale());
    es, s := Runs.Extend(s0, es, s, Wait(3), EnabledWhole, Step);
    assert s.sem.queue == [Arrival(0, 0), Arrival(0, 1)] && s.here == {3};
    es, s := Runs.Extend(s0, es, s, Wait(1), EnabledWhole, Step);
    assert s.sem.queue == [Arrival(0, 0), Arrival(0, 1), Arrival(1, 2)] && s.here == {1, 3};
  }

  lemma OldNodeGrants() returns (es: seq<Event>, s: State)
    ensures es == [Wait(0), Unlink(2), Kill(0), Spawn(3, 0), Wait(3), Wait(1), Post(2), Wake(2)]
    ensures CanRunWhole(Initial(0, 3), es) && Run(Initial(0, 3), es) == s
    ensures s.sem == Sem(0, [Arrival(0, 1), Arrival(1, 2)]) && s.here == {1} && s.away == {} && s.handed == map[]
    ensures s.grants == 1 && s.failed == 0 && s.table == Stale().table && s.home == Stale().home
  {
    es := NewWaiters();
    var (s0, s1) := (Initial(0, 3), Stale().(sem := Sem(0, [Arrival(0, 0), Arrival(0, 1), Arrival(1, 2)]), next := 3, here := {1, 3}));
    es, s := Runs.Extend(s0, es, s1, Post(2), EnabledWhole, Step);
    assert s.handed == map[2 := Arrival(0, 0)] && s.sem.queue == [Arrival(0, 1), Arrival(1, 2)];
    es, s := Runs.Extend(s0, es, s, Wake(2), EnabledWhole, Step);
    assert s.here == {1};
  }

  /** The new process waits for the same semaphore: it is granted the token through the old node, its own node takes the next one into the counter, and process 1 waits beside it. */
  lemma OwnNodeFails() returns (es: seq<Event>)
    ensures es == [Wait(0), Unlink(2), Kill(0), Spawn(3, 0), Wait(3), Wait(1), Post(2), Wake(2), Post(2), Wake(2)]
    ensures CanRunWhole(Initial(0, 3), es)
    ensures var t := Run(Initial(0, 3), es);
            t.sem == Sem(1, [Arrival(1, 2)]) && t.here == {1} && Alive(t, 3) && t.handed == map[] && t.grants == 1 && t.failed == 1
  {
    var s;
    es, s := OldNodeGrants();
    var s0 := Initial(0, 3);
    es, s := Runs.Extend(s0, es, s, Post(2), EnabledWhole, Step);
    assert s.handed == map[2 := Arrival(0, 1)] && s.sem.queue == [Arrival(1, 2)];
    es, s := Runs.Extend(s0, es, s, Wake(2), EnabledWhole, Step);
  }

  /**
   * The other semaphore of `StrangerWoken`, where process 3 sleeps: process 1
   * has its only token, and the stray wake lets process 3 in as well.
   */
  lemma TwoInside() returns (es: seq<Event>)
    ensures es == [Wait(1), Kill(0), Spawn(3, 0), Wait(3), Rouse(3)] && CanRunWhole(Initial(1, 3), es)
    ensures Disciplined(Initial(1, 3), es, {}) && Holders(Initial(1, 3), es, {}) == {1, 3}
  {
    var s0 := Initial(1, 3);
    var s1 := Step(s0, Wait(1));
    Replaced(s1);
    es := [Wait(1), Kill(0), Spawn(3, 0), Wait(3), Rouse(3)];
    assert es[1..] == [Kill(0), Spawn(3, 0), Wait(3), Rouse(3)];
    assert HoldersAfter(s0, Wait(1), {}) == {1};
  }

  lemma Replaced(s: State)
    requires s.sem.count == 0 && s.handed == map[] && s.here == {} && s.away == {} && s.table == FirstTable(3) && s.home == FirstTable(3)
    ensures var es := [Kill(0), Spawn(3, 0), Wait(3), Rouse(3)];
            CanRunWhole(s, es) && Disciplined(s, es, {1}) && Holders(s, es, {1}) == {1, 3}
  {
    var es := [Kill(0), Spawn(3, 0), Wait(3), Rouse(3)];
    var s2 := Step(s, Kill(0));
    assert s2.sem.count == 0 && s2.handed == map[] && s2.here == {} && s2.away == {} && 0 !in s2.table && s2.home == FirstTable(3);
    assert es[1..] == [Spawn(3, 0), Wait(3), Rouse(3)];
    SpawnedIn(s2);
    assert HoldersAfter(s, Kill(0), {1}) == {1};
  }

  lemma SpawnedIn(s: State)
    requires s.sem.count == 0 && s.handed == map[] && s.here == {} && s.away == {} && 0 !in s.table && 3 !in s.home
    ensures var es := [Spawn(3, 0), Wait(3), Rouse(3)];
            CanRunWhole(s, es) && Disciplined(s, es, {1}) && Holders(s, es, {1}) == {1, 3}
  {
    var es := [Spawn(3, 0), Wait(3), Rouse(3)];
    var s3 := Step(s, Spawn(3, 0));
    assert es[1..] == [Wait(3), Rouse(3)];
    LetIn(s3);
    assert HoldersAfter(s, Spawn(3, 0), {1}) == {1};
  }

  lemma LetIn(s: State)
    requires s.sem.count == 0 && s.handed == map[] && s.here == {} && s.away == {} && Alive(s, 3)
    ensures var es := [Wait(3), Rouse(3)];
            CanRunWhole(s, es) && Disciplined(s, es, {1}) && Holders(s, es, {1}) == {1, 3}
  {
    var es := [Wait(3), Rouse(3)];
    var s4 := Step(s, Wait(3));
    assert es[1..] == [Rouse(3)] && es[1..][1..] == [];
    assert HoldersAfter(s, Wait(3), {1}) == {1} && HoldersAfter(s4, Rouse(3), {1}) == {1, 3};
    assert Holders(s4, [Rouse(3)], {1}) == Holders(Step(s4, Rouse(3)), [], {1, 3});
  }
}
