/**
 * Names, references and lifetime of the kernel's semaphores: the named-semaphore
 * table of `semaphore.c` and the handle table of `syscalls.c`, as values.
 */
module TableModel {
  import opened Lists
  import opened Options
  import opened SemModel
  import Runs

  const KSEM_NAME_MAX := 32
  const KSEM_HANDLE_MAX := 128

  type Pid = nat         // a process; where waiters are concerned, its slot in the process table
  type Id = nat          // one allocation of a semaphore; never used again after it is freed

  datatype Handle = Handle(sem: Option<Id>, owner: Pid)

  /** A call between `ksem_open` and its handle, or between a handle and `ksem_close`. */
  datatype Call = Opens(p: Pid) | Closes(p: Pid)

  datatype Table = Table(
    sems: map<Id, KSem>,        // the semaphores in memory
    names: map<string, Id>,     // those that can be opened
    handles: seq<Handle>,
    calls: map<Call, Id>,       // references that calls under way hold
    next: Id
  )

  function Initial(): Table {
    Table(map[], map[], seq(KSEM_HANDLE_MAX, i => Handle(None, 0)), map[], 0)
  }

  predicate GoodName(name: string) {
    0 < |name| < KSEM_NAME_MAX
  }

  // ------------------------------------------------------------------
  // Transitions
  // ------------------------------------------------------------------

  /** `ksem_open`, when memory is available. */
  function Open(t: Table, p: Pid, name: string, init: nat): Table {
    if !GoodName(name) then t
    else if name in t.names && t.names[name] in t.sems then
      var id := t.names[name];
      t.(sems := t.sems[id := t.sems[id].(refcount := t.sems[id].refcount + 1)], calls := t.calls[Opens(p) := id])
    else
      t.(sems := t.sems[t.next := KSem(name, Sem(init, []), 1, false, false)],
         names := t.names[name := t.next], calls := t.calls[Opens(p) := t.next], next := t.next + 1)
  }

  /** `ksem_close` with what follows it. */
  function CloseId(t: Table, id: Id): Table {
    if id !in t.sems then t
    else
      var (k, free) := Close(t.sems[id]);
      t.(sems := if free then t.sems - {id} else t.sems[id := k])
  }

  /** The lowest free handle, or the length of the table. */
  function FreeHandle(hs: seq<Handle>): (h: nat)
    ensures h <= |hs| && (h < |hs| ==> hs[h].sem.None?)
    ensures forall i | 0 <= i < h :: hs[i].sem.Some?
  {
    if hs == [] || hs[0].sem.None? then 0 else 1 + FreeHandle(hs[1..])
  }

  /** `sem_handle_allocate`; when the table is full the reference is given back. */
  function Install(t: Table, p: Pid): Table {
    if Opens(p) !in t.calls then t
    else
      var u := t.(calls := t.calls - {Opens(p)});
      var h := FreeHandle(t.handles);
      if h == |t.handles| then CloseId(u, t.calls[Opens(p)])
      else u.(handles := t.handles[h := Handle(Some(t.calls[Opens(p)]), p)])
  }

  /** One turn of `sem_cleanup_process_handles` when interrupts are on: the handle is emptied... */
  function Drop(t: Table, p: Pid, h: nat): Table {
    if h >= |t.handles| || t.handles[h].sem.None? || t.handles[h].owner != p || Closes(p) in t.calls then t
    else t.(handles := t.handles[h := Handle(None, 0)], calls := t.calls[Closes(p) := t.handles[h].sem.value])
  }

  /** ...and its reference is closed. */
  function Finish(t: Table, p: Pid): Table {
    if Closes(p) !in t.calls then t else CloseId(t.(calls := t.calls - {Closes(p)}), t.calls[Closes(p)])
  }

  /** `sys_sem_close` on the handle at index `h`. */
  function CloseHandle(t: Table, h: nat): Table {
    if h >= |t.handles| || t.handles[h].sem.None? then t
    else CloseId(t.(handles := t.handles[h := Handle(None, 0)]), t.handles[h].sem.value)
  }

  /** `ksem_unlink` */
  function Unlink(t: Table, name: string): Table {
    if !GoodName(name) || name !in t.names || t.names[name] !in t.sems then t
    else
      var id := t.names[name];
      var (k, free) := Reap(t.sems[id].(unlinked := true));
      t.(names := t.names - {name}, sems := if free then t.sems - {id} else t.sems[id := k])
  }

  /** `sem_cleanup_process_handles` from handle `i` on. */
  function Cleanup(t: Table, p: Pid, i: nat): (u: Table)
    ensures |u.handles| == |t.handles|
    decreases |t.handles| - i
  {
    if i >= |t.handles| then t
    else Cleanup(if t.handles[i].sem.Some? && t.handles[i].owner == p then CloseHandle(t, i) else t, p, i + 1)
  }

  function SetSem(t: Table, h: nat, f: Sem<nat> -> Sem<nat>): Table {
    if h >= |t.handles| || t.handles[h].sem.None? || t.handles[h].sem.value !in t.sems then t
    else
      var id := t.handles[h].sem.value;
      t.(sems := t.sems[id := t.sems[id].(sem := f(t.sems[id].sem))])
  }

  /** `ksem_remove_waiters_for`: it goes through the named semaphores only. */
  function RemoveWaiters(t: Table, p: Pid): Table {
    t.(sems := map id | id in t.sems ::
         if t.sems[id].unlinked then t.sems[id] else t.sems[id].(sem := Forgotten(t.sems[id].sem, p)))
  }

  datatype Event =
    | EOpen(p: Pid, name: string, init: nat)
    | EInstall(p: Pid)
    | EClose(h: nat)
    | EUnlink(name: string)
    | EWait(p: Pid, h: nat)
    | EPost(h: nat, wakes: bool)
    | EExit(p: Pid)             // proc_exit: sem_cleanup_process_handles (a process that runs waits nowhere)
    | EDrop(p: Pid, h: nat)     // the same with interrupts on, one handle at a time
    | EFinish(p: Pid)
    | EKill(p: Pid)             // proc_kill of another process: ksem_remove_waiters_for, and nothing else

  predicate Enabled(t: Table, e: Event) {
    match e
    case EOpen(p, name, init) => Opens(p) !in t.calls
    case EInstall(p) => Opens(p) in t.calls
    case EDrop(p, h) => Closes(p) !in t.calls
    case EFinish(p) => Closes(p) in t.calls
    case _ => true
  }

  function Next(t: Table, e: Event): Table {
    match e
    case EOpen(p, name, init) => Open(t, p, name, init)
    case EInstall(p) => Install(t, p)
    case EDrop(p, h) => Drop(t, p, h)
    case EFinish(p) => Finish(t, p)
    case EClose(h) => CloseHandle(t, h)
    case EUnlink(name) => Unlink(t, name)
    case EWait(p, h) => SetSem(t, h, s => Take(s, p).0)
    case EPost(h, wakes) => SetSem(t, h, s => var (r, w) := Give(s); if w.Some? && !wakes then Return(r) else r)
    case EExit(p) => Cleanup(t, p, 0)
    case EKill(p) => RemoveWaiters(t, p)
  }

  // ------------------------------------------------------------------
  // The invariant
  // ------------------------------------------------------------------

  /** How many handles name `id`. */
  function Count(hs: seq<Handle>, id: Id): nat {
    if hs == [] then 0 else (if hs[0].sem == Some(id) then 1 else 0) + Count(hs[1..], id)
  }

  function Callers(t: Table, id: Id): set<Call> {
    set c | c in t.calls && t.calls[c] == id
  }

  /** Handles, and opens and closes in progress, that name `id`. */
  function Refs(t: Table, id: Id): nat {
    Count(t.handles, id) + |Callers(t, id)|
  }

  /** The record of a semaphore that `refs` references name. */
  ghost predicate Fits(t: Table, id: Id, k: KSem, refs: int) {
    && id < t.next && !k.destroying && k.refcount == refs && GoodName(k.name)
    && (k.unlinked <==> !(k.name in t.names && t.names[k.name] == id))
  }

  /** A semaphore in memory counts its references, can be opened until it is unlinked, and is in use; one not in memory is not referred to. */
  ghost predicate SemOk(t: Table, id: Id) {
    if id in t.sems then Fits(t, id, t.sems[id], Refs(t, id)) && !Unused(t.sems[id]) else Refs(t, id) == 0
  }

  ghost predicate NameOk(t: Table, name: string) {
    name in t.names ==> t.names[name] in t.sems && t.sems[t.names[name]].name == name
  }

  ghost predicate Inv(t: Table) {
    && (forall id: Id {:trigger SemOk(t, id)} :: SemOk(t, id))
    && (forall name {:trigger NameOk(t, name)} :: NameOk(t, name))
  }

  lemma {:induction false} CountUpdate(hs: seq<Handle>, h: nat, x: Handle, id: Id)
    requires h < |hs|
    ensures Count(hs[h := x], id) == Count(hs, id) - (if hs[h].sem == Some(id) then 1 else 0) + (if x.sem == Some(id) then 1 else 0)
  {
    if h == 0 {
      assert hs[0 := x][1..] == hs[1..];
    } else {
      assert hs[h := x][1..] == hs[1..][h - 1 := x];
      CountUpdate(hs[1..], h - 1, x, id);
    }
  }

  lemma {:induction false} CountNone(hs: seq<Handle>, id: Id)
    requires forall i | 0 <= i < |hs| :: hs[i].sem.None?
    ensures Count(hs, id) == 0
  {
    if hs != [] { CountNone(hs[1..], id); }
  }

  lemma CallersAdd(t: Table, c: Call, x: Id, id: Id)
    requires c !in t.calls
    ensures |Callers(t.(calls := t.calls[c := x]), id)| == |Callers(t, id)| + (if x == id then 1 else 0)
  {
    var u := t.(calls := t.calls[c := x]);
    assert Callers(u, id) == Callers(t, id) + (if x == id then {c} else {});
  }

  lemma CallersRemove(t: Table, c: Call, id: Id)
    requires c in t.calls
    ensures |Callers(t.(calls := t.calls - {c}), id)| == |Callers(t, id)| - (if t.calls[c] == id then 1 else 0)
  {
    var u := t.(calls := t.calls - {c});
    assert Callers(u, id) == Callers(t, id) - {c};
  }

  lemma InvOpen(t: Table, p: Pid, name: string, init: nat)
    requires Inv(t) && Opens(p) !in t.calls
    ensures Inv(Open(t, p, name, init))
  {
    var u := Open(t, p, name, init);
    if GoodName(name) {
      assert NameOk(t, name);
      assert SemOk(t, t.next);
      forall id: Id ensures SemOk(u, id) {
        assert SemOk(t, id);
        CallersAdd(t, Opens(p), u.calls[Opens(p)], id);
      }
      forall n ensures NameOk(u, n) { assert NameOk(t, n); }
    }
  }

  /** All is well but for one reference to `x`, which is counted and no longer there. */
  ghost predicate Loose(t: Table, x: Id) {
    && x in t.sems && Fits(t, x, t.sems[x], Refs(t, x) + 1)
    && (forall id: Id {:trigger SemOk(t, id)} | id != x :: SemOk(t, id))
    && (forall name {:trigger NameOk(t, name)} :: NameOk(t, name))
  }

  lemma InvClose(t: Table, x: Id)
    requires Loose(t, x)
    ensures Inv(CloseId(t, x))
  {
    var u := CloseId(t, x);
    forall id: Id ensures SemOk(u, id) {
      if id != x { assert SemOk(t, id); }
      assert Callers(u, id) == Callers(t, id);
    }
    forall n ensures NameOk(u, n) { assert NameOk(t, n); }
  }

  /** Dropping one reference to `x` leaves it loose. */
  lemma LooseAfter(t: Table, u: Table, x: Id)
    requires Inv(t) && u.sems == t.sems && u.names == t.names && u.next == t.next
    requires forall id: Id :: Refs(u, id) == Refs(t, id) - (if id == x then 1 else 0)
    ensures Loose(u, x)
  {
    assert SemOk(t, x);
    forall id: Id | id != x ensures SemOk(u, id) { assert SemOk(t, id); }
    forall n ensures NameOk(u, n) { assert NameOk(t, n); }
  }

  /** Taking one reference away, by emptying a handle or ending an open, leaves the semaphore with one too many. */
  lemma LooseHandle(t: Table, i: nat)
    requires Inv(t) && i < |t.handles| && t.handles[i].sem.Some?
    ensures Loose(t.(handles := t.handles[i := Handle(None, 0)]), t.handles[i].sem.value)
  {
    var u := t.(handles := t.handles[i := Handle(None, 0)]);
    forall id: Id ensures Refs(u, id) == Refs(t, id) - (if Some(id) == t.handles[i].sem then 1 else 0) {
      CountUpdate(t.handles, i, Handle(None, 0), id);
      assert Callers(u, id) == Callers(t, id);
    }
    LooseAfter(t, u, t.handles[i].sem.value);
  }

  lemma LooseCall(t: Table, c: Call)
    requires Inv(t) && c in t.calls
    ensures Loose(t.(calls := t.calls - {c}), t.calls[c])
  {
    var u := t.(calls := t.calls - {c});
    forall id: Id ensures Refs(u, id) == Refs(t, id) - (if id == t.calls[c] then 1 else 0) { CallersRemove(t, c, id); }
    LooseAfter(t, u, t.calls[c]);
  }

  lemma InvDrop(t: Table, p: Pid, h: nat)
    requires Inv(t)
    ensures Inv(Drop(t, p, h))
  {
    var u := Drop(t, p, h);
    if u != t {
      var x := t.handles[h].sem.value;
      forall id: Id ensures SemOk(u, id) {
        assert SemOk(t, id);
        CountUpdate(t.handles, h, Handle(None, 0), id);
        CallersAdd(t, Closes(p), x, id);
        assert Callers(u, id) == Callers(t.(calls := t.calls[Closes(p) := x]), id);
      }
      forall n ensures NameOk(u, n) { assert NameOk(t, n); }
    }
  }

  lemma InvFinish(t: Table, p: Pid)
    requires Inv(t)
    ensures Inv(Finish(t, p))
  {
    if Closes(p) in t.calls {
      LooseCall(t, Closes(p));
      InvClose(t.(calls := t.calls - {Closes(p)}), t.calls[Closes(p)]);
    }
  }

  lemma InvCloseHandle(t: Table, h: nat)
    requires Inv(t)
    ensures Inv(CloseHandle(t, h))
  {
    if h < |t.handles| && t.handles[h].sem.Some? {
      LooseHandle(t, h);
      InvClose(t.(handles := t.handles[h := Handle(None, 0)]), t.handles[h].sem.value);
    }
  }

  lemma InvInstall(t: Table, p: Pid)
    requires Inv(t)
    ensures Inv(Install(t, p))
  {
    if Opens(p) in t.calls {
      var x := t.calls[Opens(p)];
      var u := t.(calls := t.calls - {Opens(p)});
      LooseCall(t, Opens(p));
      var h := FreeHandle(t.handles);
      if h == |t.handles| {
        InvClose(u, x);
      } else {
        var v := Install(t, p);
        forall id: Id ensures SemOk(v, id) {
          assert SemOk(t, id);
          CountUpdate(t.handles, h, Handle(Some(x), p), id);
          CallersRemove(t, Opens(p), id);
          assert Callers(v, id) == Callers(u, id);
        }
        forall n ensures NameOk(v, n) { assert NameOk(t, n); }
      }
    }
  }

  lemma InvUnlink(t: Table, name: string)
    requires Inv(t)
    ensures Inv(Unlink(t, name))
  {
    var u := Unlink(t, name);
    if GoodName(name) && name in t.names && t.names[name] in t.sems {
      var x := t.names[name];
      assert NameOk(t, name);
      forall id: Id ensures SemOk(u, id) {
        assert SemOk(t, id);
        assert Callers(u, id) == Callers(t, id);
      }
      forall n ensures NameOk(u, n) { assert NameOk(t, n); }
    }
  }

  lemma {:induction false} InvCleanup(t: Table, p: Pid, i: nat)
    requires Inv(t)
    ensures Inv(Cleanup(t, p, i))
    decreases |t.handles| - i
  {
    if i < |t.handles| {
      if t.handles[i].sem.Some? && t.handles[i].owner == p {
        InvCloseHandle(t, i);
        InvCleanup(CloseHandle(t, i), p, i + 1);
      } else {
        InvCleanup(t, p, i + 1);
      }
    }
  }

  /** Changing tokens and waiters of semaphores that stay in use. */
  lemma InvSems(t: Table, u: Table)
    requires Inv(t) && u == t.(sems := u.sems) && u.sems.Keys == t.sems.Keys
    requires forall id | id in t.sems :: u.sems[id] == t.sems[id].(sem := u.sems[id].sem) && !Unused(u.sems[id])
    ensures Inv(u)
  {
    forall id: Id ensures SemOk(u, id) {
      assert SemOk(t, id);
      assert Callers(u, id) == Callers(t, id);
    }
    forall n ensures NameOk(u, n) { assert NameOk(t, n); }
  }

  lemma {:induction false} CountPositive(hs: seq<Handle>, h: nat, id: Id)
    requires h < |hs| && hs[h].sem == Some(id)
    ensures Count(hs, id) > 0
  {
    if h > 0 { CountPositive(hs[1..], h - 1, id); }
  }

  lemma InvNext(t: Table, e: Event)
    requires Inv(t) && Enabled(t, e)
    ensures Inv(Next(t, e))
  {
    match e
    case EOpen(p, name, init) => InvOpen(t, p, name, init);
    case EInstall(p) => InvInstall(t, p);
    case EDrop(p, h) => InvDrop(t, p, h);
    case EFinish(p) => InvFinish(t, p);
    case EClose(h) => InvCloseHandle(t, h);
    case EUnlink(name) => InvUnlink(t, name);
    case EWait(p, h) => InvSetSem(t, Next(t, e), h);
    case EPost(h, wakes) => InvSetSem(t, Next(t, e), h);
    case EExit(p) => InvCleanup(t, p, 0);
    case EKill(p) =>
      forall id | id in t.sems ensures !Unused(Next(t, e).sems[id]) { assert SemOk(t, id); }
      InvSems(t, Next(t, e));
  }

  lemma InvSetSem(t: Table, u: Table, h: nat)
    requires Inv(t)
    requires if h < |t.handles| && t.handles[h].sem.Some? && t.handles[h].sem.value in t.sems
             then var id := t.handles[h].sem.value;
                  exists s :: u == t.(sems := t.sems[id := t.sems[id].(sem := s)])
             else u == t
    ensures Inv(u)
  {
    if u != t {
      var id := t.handles[h].sem.value;
      forall x | x in t.sems ensures !Unused(u.sems[x]) {
        assert SemOk(t, x);
        if x == id { CountPositive(t.handles, h, id); }
      }
      InvSems(t, u);
    }
  }

  // ------------------------------------------------------------------
  // Runs
  // ------------------------------------------------------------------

  ghost predicate CanRun(s: Table, es: seq<Event>) {
    Runs.Can(s, es, Enabled, Next)
  }

  ghost function Run(s: Table, es: seq<Event>): Table {
    Runs.After(s, es, Next)
  }

  lemma InitialOk()
    ensures Inv(Initial())
  {
    var t := Initial();
    forall id: Id ensures SemOk(t, id) {
      CountNone(t.handles, id);
      assert Callers(t, id) == {};
    }
    forall n ensures NameOk(t, n) {}
  }

  lemma {:induction false} InvRun(t: Table, es: seq<Event>)
    requires Inv(t) && CanRun(t, es)
    ensures Inv(Run(t, es))
    decreases |es|
  {
    if es != [] {
      InvNext(t, es[0]);
      InvRun(Next(t, es[0]), es[1..]);
    }
  }

  /**
   * In every run from start-up the reference count of every semaphore in memory
   * is the number of handles, opens and closes in progress that name it, nothing
   * names one that is not in memory, and an unlinked semaphore still in memory is
   * referred to or waited for.
   */
  lemma RefsExact(es: seq<Event>)
    requires CanRun(Initial(), es)
    ensures var t := Run(Initial(), es);
            && (forall id | id in t.sems :: t.sems[id].refcount == Count(t.handles, id) + |Callers(t, id)|)
            && (forall h | 0 <= h < |t.handles| && t.handles[h].sem.Some? :: t.handles[h].sem.value in t.sems)
            && (forall c | c in t.calls :: t.calls[c] in t.sems)
            && (forall id | id in t.sems && t.sems[id].unlinked :: t.sems[id].refcount > 0 || t.sems[id].sem.queue != [])
  {
    InitialOk();
    InvRun(Initial(), es);
    var t := Run(Initial(), es);
    forall id | id in t.sems
      ensures t.sems[id].refcount == Count(t.handles, id) + |Callers(t, id)|
      ensures t.sems[id].unlinked ==> t.sems[id].refcount > 0 || t.sems[id].sem.queue != []
    {
      assert SemOk(t, id);
    }
    forall h | 0 <= h < |t.handles| && t.handles[h].sem.Some? ensures t.handles[h].sem.value in t.sems {
      assert SemOk(t, t.handles[h].sem.value);
      CountPositive(t.handles, h, t.handles[h].sem.value);
    }
    forall c | c in t.calls ensures t.calls[c] in t.sems {
      assert SemOk(t, t.calls[c]);
      assert c in Callers(t, t.calls[c]);
    }
  }

  // ------------------------------------------------------------------
  // Freed once, and not too early
  // ------------------------------------------------------------------

  /** What the other semaphores see of a step that closes references: nothing. */
  ghost predicate OnlyRefs(t: Table, u: Table) {
    && u.names == t.names && u.next == t.next && u.calls == t.calls
    && (forall id | id in u.sems :: id in t.sems && u.sems[id] == t.sems[id].(refcount := u.sems[id].refcount))
    && (forall id | id in t.sems && id !in u.sems :: t.sems[id].unlinked && t.sems[id].sem.queue == [])
  }

  lemma CloseOnlyRefs(t: Table, h: nat)
    requires Inv(t)
    ensures OnlyRefs(t, CloseHandle(t, h))
  {
    if h < |t.handles| && t.handles[h].sem.Some? {
      assert SemOk(t, t.handles[h].sem.value);
    }
  }

  lemma FinishOnlyRefs(t: Table, p: Pid)
    requires Inv(t) && Closes(p) in t.calls
    ensures OnlyRefs(t.(calls := t.calls - {Closes(p)}), Finish(t, p))
  {
    assert SemOk(t, t.calls[Closes(p)]);
  }

  /** `sem_cleanup_process_handles` closes every handle of the process and touches no other. */
  lemma {:induction false} CleanupHandles(t: Table, p: Pid, i: nat)
    requires Inv(t) && i <= |t.handles|
    ensures var u := Cleanup(t, p, i);
            && OnlyRefs(t, u)
            && (forall j | 0 <= j < i :: u.handles[j] == t.handles[j])
            && forall j | i <= j < |t.handles| ::
                 u.handles[j] == if t.handles[j].sem.Some? && t.handles[j].owner == p then Handle(None, 0) else t.handles[j]
    decreases |t.handles| - i
  {
    if i < |t.handles| {
      var v := if t.handles[i].sem.Some? && t.handles[i].owner == p then CloseHandle(t, i) else t;
      if t.handles[i].sem.Some? && t.handles[i].owner == p {
        InvCloseHandle(t, i);
        CloseOnlyRefs(t, i);
      }
      CleanupHandles(v, p, i + 1);
    }
  }

  /** A semaphore is freed only when it is unlinked, no handle or open names it, and nobody waits for it. */
  lemma FreedInTime(t: Table, e: Event, id: Id)
    requires Inv(t) && Enabled(t, e) && id in t.sems && id !in Next(t, e).sems
    ensures Refs(Next(t, e), id) == 0 && t.sems[id].sem.queue == []
    ensures forall n | n in Next(t, e).names :: Next(t, e).names[n] != id
  {
    var u := Next(t, e);
    InvNext(t, e);
    assert SemOk(u, id) && SemOk(t, id);
    forall n | n in u.names ensures u.names[n] != id { assert NameOk(u, n); }
    match e
    case EExit(p) => CleanupHandles(t, p, 0);
    case EClose(h) => CloseOnlyRefs(t, h);
    case EFinish(p) => FinishOnlyRefs(t, p);
    case _ =>
  }

  /** A semaphore that has been freed is not freed again: it never comes back. */
  lemma {:induction false} FreedOnce(t: Table, es: seq<Event>, id: Id)
    requires Inv(t) && CanRun(t, es) && id < t.next && id !in t.sems
    ensures id !in Run(t, es).sems && Refs(Run(t, es), id) == 0
    decreases |es|
  {
    if es == [] {
      assert SemOk(t, id);
    } else {
      match es[0] {
        case EExit(p) => CleanupHandles(t, p, 0);
        case EClose(h) => CloseOnlyRefs(t, h);
        case EFinish(p) => FinishOnlyRefs(t, p);
        case EOpen(p, name, init) => assert NameOk(t, name);
        case _ =>
      }
      InvNext(t, es[0]);
      FreedOnce(Next(t, es[0]), es[1..], id);
    }
  }

  // ------------------------------------------------------------------
  // What a kill leaves behind
  // ------------------------------------------------------------------

  lemma HandleStays(t: Table, e: Event, h: nat)
    requires Inv(t) && Enabled(t, e) && h < |t.handles| && t.handles[h].sem.Some?
    requires e != EClose(h) && e != EExit(t.handles[h].owner) && e != EDrop(t.handles[h].owner, h)
    ensures h < |Next(t, e).handles| && Next(t, e).handles[h] == t.handles[h]
  {
    match e
    case EExit(p) => CleanupHandles(t, p, 0);
    case _ =>
  }

  /**
   * The handles of a killed process are not closed: each stays, and keeps its
   * semaphore in memory, until somebody closes it by its number.
   */
  lemma {:induction false} KillKeepsHandles(t: Table, es: seq<Event>, h: nat)
    requires Inv(t) && CanRun(t, es) && h < |t.handles| && t.handles[h].sem.Some?
    requires EClose(h) !in es && EExit(t.handles[h].owner) !in es && EDrop(t.handles[h].owner, h) !in es
    ensures var u := Run(t, es);
            h < |u.handles| && u.handles[h] == t.handles[h]
            && t.handles[h].sem.value in u.sems && u.sems[t.handles[h].sem.value].refcount > 0
    decreases |es|
  {
    if es == [] {
      assert SemOk(t, t.handles[h].sem.value);
      CountPositive(t.handles, h, t.handles[h].sem.value);
    } else {
      HandleStays(t, es[0], h);
      InvNext(t, es[0]);
      KillKeepsHandles(Next(t, es[0]), es[1..], h);
    }
  }

  // ------------------------------------------------------------------
  // Names
  // ------------------------------------------------------------------

  lemma NameStays(t: Table, e: Event, name: string)
    requires Inv(t) && Enabled(t, e) && name in t.names && e != EUnlink(name)
    ensures name in Next(t, e).names && Next(t, e).names[name] == t.names[name]
  {
    assert NameOk(t, name);
    match e
    case EExit(p) => CleanupHandles(t, p, 0);
    case EClose(h) => CloseOnlyRefs(t, h);
    case EFinish(p) => FinishOnlyRefs(t, p);
    case EUnlink(n) => assert NameOk(t, n);
    case EOpen(p, n, init) => assert NameOk(t, n);
    case _ =>
  }

  /** Until a name is unlinked every open of it, by anyone and with any initial value, gives the same semaphore. */
  lemma {:induction false} SameSemaphore(t: Table, es: seq<Event>, name: string, p: Pid, init: nat)
    requires Inv(t) && CanRun(t, es) && name in t.names && EUnlink(name) !in es && Opens(p) !in Run(t, es).calls
    ensures var u := Run(t, es); var v := Open(u, p, name, init);
            && Opens(p) in v.calls && v.calls[Opens(p)] == t.names[name] && v.calls[Opens(p)] in u.sems
            && v.sems[v.calls[Opens(p)]].sem == u.sems[v.calls[Opens(p)]].sem
    decreases |es|
  {
    if es == [] {
      assert NameOk(t, name);
      assert SemOk(t, t.names[name]);
    } else {
      InvNext(t, es[0]);
      NameStays(t, es[0], name);
      SameSemaphore(Next(t, es[0]), es[1..], name, p, init);
    }
  }

  /** After an unlink the name gives a new semaphore with the new initial value, whatever happens to the old one. */
  lemma OpenAfterUnlink(t: Table, name: string, p: Pid, init: nat)
    requires Inv(t) && name in t.names && Opens(p) !in t.calls
    ensures var u := Unlink(t, name); var v := Open(u, p, name, init);
            && Opens(p) in v.calls && v.calls[Opens(p)] !in t.sems && v.calls[Opens(p)] != t.names[name]
            && v.sems[v.calls[Opens(p)]].sem == Sem(init, [])
            && (Refs(t, t.names[name]) > 0 ==> t.names[name] in v.sems)
  {
    var x := t.names[name];
    assert NameOk(t, name);
    assert SemOk(t, x);
    assert SemOk(t, t.next);
  }

  // ------------------------------------------------------------------
  // Waiters of a semaphore that is gone
  // ------------------------------------------------------------------

  /** Removing a process from the waiters succeeds exactly on the semaphores that still have their name. */
  lemma RemovedFromNamed(t: Table, p: Pid, id: Id)
    requires id in t.sems
    ensures p in RemoveWaiters(t, p).sems[id].sem.queue <==> p in t.sems[id].sem.queue && t.sems[id].unlinked
  {
    WithoutIn(t.sems[id].sem.queue, p, p);
  }

  /** The last close of an unlinked semaphore frees it exactly when nobody waits for it. */
  lemma LastClose(t: Table, h: nat)
    requires Inv(t) && h < |t.handles| && t.handles[h].sem.Some?
    requires var id := t.handles[h].sem.value; Refs(t, id) == 1 && id in t.sems && t.sems[id].unlinked
    ensures var id := t.handles[h].sem.value;
            id !in CloseHandle(t, h).sems <==> t.sems[id].sem.queue == []
  {
    assert SemOk(t, t.handles[h].sem.value);
  }

  /** Otherwise it stays as it is for ever, its waiters with it: no later call can reach it. */
  lemma {:induction false} Stranded(t: Table, es: seq<Event>, id: Id)
    requires Inv(t) && CanRun(t, es) && id in t.sems && t.sems[id].unlinked && t.sems[id].refcount == 0
    ensures id in Run(t, es).sems && Run(t, es).sems[id] == t.sems[id] && t.sems[id].sem.queue != []
    decreases |es|
  {
    assert SemOk(t, id);
    if es != [] {
      StrandedStep(t, es[0], id);
      InvNext(t, es[0]);
      Stranded(Next(t, es[0]), es[1..], id);
    }
  }

  lemma StrandedStep(t: Table, e: Event, id: Id)
    requires Inv(t) && Enabled(t, e) && id in t.sems && t.sems[id].unlinked && t.sems[id].refcount == 0
    ensures id in Next(t, e).sems && Next(t, e).sems[id] == t.sems[id]
  {
    assert SemOk(t, id);
    InvNext(t, e);
    match e
    case EExit(p) =>
      CleanupHandles(t, p, 0);
      assert SemOk(Next(t, e), id);
      CleanupRefs(t, p, 0, id);
    case EClose(h) =>
      if h < |t.handles| && t.handles[h].sem == Some(id) { CountPositive(t.handles, h, id); }
    case EWait(p, h) => if h < |t.handles| && t.handles[h].sem == Some(id) { CountPositive(t.handles, h, id); }
    case EPost(h, wakes) => if h < |t.handles| && t.handles[h].sem == Some(id) { CountPositive(t.handles, h, id); }
    case EInstall(p) => assert Callers(t, id) == {};
    case EFinish(p) => assert Callers(t, id) == {};
    case EDrop(p, h) => if h < |t.handles| && t.handles[h].sem == Some(id) { CountPositive(t.handles, h, id); }
    case EOpen(p, name, init) => assert NameOk(t, name);
    case EUnlink(name) => assert NameOk(t, name);
    case EKill(p) =>
  }

  lemma {:induction false} CleanupRefs(t: Table, p: Pid, i: nat, id: Id)
    requires Inv(t) && id in t.sems && t.sems[id].refcount == 0 && t.sems[id].unlinked
    ensures id in Cleanup(t, p, i).sems && Cleanup(t, p, i).sems[id].refcount == 0
    decreases |t.handles| - i
  {
    assert SemOk(t, id);
    if i < |t.handles| {
      if t.handles[i].sem.Some? && t.handles[i].owner == p {
        if t.handles[i].sem.value == id { CountPositive(t.handles, i, id); }
        InvCloseHandle(t, i);
        CleanupRefs(CloseHandle(t, i), p, i + 1, id);
      } else {
        CleanupRefs(t, p, i + 1, id);
      }
    }
  }
}
