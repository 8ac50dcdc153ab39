/** What each call on the semaphore table leaves behind: names, handles, references, tokens and waiters. */
module TableOutcomes {
  import opened Lists
  import opened Options
  import opened SemModel
  import opened TableModel

  /** `ksem_open`: one more reference to the semaphore of that name, or a new one with the initial value; a bad name gives nothing. */
  lemma OpenOutcome(t: Table, p: Pid, name: string, init: nat)
    requires Inv(t) && Opens(p) !in t.calls
    ensures var u := Next(t, EOpen(p, name, init));
            if name == "" || |name| >= 32 then u == t
            else
              && Opens(p) in u.calls && u.calls == t.calls[Opens(p) := u.calls[Opens(p)]] && u.handles == t.handles
              && var id := u.calls[Opens(p)];
                 && u.names == t.names[name := id] && id in u.sems && u.sems == t.sems[id := u.sems[id]]
                 && if name in t.names then
                      id == t.names[name] && id in t.sems && u.sems[id] == t.sems[id].(refcount := t.sems[id].refcount + 1)
                    else id !in t.sems && u.sems[id] == KSem(name, Sem(init, []), 1, false, false)
  {
    assert NameOk(t, name) && SemOk(t, t.next);
    if GoodName(name) && name in t.names { assert t.names[name := t.names[name]] == t.names; }
  }

  /** The lowest free handle is the caller's; with none free the reference is closed again. */
  lemma InstallOutcome(t: Table, p: Pid)
    requires Inv(t) && Opens(p) in t.calls
    ensures var u := Next(t, EInstall(p));
            && u.calls == t.calls - {Opens(p)} && u.names == t.names
            && if forall i | 0 <= i < |t.handles| :: t.handles[i].sem.Some? then
                 u.handles == t.handles && OneLess(t, u, t.calls[Opens(p)])
               else
                 && u.sems == t.sems && |u.handles| == |t.handles|
                 && exists h | 0 <= h < |t.handles| ::
                      && t.handles[h].sem.None? && (forall i | 0 <= i < h :: t.handles[i].sem.Some?)
                      && u.handles == t.handles[h := Handle(Some(t.calls[Opens(p)]), p)]
  {
    LooseCall(t, Opens(p));
    var h := FreeHandle(t.handles);
    assert h < |t.handles| ==> t.handles[h].sem.None?;
  }

  /** One reference to `x` is gone: the last one frees an unlinked semaphore that nobody waits for. */
  ghost predicate OneLess(t: Table, u: Table, x: Id) {
    && x in t.sems && t.sems[x].refcount > 0
    && var k := t.sems[x].(refcount := t.sems[x].refcount - 1);
       u.sems == if k.unlinked && k.refcount == 0 && k.sem.queue == [] then t.sems - {x} else t.sems[x := k]
  }

  /** `sys_sem_close`: the handle is free and one reference less is counted. */
  lemma CloseOutcome(t: Table, h: nat)
    requires Inv(t)
    ensures var u := Next(t, EClose(h));
            if h >= |t.handles| || t.handles[h].sem.None? then u == t
            else
              && u.handles == t.handles[h := Handle(None, 0)] && u.names == t.names && u.calls == t.calls
              && OneLess(t, u, t.handles[h].sem.value)
  {
    if h < |t.handles| && t.handles[h].sem.Some? {
      assert SemOk(t, t.handles[h].sem.value);
      CountPositive(t.handles, h, t.handles[h].sem.value);
    }
  }

  /** `ksem_unlink`: the name is free, and the semaphore goes at once if nobody refers to it or waits for it. */
  lemma UnlinkOutcome(t: Table, name: string)
    requires Inv(t)
    ensures var u := Next(t, EUnlink(name));
            if name !in t.names then u == t
            else
              var x := t.names[name];
              && u.names == t.names - {name} && u.handles == t.handles && u.calls == t.calls && x in t.sems
              && u.sems == if t.sems[x].refcount == 0 && t.sems[x].sem.queue == [] then t.sems - {x}
                           else t.sems[x := t.sems[x].(unlinked := true)]
  {
    assert NameOk(t, name);
    if name in t.names { assert SemOk(t, t.names[name]); }
  }

  /** The handle names a semaphore in memory. */
  lemma InUse(t: Table, h: nat)
    requires Inv(t) && h < |t.handles| && t.handles[h].sem.Some?
    ensures t.handles[h].sem.value in t.sems
  {
    assert SemOk(t, t.handles[h].sem.value);
    CountPositive(t.handles, h, t.handles[h].sem.value);
  }

  /** A wait acts on the semaphore of its handle, and on nothing else: a token is taken, or the caller stands last in its queue. */
  lemma WaitOutcome(t: Table, p: Pid, h: nat)
    requires Inv(t)
    ensures var u := Next(t, EWait(p, h));
            if h >= |t.handles| || t.handles[h].sem.None? then u == t
            else
              var x := t.handles[h].sem.value;
              && x in t.sems
              && var s := t.sems[x].sem;
                 u == t.(sems := t.sems[x := t.sems[x].(sem := if s.count > 0 then Sem(s.count - 1, s.queue) else Sem(0, s.queue + [p]))])
  {
    if h < |t.handles| && t.handles[h].sem.Some? { InUse(t, h); }
  }

  /** So does a post: the first waiter leaves the queue; the count goes up if there was none, or if its wake fails. */
  lemma PostOutcome(t: Table, h: nat, wakes: bool)
    requires Inv(t)
    ensures var u := Next(t, EPost(h, wakes));
            if h >= |t.handles| || t.handles[h].sem.None? then u == t
            else
              var x := t.handles[h].sem.value;
              && x in t.sems
              && var s := t.sems[x].sem;
                 var c := if (s.queue == [] || !wakes) && s.count < 0xFFFF_FFFF then s.count + 1 else s.count;
                 u == t.(sems := t.sems[x := t.sems[x].(sem := Sem(c, if s.queue == [] then [] else s.queue[1..]))])
  {
    if h < |t.handles| && t.handles[h].sem.Some? { InUse(t, h); }
  }

  /** A kill takes the victim, and nobody else, out of every queue of a semaphore that has its name, and does nothing more. */
  lemma KillOutcome(t: Table, p: Pid)
    ensures var u := Next(t, EKill(p));
            && u == t.(sems := u.sems) && u.sems.Keys == t.sems.Keys
            && forall x | x in t.sems ::
                 && u.sems[x] == t.sems[x].(sem := Sem(t.sems[x].sem.count, u.sems[x].sem.queue))
                 && (t.sems[x].unlinked ==> u.sems[x] == t.sems[x])
                 && (!t.sems[x].unlinked ==> forall y :: y in u.sems[x].sem.queue <==> y in t.sems[x].sem.queue && y != p)
  {
    forall x | x in t.sems && !t.sems[x].unlinked
      ensures forall y :: y in Without(t.sems[x].sem.queue, p) <==> y in t.sems[x].sem.queue && y != p
    {
      forall y ensures y in Without(t.sems[x].sem.queue, p) <==> y in t.sems[x].sem.queue && y != p { WithoutIn(t.sems[x].sem.queue, p, y); }
    }
  }

  /** An exit with interrupts on: a handle of the process is emptied, and then its reference is closed. */
  lemma DropOutcome(t: Table, p: Pid, h: nat)
    requires Inv(t) && Closes(p) !in t.calls && h < |t.handles| && t.handles[h].sem.Some? && t.handles[h].owner == p
    ensures var u := Next(t, EDrop(p, h));
            && u == t.(handles := t.handles[h := Handle(None, 0)], calls := t.calls[Closes(p) := t.handles[h].sem.value])
            && var v := Next(u, EFinish(p));
               && v.calls == t.calls && v.handles == u.handles && v.names == t.names && OneLess(u, v, t.handles[h].sem.value)
  {
    var u := Next(t, EDrop(p, h));
    InvDrop(t, p, h);
    LooseCall(u, Closes(p));
    assert u.calls - {Closes(p)} == t.calls;
  }
}
