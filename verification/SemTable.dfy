/**
 * The semaphore table in place: 32 hash buckets, each a list of semaphores, and
 * an array of handles.  Each method is tied to a transition of `TableModel`.
 */
module SemTable {
  import opened Lists
  import opened Options
  import opened SemModel
  import opened TableModel
  import Names

  const KSEM_HASH_BUCKETS := 32

  /** `sem_hash` */
  function Hash(name: string): (b: nat)
    ensures b < KSEM_HASH_BUCKETS
  {
    Names.Hash(name, KSEM_HASH_BUCKETS)
  }

  class SemTable {
    const buckets: array<seq<Id>>
    const handles: array<Handle>
    var sems: map<Id, KSem>
    var next: Id
    ghost var names: map<string, Id>
    ghost var calls: map<Call, Id>

    ghost function View(): Table
      reads this, handles
    {
      Table(sems, names, handles[..], calls, next)
    }

    /** Bucket `b` lists the semaphores whose names hash to it and that are not unlinked, each once. */
    ghost predicate BucketOk(b: nat)
      reads this`sems, buckets
    {
      b < buckets.Length && NoDup(buckets[b]) &&
      forall id: Id :: id in buckets[b] <==> id in sems && !sems[id].unlinked && Hash(sems[id].name) == b
    }

    ghost predicate Valid()
      reads this, buckets, handles
    {
      && buckets.Length == KSEM_HASH_BUCKETS && handles.Length == KSEM_HANDLE_MAX
      && Inv(View())
      && forall b: nat {:trigger BucketOk(b)} | b < KSEM_HASH_BUCKETS :: BucketOk(b)
    }

    constructor ()
      ensures Valid() && View() == Initial()
    {
      buckets := new seq<Id>[KSEM_HASH_BUCKETS](i => []);
      handles := new Handle[KSEM_HANDLE_MAX](i => Handle(None, 0));
      sems, next, names, calls := map[], 0, map[], map[];
      new;
      InitialOk();
      assert View() == Initial();
    }

    /** The search of `ksem_open` and `ksem_unlink`: the position of the semaphore of this name, or the length of its bucket. */
    method Search(name: string) returns (i: nat)
      requires Valid()
      ensures i <= |buckets[Hash(name)]|
      ensures if name in names then i < |buckets[Hash(name)]| && buckets[Hash(name)][i] == names[name]
              else i == |buckets[Hash(name)]|
    {
      var list := buckets[Hash(name)];
      assert BucketOk(Hash(name));
      if name in names {
        assert NameOk(View(), name) && SemOk(View(), names[name]);
        assert names[name] in list;
      }
      i := 0;
      while i < |list|
        invariant i <= |list|
        invariant forall j | 0 <= j < i :: sems[list[j]].name != name
      {
        assert list[i] in list && SemOk(View(), list[i]);
        if !sems[list[i]].unlinked && sems[list[i]].name == name {
          return;
        }
        i := i + 1;
      }
    }

    /** `ksem_open`; `room` says whether memory for a new semaphore can be had. */
    method KsemOpen(ghost p: Pid, name: string, init: nat, room: bool) returns (code: int, sem: Id)
      requires Valid() && Opens(p) !in calls
      modifies this`sems, this`next, this`names, this`calls, buckets
      ensures Valid()
      ensures code == -1 <==> !GoodName(name) || (!room && name !in old(names))
      ensures code != -1 ==> View() == Open(old(View()), p, name, init) && calls[Opens(p)] == sem
      ensures code == -1 ==> View() == old(View())
    {
      if |name| == 0 || |name| >= KSEM_NAME_MAX {
        return -1, 0;
      }
      var bucket := Hash(name);
      var i := Search(name);
      if i < |buckets[bucket]| {
        sem := buckets[bucket][i];
        AddRef(p, name, sem, init);
        return 0, sem;
      }
      if !room {
        return -1, 0;
      }
      sem := next;
      AddNew(p, name, init, bucket);
      code := 0;
    }

    method AddRef(ghost p: Pid, ghost name: string, sem: Id, ghost init: nat)
      requires Valid() && Opens(p) !in calls && GoodName(name) && name in names && sem == names[name]
      modifies this`sems, this`calls
      ensures Valid() && View() == Open(old(View()), p, name, init) && calls[Opens(p)] == sem
    {
      InvOpen(View(), p, name, init);
      assert NameOk(View(), name);
      sems := sems[sem := sems[sem].(refcount := sems[sem].refcount + 1)];
      calls := calls[Opens(p) := sem];
      forall b: nat | b < KSEM_HASH_BUCKETS ensures BucketOk(b) { assert old(BucketOk(b)); }
    }

    method AddNew(ghost p: Pid, name: string, init: nat, bucket: nat)
      requires Valid() && Opens(p) !in calls && GoodName(name) && name !in names && bucket == Hash(name)
      modifies this`sems, this`next, this`names, this`calls, buckets
      ensures Valid() && View() == Open(old(View()), p, name, init) && calls[Opens(p)] == old(next)
    {
      InvOpen(View(), p, name, init);
      assert SemOk(View(), next);
      var sem := next;
      assert BucketOk(bucket) && sem !in buckets[bucket];
      sems := sems[sem := KSem(name, Sem(init, []), 1, false, false)];
      names := names[name := sem];
      calls := calls[Opens(p) := sem];
      next := next + 1;
      buckets[bucket] := [sem] + buckets[bucket];
      forall b: nat | b < KSEM_HASH_BUCKETS ensures BucketOk(b) { assert old(BucketOk(b)); }
    }

    /** `ksem_unlink`: out of its bucket, and freed if nothing uses it. */
    method KsemUnlink(name: string) returns (code: int)
      requires Valid()
      modifies this`sems, this`names, buckets
      ensures Valid() && View() == Unlink(old(View()), name)
      ensures code == 0 <==> GoodName(name) && name in old(names)
    {
      if |name| == 0 || |name| >= KSEM_NAME_MAX {
        return -1;
      }
      var bucket := Hash(name);
      var i := Search(name);
      if i == |buckets[bucket]| {
        return -1;
      }
      TakeDown(name, bucket, i);
      code := 0;
    }

    method TakeDown(name: string, bucket: nat, i: nat)
      requires Valid() && bucket == Hash(name) && GoodName(name) && name in names
      requires i < |buckets[bucket]| && buckets[bucket][i] == names[name]
      modifies this`sems, this`names, buckets
      ensures Valid() && View() == Unlink(old(View()), name)
    {
      InvUnlink(View(), name);
      var sem := buckets[bucket][i];
      assert NameOk(View(), name) && SemOk(View(), sem) && BucketOk(bucket);
      var (k, free) := Reap(sems[sem].(unlinked := true));
      sems := if free then sems - {sem} else sems[sem := k];
      names := names - {name};
      buckets[bucket] := Cut(buckets[bucket], i);
      forall b: nat | b < KSEM_HASH_BUCKETS ensures BucketOk(b) {
        assert old(BucketOk(b));
        CutMembers(old(buckets[bucket]), i);
      }
    }

    /** `ksem_close` */
    method KsemClose(sem: Id)
      requires buckets.Length == KSEM_HASH_BUCKETS && handles.Length == KSEM_HANDLE_MAX && Loose(View(), sem)
      requires forall b: nat {:trigger BucketOk(b)} | b < KSEM_HASH_BUCKETS :: BucketOk(b)
      modifies this`sems
      ensures Valid() && View() == CloseId(old(View()), sem)
    {
      InvClose(View(), sem);
      var (k, free) := Close(sems[sem]);
      sems := if free then sems - {sem} else sems[sem := k];
      forall b: nat | b < KSEM_HASH_BUCKETS ensures BucketOk(b) { assert old(BucketOk(b)); }
    }

    /** `sem_handle_allocate` after `ksem_open`; the handle number is one more than its place, -1 when there is no room. */
    method HandleAllocate(p: Pid, sem: Id) returns (handle: int)
      requires Valid() && Opens(p) in calls && calls[Opens(p)] == sem
      modifies this`sems, this`calls, handles
      ensures Valid() && View() == Install(old(View()), p)
      ensures handle == if FreeHandle(old(handles[..])) < KSEM_HANDLE_MAX then FreeHandle(old(handles[..])) + 1 else -1
    {
      InvInstall(View(), p);
      LooseCall(View(), Opens(p));
      var i := FindFree();
      calls := calls - {Opens(p)};
      if i < KSEM_HANDLE_MAX {
        handles[i] := Handle(Some(sem), p);
        assert handles[..] == old(handles[..])[i := Handle(Some(sem), p)];
        return i + 1;
      }
      KsemClose(sem);
      handle := -1;
    }

    method FindFree() returns (i: nat)
      requires handles.Length == KSEM_HANDLE_MAX
      ensures i == FreeHandle(handles[..])
    {
      i := 0;
      assert handles[..] == handles[0..];
      while i < KSEM_HANDLE_MAX
        invariant i <= KSEM_HANDLE_MAX
        invariant FreeHandle(handles[..]) == i + FreeHandle(handles[i..])
      {
        if handles[i].sem.None? {
          return;
        }
        assert handles[i..][1..] == handles[i + 1..];
        i := i + 1;
      }
    }

    /** `sys_sem_close` */
    method SysSemClose(handle: int) returns (code: int)
      requires Valid()
      modifies this`sems, handles
      ensures Valid()
      ensures View() == if 0 < handle <= KSEM_HANDLE_MAX then CloseHandle(old(View()), handle - 1) else old(View())
      ensures code == 0 <==> 0 < handle <= KSEM_HANDLE_MAX && old(handles[..])[handle - 1].sem.Some?
    {
      if handle <= 0 || handle > KSEM_HANDLE_MAX || handles[handle - 1].sem.None? {
        return -1;
      }
      Detach(handle - 1);
      code := 0;
    }

    /** Empties a handle and closes what it named. */
    method Detach(i: nat)
      requires Valid() && i < KSEM_HANDLE_MAX && handles[i].sem.Some?
      modifies this`sems, handles
      ensures Valid() && View() == CloseHandle(old(View()), i)
    {
      LooseHandle(View(), i);
      var sem := handles[i].sem.value;
      handles[i] := Handle(None, 0);
      assert handles[..] == old(handles[..])[i := Handle(None, 0)];
      KsemClose(sem);
    }

    /** `sem_cleanup_process_handles` */
    method CleanupProcess(p: Pid)
      requires Valid()
      modifies this`sems, handles
      ensures Valid() && View() == Cleanup(old(View()), p, 0)
    {
      var i := 0;
      while i < KSEM_HANDLE_MAX
        invariant i <= KSEM_HANDLE_MAX && Valid()
        invariant Cleanup(View(), p, i) == Cleanup(old(View()), p, 0)
      {
        if handles[i].sem.Some? && handles[i].owner == p {
          Detach(i);
        }
        i := i + 1;
      }
    }

    /** `ksem_remove_waiters_for`, bucket by bucket. */
    method RemoveWaitersFor(p: Pid)
      requires Valid()
      modifies this`sems
      ensures Valid() && View() == RemoveWaiters(old(View()), p)
    {
      var b := 0;
      while b < KSEM_HASH_BUCKETS
        invariant 0 <= b <= KSEM_HASH_BUCKETS
        invariant sems.Keys == old(sems).Keys
        invariant forall id | id in sems :: Swept(old(sems)[id], sems[id], p, Hash(old(sems)[id].name) < b)
      {
        assert old(BucketOk(b));
        SweepBucket(b, p, old(sems));
        b := b + 1;
      }
      assert sems == RemoveWaiters(old(View()), p).sems;
      InvNext(old(View()), EKill(p));
      forall c: nat | c < KSEM_HASH_BUCKETS ensures BucketOk(c) { assert old(BucketOk(c)); }
    }

    method SweepBucket(b: nat, p: Pid, ghost was: map<Id, KSem>)
      requires b < KSEM_HASH_BUCKETS == buckets.Length && NoDup(buckets[b]) && sems.Keys == was.Keys
      requires forall id: Id :: id in buckets[b] <==> id in was && !was[id].unlinked && Hash(was[id].name) == b
      requires forall id | id in sems :: Swept(was[id], sems[id], p, Hash(was[id].name) < b)
      modifies this`sems
      ensures sems.Keys == was.Keys
      ensures forall id | id in sems :: Swept(was[id], sems[id], p, Hash(was[id].name) <= b)
    {
      var list := buckets[b];
      var i := 0;
      while i < |list|
        invariant i <= |list| && sems.Keys == was.Keys
        invariant forall id | id in sems && id !in list :: Swept(was[id], sems[id], p, Hash(was[id].name) <= b)
        invariant forall j | 0 <= j < |list| :: list[j] in sems && Swept(was[list[j]], sems[list[j]], p, j < i)
      {
        var k := sems[list[i]];
        sems := sems[list[i] := k.(sem := Forgotten(k.sem, p))];
        i := i + 1;
      }
    }
  }

  /** `k` is `was` after `p` has been removed from its waiters, if its turn has come and it is not unlinked. */
  ghost predicate Swept(was: KSem, k: KSem, p: Pid, turn: bool) {
    k == if turn && !was.unlinked then was.(sem := Forgotten(was.sem, p)) else was
  }
}
