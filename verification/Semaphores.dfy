/** The kernel semaphore in place: a counter and a linked queue of waiters. */
module Semaphores {
  import opened Links
  import opened Lists
  import opened Options
  import opened SemModel

  /** A process that waits. */
  type Waiter = Node<nat>

  function Of(proc: nat): Waiter -> bool { (w: Waiter) => w.value == proc }

  function NotOf(proc: nat): Waiter -> bool { (w: Waiter) => w.value != proc }

  /** `q` and `r` are drawn from `all` and share no node. */
  ghost predicate Apart(all: seq<Waiter>, q: seq<Waiter>, r: seq<Waiter>) {
    && (forall i | 0 <= i < |r| :: r[i] !in q && r[i] in all)
    && (forall i | 0 <= i < |q| :: q[i] in all)
  }

  class Semaphore {
    const name: string
    var count: nat
    var refcount: nat
    var unlinked: bool
    var destroying: bool
    var head: Node?<nat>
    var tail: Node?<nat>
    ghost var nodes: seq<Waiter>

    ghost predicate Valid()
      reads this`head, this`tail, this`nodes, nodes`next
    {
      Linked(nodes, head, tail)
    }

    ghost function View(): KSem
      reads this`count, this`refcount, this`unlinked, this`destroying, this`nodes
    {
      KSem(name, Sem(count, Values(nodes)), refcount, unlinked, destroying)
    }

    /** As `ksem_open` sets up a new semaphore. */
    constructor (name: string, init: nat)
      ensures Valid() && View() == KSem(name, Sem(init, []), 1, false, false)
    {
      this.name := name;
      count, refcount, unlinked, destroying := init, 1, false, false;
      head, tail, nodes := null, null, [];
    }

    // ---- the wait queue ----

    /** `wait_queue_push` */
    method Push(node: Waiter)
      requires Valid() && node !in nodes
      modifies this`head, this`tail, this`nodes, node`next, nodes`next
      ensures Valid() && nodes == old(nodes) + [node]
    {
      node.next := null;
      if tail == null {
        head := node;
        tail := node;
      } else {
        tail.next := node;
        tail := node;
      }
      nodes := nodes + [node];
    }

    /** `wait_queue_pop` */
    method Pop() returns (node: Node?<nat>)
      requires Valid()
      modifies this`head, this`tail, this`nodes, nodes`next
      ensures Valid() && node == At(old(nodes), 0)
      ensures nodes == if old(nodes) == [] then [] else old(nodes)[1..]
    {
      if head == null {
        return null;
      }
      node := head;
      assert node == nodes[0] && node.next == At(nodes, 1);
      head := node.next;
      if head == null {
        tail := null;
      }
      node.next := null;
      nodes := nodes[1..];
    }

    /** Takes `node`, the `k`-th of the queue, out of it. */
    method Unlink(prev: Node?<nat>, node: Waiter, ghost k: nat)
      requires Valid() && k < |nodes| && node == nodes[k] && prev == At(nodes, k - 1)
      modifies this`head, this`tail, this`nodes, nodes`next
      ensures Valid() && nodes == Cut(old(nodes), k) && node.next == null && node !in nodes
    {
      ghost var q := nodes;
      if prev == null {
        head := node.next;
      } else {
        prev.next := node.next;
      }
      if tail == node {
        tail := prev;
      }
      node.next := null;
      nodes := Cut(q, k);
      CutLinked(q, k, head, tail);
    }

    /** Adds `node` to the chain of removed nodes. */
    static method Collect(h: Node?<nat>, t: Node?<nat>, node: Waiter, ghost chain: seq<Waiter>) returns (h': Node?<nat>, t': Node?<nat>)
      requires Linked(chain, h, t) && node !in chain && node.next == null
      modifies chain`next
      ensures Linked(chain + [node], h', t') && node.next == null
    {
      h', t' := h, node;
      if t == null {
        h' := node;
      } else {
        t.next := node;
      }
    }

    /** Moves the `k`-th node of the queue to the end of the chain of removed nodes. */
    method TakeOut(prev: Node?<nat>, node: Waiter, ghost k: nat, h: Node?<nat>, t: Node?<nat>,
                   ghost all: seq<Waiter>, ghost removed: seq<Waiter>)
      returns (h': Node?<nat>, t': Node?<nat>)
      requires Valid() && k < |nodes| && node == nodes[k] && prev == At(nodes, k - 1)
      requires Linked(removed, h, t) && Apart(all, nodes, removed)
      modifies this`head, this`tail, this`nodes, nodes`next, removed`next
      ensures Valid() && nodes == Cut(old(nodes), k)
      ensures prev == At(nodes, k - 1) && At(old(nodes), k + 1) == At(nodes, k)
      ensures Linked(removed + [node], h', t') && Apart(all, nodes, removed + [node])
    {
      Unlink(prev, node, k);
      assert k > 0 ==> nodes[k - 1] == old(nodes)[k - 1];
      assert forall i | 0 <= i < |nodes| :: nodes[i] == old(nodes)[if i < k then i else i + 1];
      h', t' := Collect(h, t, node, removed);
    }

    /** `wait_queue_remove_proc`: every node of `proc` leaves the queue; they come back linked in the order they had. */
    method RemoveProc(proc: nat) returns (removedHead: Node?<nat>, ghost removed: seq<Waiter>)
      requires Valid()
      modifies this`head, this`tail, this`nodes, nodes`next
      ensures Valid() && nodes == Filter(old(nodes), NotOf(proc))
      ensures removed == Filter(old(nodes), Of(proc)) && exists t :: Linked(removed, removedHead, t)
    {
      var removedTail;
      removedHead, removedTail, removed := Sweep(proc);
      SortEnd(old(nodes), proc, nodes, |nodes|, removed);
    }

    method Sweep(proc: nat) returns (removedHead: Node?<nat>, removedTail: Node?<nat>, ghost removed: seq<Waiter>)
      requires Valid()
      modifies this`head, this`tail, this`nodes, nodes`next
      ensures Valid() && Sorted(old(nodes), proc, nodes, |nodes|, removed)
      ensures Linked(removed, removedHead, removedTail)
    {
      ghost var all := nodes;
      removedHead, removedTail, removed := null, null, [];
      var prev: Node?<nat> := null;
      var cursor := head;
      ghost var k: nat := 0;
      while cursor != null
        invariant Valid() && k <= |nodes| && cursor == At(nodes, k) && prev == At(nodes, k - 1)
        invariant Linked(removed, removedHead, removedTail) && Apart(all, nodes, removed)
        invariant Sorted(all, proc, nodes, k, removed)
        decreases |nodes| - k
      {
        prev, cursor, removedHead, removedTail, k, removed :=
          SweepOne(proc, prev, cursor, removedHead, removedTail, k, all, removed);
      }
    }

    /** One turn of the sweep. */
    method SweepOne(proc: nat, prev: Node?<nat>, cursor: Waiter, h: Node?<nat>, t: Node?<nat>,
                    ghost k: nat, ghost all: seq<Waiter>, ghost removed: seq<Waiter>)
      returns (prev': Node?<nat>, cursor': Node?<nat>, h': Node?<nat>, t': Node?<nat>, ghost k': nat, ghost removed': seq<Waiter>)
      requires Valid() && k < |nodes| && cursor == nodes[k] && prev == At(nodes, k - 1)
      requires Linked(removed, h, t) && Apart(all, nodes, removed) && Sorted(all, proc, nodes, k, removed)
      modifies this`head, this`tail, this`nodes, nodes`next, removed`next
      ensures Valid() && k' <= |nodes| && cursor' == At(nodes, k') && prev' == At(nodes, k' - 1) && |nodes| - k' < |old(nodes)| - k
      ensures Linked(removed', h', t') && Apart(all, nodes, removed') && Sorted(all, proc, nodes, k', removed')
    {
      SortStep(all, proc, nodes, k, removed);
      cursor' := cursor.next;
      if cursor.value == proc {
        h', t' := TakeOut(prev, cursor, k, h, t, all, removed);
        prev', k', removed' := prev, k, removed + [cursor];
      } else {
        prev', h', t', k', removed' := cursor, h, t, k + 1, removed;
      }
    }

    // ---- the kernel calls ----

    /** `ksem_wait`, up to the point where a blocked caller yields; `room` says whether the waiter could be allocated. */
    method Wait(current: nat, room: bool) returns (r: WaitResult)
      requires Valid()
      modifies this`count, this`head, this`tail, this`nodes, nodes`next
      ensures Valid()
      ensures !room ==> r == NoMemory && View() == old(View())
      ensures room ==> var (s, got) := Take(old(View()).sem, current);
                       View() == old(View()).(sem := s) && r == if got then Acquired else Blocked
    {
      if !room {
        return NoMemory;
      }
      var waiter := new Node<nat>(current);
      if count > 0 {
        count := count - 1;
        return Acquired;
      }
      Push(waiter);
      r := Blocked;
    }

    /** `ksem_post`; `wakes` says whether `proc_unblock` finds the waiter blocked. */
    method Post(wakes: bool) returns (target: Option<nat>)
      requires Valid()
      modifies this`count, this`head, this`tail, this`nodes, nodes`next
      ensures Valid()
      ensures var (s, w) := Give(old(View()).sem);
              target == w && View() == old(View()).(sem := if w.Some? && !wakes then Return(s) else s)
    {
      var waiter: Node?<nat> := null;
      if head != null {
        waiter := Pop();
      } else if count < UINT32_MAX {
        count := count + 1;
      }
      if waiter == null {
        return None;
      }
      if !wakes {
        if count < UINT32_MAX {
          count := count + 1;
        }
      }
      target := Some(waiter.value);
    }

    /** `sem_ready_to_destroy_locked` */
    method ReadyToDestroy() returns (free: bool)
      requires Valid()
      modifies this`destroying
      ensures Valid() && (View(), free) == Reap(old(View()))
    {
      if destroying {
        return false;
      }
      if unlinked && refcount == 0 && head == null {
        destroying := true;
        return true;
      }
      return false;
    }

    /** `ksem_close`, before the memory is given back. */
    method CloseRef() returns (code: int, free: bool)
      requires Valid()
      modifies this`refcount, this`destroying
      ensures Valid() && (View(), free) == Close(old(View())) && (code == -1 <==> old(refcount) == 0)
    {
      if refcount == 0 {
        return -1, false;
      }
      refcount := refcount - 1;
      free := ReadyToDestroy();
      code := 0;
    }

    /** The waiters of one semaphore in `ksem_remove_waiters_for`. */
    method Forget(proc: nat)
      requires Valid()
      modifies this`head, this`tail, this`nodes, nodes`next
      ensures Valid() && View() == old(View()).(sem := Forgotten(old(View()).sem, proc))
    {
      var head, removed := RemoveProc(proc);
      ProcsFilter(old(nodes), proc);
    }
  }

  datatype WaitResult = NoMemory | Acquired | Blocked

  lemma {:induction false} ProcsFilter(q: seq<Waiter>, proc: nat)
    ensures Values(Filter(q, NotOf(proc))) == Without(Values(q), proc)
  {
    if q == [] {
      assert Values(q) == [];
    } else {
      ProcsFilter(q[1..], proc);
      assert Values(q) == [q[0].value] + Values(q[1..]);
    }
  }

  /** The first `k` nodes of the queue have been looked at and kept, `removed` have been taken out, the rest is to come. */
  ghost predicate Sorted(all: seq<Waiter>, proc: nat, q: seq<Waiter>, k: nat, removed: seq<Waiter>) {
    && k <= |q|
    && q[..k] + Filter(q[k..], NotOf(proc)) == Filter(all, NotOf(proc))
    && removed + Filter(q[k..], Of(proc)) == Filter(all, Of(proc))
  }

  lemma SortStep(all: seq<Waiter>, proc: nat, q: seq<Waiter>, k: nat, removed: seq<Waiter>)
    requires Sorted(all, proc, q, k, removed) && k < |q|
    ensures if q[k].value == proc then Sorted(all, proc, Cut(q, k), k, removed + [q[k]])
            else Sorted(all, proc, q, k + 1, removed)
  {
    assert q[k..][1..] == q[k + 1..];
    if q[k].value == proc {
      assert Cut(q, k)[..k] == q[..k] && Cut(q, k)[k..] == q[k + 1..];
      assert removed + Filter(q[k..], Of(proc)) == removed + [q[k]] + Filter(q[k + 1..], Of(proc));
    } else {
      assert q[..k + 1] == q[..k] + [q[k]];
    }
  }

  lemma SortEnd(all: seq<Waiter>, proc: nat, q: seq<Waiter>, k: nat, removed: seq<Waiter>)
    requires Sorted(all, proc, q, k, removed) && k == |q|
    ensures q == Filter(all, NotOf(proc)) && removed == Filter(all, Of(proc))
  {
    assert q[..k] == q && q[k..] == [];
  }
}
