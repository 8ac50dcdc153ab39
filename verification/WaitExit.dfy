/**
 * A parent's side of exit and wait in place: the linked list of its living
 * children, the linked queue of results, and the spare slot.  Each method is
 * tied to a transition of `WaitModel`.
 */
module WaitExit {
  import opened Links
  import opened Lists
  import opened Options
  import opened WaitModel

  class Parent {
    var childHead: Node?<Pid>
    var waitResHead: Node?<Result>
    var waitResTail: Node?<Result>
    var pendingExit: Option<Result>
    var waitingFor: int
    var blocked: bool
    ghost var kids: seq<Node<Pid>>         // the chain of children
    ghost var queue: seq<Node<Result>>     // the chain of results
    ghost var dead: set<Pid>
    ghost var phase: Phase
    ghost var nextPid: Pid
    ghost var exits: seq<Result>
    ghost var reports: seq<Result>
    ghost var lost: seq<Result>

    ghost predicate KidsOk()
      reads this`childHead, this`kids, kids`next
    {
      Linked(kids, childHead, At(kids, |kids| - 1))
    }

    ghost predicate QueueOk()
      reads this`waitResHead, this`waitResTail, this`queue, queue`next
    {
      Linked(queue, waitResHead, waitResTail)
    }

    /** While the parent sleeps in proc_wait it is BLOCKED and `waitingFor` is its target. */
    ghost predicate StateOk()
      reads this`waitingFor, this`blocked, this`phase
    {
      blocked == phase.Asleep? && (phase.Asleep? ==> waitingFor == phase.target)
    }

    ghost predicate Valid()
      reads this, kids`next, queue`next
    {
      KidsOk() && QueueOk() && StateOk()
    }

    ghost function View(): Family
      reads this
    {
      Family(Values(kids), dead, Values(queue), pendingExit, phase, nextPid, exits, reports, lost)
    }

    constructor (next: Pid)
      ensures Valid() && View() == Initial(next)
    {
      childHead, waitResHead, waitResTail := null, null, null;
      pendingExit, waitingFor, blocked := None, 0, false;
      kids, queue, dead, phase, nextPid := [], [], {}, Running, next;
      exits, reports, lost := [], [], [];
    }

    // ---- children ----

    /** `link_child` */
    method LinkChild(pid: Pid)
      requires Valid() && pid == nextPid
      modifies this`childHead, this`kids, this`nextPid
      ensures Valid() && View() == Next(old(View()), Create)
    {
      var child := new Node<Pid>(pid);
      child.next := childHead;
      childHead := child;
      kids := [child] + kids;
      nextPid := nextPid + 1;
    }

    /** `find_child` */
    method FindChild(pid: int) returns (found: bool)
      requires KidsOk()
      ensures found <==> pid in Values(kids)
    {
      var cursor := childHead;
      ghost var i: nat := 0;
      while cursor != null
        invariant i <= |kids| && cursor == At(kids, i)
        invariant pid !in Values(kids)[..i]
        decreases |kids| - i
      {
        if cursor.value == pid {
          assert Values(kids)[i] == pid;
          return true;
        }
        assert Values(kids)[..i + 1] == Values(kids)[..i] + [cursor.value];
        cursor := cursor.next;
        i := i + 1;
      }
      assert Values(kids)[..i] == Values(kids);
      found := false;
    }

    /** `unlink_child` */
    method UnlinkChild(pid: Pid)
      requires KidsOk() && NoDup(Values(kids))
      modifies this`childHead, this`kids, kids`next
      ensures KidsOk() && Values(kids) == Without(old(Values(kids)), pid)
      ensures forall x | x in kids :: x in old(kids)
    {
      var prev: Node?<Pid> := null;
      var cursor := childHead;
      ghost var i: nat := 0;
      while cursor != null
        invariant i <= |kids| && cursor == At(kids, i) && prev == At(kids, i - 1)
        invariant pid !in Values(kids)[..i]
        invariant KidsOk() && kids == old(kids)
        decreases |kids| - i
      {
        if cursor.value == pid {
          WithoutAt(Values(kids), i);
          CutChild(prev, cursor, i);
          return;
        }
        assert Values(kids)[..i + 1] == Values(kids)[..i] + [cursor.value];
        prev := cursor;
        cursor := cursor.next;
        i := i + 1;
      }
      assert Values(kids)[..i] == Values(kids);
      WithoutAbsent(Values(kids), pid);
    }

    method CutChild(prev: Node?<Pid>, child: Node<Pid>, ghost i: nat)
      requires KidsOk() && i < |kids| && child == kids[i] && prev == At(kids, i - 1)
      modifies this`childHead, this`kids, kids`next
      ensures KidsOk() && Values(kids) == Cut(old(Values(kids)), i)
      ensures forall x | x in kids :: x in old(kids)
    {
      ghost var q := kids;
      if prev == null {
        childHead := child.next;
      } else {
        prev.next := child.next;
      }
      child.next := null;
      kids := Cut(q, i);
      ValuesCut(q, i);
      CutLinked(q, i, childHead, if i < |q| - 1 then q[|q| - 1] else At(q, i - 1));
    }

    // ---- results ----

    /** `push_wait_result`; `room` says whether memory for a result can be had. */
    method PushResult(pid: Pid, code: int, room: bool)
      requires QueueOk()
      modifies this`waitResHead, this`waitResTail, this`queue, this`pendingExit, this`lost, queue`next
      ensures QueueOk() && View() == Push(old(View()), Result(pid, code), room)
    {
      if !room {
        lost := if pendingExit.Some? then lost + [pendingExit.value] else lost;
        pendingExit := Some(Result(pid, code));
        return;
      }
      var node := new Node<Result>(Result(pid, code));
      if waitResTail == null {
        waitResHead := node;
      } else {
        waitResTail.next := node;
      }
      waitResTail := node;
      queue := queue + [node];
    }

    /** `consume_wait_result` */
    method ConsumeResult(target: int) returns (r: Option<Result>)
      requires QueueOk()
      modifies this`waitResHead, this`waitResTail, this`queue, this`pendingExit, queue`next
      ensures QueueOk() && (View(), r) == Consume(old(View()), target)
      ensures forall x | x in queue :: x in old(queue)
    {
      var prev, node, i := FindResult(target);
      if node != null {
        r := Some(node.value);
        CutResult(prev, node, i);
        return;
      }
      if pendingExit.Some? && (target <= 0 || pendingExit.value.pid == target) {
        r := pendingExit;
        pendingExit := None;
        return;
      }
      r := None;
    }

    /** The first acceptable result and the one before it: at once if any will do, else by search. */
    method FindResult(target: int) returns (prev: Node?<Result>, node: Node?<Result>, ghost i: nat)
      requires QueueOk()
      ensures i == FirstFor(Values(queue), target) && node == At(queue, i) && prev == At(queue, i - 1)
    {
      prev, node, i := null, waitResHead, 0;
      ghost var v := Values(queue);
      assert v == v[0..];
      if target > 0 {
        while node != null && node.value.pid != target
          invariant i <= |queue| && node == At(queue, i) && prev == At(queue, i - 1)
          invariant FirstFor(v, target) == i + FirstFor(v[i..], target)
          decreases |queue| - i
        {
          assert v[i..][1..] == v[i + 1..] && v[i..][0] == node.value;
          prev, node, i := node, node.next, i + 1;
        }
      }
      assert node != null ==> v[i..][0] == node.value;
    }

    method CutResult(prev: Node?<Result>, node: Node<Result>, ghost i: nat)
      requires QueueOk() && i < |queue| && node == queue[i] && prev == At(queue, i - 1)
      modifies this`waitResHead, this`waitResTail, this`queue, queue`next
      ensures QueueOk() && Values(queue) == Cut(old(Values(queue)), i)
      ensures forall x | x in queue :: x in old(queue)
    {
      ghost var q := queue;
      if prev == null {
        waitResHead := node.next;
      } else {
        prev.next := node.next;
      }
      if waitResTail == node {
        waitResTail := prev;
      }
      queue := Cut(q, i);
      ValuesCut(q, i);
      CutLinked(q, i, waitResHead, waitResTail);
    }

    // ---- exit and wait ----

    /** `notify_parent_exit`, for a child of this parent. */
    method NotifyExit(pid: Pid, code: int, room: bool)
      requires Valid() && Distinct(View()) && pid in View().children
      modifies this`childHead, this`kids, this`waitResHead, this`waitResTail, this`queue, this`pendingExit, this`lost, this`exits
      modifies this`waitingFor, this`blocked, this`phase, kids`next, queue`next
      ensures Valid() && View() == ExitOf(old(View()), pid, code, room)
    {
      Bury(pid, code, room);
      WakeParent(pid);
    }

    /** `notify_parent_exit` up to the wake-up, which an interrupted exit may not reach. */
    method Bury(pid: Pid, code: int, room: bool)
      requires KidsOk() && QueueOk() && NoDup(Values(kids))
      modifies this`childHead, this`kids, this`waitResHead, this`waitResTail, this`queue, this`pendingExit, this`lost, this`exits
      modifies kids`next, queue`next
      ensures KidsOk() && QueueOk()
      ensures View() == WaitModel.Bury(old(View()), pid, code, room)
    {
      ghost var f := View();
      UnlinkChild(pid);
      exits := exits + [Result(pid, code)];
      assert View() == f.(children := Without(f.children, pid), exits := f.exits + [Result(pid, code)]);
      PushResult(pid, code, room);
    }

    method WakeParent(pid: Pid)
      requires StateOk()
      modifies this`waitingFor, this`blocked, this`phase
      ensures StateOk()
      ensures phase == if old(phase).Asleep? && Awaited(old(phase).target, pid) then Woken(old(phase).target) else old(phase)
    {
      if blocked && (waitingFor == pid || waitingFor == -1) {
        waitingFor := 0;
        blocked := false;
        phase := Woken(phase.target);
      }
    }

    /** One look for a result; what is found is returned to the caller. */
    method Collect(target: int) returns (r: Option<Result>)
      requires Valid() && !phase.Asleep?
      modifies this`waitResHead, this`waitResTail, this`queue, this`pendingExit, this`phase, this`reports, queue`next
      ensures Valid()
      ensures r == Consume(old(View()), target).1 && View() == Reported(Consume(old(View()), target).0, r)
    {
      ghost var (g, x) := Consume(View(), target);
      r := ConsumeResult(target);
      assert View() == g && r == x && g.phase == old(phase);
      assert KidsOk();
      Record(r);
      assert View() == Reported(g, r);
    }

    /** The caller runs again, with what it has been given. */
    ghost method Record(r: Option<Result>)
      modifies this`phase, this`reports
      ensures View() == Reported(old(View()), r)
    {
      phase := Running;
      if r.Some? {
        reports := reports + [r.value];
      }
    }

    /** `proc_wait` up to the point where it yields. */
    method Wait(targetPid: int) returns (r: Option<Result>)
      requires Valid() && phase.Running?
      modifies this`waitResHead, this`waitResTail, this`queue, this`pendingExit, this`waitingFor, this`blocked, this`phase, this`reports
      modifies queue`next
      ensures Valid() && View() == WaitOf(old(View()), targetPid)
      ensures r == Consume(old(View()), Normal(targetPid)).1
    {
      var target := if targetPid == 0 then -1 else targetPid;
      r := Collect(target);
      if r.None? {
        ConsumeOk(old(View()), target);
        Sleep(target);
      }
    }

    /** The parent goes to sleep if it has whom to wait for. */
    method Sleep(target: int)
      requires Valid() && phase.Running?
      modifies this`waitingFor, this`blocked, this`phase
      ensures Valid()
      ensures View() == if if target > 0 then target in old(View()).children else old(View()).children != []
                        then old(View()).(phase := Asleep(target)) else old(View())
    {
      var found := childHead != null;
      if target > 0 {
        found := FindChild(target);
      }
      if found {
        waitingFor := target;
        blocked := true;
        phase := Asleep(target);
      }
    }

    /** `proc_wait` from there on. */
    method Resume(target: int) returns (r: Option<Result>)
      requires Valid() && phase == Woken(target)
      modifies this`waitResHead, this`waitResTail, this`queue, this`pendingExit, this`waitingFor, this`phase, this`reports, queue`next
      ensures Valid() && View() == Next(old(View()), WaitModel.Resume) && r == Consume(old(View()), target).1
    {
      r := Collect(target);
      waitingFor := 0;
    }
  }
}
