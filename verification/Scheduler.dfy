/**
 * The scheduler in place: process control blocks linked into four FIFO ready
 * queues.  Each method is tied to the transition of `SchedModel` it implements.
 */
module Scheduler {
  import opened Lists
  import opened Options
  import opened SchedEvents
  import opened SchedModel

  class Pcb {
    var priority: int
    var basePriority: int
    var state: ProcState
    var kframe: nat       // saved register frame, 0 for none
    var ticksLeft: int
    var agingTicks: int
    var queueNext: Pcb?

    function Snap(): Proc
      reads this`priority, this`basePriority, this`state, this`ticksLeft, this`agingTicks
    {
      Proc(basePriority, priority, state, ticksLeft, agingTicks)
    }
  }

  /** `q` is the chain of blocks from `head` to `tail`. */
  ghost predicate Linked(q: seq<Pcb>, head: Pcb?, tail: Pcb?)
    reads q`queueNext
  {
    if q == [] then head == null && tail == null
    else
      && head == q[0] && tail == q[|q| - 1] && q[|q| - 1].queueNext == null
      && forall i | 0 <= i < |q| - 1 :: q[i].queueNext == q[i + 1]
  }

  /** A chain in which the neighbours of `q[k]` are joined, and the ends moved, holds `q` without it. */
  lemma CutLinked(q: seq<Pcb>, k: nat, head: Pcb?, tail: Pcb?)
    requires k < |q| && NoDup(q)
    requires forall i | 0 <= i < |q| - 1 && i != k && i != k - 1 :: q[i].queueNext == q[i + 1]
    requires k < |q| - 1 ==> q[|q| - 1].queueNext == null
    requires k > 0 ==> q[k - 1].queueNext == if k + 1 < |q| then q[k + 1] else null
    requires head == if k > 0 then q[0] else if |q| > 1 then q[1] else null
    requires tail == if k < |q| - 1 then q[|q| - 1] else if k > 0 then q[k - 1] else null
    ensures NoDup(Cut(q, k)) && Linked(Cut(q, k), head, tail)
  {
    var r := Cut(q, k);
    assert forall i | 0 <= i < |r| :: r[i] == if i < k then q[i] else q[i + 1];
    forall i | 0 <= i < |r| - 1 ensures r[i].queueNext == r[i + 1] {
      if i < k { assert i != k - 1 ==> q[i].queueNext == q[i + 1]; } else { assert q[i + 1].queueNext == q[i + 2]; }
    }
  }

  class Scheduler {
    const readyHead: array<Pcb?>
    const readyTail: array<Pcb?>
    var enabled: bool
    var current: Pcb?
    var idleProc: Pcb?
    ghost var table: set<Pcb>          // the process table
    ghost var queues: seq<seq<Pcb>>    // what the four chains hold

    ghost predicate QueueShape(l: nat)
      requires readyHead.Length == MAX_PRIOS && readyTail.Length == MAX_PRIOS && |queues| == MAX_PRIOS && l < MAX_PRIOS
      reads this`table, this`queues, readyHead, readyTail, queues[l]`queueNext, queues[l]`priority
    {
      && NoDup(queues[l])
      && Linked(queues[l], readyHead[l], readyTail[l])
      && forall x | x in queues[l] :: x in table && x.priority == l
    }

    /** The chains hold `queues`, and every block stands in the chain of its priority. */
    ghost predicate Shape()
      reads this`table, this`queues, readyHead, readyTail, table`queueNext, table`priority
    {
      && readyHead.Length == MAX_PRIOS && readyTail.Length == MAX_PRIOS && readyHead != readyTail
      && |queues| == MAX_PRIOS
      && (forall l, x | 0 <= l < MAX_PRIOS && x in queues[l] :: x in table)
      && (forall l {:trigger queues[l]} | 0 <= l < MAX_PRIOS :: QueueShape(l))
    }

    method QPush(proc: Pcb)
      requires Shape() && proc in table
      requires forall l {:trigger queues[l]} | 0 <= l < MAX_PRIOS :: proc !in queues[l]
      requires MIN_PRIO <= proc.priority <= HIGHEST_PRIO
      modifies this`queues, readyHead, readyTail, table`queueNext
      ensures Shape()
      ensures queues == old(queues)[proc.priority := old(queues)[proc.priority] + [proc]]
      ensures forall x | x in table && x != proc && x != Last(old(queues)[proc.priority]) :: x.queueNext == old(x.queueNext)
    {
      var prio := proc.priority;
      if prio < MIN_PRIO {
        prio := MIN_PRIO;
      } else if prio > HIGHEST_PRIO {
        prio := HIGHEST_PRIO;
      }
      assert QueueShape(prio);
      proc.queueNext := null;
      if readyHead[prio] == null {
        readyHead[prio] := proc;
        readyTail[prio] := proc;
      } else {
        readyTail[prio].queueNext := proc;
        readyTail[prio] := proc;
      }
      queues := queues[prio := queues[prio] + [proc]];
      forall l | 0 <= l < MAX_PRIOS ensures QueueShape(l) {
        assert old(QueueShape(l));
      }
    }

    method QPop(prio: nat) returns (head: Pcb?)
      requires Shape() && prio < MAX_PRIOS
      modifies this`queues, readyHead, readyTail, table`queueNext
      ensures Shape()
      ensures old(queues)[prio] == [] ==> head == null && queues == old(queues)
      ensures old(queues)[prio] != [] ==>
                head == old(queues)[prio][0] && queues == old(queues)[prio := old(queues)[prio][1..]]
    {
      assert QueueShape(prio);
      head := readyHead[prio];
      if head == null {
        return;
      }
      readyHead[prio] := head.queueNext;
      if readyHead[prio] == null {
        readyTail[prio] := null;
      }
      head.queueNext := null;
      queues := queues[prio := queues[prio][1..]];
      forall l | 0 <= l < MAX_PRIOS ensures QueueShape(l) {
        assert old(QueueShape(l));
      }
    }

    method QRemove(proc: Pcb)
      requires Shape() && proc in table
      modifies this`queues, readyHead, readyTail, table`queueNext
      ensures Shape()
      ensures queues == if MIN_PRIO <= proc.priority <= HIGHEST_PRIO
                        then old(queues)[proc.priority := Without(old(queues)[proc.priority], proc)] else old(queues)
    {
      var prio := proc.priority;
      if prio < MIN_PRIO || prio > HIGHEST_PRIO {
        return;
      }
      assert QueueShape(prio);
      ghost var q := queues[prio];
      var cursor := readyHead[prio];
      var prev: Pcb? := null;
      ghost var k := 0;
      while cursor != null
        invariant 0 <= k <= |q| && proc !in q[..k]
        invariant cursor == if k < |q| then q[k] else null
        invariant prev == if k > 0 then q[k - 1] else null
        invariant Shape() && unchanged(this) && unchanged(readyHead) && unchanged(readyTail)
        invariant forall x | x in table :: x.queueNext == old(x.queueNext)
        decreases |q| - k
      {
        if cursor == proc {
          Unchain(prio, prev, cursor, k);
          WithoutAt(q, k);
          return;
        }
        prev := cursor;
        cursor := cursor.queueNext;
        k := k + 1;
      }
      WithoutAbsent(q, proc);
      assert queues[prio := q] == queues;
    }

    /** Relinks the neighbours of `node`, the `k`-th block of chain `prio`, and takes it out. */
    method Unchain(prio: nat, prev: Pcb?, node: Pcb, ghost k: nat)
      requires Shape() && prio < MAX_PRIOS && k < |queues[prio]| && node == queues[prio][k]
      requires prev == if k > 0 then queues[prio][k - 1] else null
      modifies this`queues, readyHead, readyTail, table`queueNext
      ensures Shape()
      ensures queues == old(queues)[prio := Cut(old(queues)[prio], k)]
      ensures node.queueNext == null
      ensures forall x | x in table && x != prev && x != node :: x.queueNext == old(x.queueNext)
    {
      assert QueueShape(prio);
      ghost var q := queues[prio];
      forall l, i | 0 <= l < MAX_PRIOS && l != prio && 0 <= i < |queues[l]|
        ensures queues[l][i] != node && queues[l][i] != prev
      {
        assert QueueShape(l) && queues[l][i] in queues[l];
        assert node in q && (prev != null ==> prev in q);
      }
      if prev == null {
        readyHead[prio] := node.queueNext;
      } else {
        prev.queueNext := node.queueNext;
      }
      if readyTail[prio] == node {
        readyTail[prio] := prev;
      }
      node.queueNext := null;
      queues := queues[prio := Cut(q, k)];
      assert QueueShape(prio) by {
        CutLinked(q, k, readyHead[prio], readyTail[prio]);
      }
      forall l | 0 <= l < MAX_PRIOS && l != prio ensures QueueShape(l) {
        assert old(QueueShape(l));
      }
    }

    method PickNext() returns (next: Pcb?)
      requires Shape()
      modifies this`queues, readyHead, readyTail, table`queueNext
      ensures Shape()
      ensures var l := TopLevel(old(queues), HIGHEST_PRIO);
              if l < 0 then next == null && queues == old(queues)
              else next == old(queues)[l][0] && queues == old(queues)[l := old(queues)[l][1..]]
    {
      var prio: int := HIGHEST_PRIO;
      while prio >= MIN_PRIO
        invariant -1 <= prio <= HIGHEST_PRIO
        invariant Shape() && queues == old(queues)
        invariant TopLevel(queues, HIGHEST_PRIO) == TopLevel(queues, prio)
      {
        assert QueueShape(prio);
        if readyHead[prio] != null {
          next := QPop(prio);
          if next != null {
            return;
          }
        }
        prio := prio - 1;
      }
      next := null;
    }

    // ---- aging ----

    ghost function Procs(): (m: map<Pcb, Proc>)
      reads this`table, table`priority, table`basePriority, table`state, table`ticksLeft, table`agingTicks
    {
      map x | x in table :: x.Snap()
    }

    /** `prom` is the side list from `head` to `tail`; none of its blocks is in a ready queue. */
    ghost predicate Aside(prom: seq<Pcb>, head: Pcb?, tail: Pcb?)
      reads this`table, this`queues, prom`queueNext, prom`priority
    {
      && NoDup(prom) && Linked(prom, head, tail) && |queues| == MAX_PRIOS
      && forall x | x in prom :: x in table && 0 <= x.priority < MAX_PRIOS && x !in queues[x.priority]
    }

    /** The tail of the side list takes one more block. */
    method PutAside(head: Pcb?, tail: Pcb?, ghost prom: seq<Pcb>, node: Pcb) returns (head': Pcb?, tail': Pcb?)
      requires Shape() && Aside(prom, head, tail)
      requires node in table && node !in prom && 0 <= node.priority < MAX_PRIOS && node !in queues[node.priority]
      modifies table`queueNext
      ensures Shape() && Aside(prom + [node], head', tail')
    {
      forall l, i | 0 <= l < MAX_PRIOS && 0 <= i < |queues[l]|
        ensures queues[l][i] != node && queues[l][i] != tail
      {
        assert QueueShape(l) && queues[l][i] in queues[l];
        assert tail != null ==> tail in prom;
      }
      node.queueNext := null;
      if tail == null {
        head', tail' := node, node;
      } else {
        tail.queueNext := node;
        head', tail' := head, node;
      }
      forall l | 0 <= l < MAX_PRIOS ensures QueueShape(l) {
        assert old(QueueShape(l));
      }
    }

    method GrowOlder(node: Pcb) returns (promote: bool)
      requires 0 <= node.agingTicks <= AGING_THRESHOLD
      modifies node`agingTicks
      ensures promote == Promoted(old(node.Snap()))
      ensures node.agingTicks == if old(node.agingTicks) < AGING_THRESHOLD then old(node.agingTicks) + 1 else AGING_THRESHOLD
    {
      node.agingTicks := node.agingTicks + 1;
      if node.agingTicks > AGING_THRESHOLD {
        node.agingTicks := AGING_THRESHOLD;
      }
      promote := node.priority < HIGHEST_PRIO && node.agingTicks >= AGING_THRESHOLD;
    }

    /** One node of the pass: it grows older, and is set aside when it is to be lifted. */
    method AgeNode(prio: nat, prev: Pcb?, node: Pcb, head: Pcb?, tail: Pcb?, ghost k: nat, ghost prom: seq<Pcb>)
      returns (prev': Pcb?, head': Pcb?, tail': Pcb?, ghost prom': seq<Pcb>)
      requires Shape() && Aside(prom, head, tail)
      requires prio < MAX_PRIOS && k < |queues[prio]| && node == queues[prio][k]
      requires prev == if k > 0 then queues[prio][k - 1] else null
      requires 0 <= node.agingTicks <= AGING_THRESHOLD
      modifies this`queues, readyHead, readyTail, table`queueNext, node`agingTicks, node`priority
      ensures Shape() && Aside(prom', head', tail')
      ensures node.Snap() == AgeProc(old(node.Snap()))
      ensures if Promoted(old(node.Snap()))
              then queues == old(queues)[prio := Cut(old(queues)[prio], k)] && prev' == prev && prom' == prom + [node]
              else queues == old(queues) && prev' == node && prom' == prom
    {
      assert QueueShape(prio) && node in queues[prio];
      var promote := GrowOlder(node);
      if promote {
        head', tail' := LiftOut(prio, prev, node, head, tail, k, prom);
        prom' := prom + [node];
        prev' := prev;
      } else {
        prev', head', tail', prom' := node, head, tail, prom;
      }
    }

    /** Moves `node` from its chain to the side list, raises its priority and resets its age. */
    method LiftOut(prio: nat, prev: Pcb?, node: Pcb, head: Pcb?, tail: Pcb?, ghost k: nat, ghost prom: seq<Pcb>)
      returns (head': Pcb?, tail': Pcb?)
      requires Shape() && Aside(prom, head, tail)
      requires prio < HIGHEST_PRIO && k < |queues[prio]| && node == queues[prio][k] && node.priority == prio
      requires prev == if k > 0 then queues[prio][k - 1] else null
      modifies this`queues, readyHead, readyTail, table`queueNext, node`priority, node`agingTicks
      ensures Shape() && Aside(prom + [node], head', tail')
      ensures queues == old(queues)[prio := Cut(old(queues)[prio], k)]
      ensures node.priority == prio + 1 && node.agingTicks == 0
    {
      assert QueueShape(prio) && node in queues[prio];
      forall x | x in prom ensures x != node && x != prev { assert prev != null ==> prev in queues[prio]; }
      Unchain(prio, prev, node, k);
      assert node !in queues[prio];
      head', tail' := PutAside(head, tail, prom, node);
      Raise(node, prom + [node], head', tail');
    }

    /** A block outside the ready queues may change its priority, and starts to age anew. */
    method Raise(node: Pcb, ghost prom: seq<Pcb>, ghost head: Pcb?, ghost tail: Pcb?)
      requires Shape() && Aside(prom, head, tail)
      requires node in prom && 0 <= node.priority < HIGHEST_PRIO
      modifies node`priority, node`agingTicks
      ensures Shape() && Aside(prom, head, tail)
      ensures node.priority == old(node.priority) + 1 && node.agingTicks == 0
    {
      forall l | 0 <= l < MAX_PRIOS ensures node !in queues[l] { assert QueueShape(l); }
      node.priority := node.priority + 1;
      node.agingTicks := 0;
      forall l | 0 <= l < MAX_PRIOS ensures QueueShape(l) { assert old(QueueShape(l)); }
    }

    /** One turn of the inner loop: the chain holds those kept so far and then the rest of `q`, from `node` on. */
    method AgeNext(prio: nat, prev: Pcb?, node: Pcb, head: Pcb?, tail: Pcb?, ghost kept: seq<Pcb>, ghost rest: seq<Pcb>, ghost prom: seq<Pcb>)
      returns (prev': Pcb?, node': Pcb?, head': Pcb?, tail': Pcb?, ghost prom': seq<Pcb>)
      requires Shape() && Aside(prom, head, tail) && prio < MAX_PRIOS
      requires queues[prio] == kept + [node] + rest && prev == Last(kept)
      requires 0 <= node.agingTicks <= AGING_THRESHOLD
      modifies this`queues, readyHead, readyTail, table`queueNext, node`agingTicks, node`priority
      ensures Shape() && Aside(prom', head', tail')
      ensures node.Snap() == AgeProc(old(node.Snap()))
      ensures queues == old(queues)[prio := queues[prio]]
      ensures queues[prio] == (if Promoted(old(node.Snap())) then kept else kept + [node]) + rest
      ensures prev' == Last(if Promoted(old(node.Snap())) then kept else kept + [node])
      ensures node' == First(rest)
      ensures prom' == if Promoted(old(node.Snap())) then prom + [node] else prom
    {
      node' := NextOf(prio, node, |kept|);
      assert queues[prio] == kept + ([node] + rest);
      prev', head', tail', prom' := AgeNode(prio, prev, node, head, tail, |kept|, prom);
      assert Cut(kept + [node] + rest, |kept|) == kept + rest;
    }

    /** Half-way through the chain that held `q`: the first `i` blocks are aged, those kept stand before the rest. */
    ghost predicate MidPass(prio: nat, q: seq<Pcb>, procs: map<Pcb, Proc>, i: nat, kept: seq<Pcb>)
      reads this`queues, q`priority, q`basePriority, q`state, q`ticksLeft, q`agingTicks
    {
      && |queues| == MAX_PRIOS && prio < MAX_PRIOS && i <= |q| && NoDup(q)
      && queues[prio] == kept + q[i..]
      && forall j | 0 <= j < |q| ::
           && q[j] in procs && 0 <= procs[q[j]].aging <= AGING_THRESHOLD
           && q[j].Snap() == if j < i then AgeProc(procs[q[j]]) else procs[q[j]]
    }

    method AgeStep(prio: nat, prev: Pcb?, node: Pcb, head: Pcb?, tail: Pcb?,
                   ghost q: seq<Pcb>, ghost procs: map<Pcb, Proc>, ghost i: nat, ghost kept: seq<Pcb>, ghost prom: seq<Pcb>)
      returns (prev': Pcb?, node': Pcb?, head': Pcb?, tail': Pcb?, ghost kept': seq<Pcb>, ghost prom': seq<Pcb>)
      requires Shape() && Aside(prom, head, tail) && MidPass(prio, q, procs, i, kept)
      requires i < |q| && node == q[i] && prev == Last(kept)
      modifies this`queues, readyHead, readyTail, table`queueNext, node`agingTicks, node`priority
      ensures Shape() && Aside(prom', head', tail') && MidPass(prio, q, procs, i + 1, kept')
      ensures node' == (if i + 1 < |q| then q[i + 1] else null) && prev' == Last(kept')
      ensures forall l {:trigger queues[l]} | 0 <= l < MAX_PRIOS && l != prio :: queues[l] == old(queues)[l]
      ensures kept' == if Promoted(procs[node]) then kept else kept + [node]
      ensures prom' == if Promoted(procs[node]) then prom + [node] else prom
    {
      assert q[i..] == [node] + q[i + 1..];
      assert queues[prio] == kept + [node] + q[i + 1..];
      assert forall j | 0 <= j < |q| && j != i :: q[j] != node;
      prev', node', head', tail', prom' := AgeNext(prio, prev, node, head, tail, kept, q[i + 1..], prom);
      kept' := if Promoted(procs[node]) then kept else kept + [node];
    }

    lemma SiftStep(kept: seq<Pcb>, prom: seq<Pcb>, q: seq<Pcb>, i: nat, procs: map<Pcb, Proc>)
      requires i < |q| && forall x | x in q :: x in procs
      ensures q[i] in q && Sift(kept, prom, q[i..], procs)
                           == if Promoted(procs[q[i]]) then Sift(kept, prom + [q[i]], q[i + 1..], procs)
                              else Sift(kept + [q[i]], prom, q[i + 1..], procs)
    {
      assert q[i..][1..] == q[i + 1..];
    }

    method AgeTurn(prio: nat, prev: Pcb?, node: Pcb, head: Pcb?, tail: Pcb?,
                   ghost q: seq<Pcb>, ghost procs: map<Pcb, Proc>, ghost i: nat, ghost kept: seq<Pcb>, ghost prom: seq<Pcb>)
      returns (prev': Pcb?, node': Pcb?, head': Pcb?, tail': Pcb?, ghost kept': seq<Pcb>, ghost prom': seq<Pcb>)
      requires Shape() && Aside(prom, head, tail) && MidPass(prio, q, procs, i, kept)
      requires i < |q| && node == q[i] && prev == Last(kept)
      modifies this`queues, readyHead, readyTail, table`queueNext, q`agingTicks, q`priority
      ensures Shape() && Aside(prom', head', tail') && MidPass(prio, q, procs, i + 1, kept')
      ensures node' == (if i + 1 < |q| then q[i + 1] else null) && prev' == Last(kept')
      ensures forall l {:trigger queues[l]} | 0 <= l < MAX_PRIOS && l != prio :: queues[l] == old(queues)[l]
      ensures Sift(kept', prom', q[i + 1..], procs) == Sift(kept, prom, q[i..], procs)
    {
      SiftStep(kept, prom, q, i, procs);
      prev', node', head', tail', kept', prom' := AgeStep(prio, prev, node, head, tail, q, procs, i, kept, prom);
    }

    /** The inner loop of the pass: one chain, from head to tail. */
    method AgeChain(prio: nat, head: Pcb?, tail: Pcb?, ghost q: seq<Pcb>, ghost procs: map<Pcb, Proc>, ghost prom: seq<Pcb>)
      returns (head': Pcb?, tail': Pcb?, ghost kept: seq<Pcb>, ghost prom': seq<Pcb>)
      requires Shape() && Aside(prom, head, tail) && MidPass(prio, q, procs, 0, [])
      requires readyHead[prio] == First(q)
      modifies this`queues, readyHead, readyTail, table`queueNext, q`agingTicks, q`priority
      ensures Shape() && Aside(prom', head', tail') && MidPass(prio, q, procs, |q|, kept)
      ensures forall l {:trigger queues[l]} | 0 <= l < MAX_PRIOS && l != prio :: queues[l] == old(queues)[l]
      ensures Sift([], prom, q, procs) == (kept, prom')
    {
      ghost var i := 0;
      var prev: Pcb?, node := null, readyHead[prio];
      head', tail', kept, prom' := head, tail, [], prom;
      assert q[0..] == q;
      while node != null
        invariant table == old(table)
        invariant Shape() && Aside(prom', head', tail') && MidPass(prio, q, procs, i, kept)
        invariant node == (if i < |q| then q[i] else null) && prev == Last(kept)
        invariant forall l {:trigger queues[l]} | 0 <= l < MAX_PRIOS && l != prio :: queues[l] == old(queues)[l]
        invariant Sift(kept, prom', q[i..], procs) == Sift([], prom, q, procs)
        decreases |q| - i
      {
        prev, node, head', tail', kept, prom' := AgeTurn(prio, prev, node, head', tail', q, procs, i, kept, prom');
        i := i + 1;
      }
      assert q[i..] == [];
    }

    /** The queues and the process table agree, level by level, on who is ready; levels below `from` are already aged. */
    ghost predicate AgedBelow(procs: map<Pcb, Proc>, qs: seq<seq<Pcb>>, from: nat)
      reads this`table, table`priority, table`basePriority, table`state, table`ticksLeft, table`agingTicks
    {
      && |qs| == MAX_PRIOS && procs.Keys == table
      && (forall x | x in table :: x.Snap() == if procs[x].st == Ready && procs[x].prio < from then AgeProc(procs[x]) else procs[x])
    }

    /** One level of the pass. */
    method AgeLevel(prio: nat, head: Pcb?, tail: Pcb?, ghost qs: seq<seq<Pcb>>, ghost procs: map<Pcb, Proc>, ghost prom: seq<Pcb>)
      returns (head': Pcb?, tail': Pcb?, ghost prom': seq<Pcb>)
      requires Shape() && Aside(prom, head, tail) && prio < MAX_PRIOS
      requires AgedBelow(procs, qs, prio) && ReadyQueued(procs, qs, prio) && queues[prio] == qs[prio]
      modifies this`queues, readyHead, readyTail, table`queueNext, table`agingTicks, table`priority
      ensures Shape() && Aside(prom', head', tail') && AgedBelow(procs, qs, prio + 1)
      ensures queues == old(queues)[prio := queues[prio]]
      ensures Sift([], prom, qs[prio], procs) == (queues[prio], prom')
    {
      ghost var before := Procs();
      ghost var kept;
      LevelStart(prio, qs, procs);
      head', tail', kept, prom' := AgeOnly(prio, head, tail, qs[prio], procs, prom, before);
      LevelDone(prio, qs, procs, before, kept);
    }

    /** The chain's pass leaves every block outside the chain as it was. */
    method AgeOnly(prio: nat, head: Pcb?, tail: Pcb?, ghost q: seq<Pcb>, ghost procs: map<Pcb, Proc>, ghost prom: seq<Pcb>,
                   ghost before: map<Pcb, Proc>)
      returns (head': Pcb?, tail': Pcb?, ghost kept: seq<Pcb>, ghost prom': seq<Pcb>)
      requires Shape() && Aside(prom, head, tail) && prio < MAX_PRIOS && queues[prio] == q && MidPass(prio, q, procs, 0, [])
      requires forall x | x in table :: x in before && before[x] == x.Snap()
      modifies this`queues, readyHead, readyTail, table`queueNext, q`agingTicks, q`priority
      ensures Shape() && Aside(prom', head', tail') && MidPass(prio, q, procs, |q|, kept)
      ensures forall l {:trigger queues[l]} | 0 <= l < MAX_PRIOS && l != prio :: queues[l] == old(queues)[l]
      ensures Sift([], prom, q, procs) == (kept, prom')
      ensures forall x | x in table && x !in q :: x.Snap() == before[x]
    {
      assert QueueShape(prio);
      head', tail', kept, prom' := AgeChain(prio, head, tail, q, procs, prom);
    }

    lemma LevelDone(prio: nat, qs: seq<seq<Pcb>>, procs: map<Pcb, Proc>, before: map<Pcb, Proc>, kept: seq<Pcb>)
      requires prio < MAX_PRIOS && |qs| == MAX_PRIOS && procs.Keys == table == before.Keys && ReadyQueued(procs, qs, prio)
      requires forall x | x in table :: before[x] == if procs[x].st == Ready && procs[x].prio < prio then AgeProc(procs[x]) else procs[x]
      requires MidPass(prio, qs[prio], procs, |qs[prio]|, kept)
      requires forall x | x in table && x !in qs[prio] :: x.Snap() == before[x]
      ensures AgedBelow(procs, qs, prio + 1) && queues[prio] == kept
    {
      assert kept + qs[prio][|qs[prio]|..] == kept;
      forall x | x in table
        ensures x.Snap() == if procs[x].st == Ready && procs[x].prio < prio + 1 then AgeProc(procs[x]) else procs[x]
      {
        if x in qs[prio] {
          var j :| 0 <= j < |qs[prio]| && qs[prio][j] == x;
        }
      }
    }

    lemma LevelStart(prio: nat, qs: seq<seq<Pcb>>, procs: map<Pcb, Proc>)
      requires prio < MAX_PRIOS && |queues| == MAX_PRIOS
      requires AgedBelow(procs, qs, prio) && ReadyQueued(procs, qs, prio) && queues[prio] == qs[prio]
      ensures MidPass(prio, qs[prio], procs, 0, [])
      ensures forall x | x in table :: Procs()[x] == if procs[x].st == Ready && procs[x].prio < prio then AgeProc(procs[x]) else procs[x]
    {
      assert qs[prio][0..] == qs[prio] && [] + qs[prio] == qs[prio];
    }

    /** The re-insertion loop's body: the head of the side list joins the queue of its new priority. */
    method PutBack(promoted: Pcb, ghost rest: seq<Pcb>) returns (next: Pcb?)
      requires Shape() && rest != [] && promoted == rest[0] && Aside(rest, promoted, Last(rest))
      modifies this`queues, readyHead, readyTail, table`queueNext
      ensures Shape() && next == First(rest[1..]) && Aside(rest[1..], next, Last(rest[1..]))
      ensures queues == PushTo(old(queues), promoted, promoted.priority)
    {
      forall l | 0 <= l < MAX_PRIOS ensures promoted !in queues[l] && forall x | x in rest[1..] :: x !in queues[l] {
        assert QueueShape(l);
      }
      next := promoted.queueNext;
      assert next == First(rest[1..]) && Linked(rest[1..], next, Last(rest[1..])) && promoted !in rest[1..];
      SidePush(promoted, rest[1..], next);
    }

    /** Pushing a block leaves a side list it is not on alone. */
    method SidePush(proc: Pcb, ghost rest: seq<Pcb>, ghost head: Pcb?)
      requires Shape() && proc in table && proc !in rest && 0 <= proc.priority < MAX_PRIOS
      requires forall l {:trigger queues[l]} | 0 <= l < MAX_PRIOS :: proc !in queues[l] && forall x | x in rest :: x !in queues[l]
      requires Aside(rest, head, Last(rest))
      modifies this`queues, readyHead, readyTail, table`queueNext
      ensures Shape() && Aside(rest, head, Last(rest))
      ensures queues == PushTo(old(queues), proc, proc.priority)
    {
      assert forall x | x in rest :: x != Last(queues[proc.priority]);
      QPush(proc);
    }

    /** The first loop of `apply_aging`: every level in turn, collecting those who are lifted. */
    method AgePass() returns (promotedHead: Pcb?, ghost prom: seq<Pcb>)
      requires Shape() && AllReadyQueued(Procs(), queues)
      modifies this`queues, readyHead, readyTail, table`queueNext, table`agingTicks, table`priority
      ensures Shape() && Aside(prom, promotedHead, Last(prom)) && AgedBelow(old(Procs()), old(queues), MAX_PRIOS)
      ensures (queues, prom) == Pass(old(Procs()), old(queues), MAX_PRIOS)
    {
      ghost var qs, procs := queues, Procs();
      var promotedTail: Pcb? := null;
      promotedHead, prom := null, [];
      var prio := 0;
      while prio <= HIGHEST_PRIO
        invariant 0 <= prio <= MAX_PRIOS && table == old(table)
        invariant Shape() && Aside(prom, promotedHead, promotedTail) && AgedBelow(procs, qs, prio)
        invariant forall l {:trigger queues[l]} | prio <= l < MAX_PRIOS :: queues[l] == qs[l]
        invariant (queues, prom) == Pass(procs, qs, prio)
      {
        assert ReadyQueued(procs, qs, prio);
        promotedHead, promotedTail, prom := AgeLevel(prio, promotedHead, promotedTail, qs, procs, prom);
        prio := prio + 1;
      }
    }

    /** The second loop: the side list goes back, head first. */
    method Reinsert(promotedHead: Pcb?, ghost prom: seq<Pcb>, ghost procs: map<Pcb, Proc>, ghost qs: seq<seq<Pcb>>)
      requires Shape() && Aside(prom, promotedHead, Last(prom)) && promotedHead == First(prom) && AgedBelow(procs, qs, MAX_PRIOS)
      requires forall x | x in prom :: x in procs && x.priority == AgeProc(procs[x]).prio
      modifies this`queues, readyHead, readyTail, table`queueNext
      ensures Shape()
      ensures (forall x | x in prom :: 0 <= AgeProc(procs[x]).prio < MAX_PRIOS) && queues == PushAll(procs, old(queues), prom)
    {
      var promoted := promotedHead;
      ghost var rest := prom;
      while promoted != null
        invariant table == old(table)
        invariant Shape() && promoted == First(rest) && Aside(rest, promoted, Last(rest))
        invariant forall x | x in rest :: x in procs && x.priority == AgeProc(procs[x]).prio
        invariant PushAll(procs, queues, rest) == PushAll(procs, old(queues), prom)
        decreases |rest|
      {
        promoted := PutBack(promoted, rest);
        rest := rest[1..];
      }
    }

    /** `apply_aging` */
    method ApplyAging()
      requires Shape() && AllReadyQueued(Procs(), queues)
      modifies this`queues, readyHead, readyTail, table`queueNext, table`agingTicks, table`priority
      ensures Shape()
      ensures Procs() == AgedProcs(old(Procs()))
      ensures queues == AgedQueues(old(Procs()), old(queues))
    {
      ghost var qs, procs := queues, Procs();
      var promotedHead, prom := AgePass();
      Lifted(procs, qs, prom);
      Reinsert(promotedHead, prom, procs, qs);
    }

    /** What the first loop leaves for the second. */
    lemma Lifted(procs: map<Pcb, Proc>, qs: seq<seq<Pcb>>, prom: seq<Pcb>)
      requires AllReadyQueued(procs, qs) && AgedBelow(procs, qs, MAX_PRIOS) && (queues, prom) == Pass(procs, qs, MAX_PRIOS)
      ensures Procs() == AgedProcs(procs)
      ensures forall x | x in prom :: x in procs && x.priority == AgeProc(procs[x]).prio && 0 <= x.priority < MAX_PRIOS
      ensures PushAll(procs, queues, prom) == AgedQueues(procs, qs)
    {
      PassFilters(procs, qs);
      AgedTable(procs, qs);
      forall x | x in prom ensures x.priority == AgeProc(procs[x]).prio { assert x.priority == x.Snap().prio; }
    }

    lemma AgedTable(procs: map<Pcb, Proc>, qs: seq<seq<Pcb>>)
      requires AllReadyQueued(procs, qs) && AgedBelow(procs, qs, MAX_PRIOS)
      ensures Procs() == AgedProcs(procs)
    {
    }

    // ---- the scheduler's entry points ----

    /** `sched_init`; `frame` is the stack frame built for the idle process. */
    constructor (idle: Pcb, frame: nat)
      requires frame != 0
      modifies idle
      ensures Valid() && View() == Boot(idle) && fresh(readyHead) && fresh(readyTail)
    {
      readyHead := new Pcb?[MAX_PRIOS](i => null);
      readyTail := new Pcb?[MAX_PRIOS](i => null);
      enabled := false;
      table, queues := {idle}, [[], [], [], []];
      idleProc, current := idle, idle;
      new;
      SetUpIdle(idle, frame);
    }

    method SetUpIdle(idle: Pcb, frame: nat)
      requires EmptyQueues() && table == {idle} && idleProc == current == idle && !enabled && frame != 0
      modifies idle
      ensures Valid() && View() == Boot(idle)
    {
      idle.priority, idle.basePriority, idle.agingTicks := MIN_PRIO, MIN_PRIO, 0;
      idle.kframe, idle.queueNext := frame, null;
      idle.state, idle.ticksLeft := Running, TIME_SLICE_TICKS;
      BootOk(idle);
      NoneQueued();
      assert Procs() == map[idle := idle.Snap()];
    }

    ghost predicate EmptyQueues()
      reads this`queues, readyHead, readyTail
    {
      && readyHead.Length == MAX_PRIOS && readyTail.Length == MAX_PRIOS && readyHead != readyTail
      && queues == [[], [], [], []]
      && forall l | 0 <= l < MAX_PRIOS :: readyHead[l] == null && readyTail[l] == null
    }

    lemma NoneQueued()
      requires EmptyQueues()
      ensures Shape()
    {
      forall l | 0 <= l < MAX_PRIOS ensures QueueShape(l) { assert queues[l] == []; }
    }

    /** `sched_start` */
    method Start()
      requires Valid() && current != null && current.state == Running && current.ticksLeft >= 1
      modifies this`enabled
      ensures Valid() && Inv(View()) && View() == old(View()).(enabled := true)
    {
      WfStart(View());
      enabled := true;
    }

    /** The machine value this object stands for. */
    ghost function View(): Machine<Pcb>
      requires idleProc != null
      reads this`table, this`queues, this`current, this`idleProc, this`enabled
      reads table`priority, table`basePriority, table`state, table`ticksLeft, table`agingTicks
    {
      var idle: Pcb := idleProc;
      var cur: Option<Pcb> := if current == null then None else var c: Pcb := current; Some(c);
      Machine(Procs(), queues, cur, idle, enabled)
    }

    ghost predicate Framed()
      reads this`table, table`kframe
    {
      forall x | x in table :: x.kframe != 0
    }

    ghost predicate Valid()
      reads this, readyHead, readyTail, table
    {
      Shape() && idleProc != null && Framed() && Wf(View())
    }

    lemma QueuedFromWf()
      requires idleProc != null && Wf(View())
      ensures AllReadyQueued(Procs(), queues)
    {
      var m := View();
      forall l | 0 <= l < MAX_PRIOS ensures ReadyQueued(m.procs, m.queues, l) {
        assert QueueOk(m, l);
        forall j | 0 <= j < |queues[l]|
          ensures m.queues[l][j] in m.procs && m.procs[m.queues[l][j]].st == Ready && m.procs[m.queues[l][j]].prio == l
          ensures 0 <= m.procs[m.queues[l][j]].aging <= AGING_THRESHOLD
        { assert queues[l][j] in queues[l] && ProcOk(m, queues[l][j]); }
        forall x | x in m.procs && m.procs[x].st == Ready && m.procs[x].prio == l ensures x in queues[l] { assert ProcOk(m, x); }
      }
      forall x | x in m.procs && m.procs[x].st == Ready ensures 0 <= m.procs[x].prio < MAX_PRIOS { assert ProcOk(m, x); }
    }

    /** The process that had the CPU: back to its base queue if it was running, out of its slice if it blocked or exited. */
    method RequeuePrev(prev: Pcb)
      requires Shape() && prev in table && forall l {:trigger queues[l]} | 0 <= l < MAX_PRIOS :: prev !in queues[l]
      requires MIN_PRIO <= prev.basePriority <= HIGHEST_PRIO
      modifies this`queues, readyHead, readyTail, table`queueNext, prev`state, prev`ticksLeft, prev`priority, prev`agingTicks
      ensures Shape()
      ensures prev.Snap() == Rejoined(old(prev.Snap()), prev == idleProc)
      ensures queues == if old(prev.state) == Running && prev != idleProc
                        then PushTo(old(queues), prev, prev.basePriority) else old(queues)
    {
      if prev.state == Running && prev != idleProc {
        prev.state := Ready;
        prev.ticksLeft := TIME_SLICE_TICKS;
        prev.priority := prev.basePriority;
        prev.agingTicks := 0;
        forall l | 0 <= l < MAX_PRIOS ensures QueueShape(l) { assert old(QueueShape(l)); }
        QPush(prev);
      }
      if prev.state == Blocked || prev.state == Exited {
        prev.ticksLeft := 0;
      }
    }

    /** The frame check before a switch: the chosen process, else the idle one, else nobody. */
    method WithFrame(next: Pcb) returns (r: Pcb?)
      ensures r == if next.kframe != 0 then next
                   else if idleProc != null && idleProc != next && idleProc.kframe != 0 then idleProc else null
    {
      r := next;
      if next.kframe == 0 {
        if idleProc != null && idleProc != next && idleProc.kframe != 0 {
          r := idleProc;
        } else {
          r := null;
        }
      }
    }

    /** `pick_next`, or the idle process when nobody is ready. */
    method PickOrIdle() returns (next: Pcb)
      requires Shape() && idleProc != null && idleProc in table
      requires forall l {:trigger queues[l]} | 0 <= l < MAX_PRIOS :: idleProc !in queues[l]
      modifies this`queues, readyHead, readyTail, table`queueNext
      ensures Shape() && next in table
      ensures forall l {:trigger queues[l]} | 0 <= l < MAX_PRIOS :: next !in queues[l]
      ensures var l := TopLevel(old(queues), HIGHEST_PRIO);
              && next == (if l < 0 then idleProc else old(queues)[l][0])
              && queues == if l < 0 then old(queues) else old(queues)[l := old(queues)[l][1..]]
    {
      ghost var l := TopLevel(queues, HIGHEST_PRIO);
      if l >= 0 {
        forall k | 0 <= k < MAX_PRIOS ensures k != l ==> queues[l][0] !in queues[k] {
          assert QueueShape(l) && QueueShape(k) && queues[l][0] in queues[l];
        }
      }
      var picked := PickNext();
      if picked == null {
        next := idleProc;
      } else {
        next := picked;
      }
    }

    method PickChosen() returns (next: Pcb)
      requires Shape() && idleProc != null && idleProc in table
      requires forall l {:trigger queues[l]} | 0 <= l < MAX_PRIOS :: idleProc !in queues[l]
      modifies this`queues, readyHead, readyTail, table`queueNext
      ensures Shape() && next in table && next == Chosen(old(View()))
      ensures forall l {:trigger queues[l]} | 0 <= l < MAX_PRIOS :: next !in queues[l]
      ensures var l := TopLevel(old(queues), HIGHEST_PRIO);
              View() == old(View()).(queues := if l < 0 then old(queues) else old(queues)[l := old(queues)[l][1..]])
    {
      next := PickOrIdle();
    }

    /** Every process in the table has a saved frame. */
    method Runnable(next: Pcb) returns (r: Pcb?)
      requires Framed() && next in table
      ensures r == next
    {
      r := WithFrame(next);
    }

    /** The tail of `schedule`: choose among the aged queues and hand over the CPU. */
    method DispatchNext() returns (rsp: nat)
      requires Shape() && idleProc != null && idleProc in table && Framed()
      requires forall l {:trigger queues[l]} | 0 <= l < MAX_PRIOS :: idleProc !in queues[l]
      modifies this`queues, this`current, readyHead, readyTail
      modifies table`queueNext, table`priority, table`state, table`ticksLeft, table`agingTicks
      ensures Shape()
      ensures Chosen(old(View())) in old(View()).procs && View() == Dispatch(old(View()))
      ensures current != null && rsp == current.kframe
    {
      var next := PickChosen();
      var runnable := Runnable(next);
      Hand(next);
      rsp := next.kframe;
      DispatchDone(old(View()), next);
    }

    /** The queue has lost its head and the process has the CPU. */
    lemma DispatchDone(m: Machine<Pcb>, next: Pcb)
      requires |m.queues| == MAX_PRIOS && next in m.procs && next == Chosen(m)
      requires var l := TopLevel(m.queues, HIGHEST_PRIO); queues == if l < 0 then m.queues else m.queues[l := m.queues[l][1..]]
      requires idleProc == m.idle && Procs() == m.procs[next := Given(m.procs[next], next == m.idle)] && current == next && enabled == m.enabled
      ensures View() == Dispatch(m)
    {
    }

    method Hand(next: Pcb)
      requires Shape() && idleProc != null && next in table
      requires forall l {:trigger queues[l]} | 0 <= l < MAX_PRIOS :: next !in queues[l]
      modifies this`current, next`priority, next`state, next`ticksLeft, next`agingTicks
      ensures Shape() && current == next
      ensures Procs() == old(Procs())[next := Given(old(Procs())[next], next == idleProc)]
    {
      next.state := Running;
      next.ticksLeft := TIME_SLICE_TICKS;
      if next != idleProc {
        next.priority := next.basePriority;
        next.agingTicks := 0;
      }
      current := next;
      forall l | 0 <= l < MAX_PRIOS ensures QueueShape(l) { assert old(QueueShape(l)); }
    }

    lemma NotQueued(x: Pcb)
      requires idleProc != null && Wf(View()) && (x !in table || x == idleProc || x.state != Ready)
      ensures |queues| == MAX_PRIOS && forall l {:trigger queues[l]} | 0 <= l < MAX_PRIOS :: x !in queues[l]
    {
      var m := View();
      forall l | 0 <= l < MAX_PRIOS ensures x !in queues[l] { assert QueueOk(m, l); }
    }

    /** The previous process leaves the CPU. */
    method LeaveCpu(prev: Pcb)
      requires Shape() && idleProc != null && Wf(View()) && current == prev && prev.state != Ready
      modifies this`queues, readyHead, readyTail, table`queueNext, prev`state, prev`ticksLeft, prev`priority, prev`agingTicks
      ensures Shape() && Wf(View()) && View() == Leave(old(View()))
    {
      BeforeLeave(prev);
      RequeuePrev(prev);
      assert View().procs == Leave(old(View())).procs;
    }

    lemma BeforeLeave(prev: Pcb)
      requires idleProc != null && Wf(View()) && current == prev && prev.state != Ready
      ensures Wf(Leave(View())) && prev in table && MIN_PRIO <= prev.basePriority <= HIGHEST_PRIO
      ensures |queues| == MAX_PRIOS && forall l {:trigger queues[l]} | 0 <= l < MAX_PRIOS :: prev !in queues[l]
    {
      assert ProcOk(View(), prev);
      WfLeave(View());
      NotQueued(prev);
    }

    /** The tick: saves the frame and uses up one tick of the slice. */
    method TickCpu(curRsp: nat) returns (keeps: bool)
      requires Valid() && curRsp != 0 && current != null
      modifies current`ticksLeft, current`kframe
      ensures Valid() && View() == TickCurrent(old(View()))
      ensures keeps == (current.ticksLeft > 0 && current.state == Running)
    {
      WfTick(View());
      current.kframe := curRsp;
      if current.ticksLeft > 0 {
        current.ticksLeft := current.ticksLeft - 1;
      }
      keeps := current.ticksLeft > 0 && current.state == Running;
      assert View().procs == TickCurrent(old(View())).procs;
    }

    /** `schedule` */
    method Schedule(curRsp: nat) returns (rsp: nat)
      requires Valid() && curRsp != 0 && (current != null ==> current.state != Ready)
      modifies this`queues, this`current, readyHead, readyTail
      modifies table`queueNext, table`priority, table`state, table`ticksLeft, table`agingTicks, table`kframe
      ensures Valid() && View() == SchedModel.Schedule(old(View()))
      ensures rsp == if old(Decides(View())) then current.kframe else 0
      ensures old(!enabled || current == null) ==> rsp == 0 && View() == old(View())
      ensures old(enabled && current != null && current.state == Running && current.ticksLeft > 1) ==>
                rsp == 0 && current == old(current) && current.ticksLeft == old(current.ticksLeft) - 1
      ensures old(enabled && current != null && (current.state != Running || current.ticksLeft <= 1)) ==>
                current != null && rsp == current.kframe
    {
      if !enabled || current == null {
        return 0;
      }
      var keeps := TickCpu(curRsp);
      if keeps {
        return 0;
      }
      InvSchedule(old(View()));
      rsp := Switch();
    }

    /** `schedule` once it has decided to switch. */
    method Switch() returns (rsp: nat)
      requires Valid() && current != null && current.state != Ready
      modifies this`queues, this`current, readyHead, readyTail
      modifies table`queueNext, table`priority, table`state, table`ticksLeft, table`agingTicks
      ensures Shape() && idleProc != null && Framed() && current != null && rsp == current.kframe
      ensures Wf(Leave(old(View()))) && Chosen(Age(Leave(old(View())))) in Age(Leave(old(View()))).procs
      ensures View() == Dispatch(Age(Leave(old(View()))))
    {
      LeaveCpu(current);
      rsp := AgeAndDispatch();
    }

    method AgeAndDispatch() returns (rsp: nat)
      requires Shape() && idleProc != null && Framed() && Wf(View())
      modifies this`queues, this`current, readyHead, readyTail
      modifies table`queueNext, table`priority, table`state, table`ticksLeft, table`agingTicks
      ensures Shape() && current != null && rsp == current.kframe
      ensures Chosen(Age(old(View()))) in Age(old(View())).procs
      ensures View() == Dispatch(Age(old(View())))
    {
      AgeAll();
      rsp := DispatchNext();
    }

    /** `apply_aging` seen as a step of the machine. */
    method AgeAll()
      requires Shape() && idleProc != null && Wf(View())
      modifies this`queues, readyHead, readyTail, table`queueNext, table`agingTicks, table`priority
      ensures Shape() && Wf(View()) && View() == Age(old(View()))
      ensures idleProc in table && forall l {:trigger queues[l]} | 0 <= l < MAX_PRIOS :: idleProc !in queues[l]
    {
      WfAge(View());
      QueuedFromWf();
      ApplyAging();
      NotQueued(idleProc);
    }

    /** `sched_enqueue` */
    method SchedEnqueue(proc: Pcb)
      requires Shape() && idleProc != null && proc in table
      requires forall l {:trigger queues[l]} | 0 <= l < MAX_PRIOS :: proc !in queues[l]
      modifies this`queues, this`current, readyHead, readyTail, table`queueNext
      modifies proc`priority, proc`state, proc`ticksLeft, proc`agingTicks
      ensures Shape() && View() == Enqueue(old(View()), proc)
    {
      if !enabled && current == null {
        TakeCpu(proc);
        return;
      }
      MakeReady(proc);
      QPush(proc);
    }

    /** Before the scheduler is started, the first process gets the CPU at once. */
    method TakeCpu(proc: Pcb)
      requires Shape() && idleProc != null && proc in table
      modifies this`current, proc`state, proc`ticksLeft
      ensures Shape() && queues == old(queues) && current == proc
      ensures Procs() == old(Procs())[proc := old(Procs())[proc].(st := Running, ticks := TIME_SLICE_TICKS)]
    {
      current := proc;
      proc.state := Running;
      proc.ticksLeft := TIME_SLICE_TICKS;
    }

    method MakeReady(proc: Pcb)
      requires Shape() && idleProc != null && proc in table
      requires forall l {:trigger queues[l]} | 0 <= l < MAX_PRIOS :: proc !in queues[l]
      modifies proc`queueNext, proc`priority, proc`state, proc`ticksLeft, proc`agingTicks
      ensures Shape() && MIN_PRIO <= proc.priority <= HIGHEST_PRIO
      ensures Procs() == old(Procs())[proc := Enqueued(old(Procs())[proc])]
    {
      if proc.priority < MIN_PRIO {
        proc.priority := MIN_PRIO;
      } else if proc.priority > HIGHEST_PRIO {
        proc.priority := HIGHEST_PRIO;
      }
      proc.queueNext := null;
      proc.state := Ready;
      proc.ticksLeft := TIME_SLICE_TICKS;
      proc.agingTicks := 0;
      forall l | 0 <= l < MAX_PRIOS ensures QueueShape(l) { assert old(QueueShape(l)); }
    }

    /** `sched_remove` */
    method SchedRemove(proc: Pcb)
      requires Shape() && idleProc != null && proc in table
      modifies this`queues, this`current, readyHead, readyTail, table`queueNext
      ensures Shape() && View() == Dequeue(old(View()), proc)
    {
      if proc == current {
        current := null;
      }
      if proc.state == Ready {
        QRemove(proc);
      }
    }

    /** `sched_force_yield` */
    method ForceYield(curRsp: nat)
      requires Valid() && curRsp != 0 && (current != null ==> current.state != Ready)
      modifies this`queues, this`current, readyHead, readyTail
      modifies table`queueNext, table`priority, table`state, table`ticksLeft, table`agingTicks, table`kframe
      ensures Valid() && Wf(Spent(old(View()))) && View() == SchedModel.Schedule(Spent(old(View())))
    {
      if current != null {
        SpendSlice();
      }
      var rsp := Schedule(curRsp);
    }

    method SpendSlice()
      requires Valid() && current != null
      modifies current`ticksLeft
      ensures Valid() && View() == Spent(old(View()))
    {
      WfSpent(View());
      current.ticksLeft := 0;
      assert View().procs == Spent(old(View())).procs;
    }

    // ---- the state changes of proc.c ----

    /** The caller marks itself blocked or exited; it keeps the CPU until it yields. */
    method MarkSelf(st: ProcState)
      requires Valid() && Inv(View()) && current != idleProc && (st == Blocked || st == Exited)
      modifies current`state, current`ticksLeft
      ensures Valid() && current.state == st
      ensures View() == old(View()).(procs := old(View()).procs[current := old(View()).procs[current].(st := st, ticks := 0)])
    {
      ghost var m := View();
      assert ProcOk(m, current);
      OthersRunning(m, m.current);
      WfSet(m, current, m.procs[current].(st := st, ticks := 0), m.current);
      current.state := st;
      current.ticksLeft := 0;
      assert View().procs == m.procs[current := m.procs[current].(st := st, ticks := 0)];
    }

    /** Another process is taken off its ready queue, if it is on one, and put out of the running. */
    method StopOther(target: Pcb, st: ProcState)
      requires Valid() && Inv(View()) && target in table && target != idleProc && target != current
      requires st == Blocked || st == Exited
      modifies this`queues, this`current, readyHead, readyTail, table`queueNext, target`state, target`ticksLeft
      ensures Valid() && View() == Stop(old(View()), target, st)
    {
      ghost var m := View();
      assert ProcOk(m, target);
      InvStop(m, target, st);
      TakeOff(target);
      Retire(target, st);
    }

    method TakeOff(target: Pcb)
      requires Shape() && idleProc != null && target in table
      modifies this`queues, this`current, readyHead, readyTail, table`queueNext
      ensures Shape() && View() == if target.state == Ready then Dequeue(old(View()), target) else old(View())
    {
      if target.state == Ready {
        SchedRemove(target);
      }
    }

    method Retire(target: Pcb, st: ProcState)
      requires Shape() && idleProc != null && target in table
      modifies target`state, target`ticksLeft
      ensures Shape()
      ensures Procs() == old(Procs())[target := old(Procs())[target].(st := st, ticks := 0)]
    {
      target.state := st;
      target.ticksLeft := 0;
    }

    /** `proc_block`, once the pid has been found */
    method ProcBlock(target: Pcb, curRsp: nat) returns (r: int)
      requires Valid() && Inv(View()) && target in table && curRsp != 0
      modifies this`queues, this`current, readyHead, readyTail
      modifies table`queueNext, table`priority, table`state, table`ticksLeft, table`agingTicks, table`kframe
      ensures Valid() && View() == Step(old(View()), Block(target))
      ensures r == if target == idleProc || old(target.state) == Exited then -1 else 0
    {
      WfPrep'(View(), Block(target));
      if target == idleProc || target.state == Exited {
        return -1;
      }
      if target.state == Blocked {
        return 0;
      }
      if target != current {
        StopOther(target, Blocked);
        return 0;
      }
      StopSelf(Blocked, Block(target), curRsp);
      return 0;
    }

    /** The caller blocks or exits, and yields. */
    method StopSelf(st: ProcState, ghost e: Event<Pcb>, curRsp: nat)
      requires Valid() && Inv(View()) && curRsp != 0
      requires st == if BlocksSelf(View(), e) then Blocked else Exited
      requires BlocksSelf(View(), e) || EndsSelf(View(), e)
      modifies this`queues, this`current, readyHead, readyTail
      modifies table`queueNext, table`priority, table`state, table`ticksLeft, table`agingTicks, table`kframe
      ensures Valid() && View() == Step(old(View()), e)
    {
      WfPrep'(View(), e);
      MarkSelf(st);
      assert View() == Prep(old(View()), e);
      assert Spent(View()).procs == View().procs;
      ForceYield(curRsp);
    }

    /** `proc_unblock`, once the pid has been found */
    method ProcUnblock(proc: Pcb) returns (r: int)
      requires Valid() && Inv(View()) && proc in table
      modifies this`queues, this`current, readyHead, readyTail, table`queueNext
      modifies proc`priority, proc`state, proc`ticksLeft, proc`agingTicks
      ensures Valid() && View() == Step(old(View()), Unblock(proc))
      ensures r == if old(proc.state) == Blocked then 0 else -1
    {
      if proc.state == Exited {
        return -1;
      }
      if proc.state == Blocked {
        Revive(proc);
        return 0;
      }
      return -1;
    }

    method Revive(proc: Pcb)
      requires Valid() && Inv(View()) && proc in table && proc.state == Blocked
      modifies this`queues, this`current, readyHead, readyTail, table`queueNext
      modifies proc`priority, proc`state, proc`ticksLeft, proc`agingTicks
      ensures Valid() && View() == Quiet(old(View()), Unblock(proc))
    {
      UnblockEnqueues(View(), proc);
      NotQueued(proc);
      Rouse(proc);
      SchedEnqueue(proc);
    }

    lemma UnblockEnqueues(m: Machine<Pcb>, proc: Pcb)
      requires Inv(m) && proc in m.procs && m.procs[proc].st == Blocked
      ensures Quiet(m, Unblock(proc))
              == Enqueue(m.(procs := m.procs[proc := m.procs[proc].(st := Ready, ticks := TIME_SLICE_TICKS, aging := 0)]), proc)
      ensures Wf(Quiet(m, Unblock(proc)))
    {
      InvUnblock(m, proc);
    }

    method Rouse(proc: Pcb)
      requires Shape() && idleProc != null && proc in table
      modifies proc`state, proc`ticksLeft, proc`agingTicks
      ensures Shape()
      ensures Procs() == old(Procs())[proc := old(Procs())[proc].(st := Ready, ticks := TIME_SLICE_TICKS, aging := 0)]
    {
      proc.state := Ready;
      proc.ticksLeft := TIME_SLICE_TICKS;
      proc.agingTicks := 0;
    }

    method SetBase(proc: Pcb, np: int)
      requires Shape() && idleProc != null && proc in table
      modifies proc`basePriority, proc`agingTicks
      ensures Shape()
      ensures Procs() == old(Procs())[proc := old(Procs())[proc].(base := np, aging := 0)]
    {
      proc.basePriority := np;
      proc.agingTicks := 0;
    }

    method SetPriority(proc: Pcb, np: int)
      requires Shape() && idleProc != null && proc in table
      requires forall l {:trigger queues[l]} | 0 <= l < MAX_PRIOS :: proc !in queues[l]
      modifies proc`priority
      ensures Shape()
      ensures Procs() == old(Procs())[proc := old(Procs())[proc].(prio := np)]
    {
      proc.priority := np;
      forall l | 0 <= l < MAX_PRIOS ensures QueueShape(l) { assert old(QueueShape(l)); }
    }

    method SetReady(proc: Pcb)
      requires Shape() && idleProc != null && proc in table
      modifies proc`state
      ensures Shape()
      ensures Procs() == old(Procs())[proc := old(Procs())[proc].(st := Ready)]
    {
      proc.state := Ready;
    }

    /** The removal step of `proc_nice`. */
    method TakeOut(proc: Pcb) returns (wasReady: bool, wasRunning: bool)
      requires Shape() && idleProc != null && proc in table
      modifies this`queues, this`current, readyHead, readyTail, table`queueNext, proc`state
      ensures wasReady == (old(proc.state) == Ready) && wasRunning == (old(proc.state) == Running && old(current) == proc)
      ensures Shape() && View() == TakenOut(old(View()), proc)
    {
      wasRunning := proc.state == Running && proc == current;
      wasReady := proc.state == Ready;
      if wasReady {
        SchedRemove(proc);
      } else if wasRunning {
        SetReady(proc);
        if current == proc {
          SchedRemove(proc);
        }
      }
    }

    /** `proc_nice`, once the pid has been found */
    method ProcNice(proc: Pcb, newPrio: int, curRsp: nat)
      requires Valid() && Inv(View()) && proc in table && curRsp != 0 && current != idleProc
      modifies this`queues, this`current, readyHead, readyTail
      modifies table`queueNext, table`priority, table`basePriority, table`state, table`ticksLeft, table`agingTicks, table`kframe
      ensures Valid() && View() == Step(old(View()), Nice(proc, newPrio))
    {
      var np := newPrio;
      if np < MIN_PRIO {
        np := MIN_PRIO;
      } else if np > HIGHEST_PRIO {
        np := HIGHEST_PRIO;
      }
      if proc.priority == np {
        return;
      }
      ReniceTo(proc, np, curRsp);
    }

    method NiceOut(proc: Pcb, np: int) returns (wasReady: bool, wasRunning: bool)
      requires Shape() && idleProc != null && Inv(View()) && proc in table && current != idleProc
      modifies this`queues, this`current, readyHead, readyTail, table`queueNext
      modifies proc`priority, proc`basePriority, proc`state, proc`agingTicks
      ensures wasReady == (old(proc.state) == Ready) && wasRunning == (old(proc.state) == Running && old(current) == proc)
      ensures Shape() && View() == NicedOut(old(View()), proc, np)
      ensures forall l {:trigger queues[l]} | 0 <= l < MAX_PRIOS :: proc !in queues[l]
    {
      OutOfQueues(View(), proc, np);
      SetBase(proc, np);
      wasReady, wasRunning := TakeOut(proc);
      SetPriority(proc, np);
    }

    method ReniceTo(proc: Pcb, np: int, curRsp: nat)
      requires Valid() && Inv(View()) && proc in table && curRsp != 0 && current != idleProc
      requires MIN_PRIO <= np <= HIGHEST_PRIO && proc.priority != np
      modifies this`queues, this`current, readyHead, readyTail
      modifies table`queueNext, table`priority, table`basePriority, table`state, table`ticksLeft, table`agingTicks, table`kframe
      ensures Valid() && View() == Renice(old(View()), proc, np)
    {
      AfterNice(View(), proc, np);
      var wasRunning := MoveTo(proc, np);
      if wasRunning {
        YieldNobody(curRsp);
      }
    }

    method MoveTo(proc: Pcb, np: int) returns (wasRunning: bool)
      requires Shape() && idleProc != null && Inv(View()) && proc in table && current != idleProc
      requires MIN_PRIO <= np <= HIGHEST_PRIO && proc.priority != np
      modifies this`queues, this`current, readyHead, readyTail, table`queueNext
      modifies proc`priority, proc`basePriority, proc`state, proc`ticksLeft, proc`agingTicks
      ensures Shape() && View() == Renice(old(View()), proc, np)
      ensures wasRunning == (old(proc.state) == Running && old(current) == proc)
    {
      ghost var m := View();
      var wasReady;
      wasReady, wasRunning := NiceOut(proc, np);
      if wasReady || wasRunning {
        SchedEnqueue(proc);
      }
    }

    /** The forced yield of a process that is no longer `current` changes nothing. */
    method YieldNobody(curRsp: nat)
      requires Valid() && curRsp != 0 && current == null
      modifies this`queues, this`current, readyHead, readyTail
      modifies table`queueNext, table`priority, table`state, table`ticksLeft, table`agingTicks, table`kframe
      ensures Valid() && View() == old(View())
    {
      ForceYield(curRsp);
    }

    /** `proc_exit` of a process without living children, as far as the scheduler is concerned */
    method ProcExit(curRsp: nat)
      requires Valid() && Inv(View()) && curRsp != 0
      modifies this`queues, this`current, readyHead, readyTail
      modifies table`queueNext, table`priority, table`state, table`ticksLeft, table`agingTicks, table`kframe
      ensures Valid() && View() == if old(current) == idleProc then old(View()) else Step(old(View()), Exit)
    {
      if current == idleProc {
        return;
      }
      StopSelf(Exited, Exit, curRsp);
    }

    /** `proc_kill` of a process without living children, likewise */
    method ProcKill(target: Pcb, curRsp: nat) returns (r: int)
      requires Valid() && Inv(View()) && target in table && curRsp != 0
      modifies this`queues, this`current, readyHead, readyTail
      modifies table`queueNext, table`priority, table`state, table`ticksLeft, table`agingTicks, table`kframe
      ensures Valid() && View() == Step(old(View()), Kill(target))
      ensures r == if target == idleProc then -1 else 0
    {
      WfPrep'(View(), Kill(target));
      if target == idleProc {
        return -1;
      }
      if target == current {
        StopSelf(Exited, Kill(target), curRsp);
        return 0;
      }
      StopOther(target, Exited);
      return 0;
    }

    /** The end of `proc_create`: a fresh block, with its stack frame built, enters the table and the ready queues. */
    method Admit(proc: Pcb, prio: int, frame: nat)
      requires Valid() && Inv(View()) && proc !in table && |table| < MAX_PROCS && frame != 0
      modifies this`table, this`queues, this`current, readyHead, readyTail, table`queueNext, proc
      ensures Valid() && table == old(table) + {proc}
      ensures View() == Step(old(View()), Create(proc, prio))
    {
      TableRoom(proc);
      CreateEnqueues(View(), proc, prio);
      NotQueued(proc);
      FillSlot(proc, prio, frame);
      SchedEnqueue(proc);
    }

    lemma CreateEnqueues(m: Machine<Pcb>, proc: Pcb, prio: int)
      requires Inv(m) && proc !in m.procs && |m.procs| < MAX_PROCS
      ensures Step(m, Create(proc, prio)) == Enqueue(m.(procs := m.procs[proc := Fresh(prio)]), proc)
      ensures Wf(Step(m, Create(proc, prio)))
    {
      InvCreate(m, proc, prio);
    }

    lemma TableRoom(proc: Pcb)
      requires Valid() && Inv(View()) && proc !in table && |table| < MAX_PROCS
      ensures proc !in View().procs && |View().procs| < MAX_PROCS
    {
      assert View().procs.Keys == table && |View().procs| == |View().procs.Keys|;
    }

    method FillSlot(proc: Pcb, prio: int, frame: nat)
      requires Shape() && idleProc != null && Framed() && proc !in table && frame != 0
      requires forall l {:trigger queues[l]} | 0 <= l < MAX_PRIOS :: proc !in queues[l]
      modifies this`table, proc
      ensures Shape() && Framed() && table == old(table) + {proc}
      ensures Procs() == old(Procs())[proc := Fresh(prio)]
    {
      proc.priority := if prio < MIN_PRIO then MIN_PRIO else if prio > HIGHEST_PRIO then HIGHEST_PRIO else prio;
      proc.basePriority := proc.priority;
      proc.agingTicks := 0;
      proc.state := New;
      proc.ticksLeft := TIME_SLICE_TICKS;
      proc.kframe := frame;
      table := table + {proc};
      forall l | 0 <= l < MAX_PRIOS ensures QueueShape(l) { assert old(QueueShape(l)); }
    }

    method NextOf(prio: nat, node: Pcb, ghost k: nat) returns (next: Pcb?)
      requires Shape() && prio < MAX_PRIOS && k < |queues[prio]| && queues[prio][k] == node
      ensures next == if k + 1 < |queues[prio]| then queues[prio][k + 1] else null
    {
      assert QueueShape(prio);
      next := node.queueNext;
    }
  }

  /** Dealing `rest` out, in order, to those who stay and those who are lifted. */
  ghost function Sift(stay: seq<Pcb>, lift: seq<Pcb>, rest: seq<Pcb>, procs: map<Pcb, Proc>): (seq<Pcb>, seq<Pcb>)
    requires forall x | x in rest :: x in procs
    decreases |rest|
  {
    if rest == [] then (stay, lift)
    else if Promoted(procs[rest[0]]) then Sift(stay, lift + [rest[0]], rest[1..], procs)
    else Sift(stay + [rest[0]], lift, rest[1..], procs)
  }

  lemma {:induction false} SiftFilters(stay: seq<Pcb>, lift: seq<Pcb>, rest: seq<Pcb>, procs: map<Pcb, Proc>)
    requires forall x | x in rest :: x in procs
    ensures Sift(stay, lift, rest, procs) == (stay + Filter(rest, Stays(procs)), lift + Filter(rest, Rises(procs)))
    ensures stay == [] ==> Sift(stay, lift, rest, procs).0 == Filter(rest, Stays(procs))
    decreases |rest|
  {
    if rest == [] {
      assert stay + [] == stay && lift + [] == lift;
    } else {
      var x := rest[0];
      if Promoted(procs[x]) {
        SiftFilters(stay, lift + [x], rest[1..], procs);
        assert Filter(rest, Stays(procs)) == [] + Filter(rest[1..], Stays(procs)) == Filter(rest[1..], Stays(procs));
        assert lift + [x] + Filter(rest[1..], Rises(procs)) == lift + ([x] + Filter(rest[1..], Rises(procs)));
      } else {
        SiftFilters(stay + [x], lift, rest[1..], procs);
        assert Filter(rest, Rises(procs)) == [] + Filter(rest[1..], Rises(procs)) == Filter(rest[1..], Rises(procs));
        assert stay + [x] + Filter(rest[1..], Stays(procs)) == stay + ([x] + Filter(rest[1..], Stays(procs)));
      }
    }
  }

  ghost predicate ReadyQueued(procs: map<Pcb, Proc>, qs: seq<seq<Pcb>>, l: nat) {
    && l < |qs| && NoDup(qs[l])
    && (forall j | 0 <= j < |qs[l]| ::
          qs[l][j] in procs && procs[qs[l][j]].st == Ready && procs[qs[l][j]].prio == l && 0 <= procs[qs[l][j]].aging <= AGING_THRESHOLD)
    && (forall x | x in procs && procs[x].st == Ready && procs[x].prio == l :: x in qs[l])
  }

  /** Table and queues agree on who is ready, and where. */
  ghost predicate AllReadyQueued(procs: map<Pcb, Proc>, qs: seq<seq<Pcb>>) {
    && |qs| == MAX_PRIOS
    && (forall l {:trigger ReadyQueued(procs, qs, l)} | 0 <= l < MAX_PRIOS :: ReadyQueued(procs, qs, l))
    && (forall x | x in procs && procs[x].st == Ready :: 0 <= procs[x].prio < MAX_PRIOS)
  }

  ghost function AgedQueues(procs: map<Pcb, Proc>, qs: seq<seq<Pcb>>): seq<seq<Pcb>>
    requires |qs| == MAX_PRIOS
  {
    seq(MAX_PRIOS, l requires 0 <= l < MAX_PRIOS => AgedQueue(procs, qs, l))
  }

  /** The chains and the side list after the pass has gone through the levels below `l`. */
  ghost function Pass(procs: map<Pcb, Proc>, qs: seq<seq<Pcb>>, l: nat): (r: (seq<seq<Pcb>>, seq<Pcb>))
    requires AllReadyQueued(procs, qs) && l <= MAX_PRIOS
    ensures |r.0| == MAX_PRIOS
  {
    if l == 0 then (qs, [])
    else
      var (chains, prom) := Pass(procs, qs, l - 1);
      assert ReadyQueued(procs, qs, l - 1);
      var (kept, prom') := Sift([], prom, qs[l - 1], procs);
      (chains[l - 1 := kept], prom')
  }

  /** Putting the side list back, each block in the queue of its new priority. */
  ghost function PushAll(procs: map<Pcb, Proc>, chains: seq<seq<Pcb>>, rest: seq<Pcb>): seq<seq<Pcb>>
    requires |chains| == MAX_PRIOS && forall x | x in rest :: x in procs && 0 <= AgeProc(procs[x]).prio < MAX_PRIOS
    decreases |rest|
  {
    if rest == [] then chains
    else PushAll(procs, PushTo(chains, rest[0], AgeProc(procs[rest[0]]).prio), rest[1..])
  }

  ghost function PushTo(qs: seq<seq<Pcb>>, x: Pcb, l: int): seq<seq<Pcb>>
    requires 0 <= l < |qs|
  {
    qs[l := qs[l] + [x]]
  }

  ghost function First(q: seq<Pcb>): Pcb? { if q == [] then null else q[0] }

  ghost function Last(q: seq<Pcb>): Pcb? { if q == [] then null else q[|q| - 1] }

  /** A level of the pass leaves those who stay, and adds those who are lifted to the side list. */
  lemma {:induction false} PushSame(procs: map<Pcb, Proc>, chains: seq<seq<Pcb>>, rest: seq<Pcb>, more: seq<Pcb>, l: int)
    requires |chains| == MAX_PRIOS && 0 <= l < MAX_PRIOS
    requires forall x | x in rest :: x in procs && AgeProc(procs[x]).prio == l
    requires forall x | x in more :: x in procs && 0 <= AgeProc(procs[x]).prio < MAX_PRIOS
    ensures PushAll(procs, chains, rest + more) == PushAll(procs, chains[l := chains[l] + rest], more)
    decreases |rest|
  {
    if rest == [] {
      assert rest + more == more && chains[l := chains[l] + rest] == chains by { assert chains[l] + rest == chains[l]; }
    } else {
      var next := PushTo(chains, rest[0], l);
      PushSame(procs, next, rest[1..], more, l);
      assert (rest + more)[0] == rest[0] && (rest + more)[1..] == rest[1..] + more;
      assert next[l := next[l] + rest[1..]] == chains[l := chains[l] + rest] by {
        assert chains[l] + [rest[0]] + rest[1..] == chains[l] + rest;
      }
    }
  }

  lemma QueuedIn(procs: map<Pcb, Proc>, qs: seq<seq<Pcb>>, l: nat)
    requires AllReadyQueued(procs, qs) && l < MAX_PRIOS
    ensures forall x | x in qs[l] :: x in procs && procs[x].st == Ready && procs[x].prio == l
  {
    assert ReadyQueued(procs, qs, l);
    forall x | x in qs[l] ensures x in procs && procs[x].st == Ready && procs[x].prio == l { var j :| 0 <= j < |qs[l]| && qs[l][j] == x; }
  }

  lemma LiftedOf(procs: map<Pcb, Proc>, qs: seq<seq<Pcb>>, l: nat)
    requires AllReadyQueued(procs, qs) && l < MAX_PRIOS
    ensures forall x | x in Filter(qs[l], Rises(procs)) ::
              x in procs && procs[x].st == Ready && AgeProc(procs[x]).prio == l + 1 < MAX_PRIOS
    ensures l == HIGHEST_PRIO ==> Filter(qs[l], Rises(procs)) == []
  {
    assert ReadyQueued(procs, qs, l);
    forall x | x in Filter(qs[l], Rises(procs))
      ensures x in procs && procs[x].st == Ready && AgeProc(procs[x]).prio == l + 1 < MAX_PRIOS {
      FilterIn(qs[l], Rises(procs), x);
      var j :| 0 <= j < |qs[l]| && qs[l][j] == x;
    }
    if l == HIGHEST_PRIO {
      QueuedIn(procs, qs, l);
      FilterNone(qs[l], Rises(procs));
    }
  }

  /** The whole pass, then the re-insertion, is the specification of aging. */
  lemma PassFilters(procs: map<Pcb, Proc>, qs: seq<seq<Pcb>>)
    requires AllReadyQueued(procs, qs)
    ensures var (chains, prom) := Pass(procs, qs, MAX_PRIOS);
            && (forall x | x in prom :: x in procs && procs[x].st == Ready && 0 <= AgeProc(procs[x]).prio < MAX_PRIOS)
            && PushAll(procs, chains, prom) == AgedQueues(procs, qs)
  {
    PassParts(procs, qs);
    PartsMembers(procs, qs);
    PushParts(procs, qs);
  }

  lemma PartsMembers(procs: map<Pcb, Proc>, qs: seq<seq<Pcb>>)
    requires AllReadyQueued(procs, qs)
    ensures var (s, r0, r1, r2) := Parts(procs, qs);
            forall x | x in r0 + (r1 + (r2 + [])) :: x in procs && procs[x].st == Ready && 0 <= AgeProc(procs[x]).prio < MAX_PRIOS
  {
    LiftedOf(procs, qs, 0); LiftedOf(procs, qs, 1); LiftedOf(procs, qs, 2);
  }

  lemma PushParts(procs: map<Pcb, Proc>, qs: seq<seq<Pcb>>)
    requires AllReadyQueued(procs, qs)
    requires var (s, r0, r1, r2) := Parts(procs, qs);
             forall x | x in r0 + (r1 + (r2 + [])) :: x in procs && procs[x].st == Ready && 0 <= AgeProc(procs[x]).prio < MAX_PRIOS
    ensures var (s, r0, r1, r2) := Parts(procs, qs);
            PushAll(procs, s, r0 + (r1 + (r2 + []))) == AgedQueues(procs, qs)
  {
    var (s, r0, r1, r2) := Parts(procs, qs);
    LiftedOf(procs, qs, 0); LiftedOf(procs, qs, 1); LiftedOf(procs, qs, 2);
    var s1 := s[1 := s[1] + r0];
    var s2 := s1[2 := s1[2] + r1];
    var s3 := s2[3 := s2[3] + r2];
    PushSame(procs, s, r0, r1 + (r2 + []), 1);
    PushSame(procs, s1, r1, r2 + [], 2);
    PushSame(procs, s2, r2, [], 3);
    PartsAged(procs, qs);
  }

  lemma PartsAged(procs: map<Pcb, Proc>, qs: seq<seq<Pcb>>)
    requires |qs| == MAX_PRIOS
    ensures var (s, r0, r1, r2) := Parts(procs, qs);
            AgedQueues(procs, qs) == s[1 := s[1] + r0][2 := s[2] + r1][3 := s[3] + r2]
  {
    var (s, r0, r1, r2) := Parts(procs, qs);
    var a := AgedQueues(procs, qs);
    assert a[0] == s[0] + [] == s[0] && a[1] == s[1] + r0 && a[2] == s[2] + r1 && a[3] == s[3] + r2;
  }

  ghost function Parts(procs: map<Pcb, Proc>, qs: seq<seq<Pcb>>): (r: (seq<seq<Pcb>>, seq<Pcb>, seq<Pcb>, seq<Pcb>))
    requires |qs| == MAX_PRIOS
  {
    ([Filter(qs[0], Stays(procs)), Filter(qs[1], Stays(procs)), Filter(qs[2], Stays(procs)), Filter(qs[3], Stays(procs))],
     Filter(qs[0], Rises(procs)), Filter(qs[1], Rises(procs)), Filter(qs[2], Rises(procs)))
  }

  lemma PassParts(procs: map<Pcb, Proc>, qs: seq<seq<Pcb>>)
    requires AllReadyQueued(procs, qs)
    ensures var (s, r0, r1, r2) := Parts(procs, qs); Pass(procs, qs, MAX_PRIOS) == (s, r0 + (r1 + (r2 + [])))
  {
    var (s, r0, r1, r2) := Parts(procs, qs);
    PassHalf(procs, qs);
    PassOne(procs, qs, 2, qs[0 := s[0]][1 := s[1]], r0 + r1);
    PassOne(procs, qs, 3, qs[0 := s[0]][1 := s[1]][2 := s[2]], r0 + r1 + r2);
    LiftedOf(procs, qs, 3);
    assert qs[0 := s[0]][1 := s[1]][2 := s[2]][3 := s[3]] == s;
    assert r0 + r1 + r2 + [] == r0 + (r1 + (r2 + []));
  }

  lemma PassHalf(procs: map<Pcb, Proc>, qs: seq<seq<Pcb>>)
    requires AllReadyQueued(procs, qs)
    ensures var (s, r0, r1, r2) := Parts(procs, qs); Pass(procs, qs, 2) == (qs[0 := s[0]][1 := s[1]], r0 + r1)
  {
    var (s, r0, r1, r2) := Parts(procs, qs);
    PassOne(procs, qs, 0, qs, []);
    PassOne(procs, qs, 1, qs[0 := s[0]], r0);
  }

  lemma PassOne(procs: map<Pcb, Proc>, qs: seq<seq<Pcb>>, l: nat, chains: seq<seq<Pcb>>, prom: seq<Pcb>)
    requires AllReadyQueued(procs, qs) && l < MAX_PRIOS && Pass(procs, qs, l) == (chains, prom)
    ensures Pass(procs, qs, l + 1) == (chains[l := Filter(qs[l], Stays(procs))], prom + Filter(qs[l], Rises(procs)))
    ensures prom == [] ==> Pass(procs, qs, l + 1) == (chains[l := Filter(qs[l], Stays(procs))], Filter(qs[l], Rises(procs)))
  {
    QueuedIn(procs, qs, l);
    SiftFilters([], prom, qs[l], procs);
    assert prom == [] ==> prom + Filter(qs[l], Rises(procs)) == Filter(qs[l], Rises(procs));
  }
}
