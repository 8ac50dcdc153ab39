/** Singly linked chains of nodes, the kernel's way to keep queues. */
module Links {
  import opened Lists

  class Node<T> {
    const value: T
    var next: Node?<T>

    constructor (value: T)
      ensures this.value == value && next == null
    {
      this.value, next := value, null;
    }
  }

  ghost function At<T>(q: seq<Node<T>>, i: int): Node?<T> {
    if 0 <= i < |q| then q[i] else null
  }

  /** `q` is the chain of nodes from `head` to `tail`. */
  ghost predicate Linked<T>(q: seq<Node<T>>, head: Node?<T>, tail: Node?<T>)
    reads q`next
  {
    && NoDup(q) && head == At(q, 0) && tail == At(q, |q| - 1)
    && (forall i | 0 <= i < |q| - 1 :: q[i].next == q[i + 1])
    && (tail != null ==> tail.next == null)
  }

  /** A chain in which the neighbours of `q[k]` are joined, and the ends moved, holds `q` without it. */
  lemma CutLinked<T>(q: seq<Node<T>>, k: nat, head: Node?<T>, tail: Node?<T>)
    requires k < |q| && NoDup(q)
    requires forall i | 0 <= i < |q| - 1 && i != k && i != k - 1 :: q[i].next == q[i + 1]
    requires k < |q| - 1 ==> q[|q| - 1].next == null
    requires k > 0 ==> q[k - 1].next == At(q, k + 1)
    requires head == if k > 0 then q[0] else At(q, 1)
    requires tail == if k < |q| - 1 then q[|q| - 1] else At(q, k - 1)
    ensures Linked(Cut(q, k), head, tail)
  {
    var r := Cut(q, k);
    assert forall i | 0 <= i < |r| :: r[i] == if i < k then q[i] else q[i + 1];
    forall i | 0 <= i < |r| - 1 ensures r[i].next == r[i + 1] {
      if i < k { assert i != k - 1 ==> q[i].next == q[i + 1]; } else { assert q[i + 1].next == q[i + 2]; }
    }
  }

  ghost function Values<T>(q: seq<Node<T>>): (r: seq<T>)
    ensures |r| == |q| && forall i | 0 <= i < |q| :: r[i] == q[i].value
  {
    seq(|q|, i requires 0 <= i < |q| => q[i].value)
  }

  lemma ValuesCut<T>(q: seq<Node<T>>, k: nat)
    requires k < |q|
    ensures Values(Cut(q, k)) == Cut(Values(q), k)
  {
  }
}
