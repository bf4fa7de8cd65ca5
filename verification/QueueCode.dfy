/** SimpleQueue: the doubly linked list behind the ready queue and every waiting queue, against the
    sequence that the models of the scheduler use for it. */
module QueueCode {

  class Node<T> {
    var next: Node?<T>
    var prev: Node?<T>
    var value: T

    constructor (v: T, prev: Node?<T>)
      ensures value == v && this.prev == prev && next == null
    {
      value, this.prev, next := v, prev, null;
    }
  }

  class SimpleQueue<T> {
    var first: Node?<T>
    var last: Node?<T>
    /** The nodes in the order of the list. */
    ghost var nodes: seq<Node<T>>

    /** What the links of node i must be. */
    ghost predicate LinkedAt(i: nat)
      reads this, nodes
      requires i < |nodes|
    {
      && nodes[i].prev == (if i == 0 then null else nodes[i - 1])
      && nodes[i].next == (if i == |nodes| - 1 then null else nodes[i + 1])
    }

    ghost predicate Valid()
      reads this, nodes
    {
      && first == (if nodes == [] then null else nodes[0])
      && last == (if nodes == [] then null else nodes[|nodes| - 1])
      && (forall i, j {:trigger nodes[i], nodes[j]} :: 0 <= i < j < |nodes| ==> nodes[i] != nodes[j])
      && (forall i: nat {:trigger LinkedAt(i)} :: i < |nodes| ==> LinkedAt(i))
    }

    ghost function Contents(): seq<T>
      reads this, nodes
    {
      seq(|nodes|, i requires 0 <= i < |nodes| reads this, nodes => nodes[i].value)
    }

    constructor ()
      ensures Valid() && Contents() == []
    {
      first, last, nodes := null, null, [];
    }

    method AddTail(v: T)
      requires Valid()
      modifies this, nodes
      ensures Valid() && Contents() == old(Contents()) + [v]
      ensures fresh(nodes[|nodes| - 1]) && nodes[..|nodes| - 1] == old(nodes)
    {
      var n := new Node(v, last);
      ghost var before := nodes;
      assert before != [] ==> LinkedAt(|before| - 1);
      assert forall i: nat {:trigger before[i]} :: i < |before| ==> LinkedAt(i);
      if last != null {
        last.next := n;
      }
      last := n;
      if first == null {
        first := n;
      }
      nodes := nodes + [n];
      forall i: nat {:trigger LinkedAt(i)} | i < |nodes|
        ensures LinkedAt(i)
      {
        assert i < |before| ==> nodes[i] == before[i];
      }
    }

    method IsEmpty() returns (empty: bool)
      requires Valid()
      ensures empty <==> Contents() == []
    {
      empty := first == null;
    }

    /** The caller makes sure that the queue is not empty. */
    method RemoveHead() returns (v: T)
      requires Valid() && Contents() != []
      modifies this, nodes
      ensures Valid() && old(Contents()) == [v] + Contents() && nodes == old(nodes)[1..]
    {
      assert LinkedAt(0);
      ghost var before := nodes;
      assert forall i: nat {:trigger before[i]} :: i < |before| ==> LinkedAt(i);
      var p := first;
      first := p.next;
      if first == null {
        last := null;
      } else {
        first.prev := null;
      }
      v := p.value;
      nodes := nodes[1..];
      forall i: nat {:trigger LinkedAt(i)} | i < |nodes|
        ensures LinkedAt(i)
      {
        assert nodes[i] == before[i + 1];
      }
    }
  }
}
