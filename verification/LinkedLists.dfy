/** std::list: a ring of nodes through an end node, with constant-time removal by node. */
module LinkedLists {

  class Node<V> {
    const val: V
    var prev: Node<V>
    var next: Node<V>

    constructor (val: V)
      ensures this.val == val && prev == this && next == this
    {
      this.val := val;
      prev, next := this, this;
    }
  }

  ghost predicate Distinct<V>(nodes: seq<Node<V>>) {
    forall i, j :: 0 <= i < j < |nodes| ==> nodes[i] != nodes[j]
  }

  /** The node at position `i` of the ring, the end node being at both ends. */
  ghost function Around<V>(nodes: seq<Node<V>>, end: Node<V>, i: int): Node<V> {
    if 0 <= i < |nodes| then nodes[i] else end
  }

  class List<V> {
    /** The node past the last one; its value is never looked at. */
    const end: Node<V>
    ghost var nodes: seq<Node<V>>
    /** The list and the nodes it has had. */
    ghost var Repr: set<object>

    ghost predicate Valid()
      reads this, Repr
    {
      && this in Repr && end in Repr && end !in nodes
      && (forall i :: 0 <= i < |nodes| ==> nodes[i] in Repr)
      && Distinct(nodes)
      && (forall i {:trigger nodes[i].prev} :: 0 <= i < |nodes| ==> nodes[i].prev == Around(nodes, end, i - 1))
      && (forall i {:trigger nodes[i].next} :: 0 <= i < |nodes| ==> nodes[i].next == Around(nodes, end, i + 1))
      && end.next == Around(nodes, end, 0) && end.prev == Around(nodes, end, |nodes| - 1)
    }

    constructor (any: V)
      ensures Valid() && nodes == [] && fresh(Repr)
    {
      end := new Node(any);
      nodes := [];
      Repr := {this, end};
    }

    method Empty() returns (b: bool)
      requires Valid()
      ensures b <==> nodes == []
    {
      b := end.next == end;
    }

    method First() returns (n: Node<V>)
      requires Valid() && nodes != []
      ensures n == nodes[0]
    {
      n := end.next;
    }

    method PushBack(val: V) returns (n: Node<V>)
      requires Valid()
      modifies Repr
      ensures Valid() && fresh(Repr - old(Repr)) && fresh(n)
      ensures n.val == val && nodes == old(nodes) + [n]
    {
      n := new Node(val);
      n.prev, n.next := end.prev, end;
      n.prev.next := n;
      end.prev := n;
      nodes := nodes + [n];
      Repr := Repr + {n};
    }

    method Erase(n: Node<V>) returns (ghost k: nat)
      requires Valid() && n in nodes
      modifies Repr
      ensures Valid() && Repr == old(Repr)
      ensures k < |old(nodes)| && old(nodes)[k] == n && nodes == old(nodes)[..k] + old(nodes)[k + 1..]
    {
      k :| 0 <= k < |nodes| && nodes[k] == n;
      EraseAt(n, k);
    }

    method EraseAt(n: Node<V>, ghost k: nat)
      requires Valid() && k < |nodes| && nodes[k] == n
      modifies Repr
      ensures Valid() && Repr == old(Repr) && nodes == old(nodes[..k] + nodes[k + 1..])
    {
      ghost var was, rest := nodes, nodes[..k] + nodes[k + 1..];
      Spliced(was, k, rest);
      n.prev.next := n.next;
      n.next.prev := n.prev;
      nodes := rest;
      forall i | 0 <= i < |nodes|
        ensures nodes[i].prev == Around(nodes, end, i - 1) && nodes[i].next == Around(nodes, end, i + 1)
      {
        assert nodes[i] == was[if i < k then i else i + 1];
      }
    }
  }

  lemma Spliced<V>(nodes: seq<Node<V>>, k: nat, rest: seq<Node<V>>)
    requires k < |nodes| && Distinct(nodes) && rest == nodes[..k] + nodes[k + 1..]
    ensures |rest| == |nodes| - 1 && Distinct(rest)
    ensures forall i :: 0 <= i < |rest| ==> rest[i] == nodes[if i < k then i else i + 1]
  {
    forall i | 0 <= i < |rest| ensures rest[i] == nodes[if i < k then i else i + 1] {
    }
  }
}
