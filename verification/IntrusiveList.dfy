/** The intrusive list both back ends keep: every element stores the address of the pointer that
    points at it (libobs-opengl/gl-shader.c:646-650, 681-684; libobs-d3d11/d3d11-subsystem.cpp:50-68). */
module IntrusiveList {
  import opened Lists

  /** prev_next: nothing, the list's head pointer, or another element's next pointer. */
  datatype Link<T> = Unlinked | AtHead | AtNode(node: Node<T>)

  class Node<T> {
    const item: T
    var next: Node?<T>
    var prevNext: Link<T>

    constructor (item: T)
      ensures this.item == item && next == null && prevNext == Unlinked
    {
      this.item := item;
      next, prevNext := null, Unlinked;
    }
  }

  /** What the element at index i has to store, as an element of the list nodes. */
  ghost function NextAt<T>(nodes: seq<Node<T>>, i: int): Node?<T>
    requires 0 <= i < |nodes|
  {
    if i + 1 < |nodes| then nodes[i + 1] else null
  }

  ghost function LinkAt<T>(nodes: seq<Node<T>>, i: int): Link<T>
    requires 0 <= i < |nodes|
  {
    if i == 0 then AtHead else AtNode(nodes[i - 1])
  }

  ghost function NodeSet<T>(nodes: seq<Node<T>>): set<Node<T>> {
    set n | n in nodes
  }

  lemma {:induction false} FewerNodes<T>(nodes: seq<Node<T>>, i: nat)
    requires i < |nodes|
    ensures NodeSet(nodes[..i] + nodes[i + 1..]) <= NodeSet(nodes)
  {
    forall n | n in nodes[..i] + nodes[i + 1..]
      ensures n in nodes
    {
      assert n in nodes[..i] || n in nodes[i + 1..];
    }
  }

  class List<T> {
    var first: Node?<T>
    ghost var nodes: seq<Node<T>>

    ghost predicate Valid()
      reads this, nodes
    {
      && Distinct(nodes)
      && first == (if nodes == [] then null else nodes[0])
      && (forall i {:trigger nodes[i].next} :: 0 <= i < |nodes| ==> nodes[i].next == NextAt(nodes, i))
      && (forall i {:trigger nodes[i].prevNext} :: 0 <= i < |nodes| ==> nodes[i].prevNext == LinkAt(nodes, i))
    }

    ghost function Elements(): set<Node<T>>
      reads this
    {
      NodeSet(nodes)
    }

    constructor ()
      ensures Valid() && nodes == []
    {
      first, nodes := null, [];
    }

    /** Links a new element at the front. */
    method LinkFront(n: Node<T>)
      requires Valid() && n !in nodes
      modifies this, nodes, n
      ensures Valid() && nodes == [n] + old(nodes)
    {
      ghost var was := nodes;
      n.next := first;
      n.prevNext := AtHead;
      first := n;
      if n.next != null {
        n.next.prevNext := AtNode(n);
      }
      nodes := [n] + nodes;
      forall i | 0 <= i < |nodes|
        ensures nodes[i].next == NextAt(nodes, i) && nodes[i].prevNext == LinkAt(nodes, i)
      {
        if i > 0 {
          assert nodes[i] == was[i - 1];
          assert old(was[i - 1].next) == NextAt(was, i - 1) && old(was[i - 1].prevNext) == LinkAt(was, i - 1);
        }
      }
    }

    lemma {:induction false} Stored(i: nat)
      requires Valid() && i < |nodes|
      ensures nodes[i].next == NextAt(nodes, i) && nodes[i].prevNext == LinkAt(nodes, i)
    {
    }

    /** Takes n, element number i, out of the list. */
    method Unlink(n: Node<T>, ghost i: nat)
      requires Valid() && i < |nodes| && nodes[i] == n
      modifies this, nodes
      ensures Valid() && nodes == old(nodes)[..i] + old(nodes)[i + 1..]
      ensures n.next == old(n.next)
    {
      Stored(i);
      ghost var was := nodes;
      if n.next != null {
        n.next.prevNext := n.prevNext;
      }
      match n.prevNext {
        case Unlinked =>
        case AtHead => first := n.next;
        case AtNode(p) => p.next := n.next;
      }
      assert first == if i == 0 then NextAt(was, i) else was[0];
      nodes := nodes[..i] + nodes[i + 1..];
      Spliced(was, i);
    }

    /** The list's shape once the two pointers around element i point past it. */
    lemma {:induction false} Spliced(was: seq<Node<T>>, i: nat)
      requires i < |was| && nodes == was[..i] + was[i + 1..]
      requires Distinct(was)
      requires first == if i == 0 then NextAt(was, i) else was[0]
      requires forall j {:trigger was[j].next} :: 0 <= j < |was| && j != i ==>
                 was[j].next == NextAt(was, if j == i - 1 then i else j)
      requires forall j {:trigger was[j].prevNext} :: 0 <= j < |was| && j != i ==>
                 was[j].prevNext == LinkAt(was, if j == i + 1 then i else j)
      ensures Valid()
    {
      forall j | 0 <= j < |nodes|
        ensures nodes[j].next == NextAt(nodes, j) && nodes[j].prevNext == LinkAt(nodes, j)
      {
        var o := Origin(was, i, j);
        assert was[o].next == nodes[j].next && was[o].prevNext == nodes[j].prevNext;
      }
      DropDistinct(was, i);
    }
  }

  /** Element j of the list without element i, and its neighbours, in the list with it. */
  lemma {:induction false} Origin<T>(was: seq<Node<T>>, i: nat, j: nat) returns (o: nat)
    requires i < |was| && j < |was| - 1
    ensures o < |was| && o != i
    ensures var less := was[..i] + was[i + 1..];
            && less[j] == was[o]
            && NextAt(less, j) == NextAt(was, if o == i - 1 then i else o)
            && LinkAt(less, j) == LinkAt(was, if o == i + 1 then i else o)
  {
    o := if j < i then j else j + 1;
  }
}
