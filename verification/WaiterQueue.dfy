/** The broker's queue of blocked operations: a singly linked list with head and tail pointers. */
module WaiterQueue {
  import opened BrokerModel

  class WaiterNode {
    var entry: Waiter
    var next: WaiterNode?

    constructor (entry: Waiter)
      ensures this.entry == entry && next == null
    {
      this.entry := entry;
      next := null;
    }
  }

  predicate Distinct<T(==)>(s: seq<T>) {
    forall i, j :: 0 <= i < j < |s| ==> s[i] != s[j]
  }

  lemma WithoutDistinct<T>(s: seq<T>, i: nat)
    requires i < |s| && Distinct(s)
    ensures Distinct(Without(s, i))
  {
    var r := Without(s, i);
    assert forall j :: 0 <= j < |r| ==> r[j] == s[if j < i then j else j + 1];
  }

  lemma AppendDistinct<T>(s: seq<T>, x: T)
    requires Distinct(s) && x !in s
    ensures Distinct(s + [x])
  {
  }

  ghost function Nth(s: seq<WaiterNode>, i: int): WaiterNode? {
    if 0 <= i < |s| then s[i] else null
  }

  lemma WithoutNth(s: seq<WaiterNode>, i: nat)
    requires i < |s|
    ensures |Without(s, i)| == |s| - 1
    ensures forall j :: Nth(Without(s, i), j) == Nth(s, if j < i then j else j + 1)
    ensures forall j :: 0 <= j < |s| - 1 ==> Without(s, i)[j] == s[if j < i then j else j + 1]
  {
  }

  lemma Apart(s: seq<WaiterNode>)
    requires Distinct(s)
    ensures Nth(s, -1) == null
    ensures forall i, j :: 0 <= i < |s| && 0 <= j < |s| && Nth(s, i) == Nth(s, j) ==> i == j
    ensures forall i {:trigger s[i]} :: 0 <= i < |s| ==> Nth(s, i) == s[i]
  {
  }

  class WaiterQueue {
    var head: WaiterNode?
    var tail: WaiterNode?
    /** The nodes in queue order. */
    ghost var nodes: seq<WaiterNode>

    /** The pointers spell out the sequence: head first, each `next` its successor, tail last. */
    ghost predicate Valid()
      reads this, nodes
    {
      && Distinct(nodes) && head == At(0) && tail == At(|nodes| - 1)
      && forall i :: 0 <= i < |nodes| ==> nodes[i].next == At(i + 1)
    }

    ghost function At(i: int): WaiterNode?
      reads this
    {
      if 0 <= i < |nodes| then nodes[i] else null
    }

    constructor ()
      ensures Valid() && nodes == []
    {
      head, tail, nodes := null, null, [];
    }

    /** Appends. */
    method Enqueue(node: WaiterNode)
      requires Valid() && node !in nodes
      modifies this, node`next, if tail == null then {} else {tail}
      ensures Valid() && nodes == old(nodes) + [node]
      ensures forall n :: n in nodes ==> n.entry == old(n.entry)
    {
      node.next := null;
      if tail == null {
        head := node;
      } else {
        tail.next := node;
      }
      tail := node;
      ghost var was := nodes;
      nodes := nodes + [node];
      AppendDistinct(was, node);
      forall j | 0 <= j < |nodes|
        ensures nodes[j].next == At(j + 1)
      {
        if j < |was| {
          assert nodes[j] == was[j];
          if j + 1 < |was| { assert was[j] != was[|was| - 1]; }
        }
      }
    }

    /** Changes what a queued waiter records; the links stay. */
    method Note(node: WaiterNode, entry: Waiter)
      requires Valid()
      modifies node`entry
      ensures Valid() && node.entry == entry
    {
      node.entry := entry;
      assert forall i :: 0 <= i < |nodes| ==> nodes[i].next == old(nodes[i].next) == At(i + 1);
    }

    /** Walks to the node, remembering the one before it. */
    method Find(node: WaiterNode) returns (previous: WaiterNode?, current: WaiterNode?, ghost i: nat)
      requires Valid()
      ensures i <= |nodes| && current == At(i) && previous == At(i - 1)
      ensures forall j :: 0 <= j < i ==> nodes[j] != node
      ensures current != null ==> current == node
    {
      previous, current, i := null, head, 0;
      while current != null && current != node
        invariant i <= |nodes| && current == At(i) && previous == At(i - 1)
        invariant forall j :: 0 <= j < i ==> nodes[j] != node
        decreases |nodes| - i
      {
        previous := current;
        current := current.next;
        i := i + 1;
      }
    }

    /** Links the predecessor past a node found at position `i`. */
    method Unlink(previous: WaiterNode?, current: WaiterNode, ghost i: nat)
      requires Valid() && i < |nodes| && current == nodes[i] && previous == At(i - 1)
      modifies this, if previous == null then {} else {previous}
      ensures Valid() && nodes == Without(old(nodes), i) && (previous != null ==> previous.entry == old(previous.entry))
    {
      hide Distinct, Without, Nth, At;
      ghost var was := nodes;
      Neighbours(i);
      AtIsNth();
      Apart(was);
      if previous == null {
        head := current.next;
      } else {
        previous.next := current.next;
      }
      if tail == current { tail := previous; }
      nodes := Without(nodes, i);
      WithoutDistinct(was, i);
      AtIsNth();
      WithoutNth(was, i);
    }

    lemma Neighbours(i: nat)
      requires Valid() && i < |nodes|
      ensures At(i - 1) == (if i == 0 then null else nodes[i - 1]) && tail == nodes[|nodes| - 1]
    {
    }

    lemma AtIsNth()
      ensures forall j :: At(j) == Nth(nodes, j)
    {
    }

    /** Takes out exactly that node, wherever it is, and does nothing if it is not queued. */
    method Remove(node: WaiterNode)
      requires Valid()
      modifies this, nodes
      ensures Valid()
      ensures node !in old(nodes) ==> nodes == old(nodes)
      ensures forall i :: 0 <= i < |old(nodes)| && old(nodes)[i] == node ==> nodes == Without(old(nodes), i)
      ensures forall n :: n in old(nodes) ==> n.entry == old(n.entry)
    {
      ghost var i: nat;
      var previous, current;
      previous, current, i := Find(node);
      if current != null { Unlink(previous, current, i); }
    }

    /** Whether no earlier waiter is queued for the node's set. */
    method IsFirstForSet(node: WaiterNode) returns (first: bool)
      requires Valid()
      ensures first ==> node in nodes
      ensures forall i :: 0 <= i < |nodes| && nodes[i] == node ==>
                (first <==> forall j :: 0 <= j < i ==> nodes[j].entry.semid != node.entry.semid)
    {
      var current := head;
      ghost var i := 0;
      while current != null
        invariant 0 <= i <= |nodes| && current == At(i)
        invariant forall j :: 0 <= j < i ==> nodes[j] != node && nodes[j].entry.semid != node.entry.semid
        decreases |nodes| - i
      {
        if current == node { return true; }
        if current.entry.semid == node.entry.semid {
          return false;
        }
        current := current.next;
        i := i + 1;
      }
      first := false;
    }
  }
}
