/**
 The kernel's circular doubly linked list as the DVD driver uses it: the list head and
 the entries are nodes of the same kind, and an empty list is a head linked to itself.
 */
module RingList {

  class Node {
    var next: Node?
    var prev: Node?
    // the entry's number; unused in a head
    var tag: int
    ghost var freed: bool
  }

  /** a and b are neighbours. */
  ghost predicate Linked(a: Node, b: Node)
    reads a, b
  {
    a.next == b && b.prev == a
  }

  ghost predicate Distinct(head: Node, nodes: seq<Node>) {
    && head !in nodes
    && (forall i, j :: 0 <= i < j < |nodes| ==> nodes[i] != nodes[j])
  }

  /** The k-th node from the first entry on, the head coming after the last entry. */
  function At(head: Node, nodes: seq<Node>, k: nat): Node
    requires k <= |nodes|
  {
    if k == |nodes| then head else nodes[k]
  }

  /** From entry j on, the entries and the head form a ring, and none of them is freed. */
  ghost predicate RingFrom(head: Node, nodes: seq<Node>, j: nat)
    requires j <= |nodes|
    reads head, nodes
  {
    && Linked(head, At(head, nodes, j))
    && !head.freed
    && (forall k :: j <= k < |nodes| ==> Linked(nodes[k], At(head, nodes, k + 1)) && !nodes[k].freed)
  }

  ghost predicate Ring(head: Node, nodes: seq<Node>)
    reads head, nodes
  {
    Distinct(head, nodes) && RingFrom(head, nodes, 0)
  }

  ghost predicate Gone(n: Node)
    reads n
  {
    n.freed && n.next == null && n.prev == null
  }

  /** Following next from a freed node is what must never happen. */
  method Next(n: Node) returns (m: Node)
    requires !n.freed && n.next != null
    ensures m == n.next
  {
    m := n.next;
  }

  /** Unlink n from its neighbours; its own links are poisoned, here to null. */
  method ListDel(n: Node, ghost before: Node, ghost after: Node)
    requires !n.freed && n.prev == before && n.next == after && n != before && n != after
    requires !before.freed && !after.freed
    modifies n`next, n`prev, before`next, after`prev
    ensures Linked(before, after) && n.next == null && n.prev == null
  {
    n.next.prev, n.prev.next := n.prev, n.next;
    n.next, n.prev := null, null;
  }

  /** Freeing a node twice is ruled out by the precondition. */
  method Free(n: Node)
    requires !n.freed
    modifies n`freed
    ensures n.freed
  {
    n.freed := true;
  }

  /** Unlink and free the first entry left: the others keep forming a ring. */
  method Drop(list: Node, v2: Node, ghost nodes: seq<Node>, ghost j: nat)
    requires Distinct(list, nodes) && j < |nodes| && v2 == nodes[j] && RingFrom(list, nodes, j)
    modifies v2, list`next, At(list, nodes, j + 1)`prev
    ensures RingFrom(list, nodes, j + 1) && Gone(v2)
  {
    ListDel(v2, list, At(list, nodes, j + 1));
    Free(v2);
    assert list.next == At(list, nodes, j + 1);
    forall k | j + 1 <= k < |nodes|
      ensures Linked(nodes[k], At(list, nodes, k + 1)) && !nodes[k].freed
    {
      assert old(Linked(nodes[k], At(list, nodes, k + 1)));
    }
  }

  /** Free every entry; order lists the nodes freed, one by one. */
  method FreeAll(list: Node, ghost nodes: seq<Node>) returns (head: Node, ghost order: seq<Node>)
    requires Ring(list, nodes)
    modifies list, nodes
    ensures head == list && Ring(list, [])
    ensures order == nodes && forall n <- nodes :: Gone(n)
  {
    order := [];
    var v1 := list;
    var v2 := Next(list);
    if v1 != v2 {
      var v3 := Next(v2);
      var i := v3;
      ghost var j := 0;
      var more := true;
      while more
        invariant more ==> j < |nodes| && v2 == nodes[j] && i == v3 == At(list, nodes, j + 1)
        invariant !more ==> j == |nodes|
        invariant RingFrom(list, nodes, j)
        invariant order == nodes[..j] && forall k :: 0 <= k < j ==> Gone(nodes[k])
        decreases |nodes| - j
      {
        Drop(list, v2, nodes, j);
        order := order + [v2];
        v2 := i;
        v3 := Next(v3);
        j := j + 1;
        if v1 == i {
          more := false;
        } else {
          i := v3;
        }
      }
    }
    head := list;
  }

  /** The entry the folder lookup finds: the first with the number asked for. */
  method Find(list: Node, tag: int, ghost nodes: seq<Node>) returns (found: Node?, ghost at: nat)
    requires Ring(list, nodes)
    ensures found == null <==> forall n <- nodes :: n.tag != tag
    ensures found != null ==> at < |nodes| && found == nodes[at] && found.tag == tag
    ensures found != null ==> forall k :: 0 <= k < at ==> nodes[k].tag != tag
  {
    at := 0;
    found := null;
    var n := Next(list);
    while n != list
      invariant at <= |nodes| && n == At(list, nodes, at)
      invariant forall k :: 0 <= k < at ==> nodes[k].tag != tag
      decreases |nodes| - at
    {
      if n.tag == tag {
        found := n;
        return;
      }
      n := Next(n);
      at := at + 1;
    }
  }

  /** A head has one list of entries: the links alone say which nodes are freed. */
  lemma EntriesAreUnique(head: Node, s: seq<Node>, t: seq<Node>)
    requires Ring(head, s) && Ring(head, t)
    ensures s == t
  {
    Agree(head, s, t, if |s| <= |t| then |s| else |t|);
    assert At(head, s, |s|) == head && At(head, t, |t|) == head;
  }

  lemma {:induction false} Agree(head: Node, s: seq<Node>, t: seq<Node>, k: nat)
    requires Ring(head, s) && Ring(head, t) && k <= |s| && k <= |t|
    ensures s[..k] == t[..k] && At(head, s, k) == At(head, t, k)
  {
    if k > 0 {
      Agree(head, s, t, k - 1);
      assert s[..k] == s[..k - 1] + [s[k - 1]] && t[..k] == t[..k - 1] + [t[k - 1]];
    }
  }
}
