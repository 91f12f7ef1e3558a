/** Doubly linked lists (adns/dlist.h): the macros that unlink a node and link one at the tail. */
module DList {
  class Node {
    var next: Node?
    var back: Node?

    constructor ()
      ensures next == null && back == null
    {
      next, back := null, null;
    }
  }

  predicate Distinct(ns: seq<Node>) { forall i, j :: 0 <= i < j < |ns| ==> ns[i] != ns[j] }

  /** The node at a place, if there is one. */
  function At(ns: seq<Node>, i: int): Node? { if 0 <= i < |ns| then ns[i] else null }

  function Last(ns: seq<Node>): Node? { if ns == [] then null else ns[|ns| - 1] }

  lemma LastWithout(ns: seq<Node>, k: nat)
    requires k < |ns|
    ensures Last(Without(ns, k)) == if k == |ns| - 1 then At(ns, k - 1) else Last(ns)
  {
  }

  function Without(ns: seq<Node>, k: nat): (r: seq<Node>)
    requires k < |ns|
    ensures |r| == |ns| - 1 && forall i :: 0 <= i < |r| ==> r[i] == ns[if i < k then i else i + 1]
  {
    ns[..k] + ns[k + 1..]
  }

  lemma WithoutIsDistinct(ns: seq<Node>, k: nat)
    requires k < |ns| && Distinct(ns)
    ensures Distinct(Without(ns, k))
  {
  }

  class List {
    var head: Node?
    var tail: Node?
    /** The nodes from `head` to `tail`. */
    ghost var nodes: seq<Node>

    constructor ()
      ensures Valid() && nodes == []
    {
      head, tail, nodes := null, null, [];
    }

    ghost predicate Valid()
      reads this, nodes
    {
      Distinct(nodes) && head == At(nodes, 0) && tail == Last(nodes) && Forth(nodes) && Back(nodes)
    }

    /** `DLIST_LINK_TAIL_PART` */
    method LinkTail(node: Node)
      requires Valid() && node !in nodes
      modifies this, node, nodes
      ensures Valid() && nodes == old(nodes) + [node]
    {
      node.next := null;
      node.back := tail;
      if tail != null {
        tail.next := node;
      } else {
        head := node;
      }
      tail := node;
      nodes := nodes + [node];
    }

    /** `DLIST_UNLINK_PART`: the node's own links stay as they were. */
    method Unlink(node: Node, ghost k: nat)
      requires Valid() && k < |nodes| && nodes[k] == node
      modifies this, nodes
      ensures Valid() && nodes == Without(old(nodes), k)
      ensures node.next == old(node.next) && node.back == old(node.back)
    {
      ghost var left := Without(nodes, k);
      WithoutIsDistinct(nodes, k);
      PassForth(node, k, left);
      PassBack(node, k, left);
      nodes := left;
    }

    /** The first half of the macro: what led to the node leads behind it. */
    method PassForth(node: Node, ghost k: nat, ghost left: seq<Node>)
      requires Valid() && k < |nodes| && nodes[k] == node && left == Without(nodes, k)
      modifies this`head, nodes`next
      ensures head == At(left, 0) && Forth(left) && node.next == old(node.next)
    {
      if node.back != null {
        node.back.next := node.next;
      } else {
        head := node.next;
      }
      forall i | 0 <= i < |nodes| - 1
        ensures left[i].next == At(left, i + 1)
      {
        assert i + 1 != k ==> nodes[if i < k then i else i + 1].next == old(nodes[if i < k then i else i + 1].next);
      }
    }

    /** The second half: what led back to it leads before it. */
    method PassBack(node: Node, ghost k: nat, ghost left: seq<Node>)
      requires Distinct(nodes) && Back(nodes) && tail == Last(nodes) && k < |nodes| && nodes[k] == node
      requires left == Without(nodes, k)
      requires node.next == At(nodes, k + 1)
      modifies this`tail, nodes`back
      ensures tail == Last(left) && Back(left) && node.back == old(node.back)
    {
      if node.next != null {
        node.next.back := node.back;
      } else {
        tail := node.back;
      }
      LastWithout(nodes, k);
      forall i | 0 <= i < |left|
        ensures left[i].back == At(left, i - 1)
      {
        if i != k {
          assert left[i].back == old(left[i].back);
        } else {
          assert left[i] == node.next && node.back == At(nodes, k - 1);
        }
      }
    }
  }

  /** Every node's `next` is the one behind it. */
  ghost predicate Forth(ns: seq<Node>)
    reads ns`next
  {
    forall i {:trigger ns[i].next} :: 0 <= i < |ns| ==> ns[i].next == At(ns, i + 1)
  }

  /** Every node's `back` is the one before it. */
  ghost predicate Back(ns: seq<Node>)
    reads ns`back
  {
    forall i {:trigger ns[i].back} :: 0 <= i < |ns| ==> ns[i].back == At(ns, i - 1)
  }
}
