/**
 The search trees of IP networks: find, insert and delete on linked nodes (src/dline_conf.c), each
 proved against a function on the shape of the tree, and what those functions mean.
 */
module IpTree {
  import opened Wrappers
  import opened Cidr

  /** A configuration entry: a D-line, or an exception (E) to one. */
  datatype Conf = Conf(ip: nat, host: nat, exempt: bool)

  class IpNode {
    const net: Net
    var conf: seq<Conf>
    var left: IpNode?
    var right: IpNode?

    /** `new_ip_subtree`: the address is masked here. */
    constructor (ip: nat, host: nat, clist: seq<Conf>)
      ensures net == Net(Round(ip, host), host) && conf == clist && left == null && right == null
    {
      net, conf, left, right := Net(Round(ip, host), host), clist, null, null;
    }
  }

  /** The shape of a linked tree. */
  datatype Tree = Leaf | Br(node: IpNode, left: Tree, right: Tree)

  ghost function Nodes(t: Tree): set<IpNode> {
    match t
    case Leaf => {}
    case Br(n, l, r) => {n} + Nodes(l) + Nodes(r)
  }

  /** No node occurs twice. */
  ghost predicate Distinct(t: Tree) {
    match t
    case Leaf => true
    case Br(n, l, r) => n !in Nodes(l) && n !in Nodes(r) && Nodes(l) !! Nodes(r) && Distinct(l) && Distinct(r)
  }

  /** The links from `p` on have shape `t`. */
  ghost predicate Rep(p: IpNode?, t: Tree)
    reads Nodes(t)`left, Nodes(t)`right
  {
    match t
    case Leaf => p == null
    case Br(n, l, r) => p == n && Rep(n.left, l) && Rep(n.right, r)
  }

  // ---------- what the operations compute ----------

  ghost function Find(t: Tree, x: nat): Option<IpNode> {
    match t
    case Leaf => None
    case Br(n, l, r) =>
      if n.net.ip == Round(x, n.net.host) then Some(n)
      else if n.net.ip > Round(x, n.net.host) then Find(l, x)
      else Find(r, x)
  }

  ghost function Insert(t: Tree, node: IpNode): Tree {
    match t
    case Leaf => Br(node, Leaf, Leaf)
    case Br(n, l, r) =>
      if n.net.ip > node.net.ip then Br(n, Insert(l, node), r) else Br(n, l, Insert(r, node))
  }

  ghost function Rightmost(t: Tree): (r: Tree)
    requires t.Br?
    ensures r.Br? && r.right.Leaf?
  {
    if t.right.Leaf? then t else Rightmost(t.right)
  }

  ghost function Leftmost(t: Tree): (r: Tree)
    requires t.Br?
    ensures r.Br? && r.left.Leaf?
  {
    if t.left.Leaf? then t else Leftmost(t.left)
  }

  /** The subtree that takes the place of a deleted node; `coin` picks predecessor or successor. */
  ghost function Replace(l: Tree, r: Tree, coin: bool): Tree {
    if l.Leaf? then r
    else if r.Leaf? then l
    else if coin then Br(Rightmost(l).node, Rightmost(l).left, r)
    else Br(Leftmost(r).node, l, Leftmost(r).right)
  }

  ghost function Prune(t: Tree, net: Net, coin: Net -> bool): Tree {
    match t
    case Leaf => Leaf
    case Br(n, l, r) =>
      var l', r' := Prune(l, net, coin), Prune(r, net, coin);
      if Covers(net, n.net) then Replace(l', r', coin(n.net)) else Br(n, l', r')
  }

  /** The configuration lists of the covered nodes, as deletion collects them. */
  ghost function Gather(t: Tree, net: Net): seq<Conf>
    reads Nodes(t)`conf
  {
    match t
    case Leaf => []
    case Br(n, l, r) => (if Covers(net, n.net) then n.conf else []) + Gather(r, net) + Gather(l, net)
  }

  // ---------- the operations on links ----------

  method FindIpSubtree(head: IpNode?, x: nat, ghost t: Tree) returns (r: IpNode?)
    requires Rep(head, t)
    ensures if r == null then Find(t, x) == None else Find(t, x) == Some(r)
  {
    var cur := head;
    ghost var rest := t;
    while cur != null
      invariant Rep(cur, rest) && Find(t, x) == Find(rest, x)
      decreases rest
    {
      if cur.net.ip == Round(x, cur.net.host) {
        return cur;
      }
      if cur.net.ip > Round(x, cur.net.host) {
        cur := cur.left;
        rest := rest.left;
      } else {
        cur := cur.right;
        rest := rest.right;
      }
    }
    return null;
  }

  method InsertIpSubtree(head: IpNode?, node: IpNode, ghost t: Tree, ghost all: set<IpNode>) returns (r: IpNode)
    requires Nodes(t) <= all
    requires Rep(head, t) && Distinct(t) && node !in Nodes(t) && node.left == null && node.right == null
    modifies Nodes(t)`left, Nodes(t)`right
    ensures Rep(r, Insert(t, node)) && Distinct(Insert(t, node)) && Nodes(Insert(t, node)) == Nodes(t) + {node}
    decreases t
  {
    if head == null {
      return node;
    }
    if head.net.ip > node.net.ip {
      assert Rep(head.right, t.right);
      var l := InsertIpSubtree(head.left, node, t.left, all);
      assert Rep(head.right, t.right);
      head.left := l;
    } else {
      var r' := InsertIpSubtree(head.right, node, t.right, all);
      head.right := r';
    }
    r := head;
  }

  lemma {:induction false} RightmostInside(t: Tree)
    requires t.Br? && Distinct(t)
    ensures Rightmost(t).node in Nodes(t) && Nodes(Rightmost(t)) <= Nodes(t) && Distinct(Rightmost(t))
  {
    if t.right.Br? {
      RightmostInside(t.right);
    }
  }

  lemma {:induction false} LeftmostInside(t: Tree)
    requires t.Br? && Distinct(t)
    ensures Leftmost(t).node in Nodes(t) && Nodes(Leftmost(t)) <= Nodes(t) && Distinct(Leftmost(t))
  {
    if t.left.Br? {
      LeftmostInside(t.left);
    }
  }

  /** Put the inorder predecessor, the rightmost node on the left, in place of `head`. */
  method ReplaceByPredecessor(head: IpNode, ghost l: Tree, ghost r: Tree, ghost all: set<IpNode>) returns (temp: IpNode)
    requires Nodes(l) + Nodes(r) <= all
    requires Rep(head.left, l) && Rep(head.right, r) && l.Br? && r.Br?
    requires Distinct(Br(head, l, r))
    modifies head`right, Nodes(l)`right
    ensures Rep(temp, Replace(l, r, true)) && Distinct(Replace(l, r, true))
    ensures Nodes(Replace(l, r, true)) <= Nodes(l) + Nodes(r)
  {
    temp := head.left;
    var prev := head;
    ghost var st := l;
    while temp.right != null
      invariant Rep(temp, st) && st.Br? && Rightmost(l) == Rightmost(st)
      invariant Nodes(st) <= Nodes(l) && Distinct(st)
      invariant prev !in Nodes(st) && (prev == head || prev in Nodes(l))
      decreases st
    {
      prev := temp;
      temp := temp.right;
      st := st.right;
    }
    temp.right := head.right;
    prev.right := null;
  }

  /** Put the inorder successor, the leftmost node on the right, in place of `head`. */
  method ReplaceBySuccessor(head: IpNode, ghost l: Tree, ghost r: Tree, ghost all: set<IpNode>) returns (temp: IpNode)
    requires Nodes(l) + Nodes(r) <= all
    requires Rep(head.left, l) && Rep(head.right, r) && l.Br? && r.Br?
    requires Distinct(Br(head, l, r))
    modifies head`left, Nodes(r)`left
    ensures Rep(temp, Replace(l, r, false)) && Distinct(Replace(l, r, false))
    ensures Nodes(Replace(l, r, false)) <= Nodes(l) + Nodes(r)
  {
    temp := head.right;
    var prev := head;
    ghost var st := r;
    while temp.left != null
      invariant Rep(temp, st) && st.Br? && Leftmost(r) == Leftmost(st)
      invariant Nodes(st) <= Nodes(r) && Distinct(st)
      invariant prev !in Nodes(st) && (prev == head || prev in Nodes(r))
      decreases st
    {
      prev := temp;
      temp := temp.left;
      st := st.left;
    }
    temp.left := head.left;
    prev.left := null;
  }

  /** Unlink `head`, whose children have shapes `l` and `r`. */
  method RemoveHead(head: IpNode, coin: bool, ghost l: Tree, ghost r: Tree, ghost all: set<IpNode>)
    returns (temp: IpNode?)
    requires Nodes(l) + Nodes(r) <= all
    requires Rep(head.left, l) && Rep(head.right, r) && Distinct(Br(head, l, r))
    modifies head`left, head`right, Nodes(l)`right, Nodes(r)`left
    ensures Rep(temp, Replace(l, r, coin)) && Distinct(Replace(l, r, coin))
    ensures Nodes(Replace(l, r, coin)) <= Nodes(l) + Nodes(r)
  {
    if head.left == null {
      temp := head.right;
    } else if head.right == null {
      temp := head.left;
    } else if coin {
      temp := ReplaceByPredecessor(head, l, r, all);
    } else {
      temp := ReplaceBySuccessor(head, l, r, all);
    }
  }

  lemma GatherIs(own: seq<Conf>, gr: seq<Conf>, gl: seq<Conf>, clist0: seq<Conf>)
    ensures own + (gr + (gl + clist0)) == own + gr + gl + clist0
    ensures gr + (gl + clist0) == [] + gr + gl + clist0
  {
  }

  /** Delete on one side of `head`, whose children have shapes `l` and `r`. */
  method DeleteLeft(head: IpNode, ip: nat, host: nat, coin: Net -> bool, clist0: seq<Conf>,
                    ghost l: Tree, ghost r: Tree, ghost all: set<IpNode>)
    returns (clist: seq<Conf>)
    requires Nodes(l) + Nodes(r) <= all && Rep(head.left, l) && Rep(head.right, r) && Distinct(Br(head, l, r))
    requires Round(ip, host) == ip
    modifies head`left, Nodes(l)`left, Nodes(l)`right
    ensures Rep(head.left, Prune(l, Net(ip, host), coin)) && Rep(head.right, r)
    ensures Nodes(Prune(l, Net(ip, host), coin)) <= Nodes(l) && Distinct(Prune(l, Net(ip, host), coin))
    ensures clist == old(Gather(l, Net(ip, host))) + clist0
    decreases l, 1
  {
    var nl;
    nl, clist := DeleteIpSubtree(head.left, ip, host, coin, clist0, l, all);
    assert Rep(head.right, r);
    head.left := nl;
  }

  method DeleteRight(head: IpNode, ip: nat, host: nat, coin: Net -> bool, clist0: seq<Conf>,
                     ghost l: Tree, ghost r: Tree, ghost all: set<IpNode>)
    returns (clist: seq<Conf>)
    requires Nodes(l) + Nodes(r) <= all && Rep(head.left, l) && Rep(head.right, r) && Distinct(Br(head, l, r))
    requires Round(ip, host) == ip
    modifies head`right, Nodes(r)`left, Nodes(r)`right
    ensures Rep(head.left, l) && Rep(head.right, Prune(r, Net(ip, host), coin))
    ensures Nodes(Prune(r, Net(ip, host), coin)) <= Nodes(r) && Distinct(Prune(r, Net(ip, host), coin))
    ensures clist == old(Gather(r, Net(ip, host))) + clist0
    decreases r, 1
  {
    var nr;
    nr, clist := DeleteIpSubtree(head.right, ip, host, coin, clist0, r, all);
    assert Rep(head.left, l);
    head.right := nr;
  }

  method DeleteIpSubtree(head: IpNode?, ip0: nat, host: nat, coin: Net -> bool, clist0: seq<Conf>,
                         ghost t: Tree, ghost all: set<IpNode>)
    returns (r: IpNode?, clist: seq<Conf>)
    requires Nodes(t) <= all
    requires Rep(head, t) && Distinct(t)
    modifies Nodes(t)`left, Nodes(t)`right
    ensures Rep(r, Prune(t, Net(Round(ip0, host), host), coin))
    ensures Distinct(Prune(t, Net(Round(ip0, host), host), coin))
    ensures Nodes(Prune(t, Net(Round(ip0, host), host), coin)) <= Nodes(t)
    ensures clist == old(Gather(t, Net(Round(ip0, host), host))) + clist0
    decreases t, 0
  {
    if head == null {
      return null, clist0;
    }
    var ip := Round(ip0, host);
    RoundTwice(ip0, host, host);
    ghost var net, gl, gr := Net(ip, host), Gather(t.left, Net(ip, host)), Gather(t.right, Net(ip, host));
    GatherIs(head.conf, gr, gl, clist0);
    clist := DeleteLeft(head, ip, host, coin, clist0, t.left, t.right, all);
    clist := DeleteRight(head, ip, host, coin, clist, Prune(t.left, net, coin), t.right, all);
    r := head;
    if Round(head.net.ip, host) == ip && head.net.host <= host {
      clist := head.conf + clist;
      r := RemoveHead(head, coin(head.net), Prune(t.left, net, coin), Prune(t.right, net, coin), all);
    }
  }

  // ---------- what they mean ----------

  /** Sorted by network address. */
  ghost predicate Ordered(t: Tree) {
    match t
    case Leaf => true
    case Br(n, l, r) =>
      && (forall m <- Nodes(l) :: m.net.ip < n.net.ip) && (forall m <- Nodes(r) :: m.net.ip > n.net.ip)
      && Ordered(l) && Ordered(r)
  }

  ghost predicate ValidNets(s: set<IpNode>) { forall n <- s :: ValidNet(n.net) }

  ghost predicate PairwiseDisjoint(s: set<IpNode>) {
    forall m, n :: m in s && n in s && m != n ==> !Overlap(m.net, n.net)
  }

  ghost predicate Good(t: Tree) { Distinct(t) && Ordered(t) && ValidNets(Nodes(t)) && PairwiseDisjoint(Nodes(t)) }

  /** The search agrees with a scan of all stored networks. */
  lemma {:induction false} FindIsScan(t: Tree, x: nat)
    requires Good(t)
    ensures Find(t, x).Some? ==> Find(t, x).value in Nodes(t) && Contains(Find(t, x).value.net, x)
    ensures forall n <- Nodes(t) :: Contains(n.net, x) ==> Find(t, x) == Some(n)
  {
    match t
    case Leaf =>
    case Br(n, l, r) =>
      FindIsScan(l, x);
      FindIsScan(r, x);
      forall m <- Nodes(t) | Contains(m.net, x)
        ensures Find(t, x) == Some(m)
      {
        if Contains(n.net, x) {
          if m != n {
            NetsAreNested(m.net, n.net, x);
          }
        } else if n.net.ip > Round(x, n.net.host) {
          SearchLeft(n.net, m.net, x);
        } else {
          SearchRight(n.net, m.net, x);
        }
      }
  }

  lemma {:induction false} RightmostIsLargest(t: Tree)
    requires t.Br? && Ordered(t) && Distinct(t)
    ensures forall m <- Nodes(t) :: m == Rightmost(t).node || m.net.ip < Rightmost(t).node.net.ip
    ensures Ordered(Rightmost(t))
  {
    if t.right.Br? {
      RightmostIsLargest(t.right);
      RightmostInside(t.right);
    }
  }

  lemma {:induction false} LeftmostIsSmallest(t: Tree)
    requires t.Br? && Ordered(t) && Distinct(t)
    ensures forall m <- Nodes(t) :: m == Leftmost(t).node || m.net.ip > Leftmost(t).node.net.ip
    ensures Ordered(Leftmost(t))
  {
    if t.left.Br? {
      LeftmostIsSmallest(t.left);
      LeftmostInside(t.left);
    }
  }

  lemma ReplaceKeepsOrder(n: IpNode, l: Tree, r: Tree, coin: bool)
    requires Distinct(Br(n, l, r)) && Ordered(Br(n, l, r))
    ensures Ordered(Replace(l, r, coin)) && Distinct(Replace(l, r, coin))
    ensures Nodes(Replace(l, r, coin)) <= Nodes(l) + Nodes(r)
  {
    if l.Br? && r.Br? {
      if coin {
        RightmostInside(l);
        RightmostIsLargest(l);
      } else {
        LeftmostInside(r);
        LeftmostIsSmallest(r);
      }
    }
  }

  /** Deletion keeps order, brings nothing new in, and leaves no covered network behind. */
  lemma {:induction false} PruneKeepsOrder(t: Tree, net: Net, coin: Net -> bool)
    requires Distinct(t) && Ordered(t)
    ensures var t' := Prune(t, net, coin);
      && Distinct(t') && Ordered(t')
      && (forall n <- Nodes(t') :: n in Nodes(t) && !Covers(net, n.net))
  {
    match t
    case Leaf =>
    case Br(n, l, r) =>
      PruneKeepsOrder(l, net, coin);
      PruneKeepsOrder(r, net, coin);
      var l', r' := Prune(l, net, coin), Prune(r, net, coin);
      assert Distinct(Br(n, l', r')) && Ordered(Br(n, l', r'));
      ReplaceKeepsOrder(n, l', r', coin(n.net));
  }

  // ---------- when deletion loses networks it should keep ----------

  /** The replacement node is `head`'s own child, or there is only one child. */
  ghost predicate Spares(l: Tree, r: Tree, coin: bool) {
    l.Leaf? || r.Leaf? || if coin then l.right.Leaf? else r.left.Leaf?
  }

  /** The test above holds at every node that deletion replaces. */
  ghost predicate Lossless(t: Tree, net: Net, coin: Net -> bool) {
    match t
    case Leaf => true
    case Br(n, l, r) =>
      && Lossless(l, net, coin) && Lossless(r, net, coin)
      && (Covers(net, n.net) ==> Spares(Prune(l, net, coin), Prune(r, net, coin), coin(n.net)))
  }

  ghost function Uncovered(t: Tree, net: Net): set<IpNode> { set n | n in Nodes(t) && !Covers(net, n.net) }

  lemma SparesIffAllSurvive(l: Tree, r: Tree, coin: bool)
    requires Distinct(l) && Distinct(r) && Nodes(l) !! Nodes(r)
    ensures Spares(l, r, coin) <==> Nodes(Replace(l, r, coin)) == Nodes(l) + Nodes(r)
  {
    if l.Br? && r.Br? {
      if coin {
        if l.right.Br? {
          RightmostInside(l.right);
          assert l.node !in Nodes(Replace(l, r, coin));
        }
      } else {
        if r.left.Br? {
          LeftmostInside(r.left);
          assert r.node !in Nodes(Replace(l, r, coin));
        }
      }
    }
  }

  /**
   Deletion keeps every network it does not cover exactly when each replaced node with two children
   is replaced by its own child. Otherwise the links above the replacement are dropped.
   */
  lemma {:induction false} PruneKeepsUncoveredIffLossless(t: Tree, net: Net, coin: Net -> bool)
    requires Distinct(t) && Ordered(t)
    ensures Nodes(Prune(t, net, coin)) == Uncovered(t, net) <==> Lossless(t, net, coin)
  {
    match t
    case Leaf =>
    case Br(n, l, r) =>
      PruneKeepsUncoveredIffLossless(l, net, coin);
      PruneKeepsUncoveredIffLossless(r, net, coin);
      PruneKeepsOrder(l, net, coin);
      PruneKeepsOrder(r, net, coin);
      StepIsLossless(n, l, r, net, coin);
  }

  /** Deleting 8/1 from a good tree of four single addresses drops address 2, which is not in it. */
  lemma DeletionLosesANetwork(a: IpNode, b: IpNode, c: IpNode, d: IpNode, coin: Net -> bool)
    requires a.net == Net(2, 0) && b.net == Net(5, 0) && c.net == Net(11, 0) && d.net == Net(8, 0) && coin(d.net)
    ensures
      var t := Br(d, Br(a, Leaf, Br(b, Leaf, Leaf)), Br(c, Leaf, Leaf));
      Distinct(t) && Ordered(t) && a in Uncovered(t, Net(8, 1)) && a !in Nodes(Prune(t, Net(8, 1), coin))
  {
    var only, r := Br(b, Leaf, Leaf), Br(c, Leaf, Leaf);
    var l := Br(a, Leaf, only);
    assert Round(5, 1) == 4 && Round(11, 1) == 10;
    SingleNode(b, Net(8, 1), coin);
    SingleNode(c, Net(8, 1), coin);
    assert Nodes(l) == {a} + Nodes(Leaf) + Nodes(only);
    assert Distinct(l) && Ordered(l);
    assert Round(2, 1) == 2 && Round(8, 1) == 8;
    assert Prune(l, Net(8, 1), coin) == l;
    assert Rightmost(l) == Rightmost(only);
    assert Prune(Br(d, l, r), Net(8, 1), coin) == Br(b, Leaf, r);
    assert Nodes(Br(b, Leaf, r)) == {b} + Nodes(Leaf) + Nodes(r);
  }

  lemma SingleNode(n: IpNode, net: Net, coin: Net -> bool)
    ensures
      var t := Br(n, Leaf, Leaf);
      Nodes(t) == {n} && Distinct(t) && Ordered(t) && Rightmost(t) == t
        && (!Covers(net, n.net) ==> Prune(t, net, coin) == t)
  {
    assert Nodes(Leaf) == {};
  }

  lemma StepIsLossless(n: IpNode, l: Tree, r: Tree, net: Net, coin: Net -> bool)
    requires Distinct(Br(n, l, r)) && Ordered(Br(n, l, r))
    requires Nodes(Prune(l, net, coin)) <= Uncovered(l, net) && Nodes(Prune(r, net, coin)) <= Uncovered(r, net)
    requires Distinct(Prune(l, net, coin)) && Distinct(Prune(r, net, coin))
    ensures Nodes(Prune(Br(n, l, r), net, coin)) == Uncovered(Br(n, l, r), net)
       <==> && Nodes(Prune(l, net, coin)) == Uncovered(l, net) && Nodes(Prune(r, net, coin)) == Uncovered(r, net)
            && (Covers(net, n.net) ==> Spares(Prune(l, net, coin), Prune(r, net, coin), coin(n.net)))
  {
    var l', r' := Prune(l, net, coin), Prune(r, net, coin);
    var parts := Uncovered(l, net) + Uncovered(r, net);
    if Covers(net, n.net) {
      assert Uncovered(Br(n, l, r), net) == parts;
      SparesIffAllSurvive(l', r', coin(n.net));
      ReplaceNodes(l', r', coin(n.net));
      UnionOfParts(Nodes(l), Nodes(r), Uncovered(l, net), Uncovered(r, net), Nodes(l'), Nodes(r'),
                   Nodes(Replace(l', r', coin(n.net))));
    } else {
      assert Uncovered(Br(n, l, r), net) == parts + {n};
      UnionOfParts(Nodes(l), Nodes(r), Uncovered(l, net), Uncovered(r, net), Nodes(l'), Nodes(r'),
                   Nodes(l') + Nodes(r'));
      assert Nodes(Br(n, l', r')) - {n} == Nodes(l') + Nodes(r');
      assert parts + {n} - {n} == parts;
    }
  }

  lemma ReplaceNodes(l: Tree, r: Tree, coin: bool)
    requires Distinct(l) && Distinct(r)
    ensures Nodes(Replace(l, r, coin)) <= Nodes(l) + Nodes(r)
  {
    if l.Br? && r.Br? {
      RightmostInside(l);
      LeftmostInside(r);
    }
  }

  /** Two disjoint parts are complete exactly when their union is. */
  lemma UnionOfParts<T>(l: set<T>, r: set<T>, ul: set<T>, ur: set<T>, l': set<T>, r': set<T>, kept: set<T>)
    requires l !! r && ul <= l && ur <= r && l' <= ul && r' <= ur && kept <= l' + r'
    ensures kept == ul + ur <==> l' == ul && r' == ur && kept == l' + r'
  {
    if kept == ul + ur {
      forall m <- ul ensures m in l' { assert m in kept; }
      forall m <- ur ensures m in r' { assert m in kept; }
    }
  }

  // ---------- adding a network ----------

  lemma {:induction false} InsertKeepsGood(t: Tree, node: IpNode)
    requires Good(t) && ValidNet(node.net) && node !in Nodes(t)
    requires forall n <- Nodes(t) :: !Overlap(n.net, node.net)
    ensures Nodes(Insert(t, node)) == Nodes(t) + {node}
    ensures Good(Insert(t, node))
  {
    InsertNodes(t, node);
    InsertOrder(t, node);
  }

  lemma {:induction false} InsertNodes(t: Tree, node: IpNode)
    requires Distinct(t) && node !in Nodes(t)
    ensures Nodes(Insert(t, node)) == Nodes(t) + {node} && Distinct(Insert(t, node))
  {
    if t.Br? {
      InsertNodes(t.left, node);
      InsertNodes(t.right, node);
    }
  }

  lemma {:induction false} InsertOrder(t: Tree, node: IpNode)
    requires Distinct(t) && Ordered(t) && node !in Nodes(t)
    requires ValidNets(Nodes(t)) && ValidNet(node.net) && forall n <- Nodes(t) :: !Overlap(n.net, node.net)
    ensures Ordered(Insert(t, node))
  {
    if t.Br? {
      InsertOrder(t.left, node);
      InsertOrder(t.right, node);
      InsertNodes(t.left, node);
      InsertNodes(t.right, node);
      assert !Overlap(t.node.net, node.net);
    }
  }

  /** The test with which `add_Dline` refuses a network: a stored one as wide holds its address. */
  ghost predicate HasBroader(t: Tree, x: nat, host: nat) {
    Find(t, x).Some? && Find(t, x).value.net.host >= host
  }

  /** After deletion nothing stored overlaps a network that was not refused. */
  lemma SurvivorsAreDisjoint(t: Tree, x: nat, host: nat, coin: Net -> bool)
    requires Good(t) && host <= 24 && x < 0x1_0000_0000 && !HasBroader(t, x, host)
    ensures var net := Net(Round(x, host), host);
            forall n <- Nodes(Prune(t, net, coin)) :: !Overlap(n.net, net)
  {
    var net := Net(Round(x, host), host);
    RoundTwice(x, host, host);
    PruneKeepsOrder(t, net, coin);
    FindIsScan(t, x);
    forall n <- Nodes(Prune(t, net, coin))
      ensures !Overlap(n.net, net)
    {
      assert ValidNet(n.net);
      if Overlap(n.net, net) {
        OverlapIsNesting(n.net, net);
        assert Covers(n.net, net);
        CoveredAddress(n.net, net, x);
      }
    }
  }

  /** What `add_Dline` makes of a tree: still good, and the new network is the one found for its addresses. */
  lemma AddKeepsGood(t: Tree, x: nat, host: nat, coin: Net -> bool, node: IpNode)
    requires Good(t) && host <= 24 && x < 0x1_0000_0000 && !HasBroader(t, x, host)
    requires node !in Nodes(t) && node.net == Net(Round(x, host), host)
    ensures var t' := Insert(Prune(t, node.net, coin), node);
      && Good(t')
      && Nodes(t') == Nodes(Prune(t, node.net, coin)) + {node}
      && (forall n <- Nodes(t') :: n == node || (n in Nodes(t) && !Covers(node.net, n.net)))
      && (forall y: nat :: Contains(node.net, y) ==> Find(t', y) == Some(node))
  {
    var p := Prune(t, node.net, coin);
    PruneKeepsOrder(t, node.net, coin);
    SurvivorsAreDisjoint(t, x, host, coin);
    RoundTwice(x, host, host);
    InsertKeepsGood(p, node);
    forall y: nat | Contains(node.net, y)
      ensures Find(Insert(p, node), y) == Some(node)
    {
      FindIsScan(Insert(p, node), y);
    }
  }
}
