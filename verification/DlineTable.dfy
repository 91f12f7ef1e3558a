/**
 A slot of the D-line table: the tree of banned networks that share their top byte, with its oracle
 word (src/dline_conf.c). The table is an array of 256 such slots, independent of one another.
 */
module DlineTable {
  import opened Wrappers
  import opened Cidr
  import opened IpTree

  /** What `match_Dline` returns for an address. */
  datatype Match = NoMatch | Exempted(e: Conf) | Banned(d: Conf)

  predicate Holds(c: Conf, x: nat) { Round(x, c.host) == c.ip }

  /** `find_exception`, and the exception scan of `match_Dline`: the first entry that holds `x`. */
  function FirstHolding(cs: seq<Conf>, x: nat): Option<Conf> {
    if cs == [] then None
    else if cs[0].exempt && Holds(cs[0], x) then Some(cs[0])
    else FirstHolding(cs[1..], x)
  }

  method ScanFor(cs: seq<Conf>, x: nat) returns (r: Option<Conf>)
    ensures r == FirstHolding(cs, x)
  {
    var i := 0;
    while i < |cs|
      invariant 0 <= i <= |cs| && FirstHolding(cs, x) == FirstHolding(cs[i..], x)
    {
      if cs[i].exempt && Holds(cs[i], x) {
        return Some(cs[i]);
      }
      i := i + 1;
    }
    r := None;
  }

  /** `trim_Dlines`: only the exceptions stay. */
  function TrimDlines(cs: seq<Conf>): (r: seq<Conf>)
    ensures forall c <- r :: c.exempt
  {
    if cs == [] then []
    else if cs[0].exempt then [cs[0]] + TrimDlines(cs[1..])
    else TrimDlines(cs[1..])
  }

  /** Trimming keeps exactly the exceptions, in their order. */
  lemma {:induction false} TrimIs(a: seq<Conf>, b: seq<Conf>)
    ensures TrimDlines(a + b) == TrimDlines(a) + TrimDlines(b)
    ensures forall e :: e in TrimDlines(a) <==> e in a && e.exempt
    decreases |a|
  {
    if a == [] {
      assert a + b == b;
    } else {
      TrimIs(a[1..], b);
      assert (a + b)[1..] == a[1..] + b;
      assert forall e :: e in a <==> e == a[0] || e in a[1..];
    }
  }

  lemma TrimOne(e: Conf)
    ensures TrimDlines([e]) == if e.exempt then [e] else []
  {
    assert [e][1..] == [];
  }

  /** The entry at place `i` excepts `x`, and none before it does. */
  predicate FirstAt(cs: seq<Conf>, x: nat, i: nat) {
    && i < |cs| && cs[i].exempt && Round(x, cs[i].host) == cs[i].ip
    && forall j :: 0 <= j < i ==> !(cs[j].exempt && Round(x, cs[j].host) == cs[j].ip)
  }

  /** The exception found is the first whose network holds the address; none is found only if there is none. */
  lemma {:induction false} FirstHoldingIs(cs: seq<Conf>, x: nat)
    ensures FirstHolding(cs, x).Some? <==> exists e <- cs :: e.exempt && Round(x, e.host) == e.ip
    ensures FirstHolding(cs, x).Some? ==> exists i: nat :: FirstAt(cs, x, i) && cs[i] == FirstHolding(cs, x).value
  {
    if cs != [] {
      FirstHoldingIs(cs[1..], x);
      assert forall e :: e in cs <==> e == cs[0] || e in cs[1..];
      if cs[0].exempt && Round(x, cs[0].host) == cs[0].ip {
        assert FirstAt(cs, x, 0);
      } else if FirstHolding(cs, x).Some? {
        var i: nat :| FirstAt(cs[1..], x, i) && cs[1..][i] == FirstHolding(cs[1..], x).value;
        assert FirstAt(cs, x, i + 1);
      }
    }
  }

  /** What deletion collects is what the covered nodes have on their lists. */
  lemma {:induction false} GatheredIs(t: Tree, net: Net)
    ensures forall e :: e in Gather(t, net) <==> exists n <- Nodes(t) :: Covers(net, n.net) && e in n.conf
  {
    match t
    case Leaf =>
    case Br(n, l, r) =>
      GatheredIs(l, net);
      GatheredIs(r, net);
      forall e
        ensures e in Gather(t, net) <==> exists m <- Nodes(t) :: Covers(net, m.net) && e in m.conf
      {
        GatheredAt(n, l, r, net, e);
      }
  }

  /** Its own entries come first, those of networks with larger addresses next, and those with smaller ones last. */
  lemma GatheredInOrder(n: IpNode, l: Tree, r: Tree, net: Net) returns (high: seq<Conf>, low: seq<Conf>)
    requires Ordered(Br(n, l, r))
    ensures Gather(Br(n, l, r), net) == (if Covers(net, n.net) then n.conf else []) + high + low
    ensures forall e :: e in high <==> exists m <- Nodes(r) :: Covers(net, m.net) && e in m.conf
    ensures forall e :: e in low <==> exists m <- Nodes(l) :: Covers(net, m.net) && e in m.conf
    ensures (forall m <- Nodes(r) :: m.net.ip > n.net.ip) && forall m <- Nodes(l) :: m.net.ip < n.net.ip
  {
    high, low := Gather(r, net), Gather(l, net);
    GatheredIs(l, net);
    GatheredIs(r, net);
  }

  lemma GatheredAt(n: IpNode, l: Tree, r: Tree, net: Net, e: Conf)
    requires e in Gather(l, net) <==> exists m <- Nodes(l) :: Covers(net, m.net) && e in m.conf
    requires e in Gather(r, net) <==> exists m <- Nodes(r) :: Covers(net, m.net) && e in m.conf
    ensures e in Gather(Br(n, l, r), net) <==> exists m <- Nodes(Br(n, l, r)) :: Covers(net, m.net) && e in m.conf
  {
    if e in Gather(l, net) {
      var m :| m in Nodes(l) && Covers(net, m.net) && e in m.conf;
      assert m in Nodes(Br(n, l, r));
    }
    if e in Gather(r, net) {
      var m :| m in Nodes(r) && Covers(net, m.net) && e in m.conf;
      assert m in Nodes(Br(n, l, r));
    }
    if Covers(net, n.net) {
      assert n in Nodes(Br(n, l, r));
    }
    if m :| m in Nodes(Br(n, l, r)) && Covers(net, m.net) && e in m.conf {
      assert m == n || m in Nodes(l) || m in Nodes(r);
    }
  }

  /** The list of a node: its D-line, whose network is the node's, and then exceptions. */
  ghost predicate GoodConf(n: IpNode)
    reads n`conf
  {
    && n.conf != [] && !n.conf[0].exempt
    && n.net == Net(Round(n.conf[0].ip, n.conf[0].host), n.conf[0].host)
    && forall c <- n.conf[1..] :: c.exempt
  }

  ghost predicate InSlot(t: Tree, s: nat) { forall n <- Nodes(t) :: Slot(n.net.ip) == s }

  /** The answer for a node that holds the address: its first fitting exception, else its D-line. */
  ghost function MatchAt(n: IpNode, x: nat): Match
    reads n
    requires n.conf != []
  {
    if FirstHolding(n.conf, x).Some? then Exempted(FirstHolding(n.conf, x).value) else Banned(n.conf[0])
  }

  /** `m` is what a plain scan of the stored networks finds for `x`. */
  ghost predicate IsScanResult(nodes: set<IpNode>, x: nat, m: Match)
    reads nodes
  {
    && (forall n <- nodes :: Contains(n.net, x) && n.conf != [] ==> m == MatchAt(n, x))
    && ((forall n <- nodes :: !Contains(n.net, x)) ==> m == NoMatch)
  }

  /** An address in a stored network is exempted by the first exception that holds it, and banned if there is none. */
  lemma AnswerIs(nodes: set<IpNode>, x: nat, m: Match, n: IpNode)
    requires IsScanResult(nodes, x, m) && n in nodes && Contains(n.net, x) && n.conf != []
    ensures m.Exempted? ==> exists i: nat :: FirstAt(n.conf, x, i) && n.conf[i] == m.e
    ensures !m.Exempted? ==> m == Banned(n.conf[0]) && forall i: nat :: !FirstAt(n.conf, x, i)
  {
    FirstHoldingIs(n.conf, x);
  }

  method NewNode(c: Conf, rest: seq<Conf>) returns (node: IpNode)
    requires !c.exempt && forall e <- rest :: e.exempt
    ensures fresh(node) && node.net == NetOf(c) && node.conf == [c] + rest && GoodConf(node)
    ensures node.left == null && node.right == null
  {
    node := new IpNode(c.ip, c.host, [c] + rest);
    assert node.conf[1..] == rest;
  }

  /** No address of a stored network is turned away by the oracle. */
  ghost predicate Covering(stored: set<IpNode>, oracle: nat) {
    forall n: IpNode, x: nat :: n in stored && Contains(n.net, x) ==> Passes(oracle, x)
  }

  /** One slot of the table: the tree `Dline[index]` and the word `oracle[index]`. */
  class IpSlot {
    const index: nat
    var root: IpNode?
    var oracle: nat
    ghost var tree: Tree
    ghost var nodes: set<IpNode>

    ghost predicate Valid()
      reads this, nodes
    {
      && nodes == Nodes(tree) && Good(tree) && InSlot(tree, index) && Rep(root, tree)
      && forall n <- nodes :: GoodConf(n)
    }

    constructor (i: nat)
      ensures Valid() && Covering(nodes, oracle) && index == i && nodes == {} && tree == Leaf && oracle == 0
    {
      index, root, oracle, tree, nodes := i, null, 0, Leaf, {};
    }

    /** `match_Dline` within the slot of the address. */
    method MatchDline(x: nat) returns (m: Match)
      requires Valid()
      ensures !Passes(oracle, x) ==> m == NoMatch
      ensures Passes(oracle, x) || Covering(nodes, oracle) ==> IsScanResult(nodes, x, m)
    {
      if !Passes(oracle, x) {
        assert Covering(nodes, oracle) ==> forall n <- nodes :: !Contains(n.net, x);
        return NoMatch;
      }
      FindIsScan(tree, x);
      var node := FindIpSubtree(root, x, tree);
      if node == null {
        return NoMatch;
      }
      var e := ScanFor(node.conf, x);
      if e.Some? {
        return Exempted(e.value);
      }
      var d := node.conf[0];
      if Round(d.ip, d.host) == Round(x, d.host) {
        return Banned(d);
      }
      return NoMatch;
    }

    /** The found branch of `add_dline`: the exception goes right behind the D-line of its node. */
    method Place(c: Conf) returns (placed: bool)
      requires Valid() && c.exempt
      modifies nodes`conf
      ensures Valid() && placed == Find(tree, c.ip).Some?
      ensures forall n <- nodes ::
        n.conf == if Find(tree, c.ip) == Some(n) then old(n.conf[..1]) + [c] + old(n.conf[1..]) else old(n.conf)
    {
      FindIsScan(tree, c.ip);
      var node := FindIpSubtree(root, c.ip, tree);
      placed := node != null;
      if node != null {
        var d, rest := node.conf[0], node.conf[1..];
        node.conf := node.conf[..1] + [c] + rest;
        assert node.conf[0] == d && node.conf[1..] == [c] + rest;
      }
    }

    /** Delete what the new network covers, collecting the configuration lists. */
    method Clear(ip: nat, host: nat, coin: Net -> bool) returns (clist: seq<Conf>)
      requires Valid()
      modifies this`root, nodes`left, nodes`right
      ensures Rep(root, Prune(tree, Net(Round(ip, host), host), coin))
      ensures clist == old(Gather(tree, Net(Round(ip, host), host)))
    {
      root, clist := DeleteIpSubtree(root, ip, host, coin, [], tree, nodes);
    }

    /** The new shape is good and stays in its slot. */
    lemma PlantedIsGood(node: IpNode, c: Conf, coin: Net -> bool)
      requires Good(tree) && InSlot(tree, index) && node !in Nodes(tree) && node.net == Net(Round(c.ip, c.host), c.host)
      requires c.ip < 0x1_0000_0000 && c.host <= 24 && Slot(c.ip) == index && !HasBroader(tree, c.ip, c.host)
      ensures var t := Insert(Prune(tree, node.net, coin), node);
        && Good(t) && InSlot(t, index) && node in Nodes(t) && Nodes(t) <= Nodes(tree) + {node}
        && Distinct(Prune(tree, node.net, coin)) && Nodes(Prune(tree, node.net, coin)) <= Nodes(tree)
    {
      PruneKeepsOrder(tree, node.net, coin);
      AddKeepsGood(tree, c.ip, c.host, coin, node);
      ShiftRound(c.ip, c.host, 24);
    }

    /** Link a new node into the tree from which the networks it covers were deleted. */
    method Link(node: IpNode, ghost pruned: Tree)
      requires Rep(root, pruned) && Distinct(pruned) && Nodes(pruned) <= nodes
      requires node !in nodes && node.left == null && node.right == null
      modifies this`root, nodes`left, nodes`right
      ensures Rep(root, Insert(pruned, node))
    {
      root := InsertIpSubtree(root, node, pruned, nodes);
    }

    /** The part of `add_Dline` behind the oracle update: the deletion and the new node. */
    method Plant(c: Conf, coin: Net -> bool) returns (node: IpNode, ghost gathered: seq<Conf>)
      requires Valid() && !c.exempt && c.ip < 0x1_0000_0000 && c.host <= 24 && Slot(c.ip) == index
      requires !HasBroader(tree, c.ip, c.host)
      modifies this`root, this`tree, this`nodes, nodes`left, nodes`right
      ensures Valid() && fresh(node) && node in nodes && nodes <= old(nodes) + {node}
      ensures node.net == NetOf(c) && tree == Insert(Prune(old(tree), NetOf(c), coin), node)
      ensures gathered == old(Gather(tree, NetOf(c))) && node.conf == [c] + TrimDlines(gathered)
    {
      ghost var pruned := Prune(tree, NetOf(c), coin);
      node, gathered := Seed(c, coin);
      PlantedIsGood(node, c, coin);
      Finish(node, pruned);
    }

    /** What the new network covers is deleted, and its node made, not linked yet. */
    method Seed(c: Conf, coin: Net -> bool) returns (node: IpNode, ghost gathered: seq<Conf>)
      requires Valid() && !c.exempt
      modifies this`root, nodes`left, nodes`right
      ensures fresh(node) && node.net == NetOf(c) && node.left == null && node.right == null && GoodConf(node)
      ensures gathered == old(Gather(tree, NetOf(c))) && node.conf == [c] + TrimDlines(gathered)
      ensures Rep(root, Prune(tree, NetOf(c), coin)) && forall n <- nodes :: GoodConf(n)
    {
      PruneKeepsOrder(tree, NetOf(c), coin);
      var clist := Clear(c.ip, c.host, coin);
      gathered := clist;
      node := NewNode(c, TrimDlines(clist));
    }

    method Finish(node: IpNode, ghost pruned: Tree)
      requires Rep(root, pruned) && Distinct(pruned) && Nodes(pruned) <= nodes
      requires node !in nodes && node.left == null && node.right == null
      requires GoodConf(node) && forall n <- nodes :: GoodConf(n)
      requires Good(Insert(pruned, node)) && InSlot(Insert(pruned, node), index)
      requires Nodes(Insert(pruned, node)) <= nodes + {node}
      modifies this`root, this`tree, this`nodes, nodes`left, nodes`right
      ensures Valid() && tree == Insert(pruned, node) && nodes == Nodes(tree)
    {
      Link(node, pruned);
      Adopt(Insert(pruned, node), node);
    }

    /** Record the new shape of the linked tree. */
    ghost method Adopt(grown: Tree, node: IpNode)
      requires Rep(root, grown) && Good(grown) && InSlot(grown, index) && Nodes(grown) <= nodes + {node}
      requires GoodConf(node) && forall n <- nodes :: GoodConf(n)
      modifies this`tree, this`nodes
      ensures Valid() && tree == grown && nodes == Nodes(grown)
    {
      tree := grown;
      nodes := Nodes(grown);
    }

    /** Why `add_Dline` throws a new D-line away: a stored one as wide holds it, or an unplaced exception does. */
    ghost predicate Refuses(c: Conf, leftover: seq<Conf>)
      reads this
    {
      HasBroader(tree, c.ip, c.host) || FirstHolding(leftover, c.ip).Some?
    }

    /**
     `add_Dline` in the slot of its address, up to the rescan of the unplaced exceptions `leftover`.
     A mask of zero stands for a single address. `coin` gives the side from which deletion takes
     the replacement of each deleted node.
     */
    method AddDline(c0: Conf, leftover: seq<Conf>, coin: Net -> bool) returns (node: IpNode?, ghost gathered: seq<Conf>)
      requires Valid() && !c0.exempt && c0.ip < 0x1_0000_0000 && (c0.host <= 24 || c0.host == 32)
      requires Slot(c0.ip) == index
      modifies this, nodes`left, nodes`right
      ensures Valid() && (node == null <==> old(Refuses(EffectiveConf(c0), leftover)))
      ensures node == null ==> tree == old(tree) && nodes == old(nodes) && oracle == old(oracle) && root == old(root)
      ensures old(Covering(nodes, oracle)) && Masked(EffectiveConf(c0)) ==> Covering(nodes, oracle)
      ensures node != null ==>
        && fresh(node) && node.net == NetOf(EffectiveConf(c0)) && node in nodes && nodes <= old(nodes) + {node}
        && tree == Insert(Prune(old(tree), node.net, coin), node)
        && oracle == Or(old(oracle), OracleBits(c0.ip, EffectiveConf(c0).host))
        && node.conf == [EffectiveConf(c0)] + TrimDlines(gathered)
      ensures gathered == old(Gather(tree, NetOf(EffectiveConf(c0))))
    {
      var c := EffectiveConf(c0);
      var refused := Refused(c, leftover);
      if refused {
        node, gathered := null, Gather(tree, NetOf(c));
      } else {
        ghost var stored, was := nodes, oracle;
        node, gathered := Accept(c, coin);
        if Covering(stored, was) && Masked(c) {
          OracleStaysCovering(stored, nodes, was, c, node);
        }
      }
    }

    method Refused(c: Conf, leftover: seq<Conf>) returns (r: bool)
      requires Valid()
      ensures r == Refuses(c, leftover)
    {
      var found := FindIpSubtree(root, c.ip, tree);
      var e := ScanFor(leftover, c.ip);
      r := (found != null && found.net.host >= c.host) || e.Some?;
    }

    method Accept(c: Conf, coin: Net -> bool) returns (node: IpNode, ghost gathered: seq<Conf>)
      requires Valid() && !c.exempt && c.ip < 0x1_0000_0000 && c.host <= 24 && Slot(c.ip) == index
      requires !HasBroader(tree, c.ip, c.host)
      modifies this, nodes`left, nodes`right
      ensures Valid() && fresh(node) && node in nodes && nodes <= old(nodes) + {node}
      ensures node.net == NetOf(c) && tree == Insert(Prune(old(tree), NetOf(c), coin), node)
      ensures gathered == old(Gather(tree, NetOf(c))) && node.conf == [c] + TrimDlines(gathered)
      ensures oracle == Or(old(oracle), OracleBits(c.ip, c.host))
    {
      ghost var was := Gather(tree, NetOf(c));
      oracle := Or(oracle, OracleBits(c.ip, c.host));
      assert Gather(tree, NetOf(c)) == was;
      node, gathered := Plant(c, coin);
    }

    /** A network in the tree is disjoint from all others and is the one found for its addresses. */
    lemma NewIsFound(node: IpNode)
      requires Valid() && node in nodes
      ensures forall n <- nodes :: n == node || !Overlap(n.net, node.net)
      ensures forall y: nat :: Contains(node.net, y) ==> Find(tree, y) == Some(node)
    {
      forall y: nat | Contains(node.net, y)
        ensures Find(tree, y) == Some(node)
      {
        FindIsScan(tree, y);
      }
    }
  }

  function EffectiveConf(c: Conf): Conf { if c.host == 32 then c.(host := 0) else c }

  /** An entry without a mask is for one address, any other for those that share all its bits but the last `host`. */
  lemma EntryHolds(c: Conf, x: nat)
    ensures c.host == 32 ==> (Contains(NetOf(EffectiveConf(c)), x) <==> x == c.ip)
    ensures c.host != 32 ==> (Contains(NetOf(EffectiveConf(c)), x) <==> x / Size(c.host) == c.ip / Size(c.host))
  {
    RoundIs(x, c.host);
    RoundIs(c.ip, c.host);
    SameQuotient(x / Size(c.host), c.ip / Size(c.host), Size(c.host));
  }

  lemma SameQuotient(a: nat, b: nat, n: nat)
    requires n > 0
    ensures a * n == b * n <==> a == b
  {
    if a < b {
      assert b * n == a * n + (b - a) * n && (b - a) * n > 0;
    } else if b < a {
      assert a * n == b * n + (a - b) * n && (a - b) * n > 0;
    }
  }

  /** The address of the entry has no bits outside its mask. */
  predicate Masked(c: Conf) { Round(c.ip, c.host) == c.ip }

  function NetOf(c: Conf): Net { Net(Round(c.ip, c.host), c.host) }

  /** After a masked D-line was added, the oracle still lets every banned address through. */
  lemma OracleStaysCovering(stored: set<IpNode>, now: set<IpNode>, oracle: nat, c: Conf, node: IpNode)
    requires Covering(stored, oracle) && now <= stored + {node} && node.net == NetOf(c) && Masked(c)
    ensures Covering(now, Or(oracle, OracleBits(c.ip, c.host)))
  {
    forall n: IpNode, x: nat | n in now && Contains(n.net, x)
      ensures Passes(Or(oracle, OracleBits(c.ip, c.host)), x)
    {
      LetThrough(stored, oracle, c, n, x);
    }
  }

  lemma LetThrough(stored: set<IpNode>, oracle: nat, c: Conf, n: IpNode, x: nat)
    requires Covering(stored, oracle) && Masked(c) && Contains(n.net, x) && (n in stored || n.net == NetOf(c))
    ensures Passes(Or(oracle, OracleBits(c.ip, c.host)), x)
  {
    if n !in stored {
      MaskedBitsPass(c.ip, c.host, x);
    }
    PassesMore(oracle, OracleBits(c.ip, c.host), x);
  }
}
