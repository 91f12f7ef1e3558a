/**
 The whole table of D-lines with the exceptions that found no place in it (src/dline_conf.c): what is added
 goes to the slot of its top byte, and the answer for an address is that of a scan of everything stored.
 */
module Dlines {
  import opened Wrappers
  import opened Cidr
  import opened IpTree
  import opened DlineTable

  const SLOTS := 256

  ghost predicate Held(stored: set<IpNode>, x: nat) { exists n <- stored :: Contains(n.net, x) }

  /** The entries that no stored network holds, in order. */
  ghost function Homeless(cs: seq<Conf>, stored: set<IpNode>): seq<Conf> {
    if cs == [] then []
    else (if Held(stored, cs[0].ip) then [] else [cs[0]]) + Homeless(cs[1..], stored)
  }

  lemma {:induction false} HomelessIs(cs: seq<Conf>, stored: set<IpNode>)
    ensures forall e :: e in Homeless(cs, stored) <==> e in cs && !Held(stored, e.ip)
  {
    if cs != [] {
      HomelessIs(cs[1..], stored);
      assert forall e :: e in cs <==> e == cs[0] || e in cs[1..];
    }
  }

  /** The entries that network `n` holds, in order. */
  function Housed(cs: seq<Conf>, n: Net): seq<Conf> {
    if cs == [] then [] else (if Contains(n, cs[0].ip) then [cs[0]] else []) + Housed(cs[1..], n)
  }

  /** The entries that a network holds, in their order. */
  lemma {:induction false} HousedConcat(a: seq<Conf>, b: seq<Conf>, n: Net)
    ensures Housed(a + b, n) == Housed(a, n) + Housed(b, n)
    decreases |a|
  {
    if a == [] {
      assert a + b == b;
    } else {
      HousedConcat(a[1..], b, n);
      assert (a + b)[1..] == a[1..] + b;
    }
  }

  lemma {:induction false} HousedIs(a: seq<Conf>, n: Net)
    ensures forall e :: e in Housed(a, n) <==> e in a && Contains(n, e.ip)
  {
    if a != [] {
      HousedIs(a[1..], n);
      assert forall e :: e in a <==> e == a[0] || e in a[1..];
    }
  }

  /** The entries that no network holds, in their order. */
  lemma {:induction false} HomelessConcat(a: seq<Conf>, b: seq<Conf>, stored: set<IpNode>)
    ensures Homeless(a + b, stored) == Homeless(a, stored) + Homeless(b, stored)
    decreases |a|
  {
    if a == [] {
      assert a + b == b;
    } else {
      HomelessConcat(a[1..], b, stored);
      assert (a + b)[1..] == a[1..] + b;
    }
  }

  /** The list of a new network: its D-line, the exceptions it holds that were unplaced, those of what it covers. */
  lemma InheritedAre(conf: seq<Conf>, c: Conf, gathered: seq<Conf>, unplaced: seq<Conf>, net: Net)
    requires conf == With([c] + TrimDlines(gathered), Housed(unplaced, net))
    ensures conf != [] && conf[0] == c
    ensures forall e :: e in conf[1..] <==> (e in gathered && e.exempt) || (e in unplaced && Contains(net, e.ip))
  {
    TrimIs(gathered, []);
    HousedIs(unplaced, net);
    assert ([c] + TrimDlines(gathered))[1..] == TrimDlines(gathered);
    assert conf == [c] + (Housed(unplaced, net) + TrimDlines(gathered));
  }

  lemma HousedCons(cs: seq<Conf>, n: Net)
    requires cs != []
    ensures Housed(cs, n) == Housed([cs[0]], n) + Housed(cs[1..], n)
  {
    assert [cs[0]][1..] == [];
  }

  /** A configuration list with more exceptions right behind its D-line. */
  function With(conf: seq<Conf>, more: seq<Conf>): seq<Conf> {
    if conf == [] then more else conf[..1] + more + conf[1..]
  }

  lemma WithWith(conf: seq<Conf>, more: seq<Conf>, first: seq<Conf>)
    requires conf != []
    ensures With(With(conf, more), first) == With(conf, first + more)
  {
    assert With(conf, more)[..1] == conf[..1] && With(conf, more)[1..] == more + conf[1..];
  }

  lemma WithOne(conf: seq<Conf>, e: Conf, n: Net)
    requires conf != []
    ensures With(conf, Housed([e], n)) == if Contains(n, e.ip) then conf[..1] + [e] + conf[1..] else conf
  {
    assert Housed([e], n) == if Contains(n, e.ip) then [e] else [];
    assert With(conf, []) == conf;
  }

  predicate GoodException(e: Conf) { e.exempt && e.ip < 0x1_0000_0000 }

  predicate GoodExceptions(cs: seq<Conf>) { forall e <- cs :: GoodException(e) }

  ghost predicate NonePlaceable(cs: seq<Conf>, stored: set<IpNode>) { forall e <- cs :: !Held(stored, e.ip) }

  lemma PlaceableMore(cs: seq<Conf>, e: Conf, stored: set<IpNode>)
    ensures NonePlaceable([e] + cs, stored) <==> NonePlaceable(cs, stored) && !Held(stored, e.ip)
    ensures GoodExceptions([e] + cs) <==> GoodException(e) && GoodExceptions(cs)
  {
    assert ([e] + cs)[0] == e && forall d :: d in [e] + cs <==> d == e || d in cs;
  }

  /** Each network's list got the exceptions of `cs` that it holds. */
  ghost predicate Given(before: map<IpNode, seq<Conf>>, after: map<IpNode, seq<Conf>>, cs: seq<Conf>) {
    after.Keys == before.Keys && forall n <- before :: after[n] == With(before[n], Housed(cs, n.net))
  }

  lemma GivenNothing(confs: map<IpNode, seq<Conf>>)
    ensures Given(confs, confs, [])
  {
    forall n <- confs
      ensures confs[n] == With(confs[n], [])
    {
      assert confs[n] == [] || confs[n][..1] + [] + confs[n][1..] == confs[n];
    }
  }

  lemma GivenOneMore(a: map<IpNode, seq<Conf>>, b: map<IpNode, seq<Conf>>, c: map<IpNode, seq<Conf>>, cs: seq<Conf>)
    requires cs != [] && (forall n <- a :: a[n] != []) && Given(a, b, cs[1..]) && Given(b, c, [cs[0]])
    ensures Given(a, c, cs)
  {
    forall n <- a
      ensures c[n] == With(a[n], Housed(cs, n.net))
    {
      WithWith(a[n], Housed(cs[1..], n.net), Housed([cs[0]], n.net));
      HousedCons(cs, n.net);
    }
  }

  class Table {
    /** `Dline` and `oracle` */
    const slots: seq<IpSlot>
    var leftover: seq<Conf>

    ghost function Stored(): (r: set<IpNode>)
      reads slots
    {
      set s, n | s in slots && n in s.nodes :: n
    }

    /** The configuration lists of the stored networks. */
    ghost function Confs(): (r: map<IpNode, seq<Conf>>)
      reads slots, Stored()
      ensures r.Keys == Stored()
    {
      map n | n in Stored() :: n.conf
    }

    ghost predicate Valid()
      reads this, slots, Stored()
    {
      Sound() && GoodExceptions(leftover)
    }

    ghost predicate Sound()
      reads slots, Stored()
    {
      && |slots| == SLOTS
      && forall i :: 0 <= i < SLOTS ==> slots[i].index == i && slots[i].nodes <= Stored() && slots[i].Valid()
    }

    /** No address of a stored network is turned away by the oracle of its slot. */
    ghost predicate Covered()
      reads slots
    {
      forall s <- slots :: Covering(s.nodes, s.oracle)
    }

    /** Every exception that a stored network holds has its place there. */
    ghost predicate Placed()
      reads this, slots
    {
      NonePlaceable(leftover, Stored())
    }

    constructor ()
      ensures Valid() && Covered() && Placed() && Stored() == {} && leftover == []
      ensures fresh(slots)
    {
      var made: seq<IpSlot> := [];
      for i := 0 to SLOTS
        invariant |made| == i && fresh(made)
        invariant forall j :: 0 <= j < i ==>
          made[j].Valid() && Covering(made[j].nodes, made[j].oracle) && made[j].index == j && made[j].nodes == {}
      {
        var s := new IpSlot(i);
        made := made + [s];
      }
      slots, leftover := made, [];
    }

    /** What holds an address is stored in the address's slot. */
    lemma HeldInSlot(n: IpNode, x: nat)
      requires Sound() && n in Stored() && Contains(n.net, x)
      ensures Slot(x) < SLOTS && n in slots[Slot(x)].nodes
    {
      var s :| s in slots && n in s.nodes;
      var i :| 0 <= i < SLOTS && slots[i] == s;
      assert ValidNet(n.net) && Slot(n.net.ip) == i;
      SameSlot(n.net, x);
    }

    /** No address is in two stored networks. */
    lemma OneHolds(n: IpNode, m: IpNode, x: nat)
      requires Sound() && n in Stored() && m in Stored() && Contains(n.net, x) && Contains(m.net, x)
      ensures n == m
    {
      HeldInSlot(n, x);
      HeldInSlot(m, x);
      FindIsScan(slots[Slot(x)].tree, x);
    }

    /** `match_Dline` */
    method MatchDline(x: Addr) returns (m: Match)
      requires Sound()
      ensures Covered() ==> IsScanResult(Stored(), x, m)
    {
      SlotIsByte(x);
      m := slots[Slot(x)].MatchDline(x);
      if Covered() {
        assert slots[Slot(x)] in slots;
        ScanIsLocal(x, m);
      }
    }

    lemma ScanIsLocal(x: nat, m: Match)
      requires Sound() && Slot(x) < SLOTS && IsScanResult(slots[Slot(x)].nodes, x, m)
      ensures IsScanResult(Stored(), x, m)
    {
      forall n <- Stored() | Contains(n.net, x)
        ensures n in slots[Slot(x)].nodes
      {
        HeldInSlot(n, x);
      }
    }

    lemma SlotsDisjoint(i: nat, j: nat)
      requires Sound() && i < SLOTS && j < SLOTS && i != j
      ensures slots[i] != slots[j] && slots[i].nodes !! slots[j].nodes
    {
      assert forall n <- slots[i].nodes :: Slot(n.net.ip) == i;
      assert forall n <- slots[j].nodes :: Slot(n.net.ip) == j;
    }

    /** `add_dline` for an exception that may have a parent: it goes behind the D-line of the network that holds it. */
    method Place(e: Conf) returns (placed: bool)
      requires Sound() && GoodException(e)
      modifies Stored()
      ensures Sound() && placed == Held(Stored(), e.ip)
      ensures Given(old(Confs()), Confs(), [e])
    {
      SlotIsByte(e.ip);
      var k := Slot(e.ip);
      assert slots[k] in slots;
      PlaceIsLocal(e, k);
      ghost var found := Find(slots[k].tree, e.ip);
      placed := PlaceAt(k, e);
      forall n <- old(Stored())
        ensures n.conf == With(old(n.conf), Housed([e], n.net))
      {
        WithOne(old(n.conf), e, n.net);
        assert old(n.conf) != [] && (Contains(n.net, e.ip) <==> found == Some(n));
      }
    }

    method PlaceAt(k: nat, e: Conf) returns (placed: bool)
      requires Sound() && k < SLOTS && e.exempt
      modifies slots[k].nodes`conf
      ensures Sound() && placed == Find(slots[k].tree, e.ip).Some?
      ensures forall n :: n in Stored() ==>
        n.conf ==
          if n in slots[k].nodes && Find(slots[k].tree, e.ip) == Some(n) then old(n.conf[..1]) + [e] + old(n.conf[1..])
          else old(n.conf)
    {
      OthersApart(k);
      placed := slots[k].Place(e);
      OthersStay(k);
    }

    lemma OthersApart(k: nat)
      requires Sound() && k < SLOTS
      ensures forall j :: 0 <= j < SLOTS && j != k ==> slots[j].nodes !! slots[k].nodes && slots[j] != slots[k]
    {
      forall j | 0 <= j < SLOTS && j != k
        ensures slots[j].nodes !! slots[k].nodes && slots[j] != slots[k]
      {
        SlotsDisjoint(j, k);
      }
    }

    /** What happens in one slot leaves the others as they were. */
    twostate lemma OthersStay(k: nat)
      requires old(Sound()) && k < SLOTS && slots[k].Valid()
      requires forall j :: 0 <= j < SLOTS && j != k ==> unchanged(slots[j]) && unchanged(slots[j].nodes)
      ensures Sound()
    {
      forall i | 0 <= i < SLOTS
        ensures slots[i].index == i && slots[i].nodes <= Stored() && slots[i].Valid()
      {
        assert slots[i] in slots;
      }
    }

    /** The node found in the slot is the one stored network that holds the address. */
    lemma PlaceIsLocal(e: Conf, k: nat)
      requires Sound() && k < SLOTS && Slot(e.ip) == k
      ensures Held(Stored(), e.ip) <==> Find(slots[k].tree, e.ip).Some?
      ensures forall n <- Stored() :: Contains(n.net, e.ip) <==> Find(slots[k].tree, e.ip) == Some(n)
      ensures forall n <- Stored() :: Find(slots[k].tree, e.ip) == Some(n) ==> n in slots[k].nodes
      ensures forall n <- Stored() :: n.conf != []
    {
      FindIsScan(slots[k].tree, e.ip);
      assert slots[k] in slots;
      forall n <- Stored()
        ensures n.conf != []
        ensures Contains(n.net, e.ip) <==> Find(slots[k].tree, e.ip) == Some(n)
      {
        var s :| s in slots && n in s.nodes;
        var i :| 0 <= i < SLOTS && slots[i] == s;
        assert GoodConf(n);
        if Contains(n.net, e.ip) {
          HeldInSlot(n, e.ip);
        }
      }
    }

    /** `add_dline` */
    method AddException(e: Conf)
      requires Valid() && GoodException(e)
      modifies this, Stored()
      ensures Valid() && (old(Placed()) ==> Placed())
      ensures leftover == if Held(Stored(), e.ip) then old(leftover) else [e] + old(leftover)
      ensures Given(old(Confs()), Confs(), [e])
    {
      ghost var stored := Stored();
      PlaceableMore(leftover, e, stored);
      var placed := Place(e);
      assert Stored() == stored && placed == Held(stored, e.ip);
      if !placed {
        Leave([e] + leftover);
      }
    }

    method Leave(cs: seq<Conf>)
      requires Sound() && GoodExceptions(cs)
      modifies this
      ensures Valid() && leftover == cs && Stored() == old(Stored()) && Confs() == old(Confs())
    {
      leftover := cs;
    }

    /** `rescan_dlines`: what can be placed goes in from the back, so that it stands there in order. */
    method RescanDlines(s: seq<Conf>) returns (left: seq<Conf>)
      requires Sound() && GoodExceptions(s)
      modifies Stored()
      ensures Sound() && left == Homeless(s, Stored()) && Stored() == old(Stored()) && Given(old(Confs()), Confs(), s)
    {
      ghost var a := Confs();
      SomeConf();
      if s == [] {
        GivenNothing(a);
        return [];
      }
      left := RescanDlines(s[1..]);
      ghost var b := Confs();
      var placed := Place(s[0]);
      GivenOneMore(a, b, Confs(), s);
      left := if placed then left else [s[0]] + left;
    }

    /** Every list starts with a D-line. */
    lemma SomeConf()
      requires Sound()
      ensures forall n <- Stored() :: n.conf != []
    {
      forall n <- Stored()
        ensures n.conf != []
      {
        var s :| s in slots && n in s.nodes;
        var i :| 0 <= i < SLOTS && slots[i] == s;
        assert GoodConf(n);
      }
    }

    /** A stored network as wide holds the address of the new one, or an unplaced exception does. */
    ghost predicate Refuses(c: Conf)
      reads this, slots
    {
      HeldAsWide(Stored(), c) || FirstHolding(leftover, c.ip).Some?
    }

    lemma RefusesIsLocal(c: Conf)
      requires Valid() && c.ip < 0x1_0000_0000 && Slot(c.ip) < SLOTS
      ensures Refuses(c) <==> slots[Slot(c.ip)].Refuses(c, leftover)
    {
      var tree := slots[Slot(c.ip)].tree;
      FindIsScan(tree, c.ip);
      assert slots[Slot(c.ip)] in slots;
      if HeldAsWide(Stored(), c) {
        var n :| n in Stored() && Contains(n.net, c.ip) && n.net.host >= c.host;
        HeldInSlot(n, c.ip);
      }
    }

    /** A stored network that the new one covers has the entry on its list. */
    ghost predicate CoveredHas(net: Net, e: Conf)
      reads slots, Stored()
    {
      exists n <- Stored() :: Covers(net, n.net) && e in n.conf
    }

    /** What the new network covers is in its slot. */
    lemma GatheredHere(net: Net)
      requires Sound() && ValidNet(net) && Slot(net.ip) < SLOTS
      ensures forall e :: e in Gather(slots[Slot(net.ip)].tree, net) <==> CoveredHas(net, e)
    {
      var k := Slot(net.ip);
      GatheredIs(slots[k].tree, net);
      assert slots[k] in slots;
      forall n <- Stored() | Covers(net, n.net)
        ensures n in slots[k].nodes
      {
        SameSlot(net, n.net.ip);
        var i := SlotOf(n);
        assert Slot(n.net.ip) == i;
      }
    }

    /** An address of the new network that is excepted now wherever it was excepted before. */
    ghost predicate StaysExcepted(was: map<IpNode, seq<Conf>>, node: IpNode)
      reads node
    {
      forall n <- was, x: nat ::
        Covers(node.net, n.net) && Contains(n.net, x) && FirstHolding(was[n], x).Some? ==>
          FirstHolding(node.conf, x).Some?
    }

    /**
       `add_Dline`; it says which node it added, if it did. The new list has exactly the exceptions of the
       networks that go and those that had no place and find it here.
     */
    method AddDline(c0: Conf, coin: Net -> bool) returns (node: IpNode?, ghost gathered: seq<Conf>)
      requires Valid() && !c0.exempt && c0.ip < 0x1_0000_0000 && (c0.host <= 24 || c0.host == 32)
      modifies this, slots, Stored()
      ensures Valid() && (old(Placed()) ==> Placed())
      ensures old(Covered()) && Masked(EffectiveConf(c0)) ==> Covered()
      ensures node == null <==> old(Refuses(EffectiveConf(c0)))
      ensures node == null ==> Stored() == old(Stored()) && Confs() == old(Confs()) && leftover == old(leftover)
      ensures node != null ==>
        Added(old(Stored()), old(leftover), old(Confs()), Stored(), leftover, Confs(), node, EffectiveConf(c0),
              gathered)
      ensures node != null ==> fresh(node) && node.conf != [] && node.conf[0] == EffectiveConf(c0)
      ensures node != null ==> forall e ::
        e in node.conf[1..] <==>
        (e.exempt && old(CoveredHas(NetOf(EffectiveConf(c0)), e))) || (e in old(leftover) && Contains(node.net, e.ip))
      ensures node != null ==> StaysExcepted(old(Confs()), node)
      ensures Slot(c0.ip) < SLOTS && gathered == old(Gather(slots[Slot(c0.ip)].tree, NetOf(EffectiveConf(c0))))
      ensures node != null ==>
        slots[Slot(c0.ip)].tree == Insert(Prune(old(slots[Slot(c0.ip)].tree), node.net, coin), node)
      ensures forall j :: 0 <= j < SLOTS && j != Slot(c0.ip) ==> unchanged(slots[j])
    {
      SlotIsByte(c0.ip);
      var c := EffectiveConf(c0);
      ghost var net, was, unplaced := NetOf(c), Confs(), leftover;
      ShiftRound(c.ip, c.host, 24);
      RoundTwice(c.ip, c.host, c.host);
      GatheredHere(net);
      node, gathered := AddAndRescan(c0, coin);
      if node != null {
        InheritedAre(node.conf, c, gathered, unplaced, net);
        Excepted(was, node, gathered);
      }
    }

    lemma Excepted(was: map<IpNode, seq<Conf>>, node: IpNode, gathered: seq<Conf>)
      requires node.conf != [] && forall e :: e in gathered && e.exempt ==> e in node.conf[1..]
      requires forall n, e :: n in was && Covers(node.net, n.net) && e in was[n] ==> e in gathered
      ensures StaysExcepted(was, node)
    {
      forall n <- was, x: nat | Covers(node.net, n.net) && Contains(n.net, x) && FirstHolding(was[n], x).Some?
        ensures FirstHolding(node.conf, x).Some?
      {
        FirstHoldingIs(was[n], x);
        FirstHoldingIs(node.conf, x);
        var e :| e in was[n] && e.exempt && Round(x, e.host) == e.ip;
        assert e in node.conf[1..];
      }
    }

    method AddAndRescan(c0: Conf, coin: Net -> bool) returns (node: IpNode?, ghost gathered: seq<Conf>)
      requires Valid() && !c0.exempt && c0.ip < 0x1_0000_0000 && (c0.host <= 24 || c0.host == 32) && Slot(c0.ip) < SLOTS
      modifies this, slots, Stored()
      ensures Valid() && (old(Placed()) ==> Placed())
      ensures old(Covered()) && Masked(EffectiveConf(c0)) ==> Covered()
      ensures node == null <==> old(Refuses(EffectiveConf(c0)))
      ensures node == null ==> Stored() == old(Stored()) && Confs() == old(Confs()) && leftover == old(leftover)
      ensures node != null ==>
        Added(old(Stored()), old(leftover), old(Confs()), Stored(), leftover, Confs(), node, EffectiveConf(c0),
              gathered)
      ensures node != null ==> fresh(node)
      ensures node != null ==>
        node.conf == With([EffectiveConf(c0)] + TrimDlines(gathered), Housed(old(leftover), node.net))
      ensures gathered == old(Gather(slots[Slot(c0.ip)].tree, NetOf(EffectiveConf(c0))))
      ensures node != null ==>
        slots[Slot(c0.ip)].tree == Insert(Prune(old(slots[Slot(c0.ip)].tree), node.net, coin), node)
      ensures forall j :: 0 <= j < SLOTS && j != Slot(c0.ip) ==> unchanged(slots[j])
    {
      node, gathered := AddAt(Slot(c0.ip), c0, coin);
      if node != null {
        ghost var stored, confs := Stored(), Confs();
        Rescan();
        AddedThenGiven(old(Stored()), old(Confs()), stored, confs, node, EffectiveConf(c0), gathered, old(leftover),
                       leftover, Confs());
        assert Confs()[node] == node.conf;
      }
    }

    /** The last step of `add_Dline`. */
    method Rescan()
      requires Valid()
      modifies this, Stored()
      ensures Valid() && Placed() && Stored() == old(Stored()) && Covered() == old(Covered())
      ensures forall j :: 0 <= j < SLOTS ==> unchanged(slots[j])
      ensures leftover == Homeless(old(leftover), Stored()) && Given(old(Confs()), Confs(), old(leftover))
    {
      var left := RescanDlines(leftover);
      HomelessIs(leftover, Stored());
      Leave(left);
    }

    /** The part of `add_Dline` in the slot of the address. */
    method AddAt(k: nat, c0: Conf, coin: Net -> bool) returns (node: IpNode?, ghost gathered: seq<Conf>)
      requires Valid() && !c0.exempt && c0.ip < 0x1_0000_0000 && (c0.host <= 24 || c0.host == 32)
      requires k < SLOTS && k == Slot(c0.ip)
      modifies slots, Stored()
      ensures Valid() && (node == null <==> old(Refuses(EffectiveConf(c0))))
      ensures old(Covered()) && Masked(EffectiveConf(c0)) ==> Covered()
      ensures node != null ==> fresh(node)
      ensures gathered == old(Gather(slots[k].tree, NetOf(EffectiveConf(c0))))
      ensures forall j :: 0 <= j < SLOTS && j != k ==> unchanged(slots[j])
      ensures node != null ==> slots[k].tree == Insert(Prune(old(slots[k].tree), node.net, coin), node)
      ensures Adds(old(Stored()), old(Confs()), Stored(), Confs(), node, EffectiveConf(c0), gathered)
    {
      RefusesIsLocal(EffectiveConf(c0));
      node, gathered := AddInSlot(k, c0, leftover, coin);
      ConfsAfter(node, [EffectiveConf(c0)] + TrimDlines(gathered));
    }

    method AddInSlot(k: nat, c0: Conf, unplaced: seq<Conf>, coin: Net -> bool)
      returns (node: IpNode?, ghost gathered: seq<Conf>)
      requires Sound() && !c0.exempt && c0.ip < 0x1_0000_0000 && (c0.host <= 24 || c0.host == 32)
      requires k < SLOTS && k == Slot(c0.ip)
      modifies slots[k], slots[k].nodes`left, slots[k].nodes`right
      ensures Sound() && (node == null <==> old(slots[k].Refuses(EffectiveConf(c0), unplaced)))
      ensures old(Covered()) && Masked(EffectiveConf(c0)) ==> Covered()
      ensures if node == null then Stored() == old(Stored()) else node in Stored() && Stored() <= old(Stored()) + {node}
      ensures gathered == old(Gather(slots[k].tree, NetOf(EffectiveConf(c0))))
      ensures forall j :: 0 <= j < SLOTS && j != k ==> unchanged(slots[j])
      ensures node != null ==> slots[k].tree == Insert(Prune(old(slots[k].tree), node.net, coin), node)
      ensures node != null ==>
        fresh(node) && node.net == NetOf(EffectiveConf(c0)) && node.conf == [EffectiveConf(c0)] + TrimDlines(gathered)
    {
      node, gathered := AddCovering(k, c0, unplaced, coin);
      StoredAfter(k, node);
    }

    method AddCovering(k: nat, c0: Conf, unplaced: seq<Conf>, coin: Net -> bool)
      returns (node: IpNode?, ghost gathered: seq<Conf>)
      requires Sound() && !c0.exempt && c0.ip < 0x1_0000_0000 && (c0.host <= 24 || c0.host == 32)
      requires k < SLOTS && k == Slot(c0.ip)
      modifies slots[k], slots[k].nodes`left, slots[k].nodes`right
      ensures Sound() && (forall j :: 0 <= j < SLOTS && j != k ==> unchanged(slots[j]))
      ensures node == null <==> old(slots[k].Refuses(EffectiveConf(c0), unplaced))
      ensures old(Covered()) && Masked(EffectiveConf(c0)) ==> Covered()
      ensures node == null ==> slots[k].nodes == old(slots[k].nodes)
      ensures gathered == old(Gather(slots[k].tree, NetOf(EffectiveConf(c0))))
      ensures node != null ==> slots[k].tree == Insert(Prune(old(slots[k].tree), node.net, coin), node)
      ensures node != null ==>
        && fresh(node) && node.net == NetOf(EffectiveConf(c0))
           && node.conf == [EffectiveConf(c0)] + TrimDlines(gathered)
        && node in slots[k].nodes && slots[k].nodes <= old(slots[k].nodes) + {node}
    {
      node, gathered := AddThere(k, c0, unplaced, coin);
      CoveredAfter(k);
    }

    method AddThere(k: nat, c0: Conf, unplaced: seq<Conf>, coin: Net -> bool)
      returns (node: IpNode?, ghost gathered: seq<Conf>)
      requires Sound() && !c0.exempt && c0.ip < 0x1_0000_0000 && (c0.host <= 24 || c0.host == 32)
      requires k < SLOTS && k == Slot(c0.ip)
      modifies slots[k], slots[k].nodes`left, slots[k].nodes`right
      ensures Sound() && (forall j :: 0 <= j < SLOTS && j != k ==> unchanged(slots[j]))
      ensures node == null <==> old(slots[k].Refuses(EffectiveConf(c0), unplaced))
      ensures old(Covering(slots[k].nodes, slots[k].oracle)) && Masked(EffectiveConf(c0)) ==>
        Covering(slots[k].nodes, slots[k].oracle)
      ensures node == null ==> slots[k].nodes == old(slots[k].nodes)
      ensures gathered == old(Gather(slots[k].tree, NetOf(EffectiveConf(c0))))
      ensures node != null ==> slots[k].tree == Insert(Prune(old(slots[k].tree), node.net, coin), node)
      ensures node != null ==>
        && fresh(node) && node.net == NetOf(EffectiveConf(c0))
           && node.conf == [EffectiveConf(c0)] + TrimDlines(gathered)
        && node in slots[k].nodes && slots[k].nodes <= old(slots[k].nodes) + {node}
    {
      OthersApart(k);
      node, gathered := AddAlone(k, c0, unplaced, coin);
      OthersStay(k);
    }

    method AddAlone(k: nat, c0: Conf, unplaced: seq<Conf>, coin: Net -> bool)
      returns (node: IpNode?, ghost gathered: seq<Conf>)
      requires |slots| == SLOTS && k < SLOTS && k == Slot(c0.ip) && slots[k].Valid() && slots[k].index == k
      requires !c0.exempt && c0.ip < 0x1_0000_0000 && (c0.host <= 24 || c0.host == 32)
      requires forall j :: 0 <= j < SLOTS && j != k ==> slots[j].nodes !! slots[k].nodes && slots[j] != slots[k]
      modifies slots[k], slots[k].nodes`left, slots[k].nodes`right
      ensures slots[k].Valid()
      ensures forall j :: 0 <= j < SLOTS && j != k ==> unchanged(slots[j]) && unchanged(slots[j].nodes)
      ensures node == null <==> old(slots[k].Refuses(EffectiveConf(c0), unplaced))
      ensures old(Covering(slots[k].nodes, slots[k].oracle)) && Masked(EffectiveConf(c0)) ==>
        Covering(slots[k].nodes, slots[k].oracle)
      ensures node == null ==> slots[k].nodes == old(slots[k].nodes)
      ensures gathered == old(Gather(slots[k].tree, NetOf(EffectiveConf(c0))))
      ensures node != null ==> slots[k].tree == Insert(Prune(old(slots[k].tree), node.net, coin), node)
      ensures node != null ==>
        && fresh(node) && node.net == NetOf(EffectiveConf(c0))
           && node.conf == [EffectiveConf(c0)] + TrimDlines(gathered)
        && node in slots[k].nodes && slots[k].nodes <= old(slots[k].nodes) + {node}
    {
      ghost var others := set s | s in slots && s != slots[k];
      ghost var theirs := set s, n | s in others && n in s.nodes :: n;
      var slot := slots[k];
      assert slot !in others && theirs !! slot.nodes;
      node, gathered := slot.AddDline(c0, unplaced, coin);
      assert unchanged(others) && unchanged(theirs);
      forall j | 0 <= j < SLOTS && j != k
        ensures unchanged(slots[j]) && unchanged(slots[j].nodes)
      {
        assert slots[j] in others;
      }
    }

    twostate lemma CoveredAfter(k: nat)
      requires old(Sound()) && Sound() && k < SLOTS && forall j :: 0 <= j < SLOTS && j != k ==> unchanged(slots[j])
      ensures Covered() || !old(Covered()) || !Covering(slots[k].nodes, slots[k].oracle)
      ensures old(Covered()) ==> old(Covering(slots[k].nodes, slots[k].oracle))
    {
      assert slots[k] in slots;
      if old(Covered()) && Covering(slots[k].nodes, slots[k].oracle) {
        forall s | s in slots
          ensures Covering(s.nodes, s.oracle)
        {
          var j :| 0 <= j < SLOTS && slots[j] == s;
          assert old(Covering(s.nodes, s.oracle));
        }
      }
    }

    /** What is stored after a step in one slot that adds at most one node. */
    twostate lemma StoredAfter(k: nat, new node: IpNode?)
      requires old(Sound()) && Sound() && k < SLOTS
      requires forall j :: 0 <= j < SLOTS && j != k ==> slots[j].nodes == old(slots[j].nodes)
      requires
        if node == null then slots[k].nodes == old(slots[k].nodes)
        else node in slots[k].nodes && slots[k].nodes <= old(slots[k].nodes) + {node}
      ensures if node == null then Stored() == old(Stored()) else node in Stored() && Stored() <= old(Stored()) + {node}
    {
      assert slots[k] in slots;
      forall n | n in Stored()
        ensures n in old(Stored()) || (node != null && n == node)
      {
        var i := SlotOf(n);
        assert slots[i] in slots;
      }
      if node == null {
        forall n | n in old(Stored())
          ensures n in Stored()
        {
          var s :| s in slots && n in old(s.nodes);
          assert s.nodes == old(s.nodes);
        }
      }
    }

    lemma SlotOf(n: IpNode) returns (i: nat)
      requires Sound() && n in Stored()
      ensures i < SLOTS && n in slots[i].nodes
    {
      var s :| s in slots && n in s.nodes;
      i :| 0 <= i < SLOTS && slots[i] == s;
    }

    twostate lemma ConfsAfter(new node: IpNode?, new conf: seq<Conf>)
      requires
        if node == null then Stored() == old(Stored())
        else node in Stored() && Stored() <= old(Stored()) + {node} && node.conf == conf && node !in old(Stored())
      requires forall n :: n in old(Stored()) ==> n.conf == old(n.conf)
      ensures Confs() == if node == null then old(Confs()) else Renewed(old(Confs()), Stored(), node, conf)
    {
    }
  }

  /** A stored network that is as wide as the new one holds its address. */
  ghost predicate HeldAsWide(stored: set<IpNode>, c: Conf) {
    exists n <- stored :: Contains(n.net, c.ip) && n.net.host >= c.host
  }

  /** The node is stored now, if there is one, and nothing else is new. */
  ghost predicate Adds(stored: set<IpNode>, confs: map<IpNode, seq<Conf>>,
                       stored': set<IpNode>, confs': map<IpNode, seq<Conf>>,
                       node: IpNode?, c: Conf, gathered: seq<Conf>)
  {
    if node == null then stored' == stored && confs' == confs
    else
      && node !in stored && node.net == NetOf(c) && node in stored' && stored' <= stored + {node}
      && confs' == Renewed(confs, stored', node, [c] + TrimDlines(gathered))
  }

  /** What is stored and what is unplaced once the node is there. */
  ghost predicate Added(stored: set<IpNode>, unplaced: seq<Conf>, confs: map<IpNode, seq<Conf>>,
                        stored': set<IpNode>, unplaced': seq<Conf>, confs': map<IpNode, seq<Conf>>,
                        node: IpNode, c: Conf, gathered: seq<Conf>)
  {
    && node !in stored && node.net == NetOf(c) && node in stored' && stored' <= stored + {node}
    && unplaced' == Homeless(unplaced, stored')
    && Given(Renewed(confs, stored', node, [c] + TrimDlines(gathered)), confs', unplaced)
  }

  /** A node added and exceptions given to it come to both. */
  lemma AddedThenGiven(stored: set<IpNode>, confs: map<IpNode, seq<Conf>>, stored1: set<IpNode>,
                       confs1: map<IpNode, seq<Conf>>, node: IpNode, c: Conf, gathered: seq<Conf>,
                       unplaced: seq<Conf>, left: seq<Conf>, confs2: map<IpNode, seq<Conf>>)
    requires Adds(stored, confs, stored1, confs1, node, c, gathered)
    requires left == Homeless(unplaced, stored1) && Given(confs1, confs2, unplaced) && stored <= confs.Keys
    ensures Added(stored, unplaced, confs, stored1, left, confs2, node, c, gathered)
    ensures node in confs2 && confs2[node] == With([c] + TrimDlines(gathered), Housed(unplaced, node.net))
  {
  }

  /** The lists of what is stored now: the new node's, and the others' as they were. */
  ghost function Renewed(was: map<IpNode, seq<Conf>>, stored: set<IpNode>, node: IpNode, conf: seq<Conf>)
    : map<IpNode, seq<Conf>>
  {
    map n <- stored | n == node || n in was :: if n == node then conf else was[n]
  }

  /** A D-line or exception as it is read: any address, with a mask of eight bits or more, or none. */
  predicate GoodEntry(e: Conf) { e.ip < 0x1_0000_0000 && (e.host <= 24 || e.host == 32) }

  /** The entry with its address masked. */
  function AsRead(e: Conf): Conf { e.(ip := Round(e.ip, e.host)) }

  /** Every stored network is that of a D-line among the entries, and every unplaced exception is one of them. */
  ghost predicate ComesFrom(stored: set<IpNode>, unplaced: seq<Conf>, entries: seq<Conf>) {
    && (forall n <- stored :: exists e <- entries :: !e.exempt && n.net == NetOf(EffectiveConf(AsRead(e))))
    && forall x <- unplaced :: exists e <- entries :: e.exempt && x == AsRead(e)
  }

  lemma ComesFromMore(stored: set<IpNode>, unplaced: seq<Conf>, entries: seq<Conf>, e: Conf,
                      stored': set<IpNode>, unplaced': seq<Conf>)
    requires ComesFrom(stored, unplaced, entries)
    requires forall n <- stored' :: n in stored || (!e.exempt && n.net == NetOf(EffectiveConf(AsRead(e))))
    requires forall x <- unplaced' :: x in unplaced || (e.exempt && x == AsRead(e))
    ensures ComesFrom(stored', unplaced', entries + [e])
  {
    var more := entries + [e];
    assert more[|entries|] == e && forall d <- entries :: d in more;
  }

  /** The configuration reader on the D entries of a file: each address is masked, then the entry is added. */
  method LoadDlines(entries: seq<Conf>, coins: nat -> (Net -> bool)) returns (t: Table)
    requires forall e <- entries :: GoodEntry(e)
    ensures t.Valid() && t.Covered() && t.Placed() && ComesFrom(t.Stored(), t.leftover, entries)
  {
    t := new Table();
    ghost var before: seq<Conf> := [];
    for i := 0 to |entries|
      invariant t.Valid() && t.Covered() && t.Placed() && fresh(t) && fresh(t.slots) && fresh(t.Stored())
      invariant before == entries[..i] && ComesFrom(t.Stored(), t.leftover, before)
    {
      Front(entries, i);
      LoadNext(t, entries[i], coins(i), before);
      before := before + [entries[i]];
    }
    assert before == entries;
  }

  lemma Front(s: seq<Conf>, i: nat)
    requires i < |s|
    ensures s[i] in s && s[..i + 1] == s[..i] + [s[i]]
  {
  }

  method LoadNext(t: Table, e: Conf, coin: Net -> bool, ghost before: seq<Conf>)
    requires t.Valid() && t.Covered() && t.Placed() && GoodEntry(e) && ComesFrom(t.Stored(), t.leftover, before)
    modifies t, t.slots, t.Stored()
    ensures t.Valid() && t.Covered() && t.Placed() && fresh(t.Stored() - old(t.Stored()))
    ensures ComesFrom(t.Stored(), t.leftover, before + [e])
  {
    ghost var stored, unplaced := t.Stored(), t.leftover;
    LoadOne(t, e, coin);
    ComesFromMore(stored, unplaced, before, e, t.Stored(), t.leftover);
  }

  method LoadOne(t: Table, e: Conf, coin: Net -> bool)
    requires t.Valid() && t.Covered() && t.Placed() && GoodEntry(e)
    modifies t, t.slots, t.Stored()
    ensures t.Valid() && t.Covered() && t.Placed() && fresh(t.Stored() - old(t.Stored()))
    ensures forall n <- t.Stored() ::
      n in old(t.Stored()) || (!e.exempt && n.net == NetOf(EffectiveConf(AsRead(e))))
    ensures forall x <- t.leftover :: x in old(t.leftover) || (e.exempt && x == AsRead(e))
  {
    RoundTwice(e.ip, e.host, e.host);
    if e.exempt {
      t.AddException(AsRead(e));
    } else {
      var node, _ := t.AddDline(AsRead(e), coin);
      HomelessIs(old(t.leftover), t.Stored());
    }
  }
}
