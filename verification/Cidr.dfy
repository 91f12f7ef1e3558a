/**
 IP networks (src/dline_conf.c). A contiguous mask is given by its number of zero bits: the mask
 word is 2^32 - 2^host, a larger mask is a smaller `host`, and `x & mask` clears the low bits.
 */
module Cidr {
  type Addr = x: nat | x < 0x1_0000_0000

  function Size(k: nat): nat
    ensures Size(k) > 0
  {
    if k == 0 then 1 else 2 * Size(k - 1)
  }

  /** `x & mask`: the low `k` bits cleared. */
  function Round(x: nat, k: nat): (r: nat)
    ensures r <= x
  {
    if k == 0 then x else 2 * Round(x / 2, k - 1)
  }

  /** `x >> k` */
  function Shift(x: nat, k: nat): nat { if k == 0 then x else Shift(x / 2, k - 1) }

  datatype Net = Net(ip: nat, host: nat)

  /** A masked network of prefix length eight or more, so that it lies in one slot of the table. */
  predicate ValidNet(n: Net) { n.host <= 24 && Round(n.ip, n.host) == n.ip && n.ip < 0x1_0000_0000 }

  predicate Contains(n: Net, x: nat) { Round(x, n.host) == n.ip }

  /** `inner` is no wider than `outer` and starts inside it: the test of `delete_ip_subtree`. */
  predicate Covers(outer: Net, inner: Net) { Round(inner.ip, outer.host) == outer.ip && inner.host <= outer.host }

  predicate Overlap(a: Net, b: Net) { Contains(a, b.ip) || Contains(b, a.ip) }

  function Slot(x: nat): nat { Shift(x, 24) }

  lemma {:induction false} SizeDoubles(x: nat, k: nat)
    ensures x / Size(k + 1) == x / 2 / Size(k)
  {
    var n := Size(k);
    var q, r := x / 2 / n, x / 2 % n;
    assert x == (q * n + r) * 2 + x % 2 == q * (2 * n) + (2 * r + x % 2);
    Quotient(x, q, 2 * r + x % 2, 2 * n);
  }

  lemma Quotient(x: nat, q: nat, r: nat, n: nat)
    requires r < n && x == q * n + r
    ensures x / n == q
  {
    var p := x / n;
    assert x == p * n + x % n;
    if p < q {
      AtLeast(p + 1, q, n);
    } else if q < p {
      AtLeast(q + 1, p, n);
    }
  }

  lemma AtLeast(a: nat, b: nat, n: nat)
    requires a <= b
    ensures a * n <= b * n && a * n == (a - 1) * n + n
  {
    assert b * n == a * n + (b - a) * n;
  }

  lemma Doubled(q: nat, n: nat)
    ensures 2 * (q * n) == q * (2 * n)
  {
  }

  /** Masking is taking the multiple of the network's size below, and shifting is dividing by it. */
  lemma {:induction false} RoundIs(x: nat, k: nat)
    ensures Shift(x, k) == x / Size(k) && Round(x, k) == x / Size(k) * Size(k)
  {
    if k > 0 {
      RoundIs(x / 2, k - 1);
      SizeDoubles(x, k - 1);
      Doubled(x / Size(k), Size(k - 1));
    }
  }

  lemma {:induction false} RoundTwice(x: nat, k: nat, l: nat)
    requires k <= l
    ensures Round(Round(x, k), l) == Round(x, l)
  {
    if k > 0 {
      assert Round(x, k) / 2 == Round(x / 2, k - 1);
      RoundTwice(x / 2, k - 1, l - 1);
    }
  }

  lemma {:induction false} RoundIsMonotone(x: nat, y: nat, k: nat)
    requires x <= y
    ensures Round(x, k) <= Round(y, k)
  {
    if k > 0 {
      RoundIsMonotone(x / 2, y / 2, k - 1);
    }
  }

  lemma {:induction false} RoundIsNear(x: nat, k: nat)
    ensures x < Round(x, k) + Size(k)
  {
    if k > 0 {
      RoundIsNear(x / 2, k - 1);
    }
  }

  lemma {:induction false} ShiftRound(x: nat, k: nat, l: nat)
    requires k <= l
    ensures Shift(Round(x, k), l) == Shift(x, l)
  {
    if k > 0 {
      assert Round(x, k) / 2 == Round(x / 2, k - 1);
      ShiftRound(x / 2, k - 1, l - 1);
    }
  }

  lemma {:induction false} ShiftIsSmall(x: nat, k: nat)
    requires x < 256 * Size(k)
    ensures Shift(x, k) < 256
  {
    if k > 0 {
      ShiftIsSmall(x / 2, k - 1);
    }
  }

  lemma SizeOfSlot()
    ensures Size(24) == 0x100_0000
  {
    assert Size(8) == 256;
    assert Size(16) == 0x1_0000;
  }

  lemma SlotIsByte(x: Addr)
    ensures Slot(x) < 256
  {
    SizeOfSlot();
    ShiftIsSmall(x, 24);
  }

  lemma SameSlot(n: Net, x: nat)
    requires ValidNet(n) && Contains(n, x)
    ensures Slot(x) == Slot(n.ip)
  {
    ShiftRound(x, n.host, 24);
  }

  /** Two prefix networks are nested or disjoint: the wider one holds the first address of the other. */
  lemma SharedAddress(a: Net, b: Net, x: nat)
    requires Contains(a, x) && Contains(b, x) && b.host <= a.host
    ensures Covers(a, b) && Contains(a, b.ip)
  {
    RoundTwice(x, b.host, a.host);
  }

  lemma NetsAreNested(a: Net, b: Net, x: nat)
    requires Contains(a, x) && Contains(b, x)
    ensures Overlap(a, b) && (Covers(a, b) || Covers(b, a))
  {
    if b.host <= a.host {
      SharedAddress(a, b, x);
    } else {
      SharedAddress(b, a, x);
    }
  }

  lemma OverlapIsNesting(a: Net, b: Net)
    requires ValidNet(a) && ValidNet(b) && Overlap(a, b)
    ensures Covers(a, b) || Covers(b, a)
  {
    NetsAreNested(a, b, if Contains(a, b.ip) then b.ip else a.ip);
  }

  lemma CoveredAddress(outer: Net, inner: Net, x: nat)
    requires Covers(outer, inner) && Contains(inner, x)
    ensures Contains(outer, x)
  {
    RoundTwice(x, inner.host, outer.host);
  }

  /** The search goes left: no network at or right of `cur` holds `x`. */
  lemma SearchLeft(cur: Net, other: Net, x: nat)
    requires ValidNet(cur) && cur.ip > Round(x, cur.host) && Contains(other, x)
    ensures other.ip < cur.ip
  {
    if cur.ip <= x {
      RoundIsMonotone(cur.ip, x, cur.host);
    }
  }

  /** The search goes right: no disjoint network left of `cur` holds `x`. */
  lemma SearchRight(cur: Net, other: Net, x: nat)
    requires ValidNet(cur) && ValidNet(other) && !Overlap(cur, other)
    requires cur.ip < Round(x, cur.host) && Contains(other, x)
    ensures other.ip > cur.ip
  {
    if other.ip <= cur.ip {
      RoundIsMonotone(other.ip, cur.ip, other.host);
      RoundIsMonotone(cur.ip, x, other.host);
    }
  }

  // ---------- the oracle ----------

  /** `a | b` */
  function Or(a: nat, b: nat): nat {
    if a == 0 then b else if b == 0 then a
    else 2 * Or(a / 2, b / 2) + if a % 2 == 1 || b % 2 == 1 then 1 else 0
  }

  /** `a & b` */
  function And(a: nat, b: nat): nat {
    if a == 0 || b == 0 then 0
    else 2 * And(a / 2, b / 2) + if a % 2 == 1 && b % 2 == 1 then 1 else 0
  }

  /** Bit `i` of a number. */
  predicate BitOf(x: nat, i: nat) { if i == 0 then x % 2 == 1 else BitOf(x / 2, i - 1) }

  lemma {:induction false} NoBitOf(i: nat)
    ensures !BitOf(0, i)
  {
    if i > 0 {
      NoBitOf(i - 1);
    }
  }

  /** `|` and `&` work bit by bit. */
  lemma {:induction false} OrAndBits(a: nat, b: nat, i: nat)
    ensures BitOf(Or(a, b), i) <==> BitOf(a, i) || BitOf(b, i)
    ensures BitOf(And(a, b), i) <==> BitOf(a, i) && BitOf(b, i)
  {
    NoBitOf(i);
    if a != 0 && b != 0 && i > 0 {
      OrAndBits(a / 2, b / 2, i - 1);
      assert Or(a, b) / 2 == Or(a / 2, b / 2) && And(a, b) / 2 == And(a / 2, b / 2);
    }
  }

  /** The oracle word lets `x` through. */
  predicate Passes(oracle: nat, x: nat) { And(oracle, x) == x }

  /** `(0xffffffff - mask) + ip`: what one D-line adds to the oracle. */
  function OracleBits(ip: nat, host: nat): nat { Size(host) - 1 + ip }

  lemma HalvesPass(oracle: nat, x: nat)
    requires oracle != 0
    ensures Passes(oracle, x) <==> Passes(oracle / 2, x / 2) && (x % 2 == 1 ==> oracle % 2 == 1)
  {
  }

  lemma {:induction false} PassesMore(oracle: nat, more: nat, x: nat)
    requires Passes(oracle, x) || Passes(more, x)
    ensures Passes(Or(oracle, more), x)
  {
    if oracle != 0 && more != 0 && x != 0 {
      var o := Or(oracle, more);
      HalvesPass(oracle, x);
      HalvesPass(more, x);
      PassesMore(oracle / 2, more / 2, x / 2);
      assert o / 2 == Or(oracle / 2, more / 2) && (o % 2 == 1 <==> oracle % 2 == 1 || more % 2 == 1);
      HalvesPass(o, x);
    }
  }

  lemma {:induction false} AndSelf(x: nat)
    ensures And(x, x) == x
  {
    if x > 0 {
      AndSelf(x / 2);
    }
  }

  lemma {:induction false} MaskedBitsPass(ip: nat, host: nat, x: nat)
    requires Round(ip, host) == ip && Round(x, host) == ip
    ensures Passes(OracleBits(ip, host), x)
  {
    if host == 0 {
      AndSelf(x);
    } else if x > 0 {
      MaskedBitsPass(ip / 2, host - 1, x / 2);
      assert OracleBits(ip, host) / 2 == OracleBits(ip / 2, host - 1);
    }
  }

  lemma {:induction false} UnmaskedBitsFail(ip: nat, host: nat)
    requires Round(ip, host) != ip
    ensures Round(Round(ip, host) + Size(host) - 1, host) == Round(ip, host)
    ensures !Passes(OracleBits(ip, host), Round(ip, host) + Size(host) - 1)
  {
    RoundLast(ip, host);
    LastHalves(ip, host);
    HalvesPass(OracleBits(ip, host), Round(ip, host) + Size(host) - 1);
    if ip % 2 == 0 {
      UnmaskedBitsFail(ip / 2, host - 1);
    }
  }

  /** The last address of a network and the bits of its D-line, halved. */
  lemma LastHalves(ip: nat, host: nat)
    requires host > 0
    ensures
      var x := Round(ip, host) + Size(host) - 1;
      x % 2 == 1 && x / 2 == Round(ip / 2, host - 1) + Size(host - 1) - 1
    ensures ip % 2 == 0 ==> OracleBits(ip, host) / 2 == OracleBits(ip / 2, host - 1)
    ensures ip % 2 == 1 ==> OracleBits(ip, host) % 2 == 0
  {
  }

  lemma {:induction false} RoundLast(ip: nat, host: nat)
    ensures Round(Round(ip, host) + Size(host) - 1, host) == Round(ip, host)
  {
    if host > 0 {
      RoundLast(ip / 2, host - 1);
      assert (Round(ip, host) + Size(host) - 1) / 2 == Round(ip / 2, host - 1) + Size(host - 1) - 1;
    }
  }

  /**
   A D-line's own bits let every address of its network through the oracle exactly when its address
   was masked. The configuration reader masks it; the DLINE command does not.
   */
  lemma OracleCoversIffMasked(ip: nat, host: nat)
    ensures (forall x: nat :: Contains(Net(Round(ip, host), host), x) ==> Passes(OracleBits(ip, host), x))
       <==> Round(ip, host) == ip
  {
    if Round(ip, host) == ip {
      forall x: nat | Contains(Net(ip, host), x)
        ensures Passes(OracleBits(ip, host), x)
      {
        MaskedBitsPass(ip, host, x);
      }
    } else {
      UnmaskedBitsFail(ip, host);
      assert Contains(Net(Round(ip, host), host), Round(ip, host) + Size(host) - 1);
    }
  }
}
