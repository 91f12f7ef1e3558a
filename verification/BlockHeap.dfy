/**
 The slab allocator (src/blalloc.c): blocks of equal elements with a bitmap each, kept in a chain
 with counters of free elements, and the garbage collector that drops free blocks.
 */
module BlockHeap {
  import opened Wrappers
  import opened Words

  /** Number of clear bits among the first `n` slots of a map. */
  function ClearBits(used: seq<bool>): nat {
    if used == [] then 0 else ClearBits(used[..|used| - 1]) + if used[|used| - 1] then 0 else 1
  }

  lemma {:induction false} ClearBitsBound(used: seq<bool>)
    ensures ClearBits(used) <= |used|
    ensures ClearBits(used) == |used| <==> forall i :: 0 <= i < |used| ==> !used[i]
    ensures ClearBits(used) > 0 <==> exists i :: 0 <= i < |used| && !used[i]
  {
    if used != [] {
      var front := used[..|used| - 1];
      ClearBitsBound(front);
      assert forall i :: 0 <= i < |front| ==> front[i] == used[i];
      if !used[|used| - 1] {
        assert exists i :: 0 <= i < |used| && !used[i];
      } else if ClearBits(used) > 0 {
        var i :| 0 <= i < |front| && !front[i];
        assert !used[i];
      }
    }
  }

  /** Flipping one slot changes the count by one. */
  lemma {:induction false} ClearBitsFlip(used: seq<bool>, i: nat, b: bool)
    requires i < |used| && used[i] != b
    ensures ClearBits(used[i := b]) == ClearBits(used) + if b then -1 else 1
  {
    var n := |used| - 1;
    if i == n {
      assert used[i := b][..n] == used[..n];
    } else {
      ClearBitsFlip(used[..n], i, b);
      assert used[i := b][..n] == used[..n][i := b];
    }
  }

  /** The slots of a bitmap, `n` of them; slot `i` is bit `i % 64` of word `i / 64`. */
  function Slots(map': seq<nat>, n: nat): (r: seq<bool>)
    requires n <= |map'| * WORD_BITS
    ensures |r| == n && forall i :: 0 <= i < n ==> r[i] == Bit(map'[i / WORD_BITS], i % WORD_BITS)
  {
    seq(n, i requires 0 <= i < n => Bit(map'[i / WORD_BITS], i % WORD_BITS))
  }

  class Block {
    /** Address of the first element. */
    const elems: nat
    var freeElems: int
    const allocMap: array<nat>

    constructor (elems: nat, numlongs: nat, elemsPerBlock: nat)
      ensures this.elems == elems && freeElems == elemsPerBlock && fresh(allocMap)
      ensures allocMap.Length == numlongs + 1 && forall i :: 0 <= i <= numlongs ==> allocMap[i] == 0
    {
      this.elems, freeElems := elems, elemsPerBlock;
      allocMap := new nat[numlongs + 1](_ => 0);
    }

    /** Which of the first `n` slots are taken. */
    ghost function Used(n: nat): (r: seq<bool>)
      requires n <= allocMap.Length * WORD_BITS
      reads this, allocMap
      ensures |r| == n
    {
      Slots(allocMap[..], n)
    }

    /** `n` elements in `numlongs` words: words are words, no bit beyond the slots is set, and the counter is right. */
    ghost predicate Valid(n: nat, numlongs: nat)
      reads this, allocMap
    {
      && allocMap.Length == numlongs + 1 && 0 < n <= numlongs * WORD_BITS
      && (forall w :: 0 <= w <= numlongs ==> IsWord(allocMap[w]))
      && (forall i :: n <= i < (numlongs + 1) * WORD_BITS ==> !Bit(allocMap[i / WORD_BITS], i % WORD_BITS))
      && freeElems == ClearBits(Used(n))
    }

    /** Every bit before `unit`, `ctr` is set. */
    ghost predicate FullBefore(unit: nat, ctr: nat)
      requires unit < allocMap.Length
      reads this, allocMap
    {
      && (forall u, b :: 0 <= u < unit && 0 <= b < WORD_BITS ==> Bit(allocMap[u], b))
      && (forall b :: 0 <= b < ctr ==> Bit(allocMap[unit], b))
    }

    /** The search loop of `BlockHeapAlloc`: the first clear bit of a block that has one. */
    method FindClear(n: nat, numlongs: nat) returns (slot: nat)
      requires Valid(n, numlongs) && freeElems > 0
      ensures slot < n && !Used(n)[slot] && FullBefore(slot / WORD_BITS, slot % WORD_BITS)
    {
      ghost var u, b := ClearSlot(n, numlongs);
      var unit, ctr := 0, 0;
      while unit < numlongs
        invariant 0 <= unit <= numlongs && 0 <= ctr < WORD_BITS && (unit == numlongs ==> ctr == 0)
        invariant FullBefore(unit, ctr)
        decreases numlongs - unit, WORD_BITS - ctr
      {
        if ctr == 0 && allocMap[unit] == Pow2(WORD_BITS) - 1 {
          FullUnit(unit);
          unit := unit + 1;
          continue;
        }
        if !Bit(allocMap[unit], ctr) {
          FirstIsInside(n, numlongs, unit, ctr, u, b);
          return unit * WORD_BITS + ctr;
        }
        NextBit(unit, ctr);
        ctr := ctr + 1;
        if ctr == WORD_BITS {
          unit, ctr := unit + 1, 0;
        }
      }
      assert false;
    }

    lemma NextBit(unit: nat, ctr: nat)
      requires unit < allocMap.Length - 1 && ctr < WORD_BITS && FullBefore(unit, ctr) && Bit(allocMap[unit], ctr)
      ensures FullBefore(unit, ctr + 1) && (ctr + 1 == WORD_BITS ==> FullBefore(unit + 1, 0))
    {
    }

    lemma FullUnit(unit: nat)
      requires unit < allocMap.Length && allocMap[unit] == Pow2(WORD_BITS) - 1
      requires FullBefore(unit, 0)
      ensures unit + 1 < allocMap.Length ==> FullBefore(unit + 1, 0)
    {
      forall c | 0 <= c < WORD_BITS
        ensures Bit(allocMap[unit], c)
      {
        FullWord(WORD_BITS, c);
      }
    }

    lemma ClearSlot(n: nat, numlongs: nat) returns (u: nat, b: nat)
      requires Valid(n, numlongs) && freeElems > 0
      ensures u < numlongs && b < WORD_BITS && u * WORD_BITS + b < n && !Bit(allocMap[u], b)
    {
      ClearBitsBound(Used(n));
      var k :| 0 <= k < n && !Used(n)[k];
      u, b := k / WORD_BITS, k % WORD_BITS;
    }

    lemma FirstIsInside(n: nat, numlongs: nat, unit: nat, ctr: nat, u: nat, b: nat)
      requires Valid(n, numlongs) && unit < numlongs && ctr < WORD_BITS && FullBefore(unit, ctr)
      requires !Bit(allocMap[unit], ctr)
      requires u < numlongs && b < WORD_BITS && u * WORD_BITS + b < n && !Bit(allocMap[u], b)
      ensures
        var slot := unit * WORD_BITS + ctr;
        slot < n && slot / WORD_BITS == unit && slot % WORD_BITS == ctr && !Used(n)[slot]
    {
      var slot := unit * WORD_BITS + ctr;
      assert slot / WORD_BITS == unit && slot % WORD_BITS == ctr;
      assert unit < u || (unit == u && ctr <= b);
    }

    /** Mark a clear slot as taken. */
    method Take(n: nat, numlongs: nat, slot: nat)
      requires Valid(n, numlongs) && slot < n && !Used(n)[slot]
      modifies this`freeElems, allocMap
      ensures Valid(n, numlongs) && Used(n) == old(Used(n))[slot := true]
    {
      ghost var was := allocMap[..];
      var unit, ctr := slot / WORD_BITS, slot % WORD_BITS;
      SetBitFits(allocMap[unit], ctr, WORD_BITS);
      allocMap[unit] := SetBit(allocMap[unit], ctr);
      Flipped(was, allocMap[..], n, slot, true);
      freeElems := freeElems - 1;
    }

    /** Mark a taken slot as clear. */
    method Release(n: nat, numlongs: nat, slot: nat)
      requires Valid(n, numlongs) && slot < n && Used(n)[slot]
      modifies this`freeElems, allocMap
      ensures Valid(n, numlongs) && Used(n) == old(Used(n))[slot := false]
    {
      ghost var was := allocMap[..];
      var unit, ctr := slot / WORD_BITS, slot % WORD_BITS;
      SetBitFits(allocMap[unit], ctr, WORD_BITS);
      allocMap[unit] := ClearBit(allocMap[unit], ctr);
      Flipped(was, allocMap[..], n, slot, false);
      freeElems := freeElems + 1;
    }

    method IsTaken(n: nat, numlongs: nat, slot: nat) returns (r: bool)
      requires Valid(n, numlongs) && slot < n
      ensures r == Used(n)[slot]
    {
      r := Bit(allocMap[slot / WORD_BITS], slot % WORD_BITS);
    }

    /** The word loop of `BlockHeapGarbageCollect`: no word has a bit set. */
    method IsFree(n: nat, numlongs: nat) returns (r: bool)
      requires Valid(n, numlongs)
      ensures r <==> forall s :: 0 <= s < n ==> !Used(n)[s]
    {
      var i := 0;
      while i < numlongs
        invariant 0 <= i <= numlongs && forall w :: 0 <= w < i ==> allocMap[w] == 0
      {
        if allocMap[i] != 0 {
          var b := SomeBit(allocMap[i], WORD_BITS);
          BitIsSlot(n, numlongs, i, b);
          return false;
        }
        i := i + 1;
      }
      forall s | 0 <= s < n
        ensures !Used(n)[s]
      {
        NoBits(s % WORD_BITS);
      }
      r := true;
    }

    lemma BitIsSlot(n: nat, numlongs: nat, unit: nat, ctr: nat)
      requires Valid(n, numlongs) && unit < numlongs && ctr < WORD_BITS && Bit(allocMap[unit], ctr)
      ensures unit * WORD_BITS + ctr < n && Used(n)[unit * WORD_BITS + ctr]
    {
      var s := unit * WORD_BITS + ctr;
      assert s / WORD_BITS == unit && s % WORD_BITS == ctr;
    }
  }

  /** One bit of one word was flipped: one slot of the map is. */
  lemma Flipped(was: seq<nat>, now: seq<nat>, n: nat, slot: nat, b: bool)
    requires n <= |was| * WORD_BITS && slot < n && Slots(was, n)[slot] != b
    requires now == was[slot / WORD_BITS := Flip(was[slot / WORD_BITS], slot % WORD_BITS, b)]
    ensures Slots(now, n) == Slots(was, n)[slot := b]
    ensures ClearBits(Slots(now, n)) == ClearBits(Slots(was, n)) + if b then -1 else 1
    ensures forall i :: n <= i < |was| * WORD_BITS ==>
      Bit(now[i / WORD_BITS], i % WORD_BITS) == Bit(was[i / WORD_BITS], i % WORD_BITS)
  {
    forall i | 0 <= i < |was| * WORD_BITS
      ensures Bit(now[i / WORD_BITS], i % WORD_BITS) == if i == slot then b else Bit(was[i / WORD_BITS], i % WORD_BITS)
    {
      SetBitIs(was[i / WORD_BITS], slot % WORD_BITS, i % WORD_BITS);
      ClearBitIs(was[i / WORD_BITS], slot % WORD_BITS, i % WORD_BITS);
    }
    ClearBitsFlip(Slots(was, n), slot, b);
  }

  function Flip(w: nat, i: nat, b: bool): nat { if b then SetBit(w, i) else ClearBit(w, i) }

  /** `count` elements of `size` bytes. */
  function Bytes(count: nat, size: nat): nat { if count == 0 then 0 else Bytes(count - 1, size) + size }

  /** A slot's address. */
  function Address(elems: nat, size: nat, slot: nat): nat { elems + Bytes(slot, size) }

  /** What a block takes: `n` elements of `size` and one spare. */
  function Span(n: nat, size: nat): nat { Bytes(n + 1, size) }

  /** The `span` bytes from `a` and from `b` share none. */
  predicate Apart(a: nat, b: nat, span: nat) { a + span <= b || b + span <= a }

  predicate AllApart(bases: seq<nat>, span: nat) {
    forall i, j :: 0 <= i < j < |bases| ==> Apart(bases[i], bases[j], span)
  }

  predicate Rows(maps: seq<seq<bool>>, n: nat) { forall i :: 0 <= i < |maps| ==> |maps[i]| == n }

  /** The addresses handed out: those of the taken slots. */
  ghost function Live(bases: seq<nat>, maps: seq<seq<bool>>, n: nat, size: nat): set<nat>
    requires |bases| == |maps| && Rows(maps, n)
  {
    set i, s | 0 <= i < |bases| && 0 <= s < n && maps[i][s] :: Address(bases[i], size, s)
  }

  /** Clear slots over all blocks. */
  ghost function AllClear(maps: seq<seq<bool>>): nat {
    if maps == [] then 0 else ClearBits(maps[0]) + AllClear(maps[1..])
  }

  lemma {:induction false} AllClearUpdate(maps: seq<seq<bool>>, i: nat, m: seq<bool>)
    requires i < |maps|
    ensures AllClear(maps[i := m]) == AllClear(maps) - ClearBits(maps[i]) + ClearBits(m)
    ensures AllClear(Without(maps, i)) == AllClear(maps) - ClearBits(maps[i])
  {
    if i == 0 {
      assert maps[i := m][1..] == maps[1..] && Without(maps, i) == maps[1..];
    } else {
      AllClearUpdate(maps[1..], i - 1, m);
      assert maps[i := m][1..] == maps[1..][i - 1 := m];
      assert (Without(maps, i))[1..] == maps[1..][..i - 1] + maps[1..][i..];
    }
  }

  /** A heap with free elements has a block with one, and no block has more than the heap. */
  lemma {:induction false} AllClearBounds(maps: seq<seq<bool>>)
    ensures forall i :: 0 <= i < |maps| ==> ClearBits(maps[i]) <= AllClear(maps)
    ensures AllClear(maps) > 0 ==> exists i :: 0 <= i < |maps| && ClearBits(maps[i]) > 0
  {
    if maps != [] {
      AllClearBounds(maps[1..]);
      assert forall i :: 0 < i < |maps| ==> maps[i] == maps[1..][i - 1];
    }
  }

  /** Slots of blocks that lie apart never coincide, nor overlap. */
  lemma SlotsApart(bases: seq<nat>, n: nat, size: nat, i: nat, s: nat, j: nat, t: nat)
    requires AllApart(bases, Span(n, size)) && i < |bases| && j < |bases| && s < n && t < n && (i != j || s != t)
    ensures Address(bases[i], size, s) + size <= Address(bases[j], size, t)
      || Address(bases[j], size, t) + size <= Address(bases[i], size, s)
  {
    if i == j {
      SlotBefore(bases[i], size, if s < t then s else t, if s < t then t else s);
    } else {
      SlotInside(bases[i], size, s, n);
      SlotInside(bases[j], size, t, n);
      assert Apart(bases[if i < j then i else j], bases[if i < j then j else i], Span(n, size));
    }
  }

  lemma {:induction false} BytesGrow(a: nat, b: nat, size: nat)
    requires a <= b
    ensures Bytes(a, size) <= Bytes(b, size)
  {
    if a < b {
      BytesGrow(a, b - 1, size);
    }
  }

  lemma SlotBefore(elems: nat, size: nat, s: nat, t: nat)
    requires s < t
    ensures Address(elems, size, s) + size <= Address(elems, size, t)
  {
    BytesGrow(s + 1, t, size);
  }

  lemma SlotInside(elems: nat, size: nat, s: nat, n: nat)
    requires s < n
    ensures elems <= Address(elems, size, s) && Address(elems, size, s) + size <= elems + Span(n, size)
  {
    BytesGrow(s + 1, n + 1, size);
  }

  /** No two live addresses are less than an element apart. */
  lemma LiveElementsNeverOverlap(bases: seq<nat>, maps: seq<seq<bool>>, n: nat, size: nat, a: nat, b: nat)
    requires |bases| == |maps| && Rows(maps, n) && AllApart(bases, Span(n, size))
    requires a in Live(bases, maps, n, size) && b in Live(bases, maps, n, size) && a < b
    ensures a + size <= b
  {
    var i, s :| 0 <= i < |bases| && 0 <= s < n && maps[i][s] && a == Address(bases[i], size, s);
    var j, t :| 0 <= j < |bases| && 0 <= t < n && maps[j][t] && b == Address(bases[j], size, t);
    SlotsApart(bases, n, size, i, s, j, t);
  }

  /** Flipping a slot adds or removes exactly its address. */
  lemma LiveFlip(bases: seq<nat>, maps: seq<seq<bool>>, n: nat, size: nat, i: nat, s: nat, b: bool)
    requires |bases| == |maps| && Rows(maps, n) && AllApart(bases, Span(n, size)) && size > 0
    requires i < |bases| && s < n && maps[i][s] != b
    ensures Address(bases[i], size, s) in Live(bases, maps, n, size) <==> !b
    ensures
      var now := Live(bases, maps[i := maps[i][s := b]], n, size);
      var a := Address(bases[i], size, s);
      now == if b then Live(bases, maps, n, size) + {a} else Live(bases, maps, n, size) - {a}
  {
    var a := Address(bases[i], size, s);
    var was := Live(bases, maps, n, size);
    var maps' := maps[i := maps[i][s := b]];
    var now := Live(bases, maps', n, size);
    forall j, t | 0 <= j < |bases| && 0 <= t < n && Address(bases[j], size, t) == a
      ensures j == i && t == s
    {
      if j != i || t != s {
        SlotsApart(bases, n, size, i, s, j, t);
      }
    }
    forall x | x != a
      ensures x in now <==> x in was
    {
      if x in now {
        var j, t :| 0 <= j < |bases| && 0 <= t < n && maps'[j][t] && x == Address(bases[j], size, t);
        assert maps[j][t];
      }
      if x in was {
        var j, t :| 0 <= j < |bases| && 0 <= t < n && maps[j][t] && x == Address(bases[j], size, t);
        assert maps'[j][t];
      }
    }
    if b {
      assert maps'[i][s];
    } else {
      assert maps[i][s];
    }
  }

  /** Dropping a block none of whose slots is taken changes no live address. */
  lemma LiveDrop(bases: seq<nat>, maps: seq<seq<bool>>, n: nat, size: nat, i: nat)
    requires |bases| == |maps| && Rows(maps, n) && i < |bases| && forall s :: 0 <= s < n ==> !maps[i][s]
    ensures Live(Without(bases, i), Without(maps, i), n, size) == Live(bases, maps, n, size)
  {
    var bases', maps' := Without(bases, i), Without(maps, i);
    var was, now := Live(bases, maps, n, size), Live(bases', maps', n, size);
    forall x | x in was
      ensures x in now
    {
      var j, t :| 0 <= j < |bases| && 0 <= t < n && maps[j][t] && x == Address(bases[j], size, t);
      var k := if j < i then j else j - 1;
      assert maps'[k] == maps[j] && bases'[k] == bases[j];
    }
    forall x | x in now
      ensures x in was
    {
      var k, t :| 0 <= k < |bases'| && 0 <= t < n && maps'[k][t] && x == Address(bases'[k], size, t);
      var j := if k < i then k else k + 1;
      assert maps'[k] == maps[j] && bases'[k] == bases[j];
    }
  }

  lemma ApartCons(base: nat, bases: seq<nat>, span: nat)
    requires AllApart(bases, span) && forall i :: 0 <= i < |bases| ==> Apart(base, bases[i], span)
    ensures AllApart([base] + bases, span)
  {
    var all := [base] + bases;
    forall i, j | 0 <= i < j < |all|
      ensures Apart(all[i], all[j], span)
    {
      assert all[j] == bases[j - 1] && (i > 0 ==> all[i] == bases[i - 1]);
    }
  }

  predicate Differ(a: Block, b: Block) { a.allocMap != b.allocMap }

  /** Blocks at `bases` with the slots `maps` taken: they lie apart and `free` counts the clear slots. */
  ghost predicate Shape(bases: seq<nat>, maps: seq<seq<bool>>, n: nat, size: nat, free: int, live: set<nat>) {
    && |bases| == |maps| && AllApart(bases, Span(n, size)) && Rows(maps, n)
    && free == AllClear(maps) && live == Live(bases, maps, n, size)
  }

  function WithSlot(maps: seq<seq<bool>>, i: nat, s: nat, b: bool): (r: seq<seq<bool>>)
    requires i < |maps| && s < |maps[i]|
    ensures |r| == |maps| && r[i] == maps[i][s := b] && forall j :: 0 <= j < |maps| && j != i ==> r[j] == maps[j]
  {
    maps[i := maps[i][s := b]]
  }

  lemma ShapeFlip(bases: seq<nat>, maps: seq<seq<bool>>, n: nat, size: nat, free: int, live: set<nat>, i: nat, s: nat,
                  b: bool)
    requires Shape(bases, maps, n, size, free, live) && i < |maps| && s < n && size > 0 && maps[i][s] != b
    ensures Address(bases[i], size, s) in live <==> !b
    ensures b ==> Shape(bases, WithSlot(maps, i, s, b), n, size, free - 1, live + {Address(bases[i], size, s)})
    ensures !b ==> Shape(bases, WithSlot(maps, i, s, b), n, size, free + 1, live - {Address(bases[i], size, s)})
  {
    ClearBitsFlip(maps[i], s, b);
    AllClearUpdate(maps, i, maps[i][s := b]);
    LiveFlip(bases, maps, n, size, i, s, b);
  }

  lemma ShapeCons(base: nat, bases: seq<nat>, row: seq<bool>, maps: seq<seq<bool>>, n: nat, size: nat, free: int,
                  live: set<nat>)
    requires Shape(bases, maps, n, size, free, live) && |row| == n && forall s :: 0 <= s < n ==> !row[s]
    requires forall i :: 0 <= i < |bases| ==> Apart(base, bases[i], Span(n, size))
    ensures Shape([base] + bases, [row] + maps, n, size, free + n, live)
  {
    ApartCons(base, bases, Span(n, size));
    ClearBitsBound(row);
    var bases', maps' := [base] + bases, [row] + maps;
    assert maps'[1..] == maps;
    assert Without(bases', 0) == bases && Without(maps', 0) == maps;
    LiveDrop(bases', maps', n, size, 0);
  }

  lemma ShapeDrop(bases: seq<nat>, maps: seq<seq<bool>>, n: nat, size: nat, free: int, live: set<nat>, i: nat)
    requires Shape(bases, maps, n, size, free, live) && i < |maps| && forall s :: 0 <= s < n ==> !maps[i][s]
    ensures Shape(Without(bases, i), Without(maps, i), n, size, free - n, live)
  {
    var bases', maps' := Without(bases, i), Without(maps, i);
    forall j, k | 0 <= j < k < |bases'|
      ensures Apart(bases'[j], bases'[k], Span(n, size))
    {
      assert bases'[j] == bases[if j < i then j else j + 1] && bases'[k] == bases[if k < i then k else k + 1];
    }
    ClearBitsBound(maps[i]);
    AllClearUpdate(maps, i, maps[i]);
    LiveDrop(bases, maps, n, size, i);
  }

  /** No two blocks share a bitmap. */
  ghost predicate Separate(blocks: seq<Block>) {
    forall i, j :: 0 <= i < j < |blocks| ==> Differ(blocks[i], blocks[j])
  }

  lemma SeparateCons(b: Block, blocks: seq<Block>)
    requires Separate(blocks) && forall i :: 0 <= i < |blocks| ==> Differ(b, blocks[i])
    ensures Separate([b] + blocks)
  {
    var all := [b] + blocks;
    forall i, j | 0 <= i < j < |all|
      ensures Differ(all[i], all[j])
    {
      assert all[j] == blocks[j - 1] && (i > 0 ==> all[i] == blocks[i - 1]);
    }
  }

  class BlockHeap {
    const elemSize: nat
    const elemsPerBlock: nat
    const numlongs: nat
    /** Bytes of a block's elements. */
    const span: nat
    var blocksAllocated: int
    var freeElems: int
    /** The chain of blocks, `base` first. */
    var blocks: seq<Block>
    /** The slots taken in each block. */
    ghost var maps: seq<seq<bool>>
    /** Where each block's elements are. */
    ghost var bases: seq<nat>
    /** The addresses handed out and not given back. */
    ghost var live: set<nat>
    ghost var Repr: set<object>

    ghost predicate Valid()
      reads this, Repr
    {
      Linked() && AllHold()
    }

    /** `block` is sound, is at `base` and has the slots `row` taken. */
    ghost predicate Holds(block: Block, base: nat, row: seq<bool>)
      reads block, block.allocMap
    {
      block.elems == base && block.Valid(elemsPerBlock, numlongs) && block.Used(elemsPerBlock) == row
    }

    ghost predicate AllHold()
      reads this, Repr
    {
      && |blocks| == |bases| == |maps|
      && (forall i :: 0 <= i < |blocks| ==>
            blocks[i] in Repr && blocks[i].allocMap in Repr && Holds(blocks[i], bases[i], maps[i]))
    }

    /** `BlockHeapCreate` up to its first `newblock`; a size that is no multiple of 8 grows by its remainder. */
    constructor (elemsize: nat, elemsperblock: nat)
      requires elemsize > 0 && elemsperblock > 0
      ensures Valid() && live == {} && blocks == [] && elemsPerBlock == elemsperblock
      ensures elemSize == elemsize + elemsize % 8 && span == (elemsperblock + 1) * elemSize
    {
      elemSize := elemsize + elemsize % 8;
      elemsPerBlock := elemsperblock;
      span := Span(elemsperblock, elemsize + elemsize % 8);
      numlongs := elemsperblock / WORD_BITS + if elemsperblock % WORD_BITS == 0 then 0 else 1;
      blocksAllocated, freeElems, blocks, bases, maps, live, Repr := 0, 0, [], [], [], {}, {};
      BytesTimes(elemsperblock + 1, elemsize + elemsize % 8);
    }

    /** A fresh block goes to the head of the chain; `memory` is what the system gave for its elements. */
    method NewBlock(memory: Option<nat>) returns (failed: bool)
      requires Valid()
      requires memory.Some? ==> forall i :: 0 <= i < |bases| ==> Apart(memory.value, bases[i], span)
      modifies this
      ensures Valid() && live == old(live) && failed == memory.None?
      ensures failed ==> blocks == old(blocks)
      ensures !failed ==> |blocks| > 0 && fresh(blocks[0]) && fresh(blocks[0].allocMap) && blocks[1..] == old(blocks)
      ensures !failed ==>
        blocks[0].elems == memory.value && maps[0] == NoneTaken() && freeElems == old(freeElems) + elemsPerBlock
      ensures !failed ==> maps[1..] == old(maps)
    {
      if memory.None? {
        return true;
      }
      var b := EmptyBlock(memory.value);
      Link(b);
      failed := false;
    }

    /** A block with no slot taken. */
    method EmptyBlock(memory: nat) returns (b: Block)
      requires Valid()
      ensures fresh(b) && fresh(b.allocMap) && b.elems == memory && Holds(b, b.elems, NoneTaken())
    {
      b := new Block(memory, numlongs, elemsPerBlock);
      forall i | 0 <= i < numlongs * WORD_BITS + WORD_BITS
        ensures !Bit(b.allocMap[i / WORD_BITS], i % WORD_BITS)
      {
        NoBits(i % WORD_BITS);
      }
      assert b.Used(elemsPerBlock) == NoneTaken();
      ClearBitsBound(NoneTaken());
    }

    ghost function NoneTaken(): seq<bool> { seq(elemsPerBlock, _ => false) }

    /** Put an empty block at the head of the chain. */
    method Link(b: Block)
      requires Valid() && Holds(b, b.elems, NoneTaken())
      requires forall i :: 0 <= i < |blocks| ==> Differ(b, blocks[i])
      requires forall i :: 0 <= i < |bases| ==> Apart(b.elems, bases[i], span)
      modifies this
      ensures Valid() && live == old(live) && blocks == [b] + old(blocks) && maps == [NoneTaken()] + old(maps)
      ensures freeElems == old(freeElems) + elemsPerBlock
    {
      SeparateCons(b, blocks);
      ShapeCons(b.elems, bases, NoneTaken(), maps, elemsPerBlock, elemSize, freeElems, live);
      blocksAllocated := blocksAllocated + 1;
      freeElems := freeElems + elemsPerBlock;
      Prepend(b);
    }

    method Prepend(b: Block)
      requires AllHold() && Holds(b, b.elems, NoneTaken())
      modifies this`blocks, this`bases, this`maps, this`Repr
      ensures AllHold() && blocks == [b] + old(blocks) && maps == [NoneTaken()] + old(maps)
      ensures bases == [b.elems] + old(bases)
      ensures Repr == old(Repr) + {b, b.allocMap}
    {
      blocks, bases, maps := [b] + blocks, [b.elems] + bases, [NoneTaken()] + maps;
      Repr := Repr + {b, b.allocMap};
      forall i | 0 <= i < |blocks|
        ensures blocks[i] in Repr && blocks[i].allocMap in Repr && Holds(blocks[i], bases[i], maps[i])
      {
        assert i > 0 ==> old(blocks[i - 1] in Repr && blocks[i - 1].allocMap in Repr
          && Holds(blocks[i - 1], bases[i - 1], maps[i - 1]));
      }
    }

    /** All of `Valid` that is not about the inside of the blocks. */
    ghost predicate Linked()
      reads this
    {
      && elemSize > 0 && span == Span(elemsPerBlock, elemSize) && 0 < elemsPerBlock <= numlongs * WORD_BITS
      && |blocks| == blocksAllocated && Separate(blocks) && Shape(bases, maps, elemsPerBlock, elemSize, freeElems, live)
    }

    /** Take a clear slot of block `i`. */
    method Grab(i: nat, slot: nat)
      requires Valid() && i < |blocks| && slot < elemsPerBlock && !maps[i][slot]
      modifies this, blocks[i], blocks[i].allocMap
      ensures Valid() && blocks == old(blocks) && bases == old(bases)
      ensures Address(bases[i], elemSize, slot) !in old(live) && live == old(live) + {Address(bases[i], elemSize, slot)}
    {
      ShapeFlip(bases, maps, elemsPerBlock, elemSize, freeElems, live, i, slot, true);
      freeElems, live := freeElems - 1, live + {Address(bases[i], elemSize, slot)};
      Settle(i, slot, true);
    }

    /** Give a taken slot of block `i` back. */
    method GiveBack(i: nat, slot: nat)
      requires Valid() && i < |blocks| && slot < elemsPerBlock && maps[i][slot]
      modifies this, blocks[i], blocks[i].allocMap
      ensures Valid() && blocks == old(blocks) && bases == old(bases)
      ensures Address(bases[i], elemSize, slot) in old(live) && live == old(live) - {Address(bases[i], elemSize, slot)}
    {
      ShapeFlip(bases, maps, elemsPerBlock, elemSize, freeElems, live, i, slot, false);
      freeElems, live := freeElems + 1, live - {Address(bases[i], elemSize, slot)};
      Settle(i, slot, false);
    }

    /** The map follows the counter and the live addresses. */
    method Settle(i: nat, slot: nat, b: bool)
      requires AllHold() && Separate(blocks) && |blocks| == blocksAllocated && i < |blocks|
      requires |maps[i]| == elemsPerBlock
      requires elemSize > 0 && span == Span(elemsPerBlock, elemSize) && 0 < elemsPerBlock <= numlongs * WORD_BITS
      requires slot < elemsPerBlock && maps[i][slot] != b && Rows(maps, elemsPerBlock)
      requires Shape(bases, WithSlot(maps, i, slot, b), elemsPerBlock, elemSize, freeElems, live)
      modifies this`maps, blocks[i], blocks[i].allocMap
      ensures Valid()
    {
      Mark(i, slot, b);
    }

    /** Flip a slot of block `i`. */
    method Mark(i: nat, slot: nat, b: bool)
      requires AllHold() && Separate(blocks) && Rows(maps, elemsPerBlock) && i < |blocks|
      requires slot < elemsPerBlock && maps[i][slot] != b
      modifies this`maps, blocks[i], blocks[i].allocMap
      ensures AllHold() && maps == WithSlot(old(maps), i, slot, b)
    {
      FlipIn(i, slot, b);
      maps := WithSlot(maps, i, slot, b);
    }

    /** The bit in the block's map; the other blocks hold what they held. */
    method FlipIn(i: nat, slot: nat, b: bool)
      requires AllHold() && Separate(blocks) && Rows(maps, elemsPerBlock) && i < |blocks|
      requires slot < elemsPerBlock && maps[i][slot] != b
      modifies blocks[i], blocks[i].allocMap
      ensures forall j :: 0 <= j < |blocks| ==>
        blocks[j] in Repr && blocks[j].allocMap in Repr && Holds(blocks[j], bases[j], WithSlot(maps, i, slot, b)[j])
    {
      Others(i);
      assert Holds(blocks[i], bases[i], maps[i]);
      if b {
        blocks[i].Take(elemsPerBlock, numlongs, slot);
      } else {
        blocks[i].Release(elemsPerBlock, numlongs, slot);
      }
      forall j | 0 <= j < |blocks|
        ensures blocks[j] in Repr && blocks[j].allocMap in Repr
        ensures Holds(blocks[j], bases[j], WithSlot(maps, i, slot, b)[j])
      {
        assert j != i ==> Differ(blocks[i], blocks[j]) && old(Holds(blocks[j], bases[j], maps[j]));
      }
    }

    lemma Others(i: nat)
      requires i < |blocks| && Separate(blocks)
      ensures forall j :: 0 <= j < |blocks| && j != i ==> Differ(blocks[i], blocks[j])
    {
      forall j | 0 <= j < |blocks| && j != i
        ensures Differ(blocks[i], blocks[j])
      {
        assert if i < j then Differ(blocks[i], blocks[j]) else Differ(blocks[j], blocks[i]);
      }
    }

    /**
     `BlockHeapAlloc`: the address returned was not live and now is, whichever block it is in. It
     fails only when every slot is taken and the system gives no memory.
     */
    method Alloc(memory: Option<nat>) returns (p: Option<nat>)
      requires Valid()
      requires memory.Some? ==> forall i :: 0 <= i < |bases| ==> Apart(memory.value, bases[i], span)
      modifies this, Repr
      ensures Valid()
      ensures p.None? <==> old(freeElems) == 0 && memory.None?
      ensures p.None? ==> live == old(live)
      ensures p.Some? ==> p.value !in old(live) && live == old(live) + {p.value}
      ensures old(freeElems) > 0 || memory.None? ==> blocks == old(blocks)
      ensures old(freeElems) == 0 && memory.Some? ==>
        |blocks| > 0 && blocks[1..] == old(blocks) && p == memory && blocks[0].elems == memory.value
    {
      if freeElems == 0 {
        p := AllocFromNew(memory);
      } else {
        p := AllocFromOld();
      }
    }

    /** The first clear slot of the first block that has one. */
    method AllocFromOld() returns (p: Option<nat>)
      requires Valid() && freeElems > 0
      modifies this, Repr
      ensures Valid() && blocks == old(blocks)
      ensures p.Some? && p.value !in old(live) && live == old(live) + {p.value}
    {
      AllClearBounds(maps);
      var walker := 0;
      while walker < |blocks|
        invariant 0 <= walker <= |blocks| && forall i :: 0 <= i < walker ==> ClearBits(maps[i]) == 0
      {
        assert Holds(blocks[walker], bases[walker], maps[walker]);
        if blocks[walker].freeElems > 0 {
          p := AllocIn(walker);
          return;
        }
        walker := walker + 1;
      }
      assert false;
    }

    /** The first clear slot of a block that has one. */
    method AllocIn(walker: nat) returns (p: Option<nat>)
      requires Valid() && walker < |blocks| && ClearBits(maps[walker]) > 0
      modifies this, blocks[walker], blocks[walker].allocMap
      ensures Valid() && blocks == old(blocks)
      ensures p.Some? && p.value !in old(live) && live == old(live) + {p.value}
    {
      assert Holds(blocks[walker], bases[walker], maps[walker]);
      var slot := blocks[walker].FindClear(elemsPerBlock, numlongs);
      p := Some(Address(blocks[walker].elems, elemSize, slot));
      Grab(walker, slot);
    }

    /** The first slot of a new block. */
    method AllocFromNew(memory: Option<nat>) returns (p: Option<nat>)
      requires Valid()
      requires memory.Some? ==> forall i :: 0 <= i < |bases| ==> Apart(memory.value, bases[i], span)
      modifies this
      ensures Valid() && p == memory
      ensures p.None? ==> live == old(live) && blocks == old(blocks)
      ensures p.Some? ==> |blocks| > 0 && blocks[1..] == old(blocks) && blocks[0].elems == p.value
      ensures p.Some? ==> p.value !in old(live) && live == old(live) + {p.value}
    {
      var failed := NewBlock(memory);
      if failed {
        return None;
      }
      Grab(0, 0);
      p := Some(blocks[0].elems);
    }

    /**
     `BlockHeapFree`: the element that encloses `ptr`, if there is one, is no longer live and all
     others stay. So an address handed out is taken back, and a second time changes nothing.
     */
    method Free(ptr: nat) returns (missing: bool)
      requires Valid()
      modifies this, Repr
      ensures Valid() && blocks == old(blocks) && bases == old(bases)
      ensures missing <==> forall i :: 0 <= i < |bases| ==> !Within(bases[i], elemsPerBlock, elemSize, ptr)
      ensures missing ==> live == old(live)
      ensures !missing ==> exists i ::
        && 0 <= i < |bases| && Within(bases[i], elemsPerBlock, elemSize, ptr)
        && live == old(live) - {Enclosing(bases[i], elemSize, ptr)}
      ensures ptr in old(live) ==> !missing && live == old(live) - {ptr}
    {
      var walker := 0;
      while walker < |blocks|
        invariant 0 <= walker <= |blocks|
        invariant forall i :: 0 <= i < walker ==> !Within(bases[i], elemsPerBlock, elemSize, ptr)
      {
        assert Holds(blocks[walker], bases[walker], maps[walker]);
        if Within(blocks[walker].elems, elemsPerBlock, elemSize, ptr) {
          FreeIn(walker, ptr);
          return false;
        }
        walker := walker + 1;
      }
      LiveIsInRange(bases, maps, elemsPerBlock, elemSize, ptr);
      missing := true;
    }

    /** The rest of `BlockHeapFree`, in the block that was found. */
    method FreeIn(walker: nat, ptr: nat)
      requires Valid() && walker < |blocks| && Within(bases[walker], elemsPerBlock, elemSize, ptr)
      modifies this, blocks[walker], blocks[walker].allocMap
      ensures Valid() && blocks == old(blocks) && bases == old(bases)
      ensures live == old(live) - {Enclosing(bases[walker], elemSize, ptr)}
      ensures ptr in old(live) ==> Enclosing(bases[walker], elemSize, ptr) == ptr
    {
      assert Holds(blocks[walker], bases[walker], maps[walker]);
      SlotOf(ptr - bases[walker], elemSize, elemsPerBlock);
      LiveEnclosed(bases, maps, elemsPerBlock, elemSize, walker, ptr);
      var ctr := (ptr - blocks[walker].elems) / elemSize;
      SlotLive(bases, maps, elemsPerBlock, elemSize, walker, ctr);
      FreeSlot(walker, ctr);
    }

    /** A slot given back if it is taken. */
    method FreeSlot(walker: nat, ctr: nat)
      requires Valid() && walker < |blocks| && ctr < elemsPerBlock
      requires Address(bases[walker], elemSize, ctr) in live <==> maps[walker][ctr]
      modifies this, blocks[walker], blocks[walker].allocMap
      ensures Valid() && blocks == old(blocks) && bases == old(bases)
      ensures live == old(live) - {Address(bases[walker], elemSize, ctr)}
    {
      assert Holds(blocks[walker], bases[walker], maps[walker]);
      var taken := blocks[walker].IsTaken(elemsPerBlock, numlongs, ctr);
      if taken {
        GiveBack(walker, ctr);
      }
    }

    /**
     `BlockHeapGarbageCollect`: no block without a taken slot is left, whether or not the collector
     gave up early, and every live address stays. The first block gets no special treatment: a heap
     with nothing live loses all its blocks.
     */
    method GarbageCollect()
      requires Valid()
      modifies this
      ensures Valid() && live == old(live)
      ensures forall i :: 0 <= i < |blocks| ==> SomeTaken(maps[i])
    {
      if freeElems < elemsPerBlock {
        EveryBlockTaken();
        return;
      }
      var walker := 0;
      while walker < |blocks|
        invariant 0 <= walker <= |blocks| && Valid() && live == old(live)
        invariant forall i :: 0 <= i < walker ==> SomeTaken(maps[i])
        decreases |blocks| - walker
      {
        assert Holds(blocks[walker], bases[walker], maps[walker]);
        var free := blocks[walker].IsFree(elemsPerBlock, numlongs);
        if free {
          Unlink(walker);
        } else {
          walker := walker + 1;
        }
      }
    }

    lemma EveryBlockTaken()
      requires Valid() && freeElems < elemsPerBlock
      ensures forall i :: 0 <= i < |maps| ==> SomeTaken(maps[i])
    {
      AllClearBounds(maps);
      forall i | 0 <= i < |maps|
        ensures SomeTaken(maps[i])
      {
        ClearBitsBound(maps[i]);
      }
    }

    /** Take a block with no slot taken out of the chain. */
    method Unlink(i: nat)
      requires Valid() && i < |blocks| && !SomeTaken(maps[i])
      modifies this
      ensures Valid() && live == old(live)
      ensures blocks == Without(old(blocks), i) && maps == Without(old(maps), i)
    {
      SeparateDrop(blocks, i);
      ShapeDrop(bases, maps, elemsPerBlock, elemSize, freeElems, live, i);
      Relink(i);
      CountOneLess();
    }

    /** The counters, behind the chain by one block. */
    method CountOneLess()
      requires AllHold() && Separate(blocks) && blocksAllocated == |blocks| + 1
      requires elemSize > 0 && span == Span(elemsPerBlock, elemSize) && 0 < elemsPerBlock <= numlongs * WORD_BITS
      requires Shape(bases, maps, elemsPerBlock, elemSize, freeElems - elemsPerBlock, live)
      modifies this`blocksAllocated, this`freeElems
      ensures Valid()
    {
      blocksAllocated := blocksAllocated - 1;
      freeElems := freeElems - elemsPerBlock;
    }

    method Relink(i: nat)
      requires AllHold() && i < |blocks|
      modifies this`blocks, this`bases, this`maps
      ensures AllHold() && blocks == Without(old(blocks), i) && maps == Without(old(maps), i)
      ensures bases == Without(old(bases), i)
    {
      blocks, bases, maps := Without(blocks, i), Without(bases, i), Without(maps, i);
      forall j | 0 <= j < |blocks|
        ensures blocks[j] in Repr && blocks[j].allocMap in Repr && Holds(blocks[j], bases[j], maps[j])
      {
        var k := if j < i then j else j + 1;
        assert old(blocks[k] in Repr && blocks[k].allocMap in Repr && Holds(blocks[k], bases[k], maps[k]));
      }
    }
  }

  function Without<T>(s: seq<T>, i: nat): (r: seq<T>)
    requires i < |s|
    ensures |r| == |s| - 1 && forall j :: 0 <= j < |r| ==> r[j] == s[if j < i then j else j + 1]
  {
    s[..i] + s[i + 1..]
  }

  lemma SeparateDrop(blocks: seq<Block>, i: nat)
    requires Separate(blocks) && i < |blocks|
    ensures Separate(Without(blocks, i))
  {
    var left := Without(blocks, i);
    forall j, k | 0 <= j < k < |left|
      ensures Differ(left[j], left[k])
    {
      assert left[j] == blocks[if j < i then j else j + 1] && left[k] == blocks[if k < i then k else k + 1];
    }
  }

  predicate SomeTaken(used: seq<bool>) { exists s :: 0 <= s < |used| && used[s] }

  predicate Within(elems: nat, n: nat, size: nat, ptr: nat)
    requires n > 0
  {
    elems <= ptr <= Address(elems, size, n - 1)
  }

  /** The address of the element of the block at `elems` in which `ptr` lies. */
  function Enclosing(elems: nat, size: nat, ptr: nat): nat
    requires elems <= ptr && size > 0
  {
    Address(elems, size, (ptr - elems) / size)
  }

  /** A slot's address is live exactly if the slot is taken. */
  lemma SlotLive(bases: seq<nat>, maps: seq<seq<bool>>, n: nat, size: nat, i: nat, s: nat)
    requires |bases| == |maps| && Rows(maps, n) && AllApart(bases, Span(n, size)) && size > 0 && i < |bases| && s < n
    ensures Address(bases[i], size, s) in Live(bases, maps, n, size) <==> maps[i][s]
  {
    LiveFlip(bases, maps, n, size, i, s, !maps[i][s]);
  }

  lemma LiveIsInRange(bases: seq<nat>, maps: seq<seq<bool>>, n: nat, size: nat, ptr: nat)
    requires |bases| == |maps| && Rows(maps, n) && n > 0
    requires forall i :: 0 <= i < |bases| ==> !Within(bases[i], n, size, ptr)
    ensures ptr !in Live(bases, maps, n, size)
  {
    if ptr in Live(bases, maps, n, size) {
      var j, t :| 0 <= j < |bases| && 0 <= t < n && maps[j][t] && ptr == Address(bases[j], size, t);
      BytesGrow(t, n - 1, size);
    }
  }

  /** A slot of one block is not within another. */
  lemma WithinOne(bases: seq<nat>, n: nat, size: nat, i: nat, j: nat, t: nat)
    requires AllApart(bases, Span(n, size)) && size > 0 && i < |bases| && j < |bases| && i != j && t < n
    ensures !Within(bases[i], n, size, Address(bases[j], size, t))
  {
    SlotInside(bases[j], size, t, n);
    SlotInside(bases[i], size, n - 1, n);
    assert Apart(bases[if i < j then i else j], bases[if i < j then j else i], Span(n, size));
  }

  /** A live address in a block's range is that of the element it lies in. */
  lemma LiveEnclosed(bases: seq<nat>, maps: seq<seq<bool>>, n: nat, size: nat, i: nat, ptr: nat)
    requires |bases| == |maps| && Rows(maps, n) && AllApart(bases, Span(n, size)) && size > 0 && n > 0
    requires i < |bases| && Within(bases[i], n, size, ptr)
    ensures ptr in Live(bases, maps, n, size) ==> Enclosing(bases[i], size, ptr) == ptr
  {
    if ptr in Live(bases, maps, n, size) {
      var j, t :| 0 <= j < |bases| && 0 <= t < n && maps[j][t] && ptr == Address(bases[j], size, t);
      if j == i {
        SlotOf(ptr - bases[i], size, n);
        assert ptr - bases[i] == Bytes(t, size);
      } else {
        WithinOne(bases, n, size, i, j, t);
        assert false;
      }
    }
  }

  /** Dividing an offset by the size finds the slot it lies in. */
  lemma SlotOf(offset: nat, size: nat, n: nat)
    requires size > 0 && n > 0 && offset <= Bytes(n - 1, size)
    ensures offset / size < n
    ensures forall s: nat :: offset == Bytes(s, size) ==> offset / size == s
  {
    BytesTimes(n - 1, size);
    forall s: nat | offset == Bytes(s, size)
      ensures offset / size == s
    {
      BytesTimes(s, size);
      Quotient(s, size, s * size);
    }
    Quotient(n - 1, size, offset);
  }

  lemma {:induction false} BytesTimes(count: nat, size: nat)
    ensures Bytes(count, size) == count * size
  {
    if count > 0 {
      BytesTimes(count - 1, size);
      assert count * size == (count - 1) * size + size;
    }
  }

  lemma Quotient(q: nat, size: nat, x: nat)
    requires size > 0 && x <= q * size
    ensures x / size <= q && (x == q * size ==> x / size == q)
  {
    var d := x / size;
    assert x == d * size + x % size;
    assert (q + 1) * size == q * size + size && (d + 1) * size == d * size + size;
    if d > q {
      Times(q + 1, d, size);
    } else if d < q {
      Times(d + 1, q, size);
    }
  }

  lemma {:induction false} Times(a: nat, b: nat, size: nat)
    requires a <= b
    ensures a * size <= b * size
  {
    if size > 0 {
      Times(a, b, size - 1);
      assert a * size == a * (size - 1) + a && b * size == b * (size - 1) + b;
    }
  }
}
