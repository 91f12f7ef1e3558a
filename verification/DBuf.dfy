/**
 The chunked byte queue (src/dbuf.c): a chain of fixed-size buffers that behaves as one flat byte
 sequence, and the pool that the buffers come from.
 */
module DBuf {
  import opened Wrappers
  import opened Bytes

  const DBUF_SIZE := 1024
  const BUFFERPOOL := 500000 * 4
  const DBUF_USUAL_MAX_COUNT := BUFFERPOOL / DBUF_SIZE

  predicate IsEol(b: byte) { b == 10 || b == 13 }

  // ---------- flat sequences ----------

  function Flat(parts: seq<seq<byte>>): seq<byte> {
    if parts == [] then [] else parts[0] + Flat(parts[1..])
  }

  lemma {:induction false} FlatPush(parts: seq<seq<byte>>, p: seq<byte>)
    ensures Flat(parts + [p]) == Flat(parts) + p
  {
    if parts == [] {
      assert parts + [p] == [p];
      assert Flat([p]) == p;
    } else {
      assert (parts + [p])[1..] == parts[1..] + [p];
      FlatPush(parts[1..], p);
    }
  }

  /** Appending to the last part appends to the whole. */
  lemma FlatGrow(parts: seq<seq<byte>>, more: seq<byte>)
    requires parts != []
    ensures Flat(parts[|parts| - 1 := parts[|parts| - 1] + more]) == Flat(parts) + more
  {
    var n := |parts| - 1;
    var front := parts[..n];
    assert parts == front + [parts[n]];
    assert parts[n := parts[n] + more] == front + [parts[n] + more];
    FlatPush(front, parts[n]);
    FlatPush(front, parts[n] + more);
    assert Flat(front) + (parts[n] + more) == Flat(front) + parts[n] + more;
  }

  /** The bytes after the leading line ends. */
  function DropEols(s: seq<byte>): seq<byte> { if s != [] && IsEol(s[0]) then DropEols(s[1..]) else s }

  /** Where the first line end is, or the length if there is none. */
  function FirstEol(s: seq<byte>): (k: nat)
    ensures k <= |s| && (k < |s| ==> IsEol(s[k])) && forall i :: 0 <= i < k ==> !IsEol(s[i])
  {
    if s == [] || IsEol(s[0]) then 0 else 1 + FirstEol(s[1..])
  }

  /** The first line end is determined by what precedes it. */
  lemma {:induction false} FirstEolIs(s: seq<byte>, k: nat)
    requires k <= |s| && (k < |s| ==> IsEol(s[k])) && forall i :: 0 <= i < k ==> !IsEol(s[i])
    ensures FirstEol(s) == k
  {
    if k > 0 {
      FirstEolIs(s[1..], k - 1);
    }
  }

  lemma {:induction false} FlatSplit(parts: seq<seq<byte>>, i: nat)
    requires i < |parts|
    ensures Flat(parts) == Flat(parts[..i]) + parts[i] + Flat(parts[i + 1..])
    ensures Flat(parts[..i + 1]) == Flat(parts[..i]) + parts[i]
  {
    FlatPush(parts[..i], parts[i]);
    assert parts[..i + 1] == parts[..i] + [parts[i]];
    FlatConcat(parts[..i + 1], parts[i + 1..]);
    assert parts == parts[..i + 1] + parts[i + 1..];
  }

  lemma {:induction false} FlatConcat(p: seq<seq<byte>>, q: seq<seq<byte>>)
    ensures Flat(p + q) == Flat(p) + Flat(q)
  {
    if p == [] {
      assert p + q == q;
    } else {
      assert (p + q)[1..] == p[1..] + q;
      FlatConcat(p[1..], q);
    }
  }

  /** Behind whole parts comes the front of the next one. */
  lemma CopiedOn(parts: seq<seq<byte>>, i: nat, buf: seq<byte>, piece: seq<byte>)
    requires i < |parts| && buf == Flat(parts[..i]) && piece <= parts[i]
    ensures buf + piece <= Flat(parts)
    ensures |piece| < |parts[i]| ==> |buf + piece| < |Flat(parts)| && Flat(parts)[|buf + piece|] == parts[i][|piece|]
    ensures |piece| == |parts[i]| ==> buf + piece == Flat(parts[..i + 1])
    ensures i + 1 == |parts| && |piece| == |parts[i]| ==> buf + piece == Flat(parts)
  {
    FlatSplit(parts, i);
    assert |piece| == |parts[i]| ==> piece == parts[i];
    if i + 1 == |parts| {
      assert parts[i + 1..] == [] && parts[..i + 1] == parts;
    }
  }

  /**
   What reading one message means on a flat sequence: the line, if its end lies within the limit, and what is left.
   */
  datatype Message = Message(line: Option<seq<byte>>, rest: seq<byte>)

  function ReadMessage(s: seq<byte>, limit: nat): Message {
    var t := DropEols(s);
    var k := FirstEol(t);
    if k < |t| && k < limit then Message(Some(t[..k]), DropEols(t[k..])) else Message(None, t)
  }

  /** Octets that end a line, or none that does: newline is 10 and carriage return 13. */
  predicate Ends(s: seq<byte>) { forall i :: 0 <= i < |s| ==> s[i] == 10 || s[i] == 13 }

  predicate NoEnd(s: seq<byte>) { forall i :: 0 <= i < |s| ==> s[i] != 10 && s[i] != 13 }

  lemma {:induction false} EndsDropped(ends: seq<byte>, rest: seq<byte>)
    requires Ends(ends) && (rest != [] ==> rest[0] != 10 && rest[0] != 13)
    ensures DropEols(ends + rest) == rest
  {
    if ends == [] {
      assert ends + rest == rest;
    } else {
      assert (ends + rest)[1..] == ends[1..] + rest;
      EndsDropped(ends[1..], rest);
    }
  }

  /**
   A line between line ends is read exactly if it is shorter than the limit, and what comes behind its line ends is
   left; one that is too long, or has no line end yet, stays, but for the line ends in front of it.
   */
  lemma LineIsRead(front: seq<byte>, line: seq<byte>, back: seq<byte>, rest: seq<byte>, limit: nat)
    requires Ends(front) && line != [] && NoEnd(line) && Ends(back)
    requires if back == [] then rest == [] else rest != [] ==> rest[0] != 10 && rest[0] != 13
    ensures ReadMessage(front + (line + (back + rest)), limit) ==
      if back != [] && |line| < limit then Message(Some(line), rest) else Message(None, line + (back + rest))
  {
    var t := line + (back + rest);
    assert t[0] == line[0];
    EndsDropped(front, t);
    assert forall i :: 0 <= i < |line| ==> t[i] == line[i] != 10 && line[i] != 13;
    if back != [] {
      assert t[|line|] == back[0];
    }
    FirstEolIs(t, |line|);
    assert t[..|line|] == line && t[|line|..] == back + rest;
    EndsDropped(back, rest);
  }

  // ---------- buffers ----------

  class DBufBuffer {
    const data: array<byte>
    var start: nat
    var end: nat

    constructor ()
      ensures start == 0 && end == 0 && data.Length == DBUF_SIZE && fresh(data)
    {
      data := new byte[DBUF_SIZE](_ => 0);
      start, end := 0, 0;
    }
  }

  ghost function Buffers(bs: seq<DBufBuffer>): set<DBufBuffer> { set b <- bs :: b }

  ghost function Arrays(bs: seq<DBufBuffer>): set<array<byte>> { set b <- bs :: b.data }

  /** The data of buffer `b` is `part`. */
  ghost predicate Holds(b: DBufBuffer, part: seq<byte>)
    reads b, b.data
  {
    b.start <= b.end <= b.data.Length && b.data[b.start..b.end] == part
  }

  lemma BuffersOf(bs: seq<DBufBuffer>)
    ensures forall b <- bs :: b in Buffers(bs) && b.data in Arrays(bs)
    ensures bs != [] ==> Buffers(bs[1..]) <= Buffers(bs) && Arrays(bs[1..]) <= Arrays(bs)
  {
  }

  /** No buffer and no data array occurs twice. */
  ghost predicate Separate(bs: seq<DBufBuffer>) {
    && (forall i :: 0 <= i < |bs| ==> bs[i].data.Length == DBUF_SIZE)
    && (forall i, j :: 0 <= i < j < |bs| ==> bs[i] != bs[j] && bs[i].data != bs[j].data)
  }

  lemma SeparateParts(a: seq<DBufBuffer>, b: seq<DBufBuffer>)
    requires Separate(a + b)
    ensures Separate(a) && Separate(b)
    ensures forall i, j :: 0 <= i < |a| && 0 <= j < |b| ==> a[i] != b[j] && a[i].data != b[j].data
  {
    assert forall i :: 0 <= i < |a| ==> (a + b)[i] == a[i];
    assert forall j :: 0 <= j < |b| ==> (a + b)[|a| + j] == b[j];
  }

  lemma SeparatePush(a: seq<DBufBuffer>, d: DBufBuffer)
    requires Separate(a) && d.data.Length == DBUF_SIZE && forall b <- a :: b != d && b.data != d.data
    ensures Separate(a + [d])
  {
  }

  /** `memcpy` of what fits behind the data of a buffer. */
  method CopyIn(d: DBufBuffer, ghost part: seq<byte>, rest: seq<byte>) returns (left: seq<byte>)
    requires Holds(d, part) && d.data.Length == DBUF_SIZE
    modifies d`end, d.data
    ensures |left| <= |rest| && left == rest[|rest| - |left|..] && Holds(d, part + rest[..|rest| - |left|])
    ensures (left == [] || d.end == DBUF_SIZE) && (old(d.end) < DBUF_SIZE && rest != [] ==> |left| < |rest|)
  {
    var chunk := Min(d.data.Length - d.end, |rest|);
    var at := d.end;
    forall i | 0 <= i < chunk {
      d.data[at + i] := rest[i];
    }
    d.end := d.end + chunk;
    left := rest[chunk..];
    assert d.data[d.start..at] == part;
    assert d.data[at..d.end] == rest[..chunk];
    assert d.data[d.start..d.end] == d.data[d.start..at] + d.data[at..d.end];
  }

  lemma SliceTwice<T>(s: seq<T>, a: nat, b: nat)
    requires a + b <= |s|
    ensures s[a..][b..] == s[a + b..] && s[..a] + s[a..][..b] == s[..a + b]
  {
  }

  /** What is taken from the rest of `all` is taken from `all` behind what was before. */
  lemma TakenOn<T>(all: seq<T>, out: seq<T>, rest: seq<T>)
    requires out <= all && rest == all[|out|..]
    ensures |rest| == |all| - |out|
    ensures forall piece: seq<T> :: piece <= rest ==>
      out + piece <= all && rest[|piece|..] == all[|out + piece|..]
  {
    assert all == out + rest;
  }

  lemma Regroup<T>(s: seq<T>, piece: seq<T>, left: seq<T>, rest: seq<T>)
    requires |left| <= |rest| && left == rest[|rest| - |left|..] && piece == rest[..|rest| - |left|]
    ensures s + piece + left == s + rest
  {
  }

  lemma FlatFill(parts: seq<seq<byte>>, piece: seq<byte>, left: seq<byte>, rest: seq<byte>)
    requires parts != [] && |left| <= |rest| && left == rest[|rest| - |left|..] && piece == rest[..|rest| - |left|]
    ensures Flat(parts[|parts| - 1 := parts[|parts| - 1] + piece]) + left == Flat(parts) + rest
  {
    FlatGrow(parts, piece);
    Regroup(Flat(parts), piece, left, rest);
  }

  /** The free list and the counters that all queues share. */
  class Pool {
    var free: seq<DBufBuffer>
    var used: nat
    var count: nat

    constructor ()
      ensures free == [] && used == 0 && count == 0
    {
      free, used, count := [], 0, 0;
    }

    /** `dbuf_alloc` */
    method Alloc() returns (db: DBufBuffer)
      requires forall b <- free :: b.data.Length == DBUF_SIZE
      modifies this, free
      ensures if old(free) == [] then fresh(db) && fresh(db.data) && free == [] && count == old(count) + 1
              else db == old(free)[0] && free == old(free)[1..] && count == old(count)
      ensures used == old(used) + 1
      ensures db.start == db.end == 0 && db.data.Length == DBUF_SIZE
    {
      if free != [] {
        db := free[0];
        free := free[1..];
      } else {
        db := new DBufBuffer();
        count := count + 1;
      }
      used := used + 1;
      db.start, db.end := 0, 0;
    }

    /** `dbuf_free`: beyond the usual number of buffers the memory is given back. */
    method Free(db: DBufBuffer)
      requires used > 0
      modifies this`free, this`used
      ensures used == old(used) - 1 && count == old(count)
      ensures free == if old(used) > DBUF_USUAL_MAX_COUNT then old(free) else [db] + old(free)
    {
      if used <= DBUF_USUAL_MAX_COUNT {
        free := [db] + free;
      }
      used := used - 1;
    }
  }

  function LastOf(chain: seq<DBufBuffer>): DBufBuffer? { if chain == [] then null else chain[|chain| - 1] }

  class DBuf {
    const pool: Pool
    /** The buffers from `head` on, as the links lead. */
    var chain: seq<DBufBuffer>
    var tail: DBufBuffer?
    var length: nat
    ghost var parts: seq<seq<byte>>

    /** The chain is linked up: no buffer is empty or shared, and each holds its part. */
    ghost predicate Linked()
      reads this, pool, chain, set b <- chain :: b.data
    {
      && |chain| == |parts| && |chain| <= pool.used && tail == LastOf(chain)
      && Separate(chain + pool.free)
      && (forall i :: 0 <= i < |chain| ==> Holds(chain[i], parts[i]) && parts[i] != [])
    }

    ghost predicate Valid()
      reads this, pool, chain, set b <- chain :: b.data
    {
      Linked() && length == |Flat(parts)|
    }

    /** The queue as one byte sequence. */
    ghost function Contents(): seq<byte>
      reads this
    {
      Flat(parts)
    }

    /** Buffers in use by the other queues of the pool. */
    ghost function Others(): int
      reads this, pool
    {
      pool.used - |chain|
    }

    /** Its own buffers and the free ones. */
    ghost function Reach(): seq<DBufBuffer>
      reads this, pool
    {
      chain + pool.free
    }

    /** None but buffers of `was` are reached. */
    ghost predicate Within(was: seq<DBufBuffer>)
      reads this, pool
    {
      forall b <- Reach() :: b in was
    }

    constructor (p: Pool)
      requires Separate(p.free)
      ensures pool == p && Valid() && Contents() == [] && chain == [] && Others() == p.used
    {
      pool, chain, tail, length, parts := p, [], null, 0, [];
      new;
      assert chain + pool.free == pool.free;
    }

    /** Copy what fits of `rest` behind the data of the last buffer. */
    method FillTail(d: DBufBuffer, rest: seq<byte>) returns (left: seq<byte>)
      requires Linked() && chain != [] && d == tail
      modifies this`parts, d`end, d.data
      ensures Linked() && |parts| == old(|parts|)
      ensures Contents() + left == old(Contents()) + rest && (left == [] || d.end == DBUF_SIZE)
    {
      ghost var last := |parts| - 1;
      TailApart();
      assert Holds(chain[last], parts[last]) && parts[last] != [];
      left := CopyIn(d, parts[last], rest);
      forall i | 0 <= i < last
        ensures Holds(chain[i], parts[i]) && parts[i] != []
      {
        assert old(Holds(chain[i], parts[i]) && parts[i] != []);
      }
      GrowLast(rest[..|rest| - |left|], left, rest);
    }

    /** The last part is longer now. */
    ghost method GrowLast(piece: seq<byte>, left: seq<byte>, rest: seq<byte>)
      requires |chain| == |parts| > 0 && |chain| <= pool.used && tail == LastOf(chain) && Separate(chain + pool.free)
      requires forall i :: 0 <= i < |chain| - 1 ==> Holds(chain[i], parts[i]) && parts[i] != []
      requires Holds(tail, parts[|parts| - 1] + piece) && parts[|parts| - 1] != []
      requires |left| <= |rest| && left == rest[|rest| - |left|..] && piece == rest[..|rest| - |left|]
      modifies this`parts
      ensures Linked() && |parts| == old(|parts|) && Contents() + left == old(Contents()) + rest
    {
      ghost var last := |parts| - 1;
      FlatFill(parts, piece, left, rest);
      parts := parts[last := parts[last] + piece];
    }

    /** The tail is no other buffer of the chain. */
    lemma TailApart()
      requires Linked() && chain != []
      ensures Separate(chain)
      ensures forall i :: 0 <= i < |chain| - 1 ==> chain[i] != tail && chain[i].data != tail.data
    {
      SeparateParts(chain, pool.free);
    }

    /** Link a filled buffer behind the chain. */
    method LinkTail(d: DBufBuffer, ghost piece: seq<byte>)
      requires |chain| == |parts| && |chain| < pool.used && Separate(chain + [d] + pool.free)
      requires forall i :: 0 <= i < |chain| ==> Holds(chain[i], parts[i]) && parts[i] != []
      requires Holds(d, piece) && piece != []
      modifies this`chain, this`tail, this`parts
      ensures Linked() && Contents() == old(Contents()) + piece && chain == old(chain) + [d]
    {
      FlatPush(parts, piece);
      tail := d;
      chain := chain + [d];
      parts := parts + [piece];
    }

    /** Take a buffer from the pool and copy what fits of `rest` into it. */
    method NewTail(rest: seq<byte>) returns (d: DBufBuffer, left: seq<byte>)
      requires Linked() && rest != []
      modifies pool, Buffers(pool.free), Arrays(pool.free)
      ensures |left| < |rest| && left == rest[|rest| - |left|..] && Holds(d, rest[..|rest| - |left|])
      ensures pool.used == old(pool.used) + 1 && Separate(chain + [d] + pool.free)
      ensures forall i :: 0 <= i < |chain| ==> Holds(chain[i], parts[i])
      ensures if old(pool.free) == [] then fresh(d) && fresh(d.data) && pool.free == []
              else d == old(pool.free)[0] && pool.free == old(pool.free)[1..]
    {
      ghost var free0 := pool.free;
      SeparateParts(chain, free0);
      BuffersOf(free0);
      d := pool.Alloc();
      if free0 == [] {
        SeparatePush(chain, d);
        assert chain + [d] + pool.free == chain + [d];
      } else {
        assert chain + [d] + pool.free == chain + free0;
      }
      left := CopyIn(d, [], rest);
      assert [] + rest[..|rest| - |left|] == rest[..|rest| - |left|];
      forall i | 0 <= i < |chain|
        ensures Holds(chain[i], parts[i])
      {
        assert old(Holds(chain[i], parts[i]));
        assert chain[i] != d && chain[i].data != d.data;
      }
    }

    /** Link buffers from the pool until all of `buf` is stored. */
    method PutInNewBuffers(buf: seq<byte>)
      requires Linked()
      modifies this`chain, this`tail, this`parts, pool, Buffers(pool.free), Arrays(pool.free)
      ensures Linked() && Contents() == old(Contents()) + buf && Others() == old(Others())
      ensures forall b <- Reach() :: b in old(Reach()) || (fresh(b) && fresh(b.data))
    {
      var rest := buf;
      while rest != []
        invariant Linked() && Contents() + rest == old(Contents()) + buf && Others() == old(Others())
        invariant forall b <- pool.free :: b in old(pool.free)
        invariant Buffers(pool.free) <= old(Buffers(pool.free)) && Arrays(pool.free) <= old(Arrays(pool.free))
        invariant forall b <- chain :: b in old(Reach()) || (fresh(b) && fresh(b.data))
        decreases |rest|
      {
        BuffersOf(pool.free);
        var d, left := NewTail(rest);
        ghost var piece := rest[..|rest| - |left|];
        Regroup(Contents(), piece, left, rest);
        LinkTail(d, piece);
        rest := left;
      }
      assert Contents() + [] == Contents();
    }

    /**
     `dbuf_put`: append the bytes of `buf`, filling the one at the tail first and taking further ones
     from the pool as they are needed.
     */
    method Put(buf: seq<byte>)
      requires Valid()
      modifies this, pool, Buffers(chain), Arrays(chain), Buffers(pool.free), Arrays(pool.free)
      ensures Valid() && Contents() == old(Contents()) + buf && Others() == old(Others())
      ensures forall b <- Reach() :: b in old(Reach()) || (fresh(b) && fresh(b.data))
    {
      var rest := buf;
      if length != 0 {
        BuffersOf(chain);
        rest := FillTail(tail, rest);
      }
      PutInNewBuffers(rest);
      length := length + |buf|;
    }

    /** `dbuf_map`: the bytes of the first buffer. */
    method Map() returns (b: seq<byte>)
      requires Valid()
      ensures b <= Contents() && (b == [] <==> length == 0)
      ensures length > 0 ==> chain != [] && Holds(chain[0], b)
    {
      if length == 0 {
        return [];
      }
      assert Holds(chain[0], parts[0]);
      b := chain[0].data[chain[0].start..chain[0].end];
    }

    /** Move the start of the first buffer past `chunk` of its bytes. */
    method ShrinkHead(chunk: nat)
      requires Valid() && chain != [] && chunk < |parts[0]|
      modifies this`parts, this`length, Buffers(chain)`start
      ensures Valid() && Contents() == old(Contents())[chunk..]
    {
      BuffersOf(chain);
      SeparateParts(chain, pool.free);
      assert Holds(chain[0], parts[0]);
      assert Flat(parts)[chunk..] == parts[0][chunk..] + Flat(parts[1..]);
      length := length - chunk;
      chain[0].start := chain[0].start + chunk;
      parts := parts[0 := parts[0][chunk..]];
      assert parts[1..] == old(parts)[1..];
      forall i | 1 <= i < |chain|
        ensures Holds(chain[i], parts[i])
      {
        assert old(Holds(chain[i], parts[i])) && chain[i] != chain[0];
      }
    }

    /** The first buffer is used up: unlink it and give it back to the pool. */
    method UnlinkHead()
      requires Valid() && chain != []
      modifies this`chain, this`tail, this`parts, this`length, pool`used, pool`free
      ensures Within(old(Reach()))
      ensures Valid() && Contents() == old(Contents())[|old(parts[0])|..] && Others() == old(Others())
      ensures chain == old(chain)[1..] && |old(parts[0])| <= |old(Contents())|
    {
      var db := chain[0];
      assert chain + pool.free == [db] + chain[1..] + pool.free;
      FreedIsSeparate(db, chain[1..], pool.free);
      DropHead();
      pool.Free(db);
      forall i | 0 <= i < |chain|
        ensures Holds(chain[i], parts[i]) && parts[i] != []
      {
      }
    }

    /** The head moves on to the next buffer. */
    method DropHead()
      requires Valid() && chain != []
      modifies this`chain, this`tail, this`parts, this`length
      ensures Valid() && Contents() == old(Contents())[|old(parts[0])|..]
      ensures chain == old(chain)[1..] && |old(parts[0])| <= |old(Contents())|
    {
      var db := chain[0];
      ghost var was, held := chain, parts;
      assert Holds(db, parts[0]);
      assert parts == [parts[0]] + parts[1..];
      assert chain + pool.free == [db] + chain[1..] + pool.free;
      FreedIsSeparate(db, chain[1..], pool.free);
      length := length - (db.end - db.start);
      chain := chain[1..];
      if chain == [] {
        tail := null;
      }
      parts := parts[1..];
      forall i | 0 <= i < |chain|
        ensures Holds(chain[i], parts[i]) && parts[i] != []
      {
        assert chain[i] == was[i + 1] && parts[i] == held[i + 1];
        assert Holds(was[i + 1], held[i + 1]) && held[i + 1] != [];
      }
    }

    /** Take `chunk` bytes off the first buffer, giving it back when it is empty. */
    method TakeFromHead(chunk: nat)
      requires Valid() && chain != [] && 0 < chunk <= |parts[0]|
      modifies this`chain, this`tail, this`parts, this`length, pool`used, pool`free, Buffers(chain)`start
      ensures Within(old(Reach()))
      ensures Valid() && Contents() == old(Contents())[chunk..] && Others() == old(Others())
      ensures chain == if chunk < old(|parts[0]|) then old(chain) else old(chain)[1..]
    {
      assert Holds(chain[0], parts[0]);
      if chunk < chain[0].end - chain[0].start {
        ShrinkHead(chunk);
      } else {
        UnlinkHead();
      }
    }

    /** The rest of the chain stays separate from the free list, with or without the freed buffer in it. */
    lemma FreedIsSeparate(db: DBufBuffer, rest: seq<DBufBuffer>, free: seq<DBufBuffer>)
      requires Separate([db] + rest + free)
      ensures Separate(rest + free) && Separate(rest + ([db] + free))
    {
      assert [db] + rest + free == [db] + (rest + free);
      SeparateParts([db], rest + free);
      Rotated(rest, db, free);
      assert rest + ([db] + free) == rest + [db] + free;
    }

    lemma Rotated(rest: seq<DBufBuffer>, db: DBufBuffer, f: seq<DBufBuffer>)
      requires Separate([db] + (rest + f))
      ensures Separate(rest + [db] + f)
    {
      var a, b := [db] + (rest + f), rest + [db] + f;
      forall i, j | 0 <= i < j < |b|
        ensures b[i] != b[j] && b[i].data != b[j].data
      {
        var p := if i < |rest| then i + 1 else if i == |rest| then 0 else i;
        var q := if j < |rest| then j + 1 else if j == |rest| then 0 else j;
        assert a[p] == b[i] && a[q] == b[j] && p != q;
      }
      forall i | 0 <= i < |b|
        ensures b[i].data.Length == DBUF_SIZE
      {
        var p := if i < |rest| then i + 1 else if i == |rest| then 0 else i;
        assert a[p] == b[i];
      }
    }

    /** One round of `dbuf_delete`. */
    method DeleteSome(left: nat) returns (chunk: nat)
      requires Valid() && chain != [] && left > 0
      modifies this`chain, this`tail, this`parts, this`length, pool`used, pool`free, Buffers(chain)`start
      ensures Within(old(Reach())) && Buffers(chain) <= old(Buffers(chain))
      ensures Valid() && Others() == old(Others())
      ensures 0 < chunk <= left && chunk <= |old(Contents())| && Contents() == old(Contents())[chunk..]
    {
      assert Holds(chain[0], parts[0]);
      BuffersOf(chain);
      chunk := Min(chain[0].end - chain[0].start, left);
      TakeFromHead(chunk);
    }

    /** `dbuf_delete` */
    method Delete(length0: nat)
      requires Valid()
      modifies this`chain, this`tail, this`parts, this`length, pool`used, pool`free, Buffers(chain)`start
      ensures Within(old(Reach())) && Buffers(chain) <= old(Buffers(chain))
      ensures Valid() && Others() == old(Others())
      ensures Contents() == old(Contents())[Min(length0, |old(Contents())|)..]
    {
      var left := Min(length0, length);
      ghost var n, all := left, Contents();
      while left > 0
        invariant 0 <= left <= n <= |all|
        invariant Valid() && Others() == old(Others()) && Within(old(Reach()))
        invariant Contents() == all[n - left..]
        invariant Buffers(chain) <= old(Buffers(chain))
        decreases left
      {
        if chain == [] {
          break;
        }
        var chunk := DeleteSome(left);
        SliceTwice(all, n - left, chunk);
        left := left - chunk;
      }
    }

    /** One round of `dbuf_get`. */
    method GetSome(left: nat) returns (piece: seq<byte>)
      requires Valid() && length > 0 && left > 0
      modifies this`chain, this`tail, this`parts, this`length, pool`used, pool`free, Buffers(chain)`start
      ensures Within(old(Reach())) && Buffers(chain) <= old(Buffers(chain))
      ensures Valid() && Others() == old(Others())
      ensures 0 < |piece| <= left && piece <= old(Contents()) && Contents() == old(Contents())[|piece|..]
    {
      var b := Map();
      piece := b[..Min(|b|, left)];
      Delete(|piece|);
    }

    /** `dbuf_get`: up to `length0` bytes are moved out. */
    method Get(length0: nat) returns (out: seq<byte>)
      requires Valid()
      modifies this`chain, this`tail, this`parts, this`length, pool`used, pool`free, Buffers(chain)`start
      ensures Within(old(Reach()))
      ensures Valid() && Others() == old(Others())
      ensures out == old(Contents())[..Min(length0, |old(Contents())|)]
      ensures Contents() == old(Contents())[|out|..]
    {
      out := [];
      var left := length0;
      ghost var all := Contents();
      while left > 0 && length > 0
        invariant 0 <= left && |out| + left == length0 && |out| <= |all|
        invariant Valid() && Others() == old(Others()) && Within(old(Reach()))
        invariant out <= all && Contents() == all[|out|..]
        invariant Buffers(chain) <= old(Buffers(chain))
        decreases left
      {
        TakenOn(all, out, Contents());
        var piece := GetSome(left);
        out := out + piece;
        left := left - |piece|;
      }
    }

    method HeadIsEol() returns (r: bool)
      requires Valid()
      ensures r == (Contents() != [] && IsEol(Contents()[0]))
      ensures r ==> chain != []
    {
      r := false;
      if chain != [] {
        assert Holds(chain[0], parts[0]);
        assert Contents()[0] == parts[0][0];
        r := IsEol(chain[0].data[chain[0].start]);
      }
    }

    /** `dbuf_flush`: drop the line ends at the front. */
    method Flush() returns (n: nat)
      requires Valid()
      modifies this`chain, this`tail, this`parts, this`length, pool`used, pool`free, Buffers(chain)`start
      ensures Within(old(Reach()))
      ensures Valid() && Others() == old(Others()) && Contents() == DropEols(old(Contents())) && n == length
      ensures Buffers(chain) <= old(Buffers(chain))
    {
      var more := HeadIsEol();
      while more
        invariant Valid() && Others() == old(Others()) && Within(old(Reach()))
        invariant DropEols(Contents()) == DropEols(old(Contents()))
        invariant more == (Contents() != [] && IsEol(Contents()[0])) && (more ==> chain != [])
        invariant Buffers(chain) <= old(Buffers(chain))
        decreases |Contents()|
      {
        DropOne();
        more := HeadIsEol();
      }
      n := length;
    }

    method DropOne()
      requires Valid() && chain != []
      modifies this`chain, this`tail, this`parts, this`length, pool`used, pool`free, Buffers(chain)`start
      ensures Within(old(Reach()))
      ensures Valid() && Contents() == old(Contents())[1..] && Others() == old(Others())
      ensures Buffers(chain) <= old(Buffers(chain))
    {
      BuffersOf(chain);
      assert Holds(chain[0], parts[0]);
      TakeFromHead(1);
    }

    /** Copy from buffer `i` until a line end or `left` bytes. */
    method ScanBuffer(i: nat, left: nat) returns (copied: seq<byte>, found: bool)
      requires Valid() && i < |chain|
      ensures |copied| <= |parts[i]| && |copied| <= left && copied == parts[i][..|copied|]
      ensures forall b <- copied :: !IsEol(b)
      ensures if found then |copied| < |parts[i]| && |copied| < left && IsEol(parts[i][|copied|])
              else |copied| == Min(|parts[i]|, left)
    {
      assert Holds(chain[i], parts[i]);
      var db := chain[i];
      var start := db.start;
      var end := Min(db.end, start + left);
      copied := [];
      while start < end && !IsEol(db.data[start])
        invariant db.start <= start <= end && |copied| == start - db.start
        invariant copied == parts[i][..|copied|] && forall b <- copied :: !IsEol(b)
      {
        assert db.data[start] == parts[i][|copied|];
        copied := copied + [db.data[start]];
        start := start + 1;
      }
      assert start < end ==> db.data[start] == parts[i][|copied|];
      found := start < end;
    }

    /** The loop of `dbuf_getmsg`: copy from buffer to buffer until a line end or `limit` bytes. */
    method CopyLine(limit: nat) returns (buf: seq<byte>, found: bool)
      requires Valid() && chain != [] && limit <= length
      ensures buf <= Contents() && found == (FirstEol(Contents()) < limit)
      ensures found ==> |buf| == FirstEol(Contents())
    {
      var left := limit;
      var i := 0;
      buf, found := [], false;
      while left > 0
        invariant 0 <= i < |chain| && !found && |buf| + left == limit && left >= 0
        invariant left > 0 ==> buf == Flat(parts[..i])
        invariant buf <= Contents() && forall b <- buf :: !IsEol(b)
        decreases left
      {
        var piece;
        piece, found := ScanBuffer(i, left);
        CopiedOn(parts, i, buf, piece);
        buf := buf + piece;
        if found {
          FirstEolIs(Contents(), |buf|);
          return;
        }
        left := left - |piece|;
        if i + 1 == |chain| {
          assert left == 0;
          break;
        }
        i := i + 1;
      }
      assert FirstEol(Contents()) >= limit;
    }

    /** `dbuf_getmsg`: the first line behind leading line ends, if it ends within `limit` bytes. */
    method GetMsg(limit: nat) returns (line: Option<seq<byte>>)
      requires Valid()
      modifies this`chain, this`tail, this`parts, this`length, pool`used, pool`free, Buffers(chain)`start
      ensures Within(old(Reach()))
      ensures Valid() && Others() == old(Others())
      ensures Message(line, Contents()) == ReadMessage(old(Contents()), limit)
    {
      line := None;
      var n := Flush();
      ghost var t := Contents();
      assert length == |t|;
      if n > 0 {
        var buf, found := CopyLine(Min(limit, length));
        assert buf == t[..|buf|];
        if found {
          Delete(|buf|);
          var m := Flush();
          line := Some(buf);
        }
      }
    }
  }
}
