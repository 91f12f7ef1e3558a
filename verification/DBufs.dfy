/**
 All queues of the server on their one pool (src/dbuf.c): what is done to one leaves the others as they are,
 and the buffers in use are those in the chains.
 */
module DBufs {
  import opened Wrappers
  import opened Bytes
  import opened DBuf

  /** No buffer and no data in common. */
  ghost predicate Disjoint(a: seq<DBufBuffer>, b: seq<DBufBuffer>) {
    forall x, y :: x in a && y in b ==> x != y && x.data != y.data
  }

  function Sum(s: seq<nat>): nat { if s == [] then 0 else s[0] + Sum(s[1..]) }

  ghost function Cells(queues: seq<DBuf>): set<DBufBuffer>
    reads queues
  {
    set q, b | q in queues && b in q.chain :: b
  }

  ghost function Data(queues: seq<DBuf>): set<array<byte>>
    reads queues
  {
    set q, b | q in queues && b in q.chain :: b.data
  }

  lemma {:induction false} SumAtLeast(s: seq<nat>, i: nat)
    requires i < |s|
    ensures s[i] <= Sum(s)
  {
    if i > 0 {
      SumAtLeast(s[1..], i - 1);
    }
  }

  lemma {:induction false} AllEmpty(s: seq<nat>)
    requires forall i :: 0 <= i < |s| ==> s[i] == 0
    ensures Sum(s) == 0
  {
    if s != [] {
      AllEmpty(s[1..]);
    }
  }

  lemma {:induction false} SumChange(s: seq<nat>, i: nat, n: nat)
    requires i < |s|
    ensures Sum(s[i := n]) == Sum(s) - s[i] + n
  {
    if i > 0 {
      SumChange(s[1..], i - 1, n);
      assert s[i := n][1..] == s[1..][i - 1 := n];
    } else {
      assert s[i := n][1..] == s[1..];
    }
  }

  lemma FreeApart(q: DBuf)
    requires q.Valid()
    ensures Disjoint(q.chain, q.pool.free) && Separate(q.chain) && Separate(q.pool.free)
  {
    SeparateParts(q.chain, q.pool.free);
  }

  lemma SeparateJoin(a: seq<DBufBuffer>, b: seq<DBufBuffer>)
    requires Separate(a) && Separate(b) && Disjoint(a, b)
    ensures Separate(a + b)
  {
    var c := a + b;
    forall i, j | 0 <= i < j < |c|
      ensures c[i] != c[j] && c[i].data != c[j].data
    {
      if i < |a| <= j {
        assert c[i] in a && c[j] in b;
      }
    }
  }

  /** What a step of queue `i` reaches now: what it reached before, or what is new. */
  twostate predicate Grows(q: DBuf)
    reads q, q.pool
  {
    forall b <- q.Reach() :: b in old(q.Reach()) || (fresh(b) && fresh(b.data))
  }

  /** A queue and its buffers are as they were. */
  twostate predicate Untouched(q: DBuf)
    reads q, q.chain, set b <- q.chain :: b.data
  {
    && q.chain == old(q.chain) && q.tail == old(q.tail) && q.length == old(q.length) && q.parts == old(q.parts)
    && forall b <- q.chain :: b.start == old(b.start) && b.end == old(b.end) && b.data[..] == old(b.data[..])
  }

  /** Buffers that were apart are apart from what is reached now, as nothing is but those and new ones. */
  lemma StayApart(chain: seq<DBufBuffer>, mine: seq<DBufBuffer>, free: seq<DBufBuffer>, reach: seq<DBufBuffer>,
                  now: seq<DBufBuffer>, left: seq<DBufBuffer>)
    requires Separate(chain + free) && Disjoint(chain, mine) && reach == mine + free && Separate(now + left)
    requires forall b <- now + left :: b in reach || forall c <- chain :: c != b && c.data != b.data
    ensures Disjoint(chain, now) && Separate(chain + left)
  {
    SeparateParts(chain, free);
    SeparateParts(now, left);
    forall x, y | x in chain && (y in now || y in left)
      ensures x != y && x.data != y.data
    {
      assert y in now + left;
    }
    SeparateJoin(chain, left);
  }

  /** A queue that was left alone, beside `me` after its step. */
  lemma SoundBeside(q: DBuf, me: DBuf, mine: seq<DBufBuffer>, free: seq<DBufBuffer>)
    requires q.pool == me.pool && me.Valid() && Separate(q.chain + free) && Disjoint(q.chain, mine)
    requires forall b <- me.Reach() :: b in mine + free || forall c <- q.chain :: c != b && c.data != b.data
    requires |q.chain| == |q.parts| && |q.chain| <= q.pool.used && q.tail == LastOf(q.chain)
    requires forall k :: 0 <= k < |q.chain| ==> Holds(q.chain[k], q.parts[k]) && q.parts[k] != []
    requires q.length == |Flat(q.parts)|
    ensures q.Valid() && Disjoint(q.chain, me.chain)
  {
    StayApart(q.chain, mine, free, mine + free, me.chain, me.pool.free);
  }

  /** The server's queues, all of one pool. */
  class Server {
    const pool: Pool
    const queues: seq<DBuf>

    /** The number of buffers in each chain. */
    ghost function Lengths(): (r: seq<nat>)
      reads queues
      ensures |r| == |queues| && forall i :: 0 <= i < |r| ==> r[i] == |queues[i].chain|
    {
      seq(|queues|, i reads queues requires 0 <= i < |queues| => |queues[i].chain|)
    }

    /** The queues are sound, share nothing but the pool, and are all that use it. */
    ghost predicate Valid()
      reads this, pool, queues, Cells(queues), Data(queues)
    {
      && (forall q <- queues ::
            q.pool == pool && (forall b <- q.chain :: b in Cells(queues) && b.data in Data(queues)) && q.Valid())
      && (forall i, j :: 0 <= i < j < |queues| ==> queues[i] != queues[j] && Disjoint(queues[i].chain, queues[j].chain))
      && pool.used == Sum(Lengths())
    }

    /** So many empty queues. */
    constructor (n: nat)
      ensures Valid() && |queues| == n && forall q <- queues :: q.Contents() == []
    {
      var p := new Pool();
      var made := Made(p, n);
      pool, queues := p, made;
      new;
      AllEmpty(Lengths());
    }

    static method Made(p: Pool, n: nat) returns (made: seq<DBuf>)
      requires p.used == 0 && p.free == []
      ensures |made| == n && p.used == 0 && p.free == [] && fresh(made)
      ensures forall q <- made :: q.pool == p && q.Valid() && q.chain == [] && q.Contents() == []
      ensures forall j, k :: 0 <= j < k < n ==> made[j] != made[k]
    {
      made := [];
      for i := 0 to n
        invariant |made| == i && fresh(made)
        invariant forall q <- made :: q.pool == p && q.Valid() && q.chain == [] && q.Contents() == []
        invariant forall j, k :: 0 <= j < k < i ==> made[j] != made[k]
      {
        var q := new DBuf(p);
        made := made + [q];
      }
    }

    /** Every queue but one has the contents it had. */
    twostate predicate OthersHold(i: nat)
      requires i < |queues|
      reads queues
    {
      forall q <- queues :: q != queues[i] ==> q.Contents() == old(q.Contents())
    }

    ghost predicate OneApart(i: nat)
      requires i < |queues|
      reads pool, queues
    {
      forall q <- queues :: q != queues[i] ==> Disjoint(q.chain, queues[i].chain) && Disjoint(q.chain, pool.free)
    }

    /** The other queues have nothing to do with one of them, nor with the free buffers. */
    lemma OthersApart(i: nat)
      requires Valid() && i < |queues|
      ensures OneApart(i)
    {
      forall q <- queues | q != queues[i]
        ensures Disjoint(q.chain, queues[i].chain) && Disjoint(q.chain, pool.free)
      {
        var j :| 0 <= j < |queues| && queues[j] == q;
        assert if i < j then Disjoint(queues[i].chain, q.chain) else Disjoint(q.chain, queues[i].chain);
        FreeApart(q);
      }
    }

    /** The count of buffers in use follows one step of queue `i`. */
    twostate lemma StillCounted(i: nat)
      requires old(Valid()) && i < |queues| && queues[i].Others() == old(queues[i].Others())
      requires forall q :: q in queues && q != queues[i] ==> Untouched(q)
      ensures pool.used == Sum(Lengths())
    {
      var n := |queues[i].chain|;
      assert queues[i] in queues;
      forall j | 0 <= j < |queues|
        ensures Lengths()[j] == old(Lengths())[i := n][j]
      {
        assert j != i ==> queues[j] in queues && queues[j] != queues[i];
      }
      SumChange(old(Lengths()), i, n);
      assert Lengths() == old(Lengths())[i := n];
    }

    /** One step of queue `i` leaves the others sound, with their contents. */
    twostate lemma StillSound(i: nat)
      requires old(Valid()) && i < |queues| && old(OneApart(i))
      requires queues[i].Valid() && Grows(queues[i]) && pool.used == Sum(Lengths())
      requires forall q :: q in queues && q != queues[i] ==> Untouched(q)
      ensures forall q <- queues :: q.Valid() && (q != queues[i] ==> Disjoint(q.chain, queues[i].chain))
      ensures OthersHold(i)
    {
      assert queues[i] in queues;
      forall q <- queues | q != queues[i]
        ensures q.Valid() && q.Contents() == old(q.Contents()) && Disjoint(q.chain, queues[i].chain)
      {
        var j :| 0 <= j < |queues| && queues[j] == q;
        SumAtLeast(Lengths(), j);
        forall k | 0 <= k < |q.chain|
          ensures Holds(q.chain[k], q.parts[k]) && q.parts[k] != []
        {
          assert old(Holds(q.chain[k], q.parts[k]) && q.parts[k] != []);
        }
        SoundBeside(q, queues[i], old(queues[i].chain), old(pool.free));
      }
    }

    /** So all of them are together still. */
    twostate lemma StillValid(i: nat)
      requires old(Valid()) && i < |queues| && pool.used == Sum(Lengths())
      requires forall q <- queues :: q.Valid() && (q != queues[i] ==> Disjoint(q.chain, queues[i].chain))
      requires forall q :: q in queues && q != queues[i] ==> Untouched(q)
      ensures Valid()
    {
      forall j, k | 0 <= j < k < |queues|
        ensures queues[j] != queues[k] && Disjoint(queues[j].chain, queues[k].chain)
      {
        assert old(Disjoint(queues[j].chain, queues[k].chain));
        assert queues[j] in queues && queues[k] in queues && queues[j] != queues[k];
      }
    }

    /** `dbuf_put` on queue `i`. */
    method Put(i: nat, buf: seq<byte>)
      requires Valid() && i < |queues|
      modifies queues[i], pool, Buffers(queues[i].chain), Arrays(queues[i].chain), Buffers(pool.free), Arrays(pool.free)
      ensures Valid() && OthersHold(i)
      ensures queues[i].Contents() == old(queues[i].Contents()) + buf
    {
      OthersApart(i);
      PutThere(i, buf);
      StillCounted(i);
      StillSound(i);
      StillValid(i);
    }

    method PutThere(i: nat, buf: seq<byte>)
      requires i < |queues| && queues[i].Valid() && queues[i].pool == pool && OneApart(i)
      modifies queues[i], pool, Buffers(queues[i].chain), Arrays(queues[i].chain), Buffers(pool.free), Arrays(pool.free)
      ensures queues[i].Valid() && queues[i].Others() == old(queues[i].Others()) && Grows(queues[i])
      ensures forall q :: q in queues && q != queues[i] ==> Untouched(q)
      ensures queues[i].Contents() == old(queues[i].Contents()) + buf
    {
      queues[i].Put(buf);
    }

    /** `dbuf_delete` on queue `i`. */
    method Delete(i: nat, length: nat)
      requires Valid() && i < |queues|
      modifies queues[i], pool, Buffers(queues[i].chain)`start
      ensures Valid() && OthersHold(i)
      ensures queues[i].Contents() == old(queues[i].Contents())[Min(length, |old(queues[i].Contents())|)..]
    {
      OthersApart(i);
      DeleteThere(i, length);
      StillCounted(i);
      StillSound(i);
      StillValid(i);
    }

    method DeleteThere(i: nat, length: nat)
      requires i < |queues| && queues[i].Valid() && queues[i].pool == pool && OneApart(i)
      modifies queues[i], pool, Buffers(queues[i].chain)`start
      ensures queues[i].Valid() && queues[i].Others() == old(queues[i].Others()) && Grows(queues[i])
      ensures forall q :: q in queues && q != queues[i] ==> Untouched(q)
      ensures queues[i].Contents() == old(queues[i].Contents())[Min(length, |old(queues[i].Contents())|)..]
    {
      queues[i].Delete(length);
    }

    /** `dbuf_get` on queue `i`. */
    method Get(i: nat, length: nat) returns (out: seq<byte>)
      requires Valid() && i < |queues|
      modifies queues[i], pool, Buffers(queues[i].chain)`start
      ensures Valid() && OthersHold(i)
      ensures out == old(queues[i].Contents())[..Min(length, |old(queues[i].Contents())|)]
      ensures queues[i].Contents() == old(queues[i].Contents())[|out|..]
    {
      OthersApart(i);
      out := GetThere(i, length);
      StillCounted(i);
      StillSound(i);
      StillValid(i);
    }

    method GetThere(i: nat, length: nat) returns (out: seq<byte>)
      requires i < |queues| && queues[i].Valid() && queues[i].pool == pool && OneApart(i)
      modifies queues[i], pool, Buffers(queues[i].chain)`start
      ensures queues[i].Valid() && queues[i].Others() == old(queues[i].Others()) && Grows(queues[i])
      ensures forall q :: q in queues && q != queues[i] ==> Untouched(q)
      ensures out == old(queues[i].Contents())[..Min(length, |old(queues[i].Contents())|)]
      ensures queues[i].Contents() == old(queues[i].Contents())[|out|..]
    {
      out := queues[i].Get(length);
    }

    /** `dbuf_getmsg` on queue `i`. */
    method GetMsg(i: nat, limit: nat) returns (line: Option<seq<byte>>)
      requires Valid() && i < |queues|
      modifies queues[i], pool, Buffers(queues[i].chain)`start
      ensures Valid() && OthersHold(i)
      ensures Message(line, queues[i].Contents()) == ReadMessage(old(queues[i].Contents()), limit)
    {
      OthersApart(i);
      line := GetMsgThere(i, limit);
      StillCounted(i);
      StillSound(i);
      StillValid(i);
    }

    method GetMsgThere(i: nat, limit: nat) returns (line: Option<seq<byte>>)
      requires i < |queues| && queues[i].Valid() && queues[i].pool == pool && OneApart(i)
      modifies queues[i], pool, Buffers(queues[i].chain)`start
      ensures queues[i].Valid() && queues[i].Others() == old(queues[i].Others()) && Grows(queues[i])
      ensures forall q :: q in queues && q != queues[i] ==> Untouched(q)
      ensures Message(line, queues[i].Contents()) == ReadMessage(old(queues[i].Contents()), limit)
    {
      line := queues[i].GetMsg(limit);
    }
  }
}
