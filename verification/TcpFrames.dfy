/**
 Receiving DNS messages over TCP (adns/event.c, adns/general.c): a stream of length-prefixed frames
 (section 4.2.2 of RFC 1035) that arrives in pieces of any size.
 */
module TcpFrames {
  import opened Bytes

  type Frame = seq<byte>

  /** Octets of the frame at the head of the stream, its length prefix included; 2 if that is not there yet. */
  function Want(s: seq<byte>): (r: nat)
    ensures r >= 2
  {
    if |s| < 2 then 2 else 2 + s[0] as nat * 256 + s[1]
  }

  predicate HasFrame(s: seq<byte>) { |s| >= 2 && |s| >= Want(s) }

  /** The complete frames of a stream, in order. */
  function Frames(s: seq<byte>): seq<Frame>
    decreases |s|
  {
    if HasFrame(s) then [s[2..Want(s)]] + Frames(s[Want(s)..]) else []
  }

  /** What is behind them. */
  function Rest(s: seq<byte>): seq<byte>
    decreases |s|
  {
    if HasFrame(s) then Rest(s[Want(s)..]) else s
  }

  /** Messages as they are sent: each behind its length in two octets, the high one first. */
  function Sent(messages: seq<Frame>): seq<byte>
    requires forall i :: 0 <= i < |messages| ==> |messages[i]| < 0x10000
  {
    if messages == [] then []
    else [|messages[0]| / 256, |messages[0]| % 256] + messages[0] + Sent(messages[1..])
  }

  /** What is received of messages, and of the beginning of another, is these messages. */
  lemma {:induction false} SentReceived(messages: seq<Frame>, begun: seq<byte>)
    requires forall i :: 0 <= i < |messages| ==> |messages[i]| < 0x10000
    requires |begun| < 2 || |begun| < 2 + begun[0] as int * 256 + begun[1]
    ensures Frames(Sent(messages) + begun) == messages && Rest(Sent(messages) + begun) == begun
    decreases |messages|
  {
    if messages == [] {
      assert Sent(messages) + begun == begun;
    } else {
      SentReceived(messages[1..], begun);
      FirstReceived(messages, Sent(messages[1..]), begun);
    }
  }

  lemma FirstReceived(messages: seq<Frame>, sent: seq<byte>, begun: seq<byte>)
    requires messages != [] && |messages[0]| < 0x10000
    requires Frames(sent + begun) == messages[1..]
    ensures
      var m := messages[0];
      var s := [|m| / 256, |m| % 256] + m + sent + begun;
      Frames(s) == messages && Rest(s) == Rest(sent + begun)
  {
    var m := messages[0];
    FrameFirst(m, sent + begun);
    Associate([|m| / 256, |m| % 256] + m, sent, begun);
    assert messages == [m] + messages[1..];
  }

  lemma FrameFirst(m: Frame, more: seq<byte>)
    requires |m| < 0x10000
    ensures 0 <= |m| / 256 < 256
    ensures
      var s := [|m| / 256, |m| % 256] + m + more;
      Frames(s) == [m] + Frames(more) && Rest(s) == Rest(more)
  {
    var s := [|m| / 256, |m| % 256] + m + more;
    assert Want(s) == 2 + |m| && s[2..2 + |m|] == m && s[2 + |m|..] == more;
  }

  /** Where a stream is cut makes no difference: the rest of one piece is the beginning of the next. */
  lemma {:induction false} FramesJoin(a: seq<byte>, b: seq<byte>)
    ensures Frames(a + b) == Frames(a) + Frames(Rest(a) + b) && Rest(a + b) == Rest(Rest(a) + b)
    decreases |a|
  {
    if HasFrame(a) {
      var w := Want(a);
      assert Want(a + b) == w && (a + b)[2..w] == a[2..w] && (a + b)[w..] == a[w..] + b;
      FramesJoin(a[w..], b);
    }
  }

  /** All pieces of a stream, in order. */
  function Joined(pieces: seq<seq<byte>>): seq<byte> {
    if pieces == [] then [] else pieces[0] + Joined(pieces[1..])
  }

  /** The frames that receiving piece by piece gives, with `pending` octets held back so far. */
  function Received(pending: seq<byte>, pieces: seq<seq<byte>>): seq<Frame>
    decreases |pieces|
  {
    if pieces == [] then [] else Frames(pending + pieces[0]) + Received(Rest(pending + pieces[0]), pieces[1..])
  }

  /** Frames do not depend on how the stream was cut into pieces. */
  lemma {:induction false} ChunkingDoesNotMatter(pending: seq<byte>, pieces: seq<seq<byte>>)
    requires !HasFrame(pending)
    ensures Received(pending, pieces) == Frames(pending + Joined(pieces))
    decreases |pieces|
  {
    if pieces == [] {
      assert pending + Joined(pieces) == pending;
    } else {
      var first := pending + pieces[0];
      RestHasNone(first);
      ChunkingDoesNotMatter(Rest(first), pieces[1..]);
      FramesJoin(first, Joined(pieces[1..]));
      Associate(pending, pieces[0], Joined(pieces[1..]));
    }
  }

  lemma Associate(a: seq<byte>, b: seq<byte>, c: seq<byte>)
    ensures (a + b) + c == a + (b + c)
  {
  }

  lemma {:induction false} RestHasNone(s: seq<byte>)
    ensures !HasFrame(Rest(s))
    decreases |s|
  {
    if HasFrame(s) {
      RestHasNone(s[Want(s)..]);
    }
  }

  /** What the socket has to offer: octets (as many at a time as are asked for), or a reason to stop or to try again. */
  datatype Offer = Octets(octets: seq<byte>) | WouldBlock | Interrupted | NoResources | Closed

  /** All octets on offer. */
  function Stream(offers: seq<Offer>): seq<byte> {
    if offers == [] then []
    else (if offers[0].Octets? then offers[0].octets else []) + Stream(offers[1..])
  }

  function Weight(offers: seq<Offer>): nat {
    if offers == [] then 0
    else 1 + (if offers[0].Octets? then |offers[0].octets| else 0) + Weight(offers[1..])
  }

  /** How reading goes on or ends: nothing more now, no memory, or the connection lost or dropped over a frame. */
  datatype Ending = Reading | Idle | Starved | Lost | Dropped

  class Receiver {
    var buf: array<byte>
    var used: nat
    var skip: nat
    /** The connection is up. */
    var up: bool

    constructor ()
      ensures Valid() && skip == 0 && up && Pending() == []
    {
      buf, used, skip, up := new byte[0], 0, 0, true;
    }

    ghost predicate Valid()
      reads this
    {
      skip <= used <= buf.Length && (!up ==> used == 0)
    }

    /** Octets received and not handed on. */
    ghost function Pending(): seq<byte>
      requires Valid()
      reads this, buf
    {
      buf[skip..used]
    }

    /** The move of what is pending to the front. */
    method Compact()
      requires Valid() && up
      modifies this`used, this`skip, buf
      ensures Valid() && skip == 0 && used == old(used - skip) && Pending() == old(Pending())
    {
      var n := used - skip;
      ghost var pending := Pending();
      var i := 0;
      while i < n
        invariant 0 <= i <= n
        invariant forall j :: 0 <= j < i ==> buf[j] == pending[j]
        invariant forall j :: i <= j < n ==> buf[skip + j] == pending[j]
        modifies buf
      {
        buf[i] := buf[skip + i];
        i := i + 1;
      }
      used, skip := n, 0;
      assert buf[0..n] == pending;
    }

    /** `adns__vbuf_ensure` */
    method Ensure(want: nat)
      requires Valid() && up
      modifies this`buf
      ensures Valid() && want <= buf.Length && Pending() == old(Pending())
      ensures buf == old(buf) || fresh(buf)
    {
      if buf.Length >= want {
        return;
      }
      var larger := new byte[want];
      var i := 0;
      while i < used
        invariant 0 <= i <= used && forall j :: 0 <= j < i ==> larger[j] == buf[j]
        modifies larger
      {
        larger[i] := buf[i];
        i := i + 1;
      }
      buf := larger;
    }

    /** `read` of octets on offer into the room behind what is pending. */
    method Read(offered: seq<byte>) returns (got: nat)
      requires Valid() && up && skip == 0 && used < buf.Length && offered != []
      modifies this`used, buf
      ensures Valid() && 0 < got <= |offered| && Pending() == old(Pending()) + offered[..got]
    {
      var room := buf.Length - used;
      got := Min(|offered|, room);
      var i := 0;
      while i < got
        invariant 0 <= i <= got
        invariant forall j :: 0 <= j < i ==> buf[used + j] == offered[j]
        invariant forall j :: 0 <= j < used ==> buf[j] == old(buf[j])
        modifies buf
      {
        buf[used + i] := offered[i];
        i := i + 1;
      }
      used := used + got;
    }

    /** `tcp_close`, which throws away what was pending. */
    method Close()
      modifies this`used, this`skip, this`up
      ensures Valid() && !up && skip == 0 && Pending() == []
    {
      used, skip, up := 0, 0, false;
    }

    /** The frame at the head, if all of it is there. */
    method TakeFrame() returns (frame: Frame)
      requires Valid() && up && HasFrame(Pending())
      modifies this`skip
      ensures Valid() && old(Frames(Pending())) == [frame] + Frames(Pending())
      ensures old(Rest(Pending())) == Rest(Pending())
      ensures used - skip < old(used - skip)
    {
      ghost var pending := Pending();
      var len := buf[skip] as nat * 256 + buf[skip + 1];
      assert Want(pending) == 2 + len;
      frame := buf[skip + 2..skip + 2 + len];
      skip := skip + 2 + len;
      assert frame == pending[2..2 + len] && Pending() == pending[2 + len..];
    }

    /**
     The TCP part of `adns_processreadable`. `drops` tells which frames make their handler break the
     connection. As long as it is up, exactly the complete frames of all octets received are handed on,
     once each and in order, and the octets of the one begun are kept; every read has room for an octet.
     */
    method ProcessReadable(offers: seq<Offer>, drops: Frame -> bool) returns (handed: seq<Frame>, left: seq<Offer>,
                           ending: Ending, ghost got: seq<byte>)
      requires Valid() && up && skip == 0
      requires AllReal(offers)
      modifies this, buf
      ensures Valid() && skip == 0 && Stream(offers) == got + Stream(left)
      ensures ending != Reading && (up <==> ending == Idle || ending == Starved)
      ensures Behind(offers, left) && EndsAt(offers, left, ending)
      ensures up ==> handed == Frames(old(Pending()) + got) && Pending() == Rest(old(Pending()) + got)
      ensures ending == Lost ==> handed == Frames(old(Pending()) + got)
      ensures ending == Dropped ==>
        handed != [] && handed <= Frames(old(Pending()) + got) && drops(handed[|handed| - 1])
      ensures forall i :: 0 <= i < |handed| - (if ending == Dropped then 1 else 0) ==> !drops(handed[i])
    {
      handed, left, got := [], offers, [];
      ghost var all, pending := Pending(), Pending();
      assert all + [] == all && [] + Frames(all) == Frames(all);
      while true
        invariant Valid() && up && AllReal(left) && Stream(offers) == got + Stream(left)
        invariant pending == Pending() && SoFar(handed, pending, all + got, drops)
        invariant (buf == old(buf) || fresh(buf)) && Behind(offers, left)
        decreases Weight(left)
      {
        var part, dropped := HandOn(drops);
        if dropped {
          AppendPrefix(handed, part, Frames(pending));
          return handed + part, left, Dropped, got;
        }
        HandedSoFar(handed, pending, all + got, drops);
        handed, pending := handed + part, Pending();
        ghost var more;
        left, ending, more := ReadMore(offers, left);
        Associate(got, more, Stream(left));
        Associate(all, got, more);
        GrowSoFar(handed, pending, all + got, more, drops);
        got, pending := got + more, pending + more;
        if ending != Reading {
          return;
        }
      }
    }

    /** One more read of what is left of the offers. */
    method ReadMore(ghost offers: seq<Offer>, left0: seq<Offer>)
      returns (left: seq<Offer>, ending: Ending, ghost more: seq<byte>)
      requires Valid() && up && !HasFrame(Pending()) && AllReal(left0) && Behind(offers, left0)
      modifies this, buf
      ensures Valid() && skip == 0 && Stream(left0) == more + Stream(left) && AllReal(left)
      ensures (up <==> ending != Lost) && (up ==> Pending() == old(Pending()) + more)
      ensures ending != Reading ==> more == []
      ensures ending == Reading ==> Weight(left) < Weight(left0)
      ensures ending != Dropped && (buf == old(buf) || fresh(buf))
      ensures Behind(offers, left) && EndsAt(offers, left, ending)
    {
      left, ending, more := Fill(WantNow(), left0);
      BehindOn(offers, left0, left);
    }

    /** How many octets the frame at the head needs, as far as can be seen. */
    function WantNow(): (want: nat)
      requires Valid()
      reads this, buf
      ensures want == Want(Pending())
    {
      if used - skip < 2 then 2 else 2 + buf[skip] as nat * 256 + buf[skip + 1]
    }

    /** The turns of the loop that find a whole frame, up to one whose handler breaks the connection. */
    method HandOn(drops: Frame -> bool) returns (handed: seq<Frame>, dropped: bool)
      requires Valid() && up
      modifies this`skip, this`used, this`up
      ensures Valid() && (up <==> !dropped)
      ensures up ==> used == old(used) && handed == old(Frames(Pending())) && Pending() == old(Rest(Pending()))
      ensures dropped ==>
        skip == 0 && Pending() == [] && handed != [] && handed <= old(Frames(Pending())) && drops(handed[|handed| - 1])
      ensures forall i :: 0 <= i < |handed| - (if dropped then 1 else 0) ==> !drops(handed[i])
    {
      handed := [];
      ghost var all := Pending();
      assert [] + Frames(all) == Frames(all);
      while used - skip >= 2 && used - skip >= 2 + buf[skip] as nat * 256 + buf[skip + 1]
        invariant Valid() && up && used == old(used)
        invariant handed + Frames(Pending()) == Frames(all) && Rest(Pending()) == Rest(all)
        invariant forall i :: 0 <= i < |handed| ==> !drops(handed[i])
        decreases used - skip
      {
        var frame := TakeFrame();
        OneMore(handed, frame, Frames(Pending()));
        handed := handed + [frame];
        if drops(frame) {
          Close();
          return handed, true;
        }
      }
      assert !HasFrame(Pending()) && handed + [] == handed;
      dropped := false;
    }

    /** The rest of the loop's body: room for `want` octets, and one `read`. */
    method Fill(want: nat, offers: seq<Offer>) returns (left: seq<Offer>, ending: Ending, ghost more: seq<byte>)
      requires Valid() && up && used - skip < want && AllReal(offers)
      modifies this, buf
      ensures Valid() && skip == 0 && Stream(offers) == more + Stream(left) && AllReal(left)
      ensures up <==> ending != Lost
      ensures up ==> Pending() == old(Pending()) + more
      ensures ending != Reading ==> more == []
      ensures ending == Reading ==> Weight(left) < Weight(offers)
      ensures ending != Dropped && (buf == old(buf) || fresh(buf))
      ensures Behind(offers, left) && EndsAt(offers, left, ending)
    {
      more := [];
      Compact();
      Ensure(want);
      assert used < buf.Length; // the check for a full buffer never strikes
      if offers == [] || offers[0].WouldBlock? {
        return offers, Idle, more;
      }
      left, ending := offers[1..], Reading;
      match offers[0]
      case Octets(octets) =>
        var n := Read(octets);
        StreamTaken(offers, n);
        more := octets[..n];
        if n < |octets| {
          left := [Octets(octets[n..])] + left;
        }
      case Interrupted =>
      case NoResources => ending := Starved;
      case Closed =>
        Close();
        ending := Lost;
    }
  }

  /** `left` is what is left of the offers: the last of them, but the first one may be read in part. */
  predicate Behind(offers: seq<Offer>, left: seq<Offer>) {
    |left| <= |offers| && (left != [] ==>
      var k := |offers| - |left|;
      left[1..] == offers[k + 1..] && (left[0] == offers[k] || (left[0].Octets? && offers[k].Octets?)))
  }

  /** Why reading ended: nothing on offer, or the offer in front of what is left. */
  predicate EndsAt(offers: seq<Offer>, left: seq<Offer>, ending: Ending) {
    match ending
    case Idle => left == [] || left[0].WouldBlock?
    case Starved => |left| < |offers| && offers[|offers| - |left| - 1].NoResources?
    case Lost => |left| < |offers| && offers[|offers| - |left| - 1].Closed?
    case _ => true
  }

  lemma BehindOn(offers: seq<Offer>, a: seq<Offer>, b: seq<Offer>)
    requires Behind(offers, a) && Behind(a, b)
    ensures Behind(offers, b)
    ensures |b| < |a| ==>
      var o, x := offers[|offers| - |b| - 1], a[|a| - |b| - 1];
      o == x || (o.Octets? && x.Octets?)
  {
    if a != [] {
      var k := |offers| - |a|;
      assert forall i :: 0 < i < |a| ==> a[i] == a[1..][i - 1] == offers[k + 1..][i - 1] == offers[k + i];
      if b != [] {
        var j := |a| - |b|;
        assert a[j + 1..] == a[1..][j..] == offers[k + 1..][j..] == offers[k + j + 1..];
      }
    }
  }

  predicate AllReal(offers: seq<Offer>) { forall i :: 0 <= i < |offers| ==> offers[i] != Octets([]) }

  lemma OneMore(handed: seq<Frame>, frame: Frame, rest: seq<Frame>)
    ensures handed + ([frame] + rest) == (handed + [frame]) + rest && handed + [frame] <= (handed + [frame]) + rest
  {
  }

  lemma AppendPrefix(a: seq<Frame>, b: seq<Frame>, c: seq<Frame>)
    requires b <= c
    ensures a + b <= a + c
  {
    assert c == b + c[|b|..];
    assert a + c == (a + b) + c[|b|..];
  }

  /** The frames handed on are those of all octets received but for what is pending, and their handlers kept on. */
  predicate SoFar(handed: seq<Frame>, pending: seq<byte>, all: seq<byte>, drops: Frame -> bool) {
    && handed + Frames(pending) == Frames(all) && Rest(pending) == Rest(all)
    && forall i :: 0 <= i < |handed| ==> !drops(handed[i])
  }

  lemma HandedSoFar(handed: seq<Frame>, pending: seq<byte>, all: seq<byte>, drops: Frame -> bool)
    requires SoFar(handed, pending, all, drops) && forall i :: 0 <= i < |Frames(pending)| ==> !drops(Frames(pending)[i])
    ensures SoFar(handed + Frames(pending), Rest(pending), all, drops) && !HasFrame(Rest(pending))
  {
    RestHasNone(pending);
    assert handed + Frames(pending) + [] == handed + Frames(pending);
  }

  /** More octets behind a stream that was handed on as far as it goes. */
  lemma GrowSoFar(handed: seq<Frame>, pending: seq<byte>, all: seq<byte>, more: seq<byte>, drops: Frame -> bool)
    requires SoFar(handed, pending, all, drops) && !HasFrame(pending)
    ensures SoFar(handed, pending + more, all + more, drops)
    ensures more == [] ==> handed == Frames(all + more) && pending == Rest(all + more)
  {
    FramesJoin(all, more);
    assert handed + [] == handed && all + [] == all && pending + [] == pending;
  }

  lemma StreamTaken(offers: seq<Offer>, n: nat)
    requires offers != [] && offers[0].Octets? && 0 < n <= |offers[0].octets|
    ensures
      var octets := offers[0].octets;
      var left := if n == |octets| then offers[1..] else [Octets(octets[n..])] + offers[1..];
      Stream(offers) == octets[..n] + Stream(left) && Weight(left) < Weight(offers)
  {
    var octets := offers[0].octets;
    if n < |octets| {
      var left := [Octets(octets[n..])] + offers[1..];
      assert left[1..] == offers[1..];
      Associate(octets[..n], octets[n..], Stream(offers[1..]));
      assert octets[..n] + octets[n..] == octets;
    } else {
      assert octets[..n] == octets;
    }
  }
}
