/**
 Who is on which channel and who is invited where (src/channel.c, src/client.c): lists kept on both
 sides, in the channel and in the user, and what joining, leaving, inviting and exiting make of them.
 */
module Membership {
  const MAXCHANNELSPERUSER := 10

  /** Users and channels by identity. */
  type Uid = nat
  type Cid = nat

  datatype Chan = Chan(members: seq<Uid>, users: int, invites: seq<Uid>, juped: bool)

  datatype User = User(channels: seq<Cid>, joined: int, invited: seq<Cid>)

  datatype World = World(chans: map<Cid, Chan>, users: map<Uid, User>)

  predicate NoDup(s: seq<nat>) { forall i, j :: 0 <= i < j < |s| ==> s[i] != s[j] }

  /** `s` without its first `x`. */
  function Without(s: seq<nat>, x: nat): seq<nat> {
    if s == [] then [] else if s[0] == x then s[1..] else [s[0]] + Without(s[1..], x)
  }

  lemma {:induction false} WithoutIs(s: seq<nat>, x: nat)
    requires NoDup(s)
    ensures NoDup(Without(s, x)) && forall y :: y in Without(s, x) <==> y in s && y != x
    ensures |Without(s, x)| == |s| - (if x in s then 1 else 0)
    ensures x !in s ==> Without(s, x) == s
  {
    if s != [] {
      WithoutIs(s[1..], x);
      assert s == [s[0]] + s[1..];
      assert s[0] !in s[1..] by {
        assert forall i :: 0 <= i < |s[1..]| ==> s[1..][i] == s[i + 1];
      }
    }
  }

  /** What is left keeps its order. */
  lemma {:induction false} WithoutApart(a: seq<nat>, x: nat, b: seq<nat>)
    requires x !in a
    ensures Without(a + [x] + b, x) == a + b
  {
    if a == [] {
      assert a + [x] + b == [x] + b && a + b == b;
    } else {
      WithoutApart(a[1..], x, b);
      assert (a + [x] + b)[1..] == a[1..] + [x] + b && a + b == [a[0]] + (a[1..] + b);
    }
  }

  lemma {:induction false} FrontIs(x: nat, s: seq<nat>)
    requires NoDup(s) && x !in s
    ensures NoDup([x] + s) && NoDup(s + [x])
  {
    var t := s + [x];
    forall i, j | 0 <= i < j < |t|
      ensures t[i] != t[j]
    {
      assert t[i] == s[i];
    }
  }

  function MembersOf(w: World, c: Cid): seq<Uid> { if c in w.chans then w.chans[c].members else [] }

  function ChannelsOf(w: World, u: Uid): seq<Cid> { if u in w.users then w.users[u].channels else [] }

  function InvitesOf(w: World, c: Cid): seq<Uid> { if c in w.chans then w.chans[c].invites else [] }

  function InvitedOf(w: World, u: Uid): seq<Cid> { if u in w.users then w.users[u].invited else [] }

  /** A user is in a channel's list of members exactly if the channel is in the user's. */
  ghost predicate MembersMirror(w: World) {
    forall c, u :: u in MembersOf(w, c) <==> c in ChannelsOf(w, u)
  }

  /** Likewise for invitations. */
  ghost predicate InvitesMirror(w: World) {
    forall c, u :: u in InvitesOf(w, c) <==> c in InvitedOf(w, u)
  }

  predicate GoodChan(ch: Chan) { NoDup(ch.members) && NoDup(ch.invites) && ch.users == |ch.members| }

  predicate GoodUser(us: User) {
    NoDup(us.channels) && NoDup(us.invited) && us.joined == |us.channels| && |us.invited| <= MAXCHANNELSPERUSER
  }

  ghost predicate Sound(w: World) {
    MembersMirror(w) && InvitesMirror(w) && (forall c :: c in w.chans ==> GoodChan(w.chans[c]))
      && (forall u :: u in w.users ==> GoodUser(w.users[u]))
  }

  /** An empty channel is a juped one. */
  ghost predicate Living(w: World) {
    forall c :: c in w.chans && w.chans[c].members == [] ==> w.chans[c].juped
  }

  predicate Both(w: World, u: Uid, c: Cid) { u in w.users && c in w.chans }

  function Update(w: World, u: Uid, us: User, c: Cid, ch: Chan): World { World(w.chans[c := ch], w.users[u := us]) }

  /** A user and a channel may change together if they keep mirroring each other and all others. */
  lemma UpdatedIsSound(w: World, u: Uid, us: User, c: Cid, ch: Chan)
    requires Sound(w) && Both(w, u, c) && GoodChan(ch) && GoodUser(us)
    requires forall v :: v != u ==> (v in ch.members <==> v in w.chans[c].members)
    requires forall v :: v != u ==> (v in ch.invites <==> v in w.chans[c].invites)
    requires forall d :: d != c ==> (d in us.channels <==> d in w.users[u].channels)
    requires forall d :: d != c ==> (d in us.invited <==> d in w.users[u].invited)
    requires (u in ch.members <==> c in us.channels) && (u in ch.invites <==> c in us.invited)
    ensures Sound(Update(w, u, us, c, ch))
  {
    var w' := Update(w, u, us, c, ch);
    forall d, v
      ensures v in MembersOf(w', d) <==> d in ChannelsOf(w', v)
    {
      assert v in MembersOf(w, d) <==> d in ChannelsOf(w, v);
    }
    forall d, v
      ensures v in InvitesOf(w', d) <==> d in InvitedOf(w', v)
    {
      assert v in InvitesOf(w, d) <==> d in InvitedOf(w, v);
    }
  }

  /** `add_user_to_channel` */
  function Joined(w: World, u: Uid, c: Cid): World
    requires Both(w, u, c)
  {
    var ch, us := w.chans[c], w.users[u];
    Update(w, u, us.(channels := [c] + us.channels, joined := us.joined + 1), c,
           ch.(members := [u] + ch.members, users := ch.users + 1))
  }

  lemma {:induction false} JoinedIsSound(w: World, u: Uid, c: Cid)
    requires Sound(w) && Both(w, u, c) && u !in w.chans[c].members
    ensures Sound(Joined(w, u, c))
  {
    assert u in MembersOf(w, c) <==> c in ChannelsOf(w, u);
    assert u in InvitesOf(w, c) <==> c in InvitedOf(w, u);
    FrontIs(u, w.chans[c].members);
    FrontIs(c, w.users[u].channels);
    var ch, us := w.chans[c], w.users[u];
    UpdatedIsSound(w, u, us.(channels := [c] + us.channels, joined := us.joined + 1), c,
                   ch.(members := [u] + ch.members, users := ch.users + 1));
  }

  /** `del_invite` */
  function Uninvited(w: World, u: Uid, c: Cid): World
    requires Both(w, u, c)
  {
    var ch, us := w.chans[c], w.users[u];
    Update(w, u, us.(invited := Without(us.invited, c)), c, ch.(invites := Without(ch.invites, u)))
  }

  lemma {:induction false} UninvitedIsSound(w: World, u: Uid, c: Cid)
    requires Sound(w) && Both(w, u, c)
    ensures Sound(Uninvited(w, u, c))
  {
    assert u in MembersOf(w, c) <==> c in ChannelsOf(w, u);
    WithoutIs(w.chans[c].invites, u);
    WithoutIs(w.users[u].invited, c);
    var ch, us := w.chans[c], w.users[u];
    UpdatedIsSound(w, u, us.(invited := Without(us.invited, c)), c, ch.(invites := Without(ch.invites, u)));
  }

  /** The links of a member taken out on both sides, and the user's count; the channel's comes later. */
  function Unlinked(w: World, u: Uid, c: Cid): World
    requires Both(w, u, c)
  {
    var ch, us := w.chans[c], w.users[u];
    Update(w, u, us.(channels := Without(us.channels, c), joined := us.joined - 1),
           c, ch.(members := Without(ch.members, u), users := ch.users - 1))
  }

  lemma {:induction false} UnlinkedIsSound(w: World, u: Uid, c: Cid)
    requires Sound(w) && Both(w, u, c) && u in w.chans[c].members
    ensures Sound(Unlinked(w, u, c))
  {
    assert u in MembersOf(w, c) <==> c in ChannelsOf(w, u);
    assert u in InvitesOf(w, c) <==> c in InvitedOf(w, u);
    WithoutIs(w.chans[c].members, u);
    WithoutIs(w.users[u].channels, c);
    var ch, us := w.chans[c], w.users[u];
    UpdatedIsSound(w, u, us.(channels := Without(us.channels, c), joined := us.joined - 1), c,
                   ch.(members := Without(ch.members, u), users := ch.users - 1));
  }

  /** A link on one side shows the other. */
  lemma {:induction false} OtherSide(w: World, u: Uid, c: Cid)
    requires Sound(w)
    ensures u in MembersOf(w, c) || c in ChannelsOf(w, u) ==>
      Both(w, u, c) && u in w.chans[c].members && c in w.users[u].channels
    ensures u in InvitesOf(w, c) || c in InvitedOf(w, u) ==>
      Both(w, u, c) && u in w.chans[c].invites && c in w.users[u].invited
  {
    assert (u in MembersOf(w, c) <==> c in ChannelsOf(w, u)) && (u in InvitesOf(w, c) <==> c in InvitedOf(w, u));
  }

  /** Only invitations to `c` differ, and those only by being gone. */
  ghost predicate SameButInvites(w: World, w': World, c: Cid) {
    && w'.users.Keys == w.users.Keys && w'.chans.Keys == w.chans.Keys
    && (forall d :: d in w.chans ==>
          w'.chans[d] == if d == c then w.chans[d].(invites := w'.chans[d].invites) else w.chans[d])
    && (forall u :: u in w.users ==>
          w'.users[u] == w.users[u] || w'.users[u] == w.users[u].(invited := Without(w.users[u].invited, c)))
  }

  /** All invitations to a channel deleted, newest first. */
  ghost function NoInvites(w: World, c: Cid): (w': World)
    requires Sound(w) && c in w.chans
    ensures Sound(w') && SameButInvites(w, w', c) && w'.chans[c].invites == []
    decreases |w.chans[c].invites|
  {
    if w.chans[c].invites == [] then w
    else
      var u := w.chans[c].invites[0];
      OtherSide(w, u, c);
      UninvitedIsSound(w, u, c);
      WithoutIs(w.chans[c].invites, u);
      WithoutIs(w.users[u].invited, c);
      var w1 := Uninvited(w, u, c);
      var w' := NoInvites(w1, c);
      UninvitedOnce(w, w1, w', u, c);
      w'
  }

  /** An invitation that is gone does not go twice. */
  lemma {:induction false} UninvitedOnce(w: World, w1: World, w': World, u: Uid, c: Cid)
    requires Sound(w) && Both(w, u, c) && w1 == Uninvited(w, u, c) && SameButInvites(w1, w', c)
    ensures SameButInvites(w, w', c)
  {
    WithoutIs(w.users[u].invited, c);
    WithoutIs(Without(w.users[u].invited, c), c);
  }

  /** What happens to a channel that lost a member: it goes if it is empty and not juped; nothing else does. */
  ghost predicate Shrunk(w: World, w': World, c: Cid) {
    && w'.users.Keys == w.users.Keys && c in w.chans
    && w'.chans.Keys == w.chans.Keys - (if w.chans[c].members == [] && !w.chans[c].juped then {c} else {})
    && (forall d :: d in w'.chans ==>
          w'.chans[d].members == w.chans[d].members && w'.chans[d].juped == w.chans[d].juped)
    && (forall u :: u in w.users ==> w'.users[u].channels == w.users[u].channels)
  }

  /** `sub1_from_channel` once the count is down: an empty channel loses its invitations and, unless juped, itself. */
  ghost function Emptied(w: World, c: Cid): (w': World)
    requires Sound(w) && c in w.chans
    ensures Sound(w') && Shrunk(w, w', c)
  {
    if w.chans[c].users > 0 then w
    else
      var w1 := NoInvites(w, c);
      if w.chans[c].juped then w1
      else
        FreedIsSound(w1, c);
        w1.(chans := w1.chans - {c})
  }

  lemma {:induction false} FreedIsSound(w: World, c: Cid)
    requires Sound(w) && c in w.chans && w.chans[c].members == [] && w.chans[c].invites == []
    ensures Sound(w.(chans := w.chans - {c}))
  {
    var w' := w.(chans := w.chans - {c});
    forall d, v
      ensures v in MembersOf(w', d) <==> d in ChannelsOf(w', v)
      ensures v in InvitesOf(w', d) <==> d in InvitedOf(w', v)
    {
      assert (v in MembersOf(w, d) <==> d in ChannelsOf(w, v)) && (v in InvitesOf(w, d) <==> d in InvitedOf(w, v));
    }
  }

  /** `remove_user_from_channel` */
  ghost function Removed(w: World, u: Uid, c: Cid): (w': World)
    requires Sound(w) && Both(w, u, c) && u in w.chans[c].members
    ensures Sound(w') && Shrunk(Unlinked(w, u, c), w', c)
  {
    UnlinkedIsSound(w, u, c);
    Emptied(Unlinked(w, u, c), c)
  }

  lemma {:induction false} RemovedIsLiving(w: World, u: Uid, c: Cid)
    requires Sound(w) && Both(w, u, c) && u in w.chans[c].members && Living(w)
    ensures Living(Removed(w, u, c))
  {
  }

  /** `add_invite`: an old invitation is renewed, and a user with too many loses the oldest. */
  ghost function Invited(w: World, u: Uid, c: Cid): (w': World)
    requires Sound(w) && Both(w, u, c)
    ensures Sound(w') && w'.chans.Keys == w.chans.Keys && w'.users.Keys == w.users.Keys
    ensures u in w'.chans[c].invites && c in w'.users[u].invited && SameMembers(w, w')
  {
    UninvitedIsSound(w, u, c);
    var w1 := Uninvited(w, u, c);
    WithoutIs(w.users[u].invited, c);
    var w2 := RoomMade(w1, u);
    WithInviteIsSound(w2, u, c);
    WithInvite(w2, u, c)
  }

  /** The last ten of a list. */
  function NewestTen(s: seq<Cid>): seq<Cid> { if |s| > 10 then s[|s| - 10..] else s }

  /** An invitation goes to the end of the user's list, which keeps its newest, and to the head of the channel's. */
  lemma {:induction false} InvitedIs(w: World, u: Uid, c: Cid)
    requires Sound(w) && Both(w, u, c)
    ensures
      var w' := Invited(w, u, c);
      && w'.users[u].invited == NewestTen(Without(w.users[u].invited, c) + [c])
      && w'.chans[c].invites == [u] + Without(w.chans[c].invites, u)
  {
    UninvitedIsSound(w, u, c);
    WithoutIs(w.users[u].invited, c);
    RoomIs(Uninvited(w, u, c), u, c);
    NewestKept(Without(w.users[u].invited, c), c);
  }

  lemma {:induction false} RoomIs(w: World, u: Uid, c: Cid)
    requires Sound(w) && Both(w, u, c) && c !in w.users[u].invited
    ensures
      var w', s := RoomMade(w, u), w.users[u].invited;
      w'.users[u].invited == (if |s| >= 10 then s[1..] else s) && w'.chans[c].invites == w.chans[c].invites
  {
    var s := w.users[u].invited;
    if |s| >= 10 {
      OtherSide(w, u, s[0]);
      UninvitedIsSound(w, u, s[0]);
    }
  }

  lemma NewestKept(s: seq<Cid>, c: Cid)
    requires |s| <= 10
    ensures NewestTen(s + [c]) == (if |s| >= 10 then s[1..] else s) + [c]
  {
  }

  /** No channel comes, goes, or changes its members or its jupe. */
  ghost predicate SameMembers(w: World, w': World) {
    w'.chans.Keys == w.chans.Keys && forall d :: d in w.chans ==>
      w'.chans[d].members == w.chans[d].members && w'.chans[d].juped == w.chans[d].juped
  }

  function WithInvite(w: World, u: Uid, c: Cid): World
    requires Both(w, u, c)
  {
    var ch, us := w.chans[c], w.users[u];
    Update(w, u, us.(invited := us.invited + [c]), c, ch.(invites := [u] + ch.invites))
  }

  /** The oldest invitation of a user who has as many as allowed is deleted. */
  ghost function RoomMade(w: World, u: Uid): (w': World)
    requires Sound(w) && u in w.users
    ensures Sound(w') && w'.chans.Keys == w.chans.Keys && w'.users.Keys == w.users.Keys
    ensures |w'.users[u].invited| < MAXCHANNELSPERUSER
    ensures (forall c :: c in w'.users[u].invited ==> c in w.users[u].invited) && SameMembers(w, w')
  {
    if |w.users[u].invited| >= MAXCHANNELSPERUSER then
      var c := w.users[u].invited[0];
      OtherSide(w, u, c);
      UninvitedIsSound(w, u, c);
      WithoutIs(w.users[u].invited, c);
      Uninvited(w, u, c)
    else w
  }

  lemma {:induction false} WithInviteIsSound(w: World, u: Uid, c: Cid)
    requires Sound(w) && Both(w, u, c) && c !in w.users[u].invited && |w.users[u].invited| < MAXCHANNELSPERUSER
    ensures Sound(WithInvite(w, u, c))
  {
    assert u in MembersOf(w, c) <==> c in ChannelsOf(w, u);
    assert u in InvitesOf(w, c) <==> c in InvitedOf(w, u);
    FrontIs(u, w.chans[c].invites);
    FrontIs(c, w.users[u].invited);
    var ch, us := w.chans[c], w.users[u];
    UpdatedIsSound(w, u, us.(invited := us.invited + [c]), c, ch.(invites := [u] + ch.invites));
  }

  /** The first loop of an exit: off every channel. */
  ghost function OffChannels(w: World, u: Uid): (w': World)
    requires Sound(w) && Living(w) && u in w.users
    ensures Sound(w') && Living(w') && w'.users.Keys == w.users.Keys && w'.users[u].channels == []
    ensures Departed(w, w', u)
    decreases |w.users[u].channels|
  {
    if w.users[u].channels == [] then
      OnNone(w, u);
      w
    else
      var c := w.users[u].channels[0];
      OtherSide(w, u, c);
      RemovedIsLiving(w, u, c);
      var w1 := Removed(w, u, c);
      var w' := OffChannels(w1, u);
      DepartedOn(w, w1, w', u, c);
      w'
  }

  /** Channels lost no member but `u`, and a channel is gone exactly if `u` was alone on it and it was not juped. */
  ghost predicate Departed(w: World, w': World, u: Uid) {
    && w'.chans.Keys <= w.chans.Keys && w'.users.Keys == w.users.Keys
    && (forall d :: d in w.chans ==> (d in w'.chans <==> Without(w.chans[d].members, u) != [] || w.chans[d].juped))
    && (forall d :: d in w'.chans ==>
          w'.chans[d].members == Without(w.chans[d].members, u) && w'.chans[d].juped == w.chans[d].juped)
    && (forall v :: v in w.users && v != u ==> w'.users[v].channels == w.users[v].channels)
  }

  lemma {:induction false} DepartedOn(w: World, w1: World, w': World, u: Uid, c: Cid)
    requires Sound(w) && Living(w) && Both(w, u, c) && u in w.chans[c].members && w1 == Removed(w, u, c)
    requires w'.users.Keys == w1.users.Keys
    requires Departed(w1, w', u)
    ensures Departed(w, w', u)
  {
    forall d | d in w.chans
      ensures d in w1.chans ==>
        w1.chans[d].juped == w.chans[d].juped && Without(w1.chans[d].members, u) == Without(w.chans[d].members, u)
      ensures d !in w1.chans ==> Without(w.chans[d].members, u) == [] && !w.chans[d].juped
    {
      RemovedOnce(w, u, c, d);
    }
  }

  /** Leaving one channel does not change what leaving all will. */
  lemma {:induction false} RemovedOnce(w: World, u: Uid, c: Cid, d: Cid)
    requires Sound(w) && Both(w, u, c) && u in w.chans[c].members && d in w.chans
    ensures
      var w1 := Removed(w, u, c);
      && (d in w1.chans ==>
         w1.chans[d].juped == w.chans[d].juped && Without(w1.chans[d].members, u) == Without(w.chans[d].members, u))
      && (d !in w1.chans ==> Without(w.chans[d].members, u) == [] && !w.chans[d].juped)
  {
    if d == c {
      WithoutIs(w.chans[c].members, u);
      WithoutIs(Without(w.chans[c].members, u), u);
    }
  }

  lemma {:induction false} OnNone(w: World, u: Uid)
    requires Sound(w) && Living(w) && u in w.users && w.users[u].channels == []
    ensures Departed(w, w, u)
  {
    forall d | d in w.chans
      ensures Without(w.chans[d].members, u) == w.chans[d].members
    {
      OtherSide(w, u, d);
      WithoutIs(w.chans[d].members, u);
    }
  }

  /** The second loop: off every invitation list. */
  ghost function OffInvites(w: World, u: Uid): (w': World)
    requires Sound(w) && u in w.users
    ensures Sound(w') && w'.users.Keys == w.users.Keys && w'.users[u].invited == []
    ensures w'.users[u].channels == w.users[u].channels
    ensures w'.chans.Keys == w.chans.Keys
    ensures forall d :: d in w.chans ==> w'.chans[d] == w.chans[d].(invites := w'.chans[d].invites)
    decreases |w.users[u].invited|
  {
    if w.users[u].invited == [] then w
    else
      var c := w.users[u].invited[0];
      OtherSide(w, u, c);
      UninvitedIsSound(w, u, c);
      WithoutIs(w.users[u].invited, c);
      OffInvites(Uninvited(w, u, c), u)
  }

  /** The cleanup of `exit_one_client`. */
  ghost function Exited(w: World, u: Uid): (w': World)
    requires Sound(w) && Living(w) && u in w.users
    ensures Sound(w') && Living(w') && w'.users.Keys == w.users.Keys - {u}
    ensures w'.chans.Keys <= w.chans.Keys
    ensures forall d :: d in w.chans ==> (d in w'.chans <==> Without(w.chans[d].members, u) != [] || w.chans[d].juped)
    ensures forall d :: d in w'.chans ==> w'.chans[d].members == Without(w.chans[d].members, u)
  {
    var w1 := OffInvites(OffChannels(w, u), u);
    GoneIsSound(w1, u);
    w1.(users := w1.users - {u})
  }

  lemma {:induction false} ExitedIs(w: World, u: Uid)
    requires Sound(w) && Living(w) && u in w.users
    ensures
      var w1 := OffInvites(OffChannels(w, u), u);
      Exited(w, u) == World(w1.chans, w1.users - {u}) && Sound(Exited(w, u)) && Living(Exited(w, u))
  {
  }

  lemma {:induction false} GoneIsSound(w: World, u: Uid)
    requires Sound(w) && u in w.users && w.users[u].channels == [] && w.users[u].invited == []
    ensures Sound(w.(users := w.users - {u}))
  {
    var w' := w.(users := w.users - {u});
    forall d, v
      ensures v in MembersOf(w', d) <==> d in ChannelsOf(w', v)
      ensures v in InvitesOf(w', d) <==> d in InvitedOf(w', v)
    {
      assert (v in MembersOf(w, d) <==> d in ChannelsOf(w, v)) && (v in InvitesOf(w, d) <==> d in InvitedOf(w, v));
    }
  }

  const EMPTY := Chan([], 0, [], false)

  /** The channel, made if it does not exist. */
  function Created(w: World, c: Cid): World { if c in w.chans then w else w.(chans := w.chans[c := EMPTY]) }

  lemma {:induction false} CreatedIsSound(w: World, c: Cid)
    requires Sound(w)
    ensures Sound(Created(w, c))
  {
    var w' := Created(w, c);
    forall d, v
      ensures v in MembersOf(w', d) <==> d in ChannelsOf(w', v)
      ensures v in InvitesOf(w', d) <==> d in InvitedOf(w', v)
    {
      assert (v in MembersOf(w, d) <==> d in ChannelsOf(w, v)) && (v in InvitesOf(w, d) <==> d in InvitedOf(w, v));
    }
  }

  function WithJupe(w: World, c: Cid, on: bool): World
    requires c in w.chans
  {
    w.(chans := w.chans[c := w.chans[c].(juped := on)])
  }

  lemma {:induction false} WithJupeIsSound(w: World, c: Cid, on: bool)
    requires Sound(w) && c in w.chans
    ensures Sound(WithJupe(w, c, on))
  {
    var w' := WithJupe(w, c, on);
    forall d, v
      ensures v in MembersOf(w', d) <==> d in ChannelsOf(w', v)
      ensures v in InvitesOf(w', d) <==> d in InvitedOf(w', v)
    {
      assert (v in MembersOf(w, d) <==> d in ChannelsOf(w, v)) && (v in InvitesOf(w, d) <==> d in InvitedOf(w, v));
    }
  }

  /** Mode `+j` or `-j`; a channel with no users goes when its jupe does. */
  ghost function Juped(w: World, c: Cid, on: bool): (w': World)
    requires Sound(w) && c in w.chans
    ensures Sound(w') && (Living(w) ==> Living(w'))
  {
    WithJupeIsSound(w, c, on);
    if on then WithJupe(w, c, on) else Emptied(WithJupe(w, c, on), c)
  }

  /** Reading the configuration anew takes the jupe off these channels, and does nothing else to them. */
  ghost function Cleared(w: World, cs: set<Cid>): World {
    w.(chans := map c | c in w.chans :: if c in cs then w.chans[c].(juped := false) else w.chans[c])
  }

  /** Taking jupes off that way leaves an empty channel behind exactly if one of them is empty. */
  lemma {:induction false} ClearedIsLivingIff(w: World, cs: set<Cid>)
    requires Sound(w) && Living(w)
    ensures Sound(Cleared(w, cs))
    ensures Living(Cleared(w, cs)) <==> forall c :: c in cs && c in w.chans ==> w.chans[c].members != []
  {
    var w' := Cleared(w, cs);
    forall d, v
      ensures v in MembersOf(w', d) <==> d in ChannelsOf(w', v)
      ensures v in InvitesOf(w', d) <==> d in InvitedOf(w', v)
    {
      assert (v in MembersOf(w, d) <==> d in ChannelsOf(w, v)) && (v in InvitesOf(w, d) <==> d in InvitedOf(w, v));
    }
    if c :| c in cs && c in w.chans && w.chans[c].members == [] {
      assert c in w'.chans && w'.chans[c].members == [] && !w'.chans[c].juped;
    }
  }

  datatype Event =
    | Connect(u: Uid)
    | Join(u: Uid, c: Cid)
    | Leave(u: Uid, c: Cid)
    | Invite(u: Uid, c: Cid)
    | Uninvite(u: Uid, c: Cid)
    | Jupe(c: Cid, on: bool)
    | Exit(u: Uid)

  /** What an event makes of the lists; one about users or channels that do not exist makes nothing. */
  ghost function Step(w: World, e: Event): (w': World)
    requires Sound(w) && Living(w)
    ensures Sound(w') && Living(w')
  {
    match e
    case Connect(u) =>
      if u in w.users then w
      else
        ConnectedIsSound(w, u);
        w.(users := w.users[u := User([], 0, [])])
    case Join(u, c) =>
      if u !in w.users || u in MembersOf(w, c) then w
      else
        CreatedIsSound(w, c);
        JoinedIsSound(Created(w, c), u, c);
        UninvitedIsSound(Joined(Created(w, c), u, c), u, c);
        Uninvited(Joined(Created(w, c), u, c), u, c)
    case Leave(u, c) =>
      OtherSide(w, u, c);
      if u !in MembersOf(w, c) then w
      else
        RemovedIsLiving(w, u, c);
        Removed(w, u, c)
    case Invite(u, c) => if Both(w, u, c) then Invited(w, u, c) else w
    case Uninvite(u, c) =>
      if Both(w, u, c) then
        UninvitedIsSound(w, u, c);
        Uninvited(w, u, c)
      else w
    case Jupe(c, on) => if c in w.chans then Juped(w, c, on) else w
    case Exit(u) => if u in w.users then Exited(w, u) else w
  }

  lemma {:induction false} ConnectedIsSound(w: World, u: Uid)
    requires Sound(w) && u !in w.users
    ensures Sound(w.(users := w.users[u := User([], 0, [])]))
  {
    var w' := w.(users := w.users[u := User([], 0, [])]);
    forall d, v
      ensures v in MembersOf(w', d) <==> d in ChannelsOf(w', v)
      ensures v in InvitesOf(w', d) <==> d in InvitedOf(w', v)
    {
      assert (v in MembersOf(w, d) <==> d in ChannelsOf(w, v)) && (v in InvitesOf(w, d) <==> d in InvitedOf(w, v));
    }
  }

  /** Who joins is the newest member, of a channel of its own if there was none, and is invited no longer. */
  lemma {:induction false} JoinIs(w: World, u: Uid, c: Cid)
    requires Sound(w) && Living(w) && u in w.users && u !in MembersOf(w, c)
    ensures
      var w' := Step(w, Join(u, c));
      && c in w'.chans && u in w'.users && w'.users[u].channels == [c] + w.users[u].channels
      && c !in w'.users[u].invited
      && w'.chans[c] == if c in w.chans then
           var ch := w.chans[c];
           Chan([u] + ch.members, |ch.members| + 1, Without(ch.invites, u), ch.juped)
         else Chan([u], 1, [], false)
  {
    WithoutIs(w.users[u].invited, c);
  }

  /** A jupe comes and goes as it is set, and with it goes a channel that has no members. */
  lemma {:induction false} JupeIs(w: World, c: Cid, on: bool)
    requires Sound(w) && Living(w) && c in w.chans
    ensures
      var w' := Step(w, Jupe(c, on));
      && (c in w'.chans <==> on || w.chans[c].members != [])
      && (c in w'.chans ==> w'.chans[c].juped == on && w'.chans[c].members == w.chans[c].members)
      && (forall d :: d != c ==> (d in w'.chans <==> d in w.chans))
      && (on ==> w' == World(w.chans[c := w.chans[c].(juped := true)], w.users))
  {
  }

  /** Every state a run comes through. */
  ghost predicate Reaches(w: World, events: seq<Event>, w': World)
    requires Sound(w) && Living(w)
    decreases |events|
  {
    if events == [] then w' == w else Reaches(Step(w, events[0]), events[1..], w')
  }

  /**
     In every run the lists mirror each other, the counters are their lengths, nobody has more invitations
     than allowed, and an empty channel is a juped one.
   */
  lemma {:induction false} EveryRunIsSound(w: World, events: seq<Event>, w': World)
    requires Sound(w) && Living(w) && Reaches(w, events, w')
    ensures Sound(w') && Living(w')
    decreases |events|
  {
    if events != [] {
      EveryRunIsSound(Step(w, events[0]), events[1..], w');
    }
  }

  lemma {:induction false} EmptyWorldIsSound()
    ensures Sound(World(map[], map[])) && Living(World(map[], map[]))
  {
  }

  /** The server's channels and users. */
  class Server {
    var chans: map<Cid, Chan>
    var users: map<Uid, User>

    constructor ()
      ensures Now() == World(map[], map[]) && Valid()
    {
      chans, users := map[], map[];
    }

    ghost function Now(): World
      reads this
    {
      World(chans, users)
    }

    ghost predicate Valid()
      reads this
    {
      Sound(Now()) && Living(Now())
    }

    /** `add_user_to_channel` */
    method AddUser(u: Uid, c: Cid)
      requires Sound(Now()) && Both(Now(), u, c) && u !in chans[c].members
      modifies this
      ensures Now() == Joined(old(Now()), u, c) && Sound(Now()) && (old(Living(Now())) ==> Living(Now()))
      ensures chans[c].members == [u] + old(chans[c].members) && users[u].channels == [c] + old(users[u].channels)
    {
      JoinedIsSound(Now(), u, c);
      chans := chans[c := chans[c].(members := [u] + chans[c].members, users := chans[c].users + 1)];
      users := users[u := users[u].(channels := [c] + users[u].channels, joined := users[u].joined + 1)];
    }

    /** `remove_user_from_channel` */
    method RemoveUser(u: Uid, c: Cid)
      requires Sound(Now()) && Both(Now(), u, c) && u in chans[c].members
      modifies this
      ensures Now() == Removed(old(Now()), u, c) && (old(Living(Now())) ==> Living(Now()))
    {
      if Living(Now()) {
        RemovedIsLiving(Now(), u, c);
      }
      UnlinkedIsSound(Now(), u, c);
      ghost var w := Unlinked(Now(), u, c);
      var members := FreeLink(chans[c].members, u);
      var channels := FreeLink(users[u].channels, c);
      chans := chans[c := chans[c].(members := members, users := chans[c].users - 1)];
      users := users[u := users[u].(channels := channels, joined := users[u].joined - 1)];
      assert Now() == w;
      Sub1(c);
    }

    /** `sub1_from_channel`, the count being down already. */
    method Sub1(c: Cid)
      requires Sound(Now()) && c in chans
      modifies this
      ensures Now() == Emptied(old(Now()), c)
    {
      if chans[c].users <= 0 {
        assert GoodChan(chans[c]); // so the count is 0, and setting it to 0 changes nothing
        ghost var w := Now();
        while chans[c].invites != []
          invariant Sound(Now()) && c in chans && NoInvites(Now(), c) == NoInvites(w, c)
          decreases |chans[c].invites|
        {
          var u := chans[c].invites[0];
          OtherSide(Now(), u, c);
          WithoutIs(chans[c].invites, u);
          DelInvite(u, c);
        }
        if !chans[c].juped {
          chans := chans - {c};
        }
      }
    }

    /** `del_invite` */
    method DelInvite(u: Uid, c: Cid)
      requires Sound(Now()) && Both(Now(), u, c)
      modifies this
      ensures Now() == Uninvited(old(Now()), u, c) && Sound(Now())
    {
      UninvitedIsSound(Now(), u, c);
      var invites := FreeLink(chans[c].invites, u);
      chans := chans[c := chans[c].(invites := invites)];
      var invited := FreeLink(users[u].invited, c);
      users := users[u := users[u].(invited := invited)];
    }

    /** `add_invite` */
    method AddInvite(u: Uid, c: Cid)
      requires Sound(Now()) && Both(Now(), u, c)
      modifies this
      ensures Now() == Invited(old(Now()), u, c) && u in users && c in chans
      ensures users[u].invited == NewestTen(Without(old(users[u].invited), c) + [c])
      ensures chans[c].invites == [u] + Without(old(chans[c].invites), u)
    {
      InvitedIs(Now(), u, c);
      DelInvite(u, c);
      if |users[u].invited| >= MAXCHANNELSPERUSER {
        OtherSide(Now(), u, users[u].invited[0]);
        DelInvite(u, users[u].invited[0]);
      }
      chans := chans[c := chans[c].(invites := [u] + chans[c].invites)];
      users := users[u := users[u].(invited := users[u].invited + [c])];
    }

    /** The loops of `exit_one_client`: they come to an end because both sides agree. */
    method ExitUser(u: Uid)
      requires Valid() && u in users
      modifies this
      ensures Valid() && Now() == Exited(old(Now()), u)
    {
      ghost var w := Now();
      ExitedIs(w, u);
      LeaveAll(u);
      RefuseAll(u);
      users := users - {u};
    }

    /** The first loop. */
    method LeaveAll(u: Uid)
      requires Valid() && u in users
      modifies this
      ensures Valid() && Now() == OffChannels(old(Now()), u)
    {
      ghost var w := Now();
      while users[u].channels != []
        invariant Valid() && u in users && OffChannels(Now(), u) == OffChannels(w, u)
        decreases |users[u].channels|
      {
        var c := users[u].channels[0];
        OtherSide(Now(), u, c);
        WithoutIs(users[u].channels, c);
        RemoveUser(u, c);
      }
    }

    /** The second loop. */
    method RefuseAll(u: Uid)
      requires Sound(Now()) && u in users
      modifies this
      ensures Sound(Now()) && Now() == OffInvites(old(Now()), u)
    {
      ghost var w := Now();
      while users[u].invited != []
        invariant Sound(Now()) && u in users && OffInvites(Now(), u) == OffInvites(w, u)
        decreases |users[u].invited|
      {
        var c := users[u].invited[0];
        OtherSide(Now(), u, c);
        WithoutIs(users[u].invited, c);
        DelInvite(u, c);
      }
    }
  }

  /** A list with the first link to `x` taken out and freed. */
  method FreeLink(s: seq<nat>, x: nat) returns (left: seq<nat>)
    ensures left == Without(s, x)
  {
    var i := 0;
    while i < |s|
      invariant 0 <= i <= |s| && Without(s, x) == s[..i] + Without(s[i..], x)
    {
      if s[i] == x {
        return s[..i] + s[i + 1..];
      }
      assert s[i..][1..] == s[i + 1..] && s[..i + 1] == s[..i] + [s[i]];
      i := i + 1;
    }
    left := s;
  }
}
