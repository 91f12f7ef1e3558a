/**
 Net-join: two servers exchange crossing bursts for a channel; what each makes of the other's burst, and
 exactly when both end with the same channel (src/channel.c).
 */
module NetJoin {
  import opened Wrappers
  import opened Fields
  import opened ModeText
  import opened Sjoin
  import opened SjoinAgreement

  // ---------- the burst names every member once ----------

  predicate DistinctNicks(members: seq<Link>) {
    forall i, j :: 0 <= i < j < |members| ==> members[i].nick != members[j].nick
  }

  /** Nobody comes onto the channel twice. */
  lemma {:induction false} NicksStayDistinct(base: seq<Link>, toks: seq<string>, keepNew: bool, accepted: set<string>)
    requires DistinctNicks(base)
    ensures DistinctNicks(AddNicks(base, toks, keepNew, accepted))
  {
    if toks != [] {
      NicksStayDistinct(base, toks[..|toks| - 1], keepNew, accepted);
      var before := AddNicks(base, toks[..|toks| - 1], keepNew, accepted);
      var l := JoinLink(toks[|toks| - 1], keepNew);
      if !IsMember(l.nick, before) {
        NewcomerDistinct(before, l);
      }
    }
  }

  lemma NewcomerDistinct(before: seq<Link>, l: Link)
    requires !IsMember(l.nick, before) && DistinctNicks(before)
    ensures DistinctNicks([l] + before)
  {
    assert forall j :: 0 <= j < |before| ==> before[j] in before;
  }

  ghost predicate GoodMembers(members: seq<Link>) {
    DistinctNicks(members) && forall l <- members :: GoodNick(l.nick)
  }

  ghost function Nicks(members: seq<Link>): set<string> { set l <- members :: l.nick }

  lemma BareNick(n: string)
    requires GoodNick(n)
    ensures TokenNick(n) == n && !TokenOp(n) && !TokenVoice(n)
  {
    assert n[0] in n;
    assert |n| > 1 ==> n[1] in n;
  }

  lemma TokenOfMember(l: Link)
    requires GoodNick(l.nick)
    ensures IsToken(MemberToken(l)) && TokenNick(MemberToken(l)) == l.nick
    ensures TokenOp(MemberToken(l)) == l.op && TokenVoice(MemberToken(l)) == l.voice
  {
    var t := MemberToken(l);
    assert l.nick[0] in l.nick;
    BareNick(l.nick);
    if l.op && l.voice {
      assert t[1..] == "+" + l.nick && t[1..][1..] == l.nick;
    } else if l.op || l.voice {
      assert t[1..] == l.nick;
    } else {
      assert t == l.nick;
    }
  }

  /** Where in the burst the member at position `i` is named. */
  function Turn(a: int, i: nat): nat {
    if a == -1 then i else if i == a then 0 else if i < a then i + 1 else i
  }

  /** The walk's positions are a permutation: each member is named, and none twice. */
  lemma PositionsArePermutation(a: int, n: nat)
    requires -1 <= a < n
    ensures forall k :: 0 <= k < n ==> 0 <= Position(a, k) < n && Turn(a, Position(a, k)) == k
    ensures forall i :: 0 <= i < n ==> 0 <= Turn(a, i) < n && Position(a, Turn(a, i)) == i
  {
  }

  /** The flags each nick is named with in a burst are the member's own. */
  lemma {:induction false} RankOfMember(members: seq<Link>, i: nat)
    requires DistinctNicks(members) && i < |members|
    ensures members[i].nick in Ranks(members)
    ensures Ranks(members)[members[i].nick] == Rank(members[i].op, members[i].voice)
  {
    if i > 0 {
      RankOfMember(members[1..], i - 1);
      assert members[0].nick != members[i].nick;
    }
  }

  /** Claims of distinct well formed tokens, said pointwise. */
  lemma {:induction false} ClaimsOfDistinct(toks: seq<string>, accepted: set<string>)
    requires forall i, j :: 0 <= i < j < |toks| ==> TokenNick(toks[i]) != TokenNick(toks[j])
    ensures forall i :: 0 <= i < |toks| && TokenNick(toks[i]) in accepted ==>
      && TokenNick(toks[i]) in Claims(toks, accepted)
      && Claims(toks, accepted)[TokenNick(toks[i])] == Rank(TokenOp(toks[i]), TokenVoice(toks[i]))
  {
    if toks != [] {
      ClaimsOfDistinct(toks[..|toks| - 1], accepted);
      if TokenNick(toks[|toks| - 1]) in Claims(toks[..|toks| - 1], accepted) {
        ClaimsHaveTokens(toks[..|toks| - 1], accepted, TokenNick(toks[|toks| - 1]));
      }
    }
  }

  lemma TokenAt(members: seq<Link>, k: nat)
    requires GoodMembers(members) && k < |members|
    ensures var p, t := Position(FirstOp(members, 0), k), BurstTokens(members)[k];
      && 0 <= p < |members| && members[p] in members
      && IsToken(t) && TokenNick(t) == members[p].nick
      && TokenOp(t) == members[p].op && TokenVoice(t) == members[p].voice
  {
    var p := Position(FirstOp(members, 0), k);
    assert members[p] in members;
    TokenOfMember(members[p]);
  }

  lemma RankedNicks(members: seq<Link>)
    ensures Ranks(members).Keys == Nicks(members)
  {
    forall n: string
      ensures n in Ranks(members) <==> n in Nicks(members)
    {
      MembersAreRanked(n, members);
    }
  }

  lemma BurstNicksDiffer(members: seq<Link>, i: nat, j: nat)
    requires GoodMembers(members) && i < j < |members|
    ensures TokenNick(BurstTokens(members)[i]) != TokenNick(BurstTokens(members)[j])
  {
    PositionsArePermutation(FirstOp(members, 0), |members|);
    TokenAt(members, i);
    TokenAt(members, j);
  }

  /** The member at `i` is claimed, with its own flags. */
  lemma MemberIsClaimed(members: seq<Link>, accepted: set<string>, i: nat)
    requires GoodMembers(members) && Nicks(members) <= accepted && i < |members|
    ensures members[i].nick in Claims(BurstTokens(members), accepted)
    ensures Claims(BurstTokens(members), accepted)[members[i].nick] == Rank(members[i].op, members[i].voice)
  {
    var k := Turn(FirstOp(members, 0), i);
    PositionsArePermutation(FirstOp(members, 0), |members|);
    TokenAt(members, k);
    forall p, q | 0 <= p < q < |members|
      ensures TokenNick(BurstTokens(members)[p]) != TokenNick(BurstTokens(members)[q])
    {
      BurstNicksDiffer(members, p, q);
    }
    ClaimsOfDistinct(BurstTokens(members), accepted);
  }

  lemma {:induction false} ClaimsHaveTokens(toks: seq<string>, accepted: set<string>, n: string)
    requires n in Claims(toks, accepted)
    ensures exists i :: 0 <= i < |toks| && TokenNick(toks[i]) == n
  {
    var prefix := toks[..|toks| - 1];
    if n in Claims(prefix, accepted) {
      ClaimsHaveTokens(prefix, accepted, n);
      var i :| 0 <= i < |prefix| && TokenNick(prefix[i]) == n;
      assert TokenNick(toks[i]) == n;
    } else {
      assert TokenNick(toks[|toks| - 1]) == n;
    }
  }

  /** A burst claims for the receiver exactly the sender's members with their flags. */
  lemma ClaimsOfBurst(members: seq<Link>, accepted: set<string>)
    requires GoodMembers(members) && Nicks(members) <= accepted
    ensures Claims(BurstTokens(members), accepted) == Ranks(members)
  {
    var claims, ranks := Claims(BurstTokens(members), accepted), Ranks(members);
    forall n: string
      ensures n in ranks ==> n in claims && claims[n] == ranks[n]
    {
      if n in ranks {
        MembersAreRanked(n, members);
        var i :| 0 <= i < |members| && members[i].nick == n;
        MemberIsClaimed(members, accepted, i);
        RankOfMember(members, i);
      }
    }
    forall n | n in claims
      ensures n in ranks
    {
      ClaimsHaveTokens(BurstTokens(members), accepted, n);
      var k :| 0 <= k < |members| && TokenNick(BurstTokens(members)[k]) == n;
      TokenAt(members, k);
      MembersAreRanked(n, members);
    }
  }

  /** An element taken to the front. */
  function Fronted(s: seq<string>, a: nat): (r: seq<string>)
    requires a < |s|
    ensures |r| == |s|
  {
    [s[a]] + s[..a] + s[a + 1..]
  }

  lemma FrontedHasSame(s: seq<string>, a: nat)
    requires a < |s|
    ensures multiset(Fronted(s, a)) == multiset(s)
  {
    assert s == s[..a] + [s[a]] + s[a + 1..];
  }

  lemma FrontedAt(s: seq<string>, a: nat, k: nat)
    requires a < |s| && k < |s|
    ensures 0 <= Position(a, k) < |s| && Fronted(s, a)[k] == s[Position(a, k)]
  {
    var front, back := [s[a]] + s[..a], s[a + 1..];
    if k > a {
      assert (front + back)[k] == back[k - |front|] && k - |front| == k - a - 1;
    }
  }

  function PlainTokens(members: seq<Link>): (r: seq<string>)
    ensures |r| == |members| && forall i :: 0 <= i < |r| ==> r[i] == MemberToken(members[i])
  {
    seq(|members|, i requires 0 <= i < |members| => MemberToken(members[i]))
  }

  /** The burst names the operator found first, then the others in their order. */
  lemma BurstIsFronted(members: seq<Link>, a: nat)
    requires FirstOp(members, 0) == a
    ensures a < |members| && BurstTokens(members) == Fronted(PlainTokens(members), a)
  {
    var plain := PlainTokens(members);
    forall k | 0 <= k < |members|
      ensures BurstTokens(members)[k] == Fronted(plain, a)[k]
    {
      FrontedAt(plain, a, k);
    }
  }

  /** Each member is named by exactly one token, operators and voices with their prefix. */
  lemma BurstNamesEveryMemberOnce(members: seq<Link>)
    ensures multiset(BurstTokens(members)) == multiset(PlainTokens(members))
  {
    var a := FirstOp(members, 0);
    if a == -1 {
      assert BurstTokens(members) == PlainTokens(members);
    } else {
      BurstIsFronted(members, a);
      FrontedHasSame(PlainTokens(members), a);
    }
  }

  // ---------- receiving a burst ----------

  /** The channel after the lines of a burst; `isnew` holds for the first line if it created the channel. */
  function Receive(isnew: bool, ch: Chan, lines: seq<SjoinLine>, accepted: set<string>): Chan
    requires forall m <- lines :: Read(m).Some?
  {
    if lines == [] then ch
    else
      var before := Receive(isnew, ch, lines[..|lines| - 1], accepted);
      Handle(isnew && |lines| == 1, before, lines[|lines| - 1], accepted)
  }

  /** The lines that come in as such. */
  function Delivered(lines: seq<SjoinLine>): (r: seq<SjoinLine>)
    ensures forall m <- r :: m in lines
  {
    if lines == [] then []
    else
      var last := lines[|lines| - 1];
      Delivered(lines[..|lines| - 1]) + if Arrives(last) then [last] else []
  }

  /** The channel after a burst of `theirs`, cut into lines in some way. */
  function Received(isnew: bool, mine: Chan, theirs: Chan, cut: seq<seq<string>>, accepted: set<string>): Chan
    requires forall m <- BurstLines(theirs, cut) :: Read(m).Some?
  {
    Receive(isnew, mine, Delivered(BurstLines(theirs, cut)), accepted)
  }

  /** The text of the channel's TS does not break its lines. */
  predicate Sends(ch: Chan) { StartsParameter(PrintTs(ch.ts)) }

  /** The channel with the TS that others read in its lines. */
  function Seen(ch: Chan): Chan { ch.(ts := ReadBack(ch.ts)) }

  /** All lines of a burst come in, or none. */
  lemma {:induction false} DeliveredBurst(ch: Chan, cut: seq<seq<string>>)
    ensures Delivered(BurstLines(ch, cut)) == if Sends(ch) then BurstLines(ch, cut) else []
  {
    if cut != [] {
      var n := |cut| - 1;
      assert BurstLines(ch, cut)[..n] == BurstLines(ch, cut[..n]);
      assert BurstLines(ch, cut) == BurstLines(ch, cut[..n]) + [BurstLines(ch, cut)[n]];
      DeliveredBurst(ch, cut[..n]);
    }
  }

  /** The merged modes; the "0" of a second line is read as one more offer of no modes and lifts a negative limit. */
  function Merged(isnew: bool, mine: Chan, theirs: Chan, lines: nat): Mode {
    var v := Judge(isnew, mine, theirs.ts);
    var mode := NewMode(v, mine.mode, theirs.mode);
    if lines > 1 && v.keepNew then Lifted(mode) else mode
  }

  /** What the receiver holds after so many lines, said without them: the merge of two channels. */
  ghost predicate IsMergeOf(isnew: bool, mine: Chan, theirs: Chan, lines: nat, r: Chan) {
    var v := Judge(isnew, mine, theirs.ts);
    && r.ts == v.ts
    && r.mode == Merged(isnew, mine, theirs, lines)
    && Ranks(r.members) == Keep(v.keepNew, Ranks(theirs.members)) + Keep(v.keepOurs, Ranks(mine.members))
  }

  lemma {:induction false} ClaimsOfConcat(a: seq<string>, b: seq<string>, accepted: set<string>)
    ensures Claims(a + b, accepted) == Claims(b, accepted) + Claims(a, accepted)
  {
    if b == [] {
      assert a + b == a;
    } else {
      var b' := b[..|b| - 1];
      assert (a + b)[..|a + b| - 1] == a + b';
      ClaimsOfConcat(a, b', accepted);
    }
  }

  lemma {:induction false} FlattenedTokens(cut: seq<seq<string>>)
    ensures forall c <- cut, t <- c :: t in Flatten(cut)
  {
    if cut != [] {
      FlattenedTokens(cut[..|cut| - 1]);
      assert cut == cut[..|cut| - 1] + [cut[|cut| - 1]];
    }
  }

  lemma ReadBurstLine(ch: Chan, first: bool, names: seq<string>)
    requires ShortKey(ch.mode) && forall t <- names :: IsToken(t)
    ensures var m := BurstLine(ch, first, names);
      && Read(m) == Some(Parsed(if first then ch.mode else NO_MODE, if first then |ModeArgs(ch.mode)| else 0))
      && Toks(m) == names
  {
    TokensOfSpaced(names);
    if first {
      ReadOwnModes(ch.mode, Spaced(names));
    } else {
      ReadZero(Spaced(names));
    }
  }

  lemma BurstLinesAreRead(ch: Chan, cut: seq<seq<string>>)
    requires ShortKey(ch.mode) && forall c <- cut, t <- c :: IsToken(t)
    ensures forall m <- BurstLines(ch, cut) :: Read(m).Some?
  {
    forall i | 0 <= i < |cut|
      ensures Read(BurstLines(ch, cut)[i]).Some?
    {
      ReadBurstLine(ch, i == 0, cut[i]);
    }
  }

  /** One more line of a burst whose first lines were already merged. */
  lemma ReceiveMore(isnew: bool, mine: Chan, theirs: Chan, before: Chan, names: seq<string>, accepted: set<string>)
    requires forall t <- names :: IsToken(t)
    requires ShortKey(theirs.mode) && !mine.juped && !before.juped
    requires before.ts == Judge(isnew, mine, Seen(theirs).ts).ts
    ensures Read(BurstLine(theirs, false, names)).Some?
    ensures
      var v := Judge(isnew, mine, Seen(theirs).ts);
      var r := Handle(false, before, BurstLine(theirs, false, names), accepted);
      && r.ts == v.ts && !r.juped && r.mode == (if v.keepNew then Lifted(before.mode) else before.mode)
      && Ranks(r.members) == Keep(v.keepNew, Claims(names, accepted)) + Ranks(before.members)
  {
    ReadBurstLine(theirs, false, names);
    RanksOfHandle(false, before, BurstLine(theirs, false, names), accepted);
    JoinNothing(before.mode);
  }

  lemma KeepConcat(keep: bool, a: map<string, Rank>, b: map<string, Rank>, c: map<string, Rank>)
    ensures Keep(keep, b) + (Keep(keep, a) + c) == Keep(keep, b + a) + c
  {
  }

  /** The receiver has merged the sender's modes and the tokens `toks`, which came in so many lines. */
  ghost predicate HasMerged(isnew: bool, mine: Chan, theirs: Chan, toks: seq<string>, accepted: set<string>,
                            lines: nat, r: Chan) {
    var v := Judge(isnew, mine, theirs.ts);
    && r.ts == v.ts && !r.juped
    && r.mode == Merged(isnew, mine, theirs, lines)
    && Ranks(r.members) == Keep(v.keepNew, Claims(toks, accepted)) + Keep(v.keepOurs, Ranks(mine.members))
  }

  lemma FirstLineMerges(isnew: bool, mine: Chan, theirs: Chan, names: seq<string>, accepted: set<string>)
    requires ShortKey(theirs.mode) && !mine.juped && forall t <- names :: IsToken(t)
    requires Read(BurstLine(theirs, true, names)).Some?
    ensures HasMerged(isnew, mine, Seen(theirs), names, accepted, 1,
                      Handle(isnew, mine, BurstLine(theirs, true, names), accepted))
  {
    ReadBurstLine(theirs, true, names);
    RanksOfHandle(isnew, mine, BurstLine(theirs, true, names), accepted);
  }

  lemma NextLineMerges(isnew: bool, mine: Chan, theirs: Chan, toks: seq<string>, names: seq<string>,
                       accepted: set<string>,
                       lines: nat, before: Chan)
    requires ShortKey(theirs.mode) && !mine.juped && lines >= 1 && forall t <- names :: IsToken(t)
    requires HasMerged(isnew, mine, Seen(theirs), toks, accepted, lines, before)
    requires Read(BurstLine(theirs, false, names)).Some?
    ensures HasMerged(isnew, mine, Seen(theirs), toks + names, accepted, lines + 1,
                      Handle(false, before, BurstLine(theirs, false, names), accepted))
  {
    var v := Judge(isnew, mine, Seen(theirs).ts);
    ReceiveMore(isnew, mine, theirs, before, names, accepted);
    ClaimsOfConcat(toks, names, accepted);
    KeepConcat(v.keepNew, Claims(toks, accepted), Claims(names, accepted), Keep(v.keepOurs, Ranks(mine.members)));
  }

  /** After the lines of a burst the receiver has merged the sender's modes and the tokens of those lines. */
  lemma {:induction false} ReceiveLines(isnew: bool, mine: Chan, theirs: Chan, cut: seq<seq<string>>,
                                        accepted: set<string>)
    requires cut != [] && forall c <- cut, t <- c :: IsToken(t)
    requires ShortKey(theirs.mode) && !mine.juped
    requires forall m <- BurstLines(theirs, cut) :: Read(m).Some?
    ensures HasMerged(isnew, mine, Seen(theirs), Flatten(cut), accepted, |cut|,
                      Receive(isnew, mine, BurstLines(theirs, cut), accepted))
  {
    var lines, n := BurstLines(theirs, cut), |cut| - 1;
    assert lines[n] == BurstLine(theirs, n == 0, cut[n]);
    if n == 0 {
      assert lines[..n] == [];
      assert Flatten(cut[..0]) + cut[0] == cut[0];
      FirstLineMerges(isnew, mine, theirs, cut[0], accepted);
    } else {
      assert lines[..n] == BurstLines(theirs, cut[..n]);
      ReceiveLines(isnew, mine, theirs, cut[..n], accepted);
      NextLineMerges(isnew, mine, theirs, Flatten(cut[..n]), cut[n], accepted, n,
                     Receive(isnew, mine, lines[..n], accepted));
    }
  }

  /**
   Receiving a burst merges the sender's channel, with the TS that is read, into the receiver's; of the cut
   only its length shows. If the text of the TS breaks the lines nothing is received.
   */
  lemma ReceiveBurst(isnew: bool, mine: Chan, theirs: Chan, cut: seq<seq<string>>, accepted: set<string>)
    requires IsSplit(cut, BurstTokens(theirs.members)) && GoodMembers(theirs.members) && theirs.members != []
    requires Nicks(theirs.members) <= accepted && ShortKey(theirs.mode) && !mine.juped
    ensures forall m <- BurstLines(theirs, cut) :: Read(m).Some?
    ensures
      var r := Received(isnew, mine, theirs, cut, accepted);
      if Sends(theirs) then IsMergeOf(isnew, mine, Seen(theirs), |cut|, r) else r == mine
  {
    FlattenedTokens(cut);
    forall c <- cut, t <- c
      ensures IsToken(t)
    {
      var k :| 0 <= k < |theirs.members| && BurstTokens(theirs.members)[k] == t;
      TokenAt(theirs.members, k);
    }
    BurstLinesAreRead(theirs, cut);
    ReceiveLines(isnew, mine, theirs, cut, accepted);
    ClaimsOfBurst(theirs.members, accepted);
    DeliveredBurst(theirs, cut);
  }

  /** The TS and modes with which the receiver of a burst judges. */
  function JudgeBurst(isnew: bool, mine: Chan, theirs: Chan): Verdict { Judge(isnew, mine, Seen(theirs).ts) }

  /**
   Two cuts of one burst leave the same channel exactly if both or neither have a second line, or the
   receiver keeps only its own modes, or the merged limit is not negative, or nothing is received.
   */
  lemma CutDoesNotMatterIff(isnew: bool, mine: Chan, theirs: Chan, p: seq<seq<string>>, q: seq<seq<string>>,
                            accepted: set<string>)
    requires IsSplit(p, BurstTokens(theirs.members)) && IsSplit(q, BurstTokens(theirs.members))
    requires GoodMembers(theirs.members) && theirs.members != []
    requires Nicks(theirs.members) <= accepted && ShortKey(theirs.mode) && !mine.juped
    ensures forall m <- BurstLines(theirs, p) :: Read(m).Some?
    ensures forall m <- BurstLines(theirs, q) :: Read(m).Some?
    ensures Agree(Received(isnew, mine, theirs, p, accepted), Received(isnew, mine, theirs, q, accepted))
       <==> (|p| > 1) == (|q| > 1) || !JudgeBurst(isnew, mine, theirs).keepNew || !Sends(theirs)
            || NewMode(JudgeBurst(isnew, mine, theirs), mine.mode, theirs.mode).limit >= 0
  {
    ReceiveBurst(isnew, mine, theirs, p, accepted);
    ReceiveBurst(isnew, mine, theirs, q, accepted);
  }

  // ---------- a burst of six long nicks ----------

  /** Tokens of the length of the longest nick. */
  predicate Long(toks: seq<string>) { forall t <- toks :: |t| == NICKLEN }

  /** Tokens that fit are on one line. */
  lemma {:induction false} FitOneLine(toks: seq<string>, t: nat, names: seq<string>, head: nat)
    requires Long(toks) && toks != [] && t + (NICKLEN + 1) * |toks| <= BUFSIZE - 80
    ensures CutFrom(toks, t, names, head) == [names + toks]
    decreases |toks|
  {
    var more := names + [toks[0]];
    assert names + toks == more + toks[1..] && toks[0] in toks;
    if |toks| > 1 {
      FitOneLine(toks[1..], t + NICKLEN + 1, more, head);
    } else {
      assert toks[1..] == [] && more + [] == more;
    }
  }

  /** The token that makes the line too long closes it. */
  lemma {:induction false} FillLine(toks: seq<string>, j: nat, t: nat, names: seq<string>, head: nat)
    requires Long(toks) && 0 < j <= |toks|
    requires t + (NICKLEN + 1) * (j - 1) <= BUFSIZE - 80 < t + (NICKLEN + 1) * j
    ensures CutFrom(toks, t, names, head) == [names + toks[..j]] + CutFrom(toks[j..], head, [], head)
    decreases j
  {
    var more := names + [toks[0]];
    assert toks[0] in toks && names + toks[..j] == more + toks[1..][..j - 1];
    if j > 1 {
      FillLine(toks[1..], j - 1, t + NICKLEN + 1, more, head);
      assert toks[1..][j - 1..] == toks[j..];
    } else {
      assert more + toks[1..][..0] == more;
    }
  }

  function Same(c: char, n: nat): string { seq(n, _ => c) }

  function Plain(c: char): Link { Link(Same(c, NICKLEN), false, false, false) }

  /** A channel with six members and a limit of -3. */
  function Six(): Chan {
    Chan(5, Mode({}, -3, ""), [Plain('a'), Plain('b'), Plain('c'), Plain('d'), Plain('e'), Plain('f')], false)
  }

  lemma SixAreGood()
    ensures GoodMembers(Six().members) && Long(BurstTokens(Six().members)) && |BurstTokens(Six().members)| == 6
  {
    var members := Six().members;
    assert FirstOp(members, 6) == -1;
    assert FirstOp(members, 3) == FirstOp(members, 4) == FirstOp(members, 5) == -1;
    assert FirstOp(members, 0) == FirstOp(members, 1) == FirstOp(members, 2) == -1;
    forall t <- BurstTokens(members)
      ensures |t| == NICKLEN
    {
      var k :| 0 <= k < 6 && BurstTokens(members)[k] == t;
      assert t == MemberToken(members[k]) == members[k].nick;
    }
    forall i, j | 0 <= i < j < |members|
      ensures members[i].nick != members[j].nick
    {
      assert members[i].nick[0] != members[j].nick[0];
    }
    forall l <- members
      ensures GoodNick(l.nick)
    {
      assert forall c <- l.nick :: c == l.nick[0];
    }
  }

  lemma HeadLength(me: string, chname: string, first: bool)
    ensures |HeadOf(me, chname, Six(), first)| == |me| + |chname| + if first then 27 else 22
  {
    NineDigits(5, 0);
    assert |PrintTs(5)| == 9;
    assert PrintInt(-3) == "-3" && |Params(Six().mode)| == 4;
    assert FlagLetters({}) == "+" && ModeLetters(Six().mode) == "+l";
  }

  /** The burst of `me` is one line or two, by the length of its name. */
  lemma SixAreCut(me: string, chname: string)
    requires |chname| == CHANNELLEN && |me| <= HOSTLEN
    ensures |BurstCut(me, chname, Six())| == if |me| <= 50 then 1 else 2
  {
    SixAreGood();
    HeadLength(me, chname, true);
    HeadLength(me, chname, false);
    SixTokensCut(me, chname, Six());
  }

  lemma SixTokensCut(me: string, chname: string, ch: Chan)
    requires Long(BurstTokens(ch.members)) && |ch.members| == 6 && |me| <= HOSTLEN
    requires |HeadOf(me, chname, ch, true)| == |me| + CHANNELLEN + 27
    requires |HeadOf(me, chname, ch, false)| == |me| + CHANNELLEN + 22
    ensures |BurstCut(me, chname, ch)| == if |me| <= 50 then 1 else 2
  {
    var toks, t, head := BurstTokens(ch.members), |me| + CHANNELLEN + 27, |me| + CHANNELLEN + 22;
    if |me| <= 19 {
      FitOneLine(toks, t, [], head);
    } else if |me| <= 50 {
      FillLine(toks, 6, t, [], head);
    } else {
      FillLine(toks, 5, t, [], head);
      assert Long(toks[5..]);
      FitOneLine(toks[5..], head, [], head);
    }
  }

  /**
   The same channel with a limit of -3 bursts from a server with a name of one letter and from one with a
   name of 63: the first burst leaves the limit, the second one makes it 0.
   */
  lemma NegativeLimitDependsOnCut()
    ensures
      var chname, theirs, mine := "#" + Same('c', CHANNELLEN - 1), Six(), Chan(9, NO_MODE, [], false);
      var accepted := Nicks(theirs.members);
      var one, two := BurstCut("a", chname, theirs), BurstCut(Same('a', HOSTLEN), chname, theirs);
      && (forall m <- BurstLines(theirs, one) :: Read(m).Some?)
      && (forall m <- BurstLines(theirs, two) :: Read(m).Some?)
      && Received(false, mine, theirs, one, accepted).mode.limit == -3
      && Received(false, mine, theirs, two, accepted).mode.limit == 0
  {
    var chname, mine := "#" + Same('c', CHANNELLEN - 1), Chan(9, NO_MODE, [], false);
    SixAreCut("a", chname);
    SixAreCut(Same('a', HOSTLEN), chname);
    SixReceived(mine, "a", chname);
    SixReceived(mine, Same('a', HOSTLEN), chname);
  }

  lemma SixReceived(mine: Chan, me: string, chname: string)
    requires mine.ts == 9 && !mine.juped
    ensures
      var cut := BurstCut(me, chname, Six());
      && (forall m <- BurstLines(Six(), cut) :: Read(m).Some?)
      && Received(false, mine, Six(), cut, Nicks(Six().members)).mode.limit == if |cut| > 1 then 0 else -3
  {
    SixAreGood();
    BurstIsCut(me, chname, Six());
    OlderLimitStays(mine, Six(), BurstCut(me, chname, Six()), Nicks(Six().members));
  }

  lemma BurstIsCut(me: string, chname: string, ch: Chan)
    ensures IsSplit(BurstCut(me, chname, ch), BurstTokens(ch.members))
  {
    CutIsSplit(BurstTokens(ch.members), |HeadOf(me, chname, ch, true)|, [], |HeadOf(me, chname, ch, false)|);
    assert [] + BurstTokens(ch.members) == BurstTokens(ch.members);
  }

  /** An older channel's negative limit is taken over, and lifted by a second line. */
  lemma OlderLimitStays(mine: Chan, theirs: Chan, cut: seq<seq<string>>, accepted: set<string>)
    requires IsSplit(cut, BurstTokens(theirs.members)) && GoodMembers(theirs.members) && theirs.members != []
    requires Nicks(theirs.members) <= accepted && ShortKey(theirs.mode) && theirs.mode.limit < 0
    requires 0 < theirs.ts < mine.ts && InRange(theirs.ts) && !mine.juped
    ensures forall m <- BurstLines(theirs, cut) :: Read(m).Some?
    ensures Received(false, mine, theirs, cut, accepted).mode.limit == if |cut| > 1 then 0 else theirs.mode.limit
  {
    TsReadsBackIff(theirs.ts);
    ReceiveBurst(false, mine, theirs, cut, accepted);
  }

  // ---------- crossing bursts ----------

  lemma JoinCommutes(a: Mode, b: Mode)
    ensures JoinModes(a, b) == JoinModes(b, a)
  {
    KeyLessTotal(a.key, b.key);
  }

  predicate PlainRanks(r: map<string, Rank>) { forall n <- r :: r[n] == Rank(false, false) }

  lemma KeepsAlikeIff(p: bool, q: bool, r: map<string, Rank>)
    ensures Keep(p, r) == Keep(q, r) <==> p == q || PlainRanks(r)
  {
    if Demote(r) == r {
      forall n <- r
        ensures r[n] == Rank(false, false)
      {
        assert Demote(r)[n] == r[n];
      }
    }
  }

  /** What both servers make of the two timestamps they see and of the modes, and whose flags they keep. */
  predicate Meet(a: Chan, b: Chan, linesA: nat, linesB: nat) {
    var va, vb := JudgeBurst(false, a, b), JudgeBurst(false, b, a);
    && va.ts == vb.ts && Merged(false, a, Seen(b), linesB) == Merged(false, b, Seen(a), linesA)
    && (va.keepNew == vb.keepOurs || PlainRanks(Ranks(b.members)))
    && (vb.keepNew == va.keepOurs || PlainRanks(Ranks(a.members)))
  }

  /** Two merges of channels that have nobody in common. */
  lemma MergesAgreeIff(a: Chan, b: Chan, linesA: nat, linesB: nat, ra: Chan, rb: Chan)
    requires Ranks(a.members).Keys !! Ranks(b.members).Keys
    requires IsMergeOf(false, a, Seen(b), linesB, ra) && IsMergeOf(false, b, Seen(a), linesA, rb)
    ensures Agree(ra, rb) <==> Meet(a, b, linesA, linesB)
  {
    var va, vb := JudgeBurst(false, a, b), JudgeBurst(false, b, a);
    KeepsAlikeIff(va.keepNew, vb.keepOurs, Ranks(b.members));
    KeepsAlikeIff(vb.keepNew, va.keepOurs, Ranks(a.members));
    UnionsIff(Keep(va.keepNew, Ranks(b.members)), Keep(va.keepOurs, Ranks(a.members)),
              Keep(vb.keepOurs, Ranks(b.members)), Keep(vb.keepNew, Ranks(a.members)));
  }

  lemma UnionsIff(p: map<string, Rank>, q: map<string, Rank>, p': map<string, Rank>, q': map<string, Rank>)
    requires p.Keys == p'.Keys && q.Keys == q'.Keys && p.Keys !! q.Keys
    ensures p + q == q' + p' <==> p == p' && q == q'
  {
    if p + q == q' + p' {
      forall n <- p
        ensures p[n] == p'[n]
      {
        assert (p + q)[n] == (q' + p')[n];
      }
      forall n <- q
        ensures q[n] == q'[n]
      {
        assert (p + q)[n] == (q' + p')[n];
      }
    }
  }

  /**
   Two servers with disjoint memberships exchange crossing bursts, each cut into lines in its own way.
   Whatever the two timestamps are, they end with the same TS, modes, limit and key and the same flags for
   every member exactly if both bursts come in and what both see of them meets.
   */
  lemma NetJoinConverges(a: Chan, b: Chan, cutA: seq<seq<string>>, cutB: seq<seq<string>>,
                         acceptedAtA: set<string>, acceptedAtB: set<string>)
    requires !a.juped && !b.juped && ShortKey(a.mode) && ShortKey(b.mode)
    requires GoodMembers(a.members) && GoodMembers(b.members) && a.members != [] && b.members != []
    requires Nicks(a.members) !! Nicks(b.members)
    requires Nicks(b.members) <= acceptedAtA && Nicks(a.members) <= acceptedAtB
    requires IsSplit(cutA, BurstTokens(a.members)) && IsSplit(cutB, BurstTokens(b.members))
    ensures (forall m <- BurstLines(b, cutB) :: Read(m).Some?) && (forall m <- BurstLines(a, cutA) :: Read(m).Some?)
    ensures Agree(Received(false, a, b, cutB, acceptedAtA), Received(false, b, a, cutA, acceptedAtB))
       <==> Sends(a) && Sends(b) && Meet(a, b, |cutA|, |cutB|)
  {
    ReceiveBurst(false, a, b, cutB, acceptedAtA);
    ReceiveBurst(false, b, a, cutA, acceptedAtB);
    RankedNicks(a.members);
    RankedNicks(b.members);
    assert a.members[0].nick in Nicks(a.members) && b.members[0].nick in Nicks(b.members);
    var ra, rb := Received(false, a, b, cutB, acceptedAtA), Received(false, b, a, cutA, acceptedAtB);
    if Sends(a) && Sends(b) {
      MergesAgreeIff(a, b, |cutA|, |cutB|, ra, rb);
    } else if !Sends(b) {
      assert ra == a && b.members[0].nick !in Ranks(ra.members) && b.members[0].nick in Ranks(rb.members);
    } else {
      assert rb == b && a.members[0].nick !in Ranks(rb.members) && a.members[0].nick in Ranks(ra.members);
    }
  }

  /** A burst of `lines` lines, received on top of `mine`, lifts the merged limit. */
  predicate Lifts(mine: Chan, theirs: Chan, lines: nat) { lines > 1 && Judge(false, mine, theirs.ts).keepNew }

  /** The limit both servers would end with if every burst were one line. */
  function MergedLimit(a: Chan, b: Chan): int { Merged(false, a, b, 1).limit }

  /**
   With timestamps that are read as they are, zero included, that is so exactly if the merged limit is
   not negative or both or neither lift it.
   */
  lemma MeetInRangeIff(a: Chan, b: Chan, linesA: nat, linesB: nat)
    requires !a.juped && !b.juped && InRange(a.ts) && InRange(b.ts)
    ensures Sends(a) && Sends(b)
    ensures Meet(a, b, linesA, linesB) <==> MergedLimit(a, b) >= 0 || Lifts(a, b, linesB) == Lifts(b, a, linesA)
  {
    TsReadsBackIff(a.ts);
    TsReadsBackIff(b.ts);
    assert Seen(a) == a && Seen(b) == b;
    JoinCommutes(a.mode, b.mode);
  }

  /**
   A TS that the other side reads as 0, on a channel that is older than it and has another TS, keeps the two apart.
   */
  lemma ReadAsZeroParts(a: Chan, b: Chan, linesA: nat, linesB: nat)
    requires !a.juped && !b.juped && InRange(b.ts) && 0 < b.ts && b.ts < a.ts && ReadBack(a.ts) == 0
    ensures !Meet(a, b, linesA, linesB)
  {
    TsReadsBackIff(b.ts);
  }

  /**
   A server without the channel takes it over as the sender has it, exactly if the TS is in range and the limit not
   negative.
   */
  lemma NewChannelIsCopied(blank: Chan, theirs: Chan, cut: seq<seq<string>>, accepted: set<string>)
    requires blank.mode == NO_MODE && blank.members == [] && !blank.juped
    requires ShortKey(theirs.mode) && GoodMembers(theirs.members) && theirs.members != []
    requires Nicks(theirs.members) <= accepted && IsSplit(cut, BurstTokens(theirs.members))
    ensures forall m <- BurstLines(theirs, cut) :: Read(m).Some?
    ensures Agree(Received(true, blank, theirs, cut, accepted), theirs) <==>
      InRange(theirs.ts) && theirs.mode.limit >= 0
  {
    ReceiveBurst(true, blank, theirs, cut, accepted);
    TsReadsBackIff(theirs.ts);
    JoinCommutes(theirs.mode, NO_MODE);
    JoinNothing(theirs.mode);
    RankedNicks(theirs.members);
    assert theirs.members[0].nick in Nicks(theirs.members);
    assert Ranks(theirs.members) + Ranks([]) == Ranks(theirs.members);
  }
}
