/**
 Servers that agree on a channel keep agreeing when an SJOIN is handled and forwarded along the
 server tree (src/channel.c).
 */
module SjoinAgreement {
  import opened Wrappers
  import opened ModeText
  import opened Sjoin

  datatype Rank = Rank(op: bool, voice: bool)

  /** The op and voice flags by nick. */
  function Ranks(members: seq<Link>): map<string, Rank> {
    if members == [] then map[]
    else Ranks(members[1..])[members[0].nick := Rank(members[0].op, members[0].voice)]
  }

  function Demote(r: map<string, Rank>): map<string, Rank> { map n | n in r :: Rank(false, false) }

  function Keep(keep: bool, r: map<string, Rank>): map<string, Rank> { if keep then r else Demote(r) }

  /** What the tokens of a line claim; the first mention of a nick counts. */
  function Claims(toks: seq<string>, accepted: set<string>): map<string, Rank> {
    if toks == [] then map[]
    else
      var s := toks[|toks| - 1];
      var before := Claims(toks[..|toks| - 1], accepted);
      if TokenNick(s) in accepted && TokenNick(s) !in before
      then before[TokenNick(s) := Rank(TokenOp(s), TokenVoice(s))] else before
  }

  /** Two servers agree on a channel: same TS, modes, limit and key, same members with the same flags. */
  ghost predicate Agree(x: Chan, z: Chan) {
    x.ts == z.ts && x.mode == z.mode && Ranks(x.members) == Ranks(z.members)
  }

  lemma {:induction false} MembersAreRanked(nick: string, members: seq<Link>)
    ensures IsMember(nick, members) <==> nick in Ranks(members)
  {
    if members != [] {
      MembersAreRanked(nick, members[1..]);
      assert members == [members[0]] + members[1..];
    }
  }

  lemma {:induction false} RanksOfStrip(members: seq<Link>)
    ensures Ranks(Strip(members)) == Demote(Ranks(members))
  {
    if members != [] {
      RanksOfStrip(members[1..]);
      assert Strip(members)[1..] == Strip(members[1..]);
    }
  }

  /** Joining adds exactly the claims of the line, and never touches who was there before. */
  lemma {:induction false} RanksOfAdd(base: seq<Link>, toks: seq<string>, keepNew: bool, accepted: set<string>)
    ensures Ranks(AddNicks(base, toks, keepNew, accepted))
         == Keep(keepNew, Claims(toks, accepted)) + Ranks(base)
  {
    if toks != [] {
      var s := toks[|toks| - 1];
      var prefix := toks[..|toks| - 1];
      RanksOfAdd(base, prefix, keepNew, accepted);
      var before := AddNicks(base, prefix, keepNew, accepted);
      MembersAreRanked(TokenNick(s), before);
      var link := JoinLink(s, keepNew);
      assert ([link] + before)[1..] == before;
      JoinedClaims(Claims(prefix, accepted), Ranks(base), TokenNick(s), Rank(TokenOp(s), TokenVoice(s)), keepNew);
    }
  }

  /** A new claim for a nick that is not there yet adds just that nick. */
  lemma JoinedClaims(claims: map<string, Rank>, was: map<string, Rank>, n: string, r: Rank, keepNew: bool)
    ensures n !in claims && n !in was ==>
      Keep(keepNew, claims[n := r]) + was
        == (Keep(keepNew, claims) + was)[n := if keepNew then r else Rank(false, false)]
    ensures n !in claims && n in was ==> Keep(keepNew, claims[n := r]) + was == Keep(keepNew, claims) + was
  {
  }

  lemma RanksOfHandle(isnew: bool, ch: Chan, m: SjoinLine, accepted: set<string>)
    requires Read(m).Some?
    ensures Ranks(Handle(isnew, ch, m, accepted).members)
         == Keep(Judge(isnew, ch, NewTs(m)).keepNew, Claims(Toks(m), accepted))
            + Keep(Judge(isnew, ch, NewTs(m)).keepOurs, Ranks(ch.members))
  {
    var v := Judge(isnew, ch, NewTs(m));
    RanksOfStrip(ch.members);
    RanksOfAdd(Base(v, ch.members), Toks(m), v.keepNew, accepted);
  }

  // ---------- tokens on their way through a server ----------

  lemma {:induction false} NickOfNick(s: string)
    ensures TokenNick(TokenNick(s)) == TokenNick(s)
    ensures forall c <- TokenNick(s) :: c in s
  {
    if s != "" && (s[0] == '@' || s[0] == '+') {
      NickOfNick(s[1..]);
    }
  }

  lemma {:induction false} TakenTokens(toks: seq<string>, accepted: set<string>)
    ensures forall s <- Taken(toks, accepted) :: s in toks && TokenNick(s) in accepted
  {
    if toks != [] {
      TakenTokens(toks[..|toks| - 1], accepted);
    }
  }

  /** The forwarded tokens claim at the next server what the line was granted here. */
  lemma {:induction false} ClaimsOfForward(toks: seq<string>, keepNew: bool, accX: set<string>, accZ: set<string>)
    requires GoodNicks(accX) && forall s <- Taken(toks, accX) :: TokenNick(s) in accZ
    ensures Claims(ForwardTokens(Taken(toks, accX), keepNew), accZ) == Keep(keepNew, Claims(toks, accX))
  {
    if toks != [] {
      var s := toks[|toks| - 1];
      var prefix := toks[..|toks| - 1];
      var before := Taken(prefix, accX);
      ClaimsOfForward(prefix, keepNew, accX, accZ);
      if TokenNick(s) in accX {
        var fwd := ForwardTokens(before + [s], keepNew);
        assert fwd[..|before|] == ForwardTokens(before, keepNew);
        assert s in Taken(toks, accX);
        NickOfNick(s);
      }
    }
  }

  lemma TokensOfForward(m: SjoinLine, accepted: set<string>, keepNew: bool)
    requires Read(m).Some? && GoodNicks(accepted) && Taken(Toks(m), accepted) != []
    ensures var fwd := ForwardTokens(Taken(Toks(m), accepted), keepNew);
            Tokens(Trimmed(fwd)) == fwd
  {
    var fwd := ForwardTokens(Taken(Toks(m), accepted), keepNew);
    TokensAreTokens(m.rest[Read(m).value.args]);
    TakenTokens(Toks(m), accepted);
    forall i | 0 <= i < |fwd|
      ensures IsToken(fwd[i])
    {
      assert Taken(Toks(m), accepted)[i] in Taken(Toks(m), accepted);
      NickOfNick(Taken(Toks(m), accepted)[i]);
    }
    TokensOfTrimmed(fwd);
  }

  lemma {:induction false} ReadKeyIsShort(modes: string, rest: seq<string>)
    requires rest != [] && ReadModes(modes, rest).Some?
    ensures ShortKey(ReadModes(modes, rest).value.mode)
  {
    if modes != "" {
      ReadKeyIsShort(modes[..|modes| - 1], rest);
    }
  }

  lemma JoinIsIdempotent(m: Mode, cur: Mode)
    ensures JoinModes(JoinModes(m, cur), cur) == JoinModes(m, cur)
  {
    KeyLessTotal(m.key, cur.key);
    KeyLessTotal(cur.key, cur.key);
  }

  /** A line without modes lifts a negative limit to 0 and changes nothing else. */
  lemma JoinNothing(cur: Mode)
    ensures JoinModes(NO_MODE, cur) == Lifted(cur)
    ensures JoinModes(NO_MODE, cur) == cur <==> cur.limit >= 0
  {
    KeyLessTotal("", cur.key);
  }

  function Lifted(m: Mode): Mode { if m.limit < 0 then m.(limit := 0) else m }

  // ---------- one hop ----------

  /**
   The line reaches the next server as it was meant: it carries no modes behind a "0", and if it is the
   newer one there is no negative limit here, which the "0" sent on in its place would lift.
   */
  predicate Harmless(isnew: bool, x: Chan, m: SjoinLine)
    requires Read(m).Some?
  {
    !Smuggles(isnew, x, m) && (Judge(isnew, x, NewTs(m)).keepNew || x.mode.limit >= 0)
  }

  /** The line's mode field starts with '0' and still says something: it is not forwarded. */
  predicate Smuggles(isnew: bool, x: Chan, m: SjoinLine)
    requires Read(m).Some?
  {
    var v := Judge(isnew, x, NewTs(m));
    && ModesAreZero(m.modes) && v.keepNew
    && NewMode(v, x.mode, Read(m).value.mode) != NewMode(v, x.mode, NO_MODE)
  }

  lemma ReadZero(nicks: string)
    ensures ReadModes("0", [nicks]) == Some(Parsed(NO_MODE, 0))
  {
    assert "0"[..0] == "";
  }

  /** What the next server reads in a forwarded line. */
  lemma ReadForward(isnew: bool, x: Chan, m: SjoinLine, accX: set<string>)
    requires Read(m).Some? && GoodNicks(accX) && ShortKey(x.mode)
    requires Forward(isnew, x, m, accX).Some?
    ensures var v, f := Judge(isnew, x, NewTs(m)), Forward(isnew, x, m, accX).value;
      && Read(f).Some? && f.ts == PrintTs(v.ts)
      && Toks(f) == ForwardTokens(Taken(Toks(m), accX), v.keepNew)
      && Read(f).value.mode == (if !ModesAreZero(m.modes) && v.keepNew
                                then NewMode(v, x.mode, Read(m).value.mode) else NO_MODE)
      && (ModesAreZero(f.modes) ==> Read(f).value.mode == NO_MODE)
  {
    var v, f := Judge(isnew, x, NewTs(m)), Forward(isnew, x, m, accX).value;
    var mode := NewMode(v, x.mode, Read(m).value.mode);
    var nicks := Trimmed(ForwardTokens(Taken(Toks(m), accX), v.keepNew));
    ReadKeyIsShort(m.modes, m.rest);
    TokensOfForward(m, accX, v.keepNew);
    if !ModesAreZero(m.modes) && v.keepNew {
      ReadOwnModes(mode, nicks);
      assert f.modes[0] == '+';
    } else {
      ReadZero(nicks);
    }
  }

  /** What is offered is there already. */
  predicate AddsNothing(offered: Mode, cur: Mode) {
    offered.flags <= cur.flags && offered.limit <= cur.limit && !KeyLess(cur.key, offered.key)
  }

  /** The next server after what was sent on: nothing comes in of a line whose text breaks. */
  function Passed(isnew: bool, z: Chan, f: SjoinLine, accepted: set<string>): Chan {
    if Arrives(f) && Read(f).Some? then Handle(isnew, z, f, accepted) else z
  }

  /** Everyone the line claims is there already. */
  ghost predicate NoNewcomers(x: Chan, m: SjoinLine, accX: set<string>)
    requires Read(m).Some?
  {
    Claims(Toks(m), accX).Keys <= Ranks(x.members).Keys
  }

  /** Those who are not yet there claim no flags. */
  ghost predicate PlainNewcomers(x: Chan, m: SjoinLine, accX: set<string>)
    requires Read(m).Some?
  {
    forall n <- Claims(Toks(m), accX) :: n in Ranks(x.members) || Claims(Toks(m), accX)[n] == Rank(false, false)
  }

  /**
   The next server does not read back the TS that this one ends with. That does no harm only if this TS
   was there before and is not given up: the line is lost and had nothing new to say, or it is taken for
   a newer one and had no modes or flags to give.
   */
  ghost predicate HarmlessMisread(isnew: bool, x: Chan, m: SjoinLine, accX: set<string>)
    requires Read(m).Some?
  {
    var v := Judge(isnew, x, NewTs(m));
    && v.ts == x.ts && (v.keepNew ==> AddsNothing(Read(m).value.mode, x.mode))
    && if !StartsParameter(PrintTs(v.ts)) then NoNewcomers(x, m, accX)
       else !isnew && ReadBack(v.ts) > v.ts && ReadBack(v.ts) != 0 && (v.keepNew ==> PlainNewcomers(x, m, accX))
  }

  /** What a line that is sent on must be like. */
  ghost predicate Survives(isnew: bool, x: Chan, m: SjoinLine, accX: set<string>)
    requires Read(m).Some?
  {
    if InRange(Judge(isnew, x, NewTs(m)).ts) then Harmless(isnew, x, m) else HarmlessMisread(isnew, x, m, accX)
  }

  /**
   X and Z agree; X handles a line and Z what comes in of what X forwards. They agree again exactly when
   the line survives that, in every TS case.
   */
  lemma ForwardingKeepsAgreement(isnew: bool, x: Chan, z: Chan, m: SjoinLine, accX: set<string>, accZ: set<string>)
    requires Agree(x, z) && !x.juped && !z.juped && ShortKey(x.mode)
    requires isnew ==> x.mode == NO_MODE
    requires Read(m).Some? && GoodNicks(accX)
    requires forall s <- Taken(Toks(m), accX) :: TokenNick(s) in accZ
    requires Forward(isnew, x, m, accX).Some?
    ensures Agree(Handle(isnew, x, m, accX), Passed(isnew, z, Forward(isnew, x, m, accX).value, accZ))
        <==> Survives(isnew, x, m, accX)
  {
    var v, f := Judge(isnew, x, NewTs(m)), Forward(isnew, x, m, accX).value;
    ReadForward(isnew, x, m, accX);
    TsReadsBackIff(v.ts);
    if InRange(v.ts) {
      ReadableForward(isnew, x, z, m, accX, accZ);
    } else if Arrives(f) {
      MisreadForward(isnew, x, z, m, accX, accZ);
    } else {
      LostForward(isnew, x, z, m, accX);
    }
  }

  /** The next server judges what it reads as this one judged the line, but keeps its modes in any case. */
  lemma SameVerdict(isnew: bool, x: Chan, z: Chan, newts: int)
    requires Agree(x, z) && !x.juped && !z.juped
    ensures
      var v := Judge(isnew, x, newts);
      var w := Judge(isnew, z, v.ts);
      w.ts == v.ts && w.keepNew && (v.keepNew ==> w.keepOurs == v.keepOurs) && (!v.keepNew ==> w.keepOurs)
  {
  }

  lemma ReadableForward(isnew: bool, x: Chan, z: Chan, m: SjoinLine, accX: set<string>, accZ: set<string>)
    requires Agree(x, z) && !x.juped && !z.juped && ShortKey(x.mode)
    requires isnew ==> x.mode == NO_MODE
    requires Read(m).Some? && GoodNicks(accX) && InRange(Judge(isnew, x, NewTs(m)).ts)
    requires forall s <- Taken(Toks(m), accX) :: TokenNick(s) in accZ
    requires Forward(isnew, x, m, accX).Some? && Read(Forward(isnew, x, m, accX).value).Some?
    ensures Agree(Handle(isnew, x, m, accX), Handle(isnew, z, Forward(isnew, x, m, accX).value, accZ))
        <==> Harmless(isnew, x, m)
  {
    var v, f := Judge(isnew, x, NewTs(m)), Forward(isnew, x, m, accX).value;
    ReadForward(isnew, x, m, accX);
    TsReadsBackIff(v.ts);
    SameVerdict(isnew, x, z, NewTs(m));
    var w := Judge(isnew, z, NewTs(f));
    RanksAgree(isnew, x, z, m, accX, accZ);
    JoinIsIdempotent(Read(m).value.mode, x.mode);
    JoinNothing(x.mode);
    assert NewMode(v, x.mode, Read(m).value.mode) == NewMode(w, z.mode, Read(f).value.mode) <==> Harmless(isnew, x, m);
  }

  lemma RanksAgree(isnew: bool, x: Chan, z: Chan, m: SjoinLine, accX: set<string>, accZ: set<string>)
    requires Agree(x, z) && !x.juped && !z.juped && ShortKey(x.mode)
    requires Read(m).Some? && GoodNicks(accX) && InRange(Judge(isnew, x, NewTs(m)).ts)
    requires forall s <- Taken(Toks(m), accX) :: TokenNick(s) in accZ
    requires Forward(isnew, x, m, accX).Some? && Read(Forward(isnew, x, m, accX).value).Some?
    ensures Ranks(Handle(isnew, x, m, accX).members)
         == Ranks(Handle(isnew, z, Forward(isnew, x, m, accX).value, accZ).members)
  {
    var v, f := Judge(isnew, x, NewTs(m)), Forward(isnew, x, m, accX).value;
    ReadForward(isnew, x, m, accX);
    TsReadsBackIff(v.ts);
    SameVerdict(isnew, x, z, NewTs(m));
    RanksOfHandle(isnew, x, m, accX);
    RanksOfHandle(isnew, z, f, accZ);
    ClaimsOfForward(Toks(m), v.keepNew, accX, accZ);
  }

  /** The line is lost: nothing happens at the next server. */
  lemma LostForward(isnew: bool, x: Chan, z: Chan, m: SjoinLine, accX: set<string>)
    requires Agree(x, z) && !x.juped && Read(m).Some? && !InRange(Judge(isnew, x, NewTs(m)).ts)
    requires !StartsParameter(PrintTs(Judge(isnew, x, NewTs(m)).ts))
    ensures Agree(Handle(isnew, x, m, accX), z) <==> HarmlessMisread(isnew, x, m, accX)
  {
    var v := Judge(isnew, x, NewTs(m));
    RanksOfHandle(isnew, x, m, accX);
    JoinedIsSame(Read(m).value.mode, x.mode);
    if v.ts == x.ts {
      SameRanksIff(v.keepNew, Claims(Toks(m), accX), Ranks(x.members));
    }
  }

  /** Adding claims changes nothing exactly if they are known. */
  lemma SameRanksIff(keep: bool, claims: map<string, Rank>, ranks: map<string, Rank>)
    ensures Keep(keep, claims) + ranks == ranks <==> claims.Keys <= ranks.Keys
  {
    if Keep(keep, claims) + ranks == ranks {
      forall n <- claims
        ensures n in ranks
      {
        assert n in Keep(keep, claims) + ranks;
      }
    }
  }

  /** The line comes in with another TS. */
  lemma MisreadForward(isnew: bool, x: Chan, z: Chan, m: SjoinLine, accX: set<string>, accZ: set<string>)
    requires Agree(x, z) && !x.juped && !z.juped && ShortKey(x.mode)
    requires Read(m).Some? && GoodNicks(accX) && !InRange(Judge(isnew, x, NewTs(m)).ts)
    requires forall s <- Taken(Toks(m), accX) :: TokenNick(s) in accZ
    requires Forward(isnew, x, m, accX).Some? && Read(Forward(isnew, x, m, accX).value).Some?
    requires StartsParameter(PrintTs(Judge(isnew, x, NewTs(m)).ts))
    ensures Agree(Handle(isnew, x, m, accX), Handle(isnew, z, Forward(isnew, x, m, accX).value, accZ))
        <==> HarmlessMisread(isnew, x, m, accX)
  {
    var v, f := Judge(isnew, x, NewTs(m)), Forward(isnew, x, m, accX).value;
    ReadForward(isnew, x, m, accX);
    TsReadsBackIff(v.ts);
    OtherVerdict(isnew, z, v.ts, NewTs(f));
    if Judge(isnew, z, NewTs(f)).ts == v.ts {
      LoserIff(x, z, m, accX, accZ);
    }
  }

  /** The channel keeps its TS, and the next server takes what is sent on for a newer line. */
  lemma LoserIff(x: Chan, z: Chan, m: SjoinLine, accX: set<string>, accZ: set<string>)
    requires Agree(x, z) && !x.juped && !z.juped && x.ts != 0 && Judge(false, x, NewTs(m)).ts == x.ts
    requires Read(m).Some? && GoodNicks(accX)
    requires forall s <- Taken(Toks(m), accX) :: TokenNick(s) in accZ
    requires Forward(false, x, m, accX).Some? && Read(Forward(false, x, m, accX).value).Some?
    requires Toks(Forward(false, x, m, accX).value)
          == ForwardTokens(Taken(Toks(m), accX), Judge(false, x, NewTs(m)).keepNew)
    requires NewTs(Forward(false, x, m, accX).value) > x.ts && NewTs(Forward(false, x, m, accX).value) != 0
    ensures Agree(Handle(false, x, m, accX), Handle(false, z, Forward(false, x, m, accX).value, accZ))
        <==> (Judge(false, x, NewTs(m)).keepNew ==>
               AddsNothing(Read(m).value.mode, x.mode) && PlainNewcomers(x, m, accX))
  {
    var v, f := Judge(false, x, NewTs(m)), Forward(false, x, m, accX).value;
    RanksOfHandle(false, x, m, accX);
    RanksOfHandle(false, z, f, accZ);
    ClaimsOfForward(Toks(m), v.keepNew, accX, accZ);
    JoinedIsSame(Read(m).value.mode, x.mode);
    PlainClaimsIff(v.keepNew, Claims(Toks(m), accX), Ranks(x.members));
  }

  /** Read as another TS than it was, it leaves the same one only as a newer one that loses. */
  lemma OtherVerdict(isnew: bool, z: Chan, ts: int, read: int)
    requires !z.juped && read != ts && ts != 0
    ensures Judge(isnew, z, read).ts == ts <==> !isnew && ts == z.ts && read > ts && read != 0
    ensures Judge(isnew, z, read).ts == ts ==> !Judge(isnew, z, read).keepNew && Judge(isnew, z, read).keepOurs
  {
  }

  /** Without their flags the claims add the same exactly if the new ones have none. */
  lemma PlainClaimsIff(keep: bool, claims: map<string, Rank>, ranks: map<string, Rank>)
    ensures Keep(keep, claims) + ranks == Demote(Keep(keep, claims)) + ranks
       <==> (keep ==> forall n <- claims :: n in ranks || claims[n] == Rank(false, false))
  {
    var p, q := Keep(keep, claims) + ranks, Demote(Keep(keep, claims)) + ranks;
    assert p.Keys == q.Keys;
    if p == q && keep {
      forall n <- claims
        ensures n in ranks || claims[n] == Rank(false, false)
      {
        assert p[n] == q[n];
      }
    }
  }

  /**
   A newer line loses, one of the same age or met by a zero timestamp may say what is known, an older one changes
   something.
   */
  predicate Idle(isnew: bool, x: Chan, m: SjoinLine)
    requires Read(m).Some?
  {
    if isnew then NewTs(m) == x.ts && AddsNothing(Read(m).value.mode, x.mode)
    else if x.ts == 0 || NewTs(m) == x.ts then AddsNothing(Read(m).value.mode, x.mode)
    else NewTs(m) > x.ts && NewTs(m) != 0 && !(x.juped && x.members == [])
  }

  /** A line that yields no nick is not forwarded; agreement survives exactly when the line is idle. */
  lemma UnforwardedLine(isnew: bool, x: Chan, z: Chan, m: SjoinLine, accX: set<string>)
    requires Agree(x, z) && Read(m).Some? && Forward(isnew, x, m, accX).None?
    ensures Agree(Handle(isnew, x, m, accX), z) <==> Idle(isnew, x, m)
  {
    RanksOfHandle(isnew, x, m, accX);
    NoClaims(Toks(m), accX);
    JoinedIsSame(Read(m).value.mode, x.mode);
  }

  lemma JoinedIsSame(offered: Mode, cur: Mode)
    ensures JoinModes(offered, cur) == cur <==> AddsNothing(offered, cur)
  {
    KeyLessTotal(offered.key, cur.key);
    assert offered.flags + cur.flags == cur.flags <==> offered.flags <= cur.flags;
  }

  lemma {:induction false} NoClaims(toks: seq<string>, accepted: set<string>)
    requires Taken(toks, accepted) == []
    ensures Claims(toks, accepted) == map[]
  {
    if toks != [] {
      NoClaims(toks[..|toks| - 1], accepted);
    }
  }

  lemma OneNick(n: string)
    requires IsToken(n) && TokenNick(n) == n
    ensures Tokens(n) == [n] && Taken([n], {n}) == [n]
  {
    WordOf(n, "");
    assert n + "" == n;
    assert [n][..0] == [];
  }

  /** A line for one nick that does not survive parts two servers with the same channel. */
  lemma BobParts(isnew: bool, x: Chan, m: SjoinLine)
    requires Read(m).Some? && m.rest == ["bob"] && Read(m).value.args == 0 && !Survives(isnew, x, m, {"bob"})
    requires !x.juped && ShortKey(x.mode) && (isnew ==> x.mode == NO_MODE)
    ensures Forward(isnew, x, m, {"bob"}).Some?
    ensures !Agree(Handle(isnew, x, m, {"bob"}), Passed(isnew, x, Forward(isnew, x, m, {"bob"}).value, {"bob"}))
  {
    OneNick("bob");
    assert GoodNick("bob") && Taken(Toks(m), {"bob"}) == ["bob"];
    ForwardingKeepsAgreement(isnew, x, x, m, {"bob"}, {"bob"});
  }

  lemma ReadZeroN(nicks: string)
    ensures ReadModes("0n", [nicks]) == Some(Parsed(Mode({NoPrivMsgs}, 0, ""), 0))
  {
    ReadZero(nicks);
    assert "0n"[..1] == "0";
    assert {} + {NoPrivMsgs} == {NoPrivMsgs};
  }

  /** A line whose mode field is "0n" tears two agreeing servers apart: only the first gets +n. */
  lemma ZeroWithModesDiverges()
    ensures var x, m := Chan(10, NO_MODE, [], false), SjoinLine("10", "0n", ["bob"]);
      && Read(m).Some? && Forward(false, x, m, {"bob"}).Some? && InRange(Judge(false, x, NewTs(m)).ts)
      && !Agree(Handle(false, x, m, {"bob"}), Passed(false, x, Forward(false, x, m, {"bob"}).value, {"bob"}))
  {
    var x, m := Chan(10, NO_MODE, [], false), SjoinLine("10", "0n", ["bob"]);
    ReadOwnTs(10);
    ReadZeroN("bob");
    Smuggled(x, m);
    BobParts(false, x, m);
  }

  /** A flag behind a "0" on a channel of the same age that does not have it. */
  lemma Smuggled(x: Chan, m: SjoinLine)
    requires Read(m) == Some(Parsed(Mode({NoPrivMsgs}, 0, ""), 0)) && ModesAreZero(m.modes)
    requires NewTs(m) == x.ts && x.mode == NO_MODE
    ensures Smuggles(false, x, m)
  {
    assert NoPrivMsgs in JoinModes(Mode({NoPrivMsgs}, 0, ""), NO_MODE).flags;
    assert NoPrivMsgs !in JoinModes(NO_MODE, NO_MODE).flags;
  }

  /** A number as text is read as that number. */
  lemma ReadOwnTs(n: int)
    ensures Atol(PrintInt(n)) == n
  {
    AtoiPrintInt(n);
    if n >= 0 {
      ReadDigitsOfDigits(n, "");
      assert Digits(n) + "" == Digits(n);
    }
  }

  /** A newer line passed a channel with a negative limit: the "0" sent on lifts the limit of the next server only. */
  lemma NegativeLimitDiverges()
    ensures var x, m := Chan(5, Mode({}, -3, ""), [], false), SjoinLine("9", "+", ["bob"]);
      && Read(m).Some? && !Smuggles(false, x, m) && Forward(false, x, m, {"bob"}).Some?
      && InRange(Judge(false, x, NewTs(m)).ts)
      && !Agree(Handle(false, x, m, {"bob"}), Passed(false, x, Forward(false, x, m, {"bob"}).value, {"bob"}))
  {
    var x, m := Chan(5, Mode({}, -3, ""), [], false), SjoinLine("9", "+", ["bob"]);
    ReadOwnTs(9);
    ReadPlus("bob");
    Lifting(x, m);
    BobParts(false, x, m);
  }

  lemma Lifting(x: Chan, m: SjoinLine)
    requires Read(m).Some? && 0 < x.ts < NewTs(m) && InRange(x.ts) && !x.juped && x.mode.limit < 0
    ensures InRange(Judge(false, x, NewTs(m)).ts) && !Smuggles(false, x, m) && !Harmless(false, x, m)
  {
  }

  lemma ReadPlus(nicks: string)
    ensures ReadModes("+", [nicks]) == Some(Parsed(NO_MODE, 0))
  {
    assert "+"[..0] == "";
  }

  /** A harmless line that creates a channel parts two servers whenever its TS is out of range. */
  lemma OutOfRangeDiverges(ts: int, now: int)
    requires !InRange(ts)
    ensures var x, m := Chan(now, NO_MODE, [], false), SjoinLine(PrintInt(ts), "+", ["bob"]);
      && NewTs(m) == ts && Read(m).Some? && Harmless(true, x, m) && Forward(true, x, m, {"bob"}).Some?
      && !Agree(Handle(true, x, m, {"bob"}), Passed(true, x, Forward(true, x, m, {"bob"}).value, {"bob"}))
  {
    var x, m := Chan(now, NO_MODE, [], false), SjoinLine(PrintInt(ts), "+", ["bob"]);
    ReadOwnTs(ts);
    ReadPlus("bob");
    OneNick("bob");
    BobIsNew(x, m);
    BobParts(true, x, m);
  }

  lemma BobIsNew(x: Chan, m: SjoinLine)
    requires x.members == [] && Read(m).Some? && Toks(m) == ["bob"]
    ensures !NoNewcomers(x, m, {"bob"})
  {
    assert TokenNick("bob") == "bob" && ["bob"][..0] == [];
    assert "bob" in Claims(["bob"], {"bob"});
  }

  /** So does "SJOIN 20000000000 #c + :bob": the TS is sent on as "D000000000" and read as 0. */
  lemma FarTimestampDiverges()
    ensures !InRange(20_000_000_000) && PrintTs(20_000_000_000) == "D000000000" && Atol("D000000000") == 0
  {
    FarText();
  }

  lemma FarText()
    ensures PrintTs(20_000_000_000) == "D000000000"
  {
    var far := 20_000_000_000;
    assert far % LONG == far && far / BILLION == 20 && far % BILLION == 0;
    assert LeadChar(20) == 'D' && Nine(0) == "000000000";
  }

  // ---------- any path through the tree ----------

  /** The channel at each server of a path: the first handles `m`, each next one what comes in of what was sent on. */
  function Relay(isnew: bool, path: seq<Chan>, m: SjoinLine, accepted: set<string>): (r: seq<Chan>)
    requires Read(m).Some?
    ensures |r| == |path|
    decreases |path|
  {
    if path == [] then []
    else
      var f := Forward(isnew, path[0], m, accepted);
      [Handle(isnew, path[0], m, accepted)]
      + if f.Some? && Arrives(f.value) && Read(f.value).Some? then Relay(isnew, path[1..], f.value, accepted)
        else path[1..]
  }

  /** All servers of a path agree with the first. */
  ghost predicate AllAgree(path: seq<Chan>) {
    forall i :: 0 <= i < |path| ==> Agree(path[0], path[i]) && !path[i].juped
  }

  lemma AllAgreeFrom(path: seq<Chan>)
    requires |path| > 1 && AllAgree(path)
    ensures AllAgree(path[1..]) && Agree(path[0], path[1])
  {
    var rest := path[1..];
    assert Agree(path[0], path[1]);
    forall i | 0 <= i < |rest|
      ensures Agree(rest[0], rest[i]) && !rest[i].juped
    {
      assert Agree(path[0], path[i + 1]) && !path[i + 1].juped;
    }
  }

  lemma AllAgreeCons(first: Chan, rest: seq<Chan>)
    requires rest != [] && AllAgree(rest) && !first.juped
    ensures AllAgree([first] + rest) <==> Agree(first, rest[0])
  {
    var path := [first] + rest;
    assert path[1] == rest[0];
    if Agree(first, rest[0]) {
      forall i | 0 <= i < |path|
        ensures Agree(path[0], path[i]) && !path[i].juped
      {
        assert i > 0 ==> path[i] == rest[i - 1] && Agree(rest[0], rest[i - 1]);
      }
    }
  }

  /** A line that survives leaves all servers of a path of any length with the same channel. */
  lemma {:induction false} SurvivingLineSpreads(isnew: bool, path: seq<Chan>, m: SjoinLine, accepted: set<string>)
    requires path != [] && ShortKey(path[0].mode) && (isnew ==> path[0].mode == NO_MODE) && AllAgree(path)
    requires Read(m).Some? && GoodNicks(accepted) && Taken(Toks(m), accepted) != []
    requires Survives(isnew, path[0], m, accepted)
    ensures AllAgree(Relay(isnew, path, m, accepted))
    decreases |path|
  {
    var first := Handle(isnew, path[0], m, accepted);
    if |path| > 1 {
      AllAgreeFrom(path);
      var f := FirstHop(isnew, path[0], path[1], m, accepted);
      if Arrives(f) {
        SurvivingLineSpreads(isnew, path[1..], f, accepted);
        AllAgreeCons(first, Relay(isnew, path[1..], f, accepted));
      } else {
        AllAgreeCons(first, path[1..]);
      }
    } else {
      assert Relay(isnew, path, m, accepted) == [first];
    }
  }

  /**
   Along a path of any length, every server ends with the channel its first server computed exactly if
   the line survives there.
   */
  lemma TreeStaysInAgreement(isnew: bool, path: seq<Chan>, m: SjoinLine, accepted: set<string>)
    requires |path| > 1 && ShortKey(path[0].mode) && (isnew ==> path[0].mode == NO_MODE) && AllAgree(path)
    requires Read(m).Some? && GoodNicks(accepted) && Taken(Toks(m), accepted) != []
    ensures AllAgree(Relay(isnew, path, m, accepted)) <==> Survives(isnew, path[0], m, accepted)
  {
    if Survives(isnew, path[0], m, accepted) {
      SurvivingLineSpreads(isnew, path, m, accepted);
    } else {
      AllAgreeFrom(path);
      TakenTokens(Toks(m), accepted);
      ForwardingKeepsAgreement(isnew, path[0], path[1], m, accepted, accepted);
      SecondOfRelay(isnew, path, m, accepted);
      var out := Relay(isnew, path, m, accepted);
      assert !Agree(out[0], out[1]);
    }
  }

  lemma SecondOfRelay(isnew: bool, path: seq<Chan>, m: SjoinLine, accepted: set<string>)
    requires |path| > 1 && Read(m).Some? && Forward(isnew, path[0], m, accepted).Some?
    ensures
      var out := Relay(isnew, path, m, accepted);
      && out[0] == Handle(isnew, path[0], m, accepted)
      && out[1] == Passed(isnew, path[1], Forward(isnew, path[0], m, accepted).value, accepted)
  {
  }

  /** A line and the nicks known behind the link it comes in on. */
  datatype Arrival = Arrival(line: SjoinLine, accepted: set<string>)

  ghost predicate GoodLine(a: Arrival) { Read(a.line).Some? && GoodNicks(a.accepted) }

  /** What one line must be like: it survives if it is sent on, and is idle if it is not. */
  ghost predicate Passes(isnew: bool, x: Chan, s: Arrival)
    requires Read(s.line).Some?
  {
    if Taken(Toks(s.line), s.accepted) != [] then Survives(isnew, x, s.line, s.accepted) else Idle(isnew, x, s.line)
  }

  /** All servers agree after every one of the lines; `isnew` is for the first. */
  ghost predicate AlwaysAgree(isnew: bool, path: seq<Chan>, sent: seq<Arrival>)
    requires forall s <- sent :: GoodLine(s)
    decreases |sent|
  {
    sent != [] ==>
      assert GoodLine(sent[0]);
      var next := Relay(isnew, path, sent[0].line, sent[0].accepted);
      AllAgree(next) && AlwaysAgree(false, next, sent[1..])
  }

  ghost predicate AllPass(isnew: bool, x: Chan, sent: seq<Arrival>)
    requires forall s <- sent :: GoodLine(s)
    decreases |sent|
  {
    sent != [] ==>
      assert GoodLine(sent[0]);
      Passes(isnew, x, sent[0]) && AllPass(false, Handle(isnew, x, sent[0].line, sent[0].accepted), sent[1..])
  }

  lemma OneLine(isnew: bool, path: seq<Chan>, s: Arrival)
    requires |path| > 1 && ShortKey(path[0].mode) && (isnew ==> path[0].mode == NO_MODE) && AllAgree(path)
    requires GoodLine(s)
    ensures
      var next := Relay(isnew, path, s.line, s.accepted);
      && next[0] == Handle(isnew, path[0], s.line, s.accepted) && ShortKey(next[0].mode)
      && (AllAgree(next) <==> Passes(isnew, path[0], s))
  {
    var m := s.line;
    ReadKeyIsShort(m.modes, m.rest);
    if Taken(Toks(m), s.accepted) != [] {
      TreeStaysInAgreement(isnew, path, m, s.accepted);
    } else {
      AllAgreeFrom(path);
      var first := Handle(isnew, path[0], m, s.accepted);
      assert Relay(isnew, path, m, s.accepted) == [first] + path[1..];
      AllAgreeCons(first, path[1..]);
      UnforwardedLine(isnew, path[0], path[1], m, s.accepted);
    }
  }

  /** Whatever lines are sent down a path, its servers agree after each of them exactly if each passes the first. */
  lemma {:induction false} TreeAlwaysAgrees(isnew: bool, path: seq<Chan>, sent: seq<Arrival>)
    requires |path| > 1 && ShortKey(path[0].mode) && (isnew ==> path[0].mode == NO_MODE) && AllAgree(path)
    requires forall s <- sent :: GoodLine(s)
    ensures AlwaysAgree(isnew, path, sent) <==> AllPass(isnew, path[0], sent)
    decreases |sent|
  {
    if sent != [] {
      OneLine(isnew, path, sent[0]);
      var next := Relay(isnew, path, sent[0].line, sent[0].accepted);
      if AllAgree(next) {
        TreeAlwaysAgrees(false, next, sent[1..]);
      }
    }
  }

  /** From one server to the next: agreement holds, and what comes in survives being sent on from there too. */
  lemma FirstHop(isnew: bool, x: Chan, z: Chan, m: SjoinLine, accepted: set<string>) returns (f: SjoinLine)
    requires ShortKey(x.mode) && (isnew ==> x.mode == NO_MODE) && Agree(x, z) && !x.juped && !z.juped
    requires Read(m).Some? && GoodNicks(accepted) && Taken(Toks(m), accepted) != [] && Survives(isnew, x, m, accepted)
    ensures Forward(isnew, x, m, accepted) == Some(f) && Read(f).Some?
    ensures Agree(Handle(isnew, x, m, accepted), Passed(isnew, z, f, accepted))
    ensures Arrives(f) ==> Taken(Toks(f), accepted) != [] && Survives(isnew, z, f, accepted)
  {
    f := Forward(isnew, x, m, accepted).value;
    TakenTokens(Toks(m), accepted);
    ReadForward(isnew, x, m, accepted);
    ForwardingKeepsAgreement(isnew, x, z, m, accepted, accepted);
    ForwardedAreTaken(Toks(m), Judge(isnew, x, NewTs(m)).keepNew, accepted);
    if InRange(Judge(isnew, x, NewTs(m)).ts) {
      StillHarmless(isnew, x, z, m, accepted);
    } else if Arrives(f) {
      StillMisread(isnew, x, z, m, accepted);
    }
  }

  lemma StillHarmless(isnew: bool, x: Chan, z: Chan, m: SjoinLine, accepted: set<string>)
    requires ShortKey(x.mode) && (isnew ==> x.mode == NO_MODE) && Agree(x, z) && !x.juped && !z.juped
    requires Read(m).Some? && GoodNicks(accepted) && Taken(Toks(m), accepted) != []
    requires InRange(Judge(isnew, x, NewTs(m)).ts) && Read(Forward(isnew, x, m, accepted).value).Some?
    ensures Survives(isnew, z, Forward(isnew, x, m, accepted).value, accepted)
  {
    ReadForward(isnew, x, m, accepted);
    TsReadsBackIff(Judge(isnew, x, NewTs(m)).ts);
    SameVerdict(isnew, x, z, NewTs(m));
  }

  /** A TS that is misread as a newer one is sent on as it was, and misread in the same way. */
  lemma StillMisread(isnew: bool, x: Chan, z: Chan, m: SjoinLine, accepted: set<string>)
    requires ShortKey(x.mode) && Agree(x, z) && !x.juped && !z.juped
    requires Read(m).Some? && GoodNicks(accepted) && Taken(Toks(m), accepted) != []
    requires !InRange(Judge(isnew, x, NewTs(m)).ts) && HarmlessMisread(isnew, x, m, accepted)
    requires Read(Forward(isnew, x, m, accepted).value).Some? && Arrives(Forward(isnew, x, m, accepted).value)
    ensures Survives(isnew, z, Forward(isnew, x, m, accepted).value, accepted)
  {
    var v := Judge(isnew, x, NewTs(m));
    ReadForward(isnew, x, m, accepted);
    TsReadsBackIff(v.ts);
    OtherVerdict(isnew, z, v.ts, ReadBack(v.ts));
  }

  lemma {:induction false} ForwardedAreTaken(toks: seq<string>, keepNew: bool, accepted: set<string>)
    ensures Taken(ForwardTokens(Taken(toks, accepted), keepNew), accepted)
         == ForwardTokens(Taken(toks, accepted), keepNew)
  {
    if toks != [] {
      var s := toks[|toks| - 1];
      var before := Taken(toks[..|toks| - 1], accepted);
      ForwardedAreTaken(toks[..|toks| - 1], keepNew, accepted);
      if TokenNick(s) in accepted {
        NickOfNick(s);
        var fwd := ForwardTokens(before + [s], keepNew);
        assert fwd[..|before|] == ForwardTokens(before, keepNew);
      }
    }
  }
}
