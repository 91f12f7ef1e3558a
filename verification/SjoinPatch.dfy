/**
 The MODE lines that an SJOIN causes are a correct patch for local clients: read in order over the
 old modes and flags they give the new ones (src/channel.c).
 */
module SjoinPatch {
  import opened Wrappers
  import opened ModeText
  import opened Sjoin
  import opened SjoinAgreement
  import opened NetJoin

  /** What a client on the channel shows: modes, limit, key, and who is operator or has voice. */
  datatype Board = Board(mode: Mode, ops: set<string>, voices: set<string>)

  function ApplyChange(b: Board, c: Change): Board {
    if c.letter == 'o' then b.(ops := if c.add then b.ops + {c.arg} else b.ops - {c.arg})
    else if c.letter == 'v' then b.(voices := if c.add then b.voices + {c.arg} else b.voices - {c.arg})
    else if c.letter == 'l' then b.(mode := b.mode.(limit := if c.add then Atoi(c.arg) else 0))
    else if c.letter == 'k' then b.(mode := b.mode.(key := if c.add then c.arg else ""))
    else if FlagOf(c.letter).Some? then
      var f := FlagOf(c.letter).value;
      b.(mode := b.mode.(flags := if c.add then b.mode.flags + {f} else b.mode.flags - {f}))
    else b
  }

  function ApplyAll(b: Board, cs: seq<Change>): Board {
    if cs == [] then b else ApplyChange(ApplyAll(b, cs[..|cs| - 1]), cs[|cs| - 1])
  }

  function Ops(r: map<string, Rank>): set<string> { set n <- r | r[n].op }
  function Voices(r: map<string, Rank>): set<string> { set n <- r | r[n].voice }

  function BoardOf(ch: Chan): Board {
    Board(ch.mode, Ops(Ranks(ch.members)), Voices(Ranks(ch.members)))
  }

  lemma {:induction false} ApplyConcat(b: Board, p: seq<Change>, q: seq<Change>)
    ensures ApplyAll(b, p + q) == ApplyAll(ApplyAll(b, p), q)
  {
    if q == [] {
      assert p + q == p;
    } else {
      assert (p + q)[..|p + q| - 1] == p + q[..|q| - 1];
      ApplyConcat(b, p, q[..|q| - 1]);
    }
  }

  lemma ApplyOne(b: Board, on: bool, add: bool, letter: char, arg: string)
    ensures ApplyAll(b, OneChange(on, add, letter, arg))
         == if on then ApplyChange(b, Change(add, letter, arg)) else b
  {
    if on {
      assert OneChange(on, add, letter, arg)[..0] == [];
    }
  }

  lemma ApplyMore(b: Board, cs: seq<Change>, on: bool, add: bool, letter: char, arg: string)
    ensures ApplyAll(b, cs + OneChange(on, add, letter, arg))
         == if on then ApplyChange(ApplyAll(b, cs), Change(add, letter, arg)) else ApplyAll(b, cs)
  {
    ApplyConcat(b, cs, OneChange(on, add, letter, arg));
    ApplyOne(ApplyAll(b, cs), on, add, letter, arg);
  }

  // ---------- modes ----------

  lemma FlagOfLetter(f: Flag)
    ensures FlagOf(Letter(f)) == Some(f)
    ensures f in FLAG_ORDER
  {
    match f { case Secret => assert FLAG_ORDER[1] == f; case Private => assert FLAG_ORDER[0] == f;
              case Registered => assert FLAG_ORDER[2] == f; case Moderated => assert FLAG_ORDER[3] == f;
              case TopicLimit => assert FLAG_ORDER[5] == f; case InviteOnly => assert FLAG_ORDER[6] == f;
              case NoPrivMsgs => assert FLAG_ORDER[4] == f; }
  }

  /** The first `n` flags of the table that `have` holds and `lack` does not. */
  function Touched(have: set<Flag>, lack: set<Flag>, n: nat): set<Flag>
    requires n <= |FLAG_ORDER|
  {
    if n == 0 then {}
    else Touched(have, lack, n - 1)
         + if FLAG_ORDER[n - 1] in have && FLAG_ORDER[n - 1] !in lack then {FLAG_ORDER[n - 1]} else {}
  }

  function SetFlags(b: Board, flags: set<Flag>): Board { b.(mode := b.mode.(flags := flags)) }

  lemma {:induction false} ApplyFlags(b: Board, add: bool, have: set<Flag>, lack: set<Flag>, n: nat)
    requires n <= |FLAG_ORDER|
    ensures ApplyAll(b, FlagChanges(add, have, lack, n))
         == SetFlags(b, if add then b.mode.flags + Touched(have, lack, n) else b.mode.flags - Touched(have, lack, n))
  {
    if n > 0 {
      ApplyFlags(b, add, have, lack, n - 1);
      ApplyFlagsStep(b, FlagChanges(add, have, lack, n - 1), add, have, lack, FLAG_ORDER[n - 1],
                     Touched(have, lack, n - 1));
    }
  }

  lemma ApplyFlagsStep(b: Board, before: seq<Change>, add: bool, have: set<Flag>, lack: set<Flag>, f: Flag,
                       touched: set<Flag>)
    requires ApplyAll(b, before) == SetFlags(b, if add then b.mode.flags + touched else b.mode.flags - touched)
    ensures var on, more := f in have && f !in lack, touched + if f in have && f !in lack then {f} else {};
      ApplyAll(b, before + if on then [Change(add, Letter(f), "")] else [])
      == SetFlags(b, if add then b.mode.flags + more else b.mode.flags - more)
  {
    var on := f in have && f !in lack;
    ApplyMore(b, before, on, add, Letter(f), "");
    ApplyFlag(ApplyAll(b, before), add, f);
    SetStep(b.mode.flags, touched, f);
  }

  lemma ApplyFlag(b: Board, add: bool, f: Flag)
    ensures ApplyChange(b, Change(add, Letter(f), ""))
         == SetFlags(b, if add then b.mode.flags + {f} else b.mode.flags - {f})
  {
    FlagOfLetter(f);
  }

  lemma SetStep(s: set<Flag>, t: set<Flag>, f: Flag)
    ensures s + t + {f} == s + (t + {f}) && s - t - {f} == s - (t + {f})
  {
  }

  lemma TouchedAll(have: set<Flag>, lack: set<Flag>)
    ensures Touched(have, lack, |FLAG_ORDER|) == have - lack
  {
    forall f: Flag
      ensures f in Touched(have, lack, |FLAG_ORDER|) <==> f in have && f !in lack
    {
      TouchedMeans(have, lack, |FLAG_ORDER|, f);
      FlagOfLetter(f);
    }
  }

  lemma {:induction false} TouchedMeans(have: set<Flag>, lack: set<Flag>, n: nat, f: Flag)
    requires n <= |FLAG_ORDER|
    ensures f in Touched(have, lack, n) <==> f in FLAG_ORDER[..n] && f in have && f !in lack
  {
    if n > 0 {
      TouchedMeans(have, lack, n - 1, f);
      assert FLAG_ORDER[..n] == FLAG_ORDER[..n - 1] + [FLAG_ORDER[n - 1]];
    } else {
      assert FLAG_ORDER[..0] == [];
    }
  }

  lemma ApplyAllFlags(b: Board, next: Mode)
    ensures ApplyAll(ApplyAll(b, FlagChanges(true, next.flags, b.mode.flags, |FLAG_ORDER|)),
                     FlagChanges(false, b.mode.flags, next.flags, |FLAG_ORDER|))
         == SetFlags(b, next.flags)
  {
    var cur, n := b.mode.flags, |FLAG_ORDER|;
    TouchedAll(next.flags, cur);
    TouchedAll(cur, next.flags);
    ApplyFlags(b, true, next.flags, cur, n);
    ApplyFlags(ApplyAll(b, FlagChanges(true, next.flags, cur, n)), false, cur, next.flags, n);
    assert cur + (next.flags - cur) - (cur - next.flags) == next.flags;
  }

  function SetLimit(b: Board, limit: int): Board { b.(mode := b.mode.(limit := limit)) }

  function SetKey(b: Board, key: string): Board { b.(mode := b.mode.(key := key)) }

  lemma LimitDropped(b: Board, cs: seq<Change>, on: bool)
    ensures ApplyAll(b, cs + OneChange(on, false, 'l', "")) ==
      if on then SetLimit(ApplyAll(b, cs), 0) else ApplyAll(b, cs)
  {
    ApplyMore(b, cs, on, false, 'l', "");
  }

  lemma KeyDropped(b: Board, cs: seq<Change>, on: bool, key: string)
    ensures ApplyAll(b, cs + OneChange(on, false, 'k', key)) ==
      if on then SetKey(ApplyAll(b, cs), "") else ApplyAll(b, cs)
  {
    ApplyMore(b, cs, on, false, 'k', key);
  }

  lemma LimitSet(b: Board, cs: seq<Change>, on: bool, limit: int)
    ensures ApplyAll(b, cs + OneChange(on, true, 'l', PrintInt(limit))) ==
      if on then SetLimit(ApplyAll(b, cs), limit) else ApplyAll(b, cs)
  {
    ApplyMore(b, cs, on, true, 'l', PrintInt(limit));
    AtoiPrintInt(limit);
  }

  lemma KeySet(b: Board, cs: seq<Change>, on: bool, key: string)
    ensures ApplyAll(b, cs + OneChange(on, true, 'k', key)) ==
      if on then SetKey(ApplyAll(b, cs), key) else ApplyAll(b, cs)
  {
    ApplyMore(b, cs, on, true, 'k', key);
  }

  /** The limit and key changes, behind changes that left `cur` in place. */
  lemma LimitAndKeyPatch(b: Board, cs: seq<Change>, cur: Mode, next: Mode)
    requires ApplyAll(b, cs).mode == cur.(flags := next.flags)
    ensures ApplyAll(b, cs
              + OneChange(cur.limit != 0 && next.limit == 0, false, 'l', "")
              + OneChange(cur.key != "" && next.key == "", false, 'k', cur.key)
              + OneChange(next.limit != 0 && cur.limit != next.limit, true, 'l', PrintInt(next.limit))
              + OneChange(next.key != "" && cur.key != next.key, true, 'k', next.key))
         == ApplyAll(b, cs).(mode := next)
  {
    var c3 := cs + OneChange(cur.limit != 0 && next.limit == 0, false, 'l', "");
    var c4 := c3 + OneChange(cur.key != "" && next.key == "", false, 'k', cur.key);
    var c5 := c4 + OneChange(next.limit != 0 && cur.limit != next.limit, true, 'l', PrintInt(next.limit));
    LimitDropped(b, cs, cur.limit != 0 && next.limit == 0);
    KeyDropped(b, c3, cur.key != "" && next.key == "", cur.key);
    LimitSet(b, c4, next.limit != 0 && cur.limit != next.limit, next.limit);
    KeySet(b, c5, next.key != "" && cur.key != next.key, next.key);
  }

  /** The first part of the announcement turns the current modes into the next ones. */
  lemma ModeChangesPatch(b: Board, next: Mode)
    ensures ApplyAll(b, ModeChanges(b.mode, next)) == b.(mode := next)
  {
    var c1 := FlagChanges(true, next.flags, b.mode.flags, |FLAG_ORDER|);
    var c2 := FlagChanges(false, b.mode.flags, next.flags, |FLAG_ORDER|);
    ApplyConcat(b, c1, c2);
    ApplyAllFlags(b, next);
    LimitAndKeyPatch(b, c1 + c2, b.mode, next);
  }

  // ---------- stripped flags ----------

  lemma ApplyPair(b: Board, cs: seq<Change>, op: bool, voice: bool, add: bool, nick: string)
    ensures ApplyAll(b, cs + OneChange(op, add, 'o', nick) + OneChange(voice, add, 'v', nick))
         == var b' := ApplyAll(b, cs);
            Board(b'.mode,
                  if !op then b'.ops else if add then b'.ops + {nick} else b'.ops - {nick},
                  if !voice then b'.voices else if add then b'.voices + {nick} else b'.voices - {nick})
  {
    var o, v := OneChange(op, add, 'o', nick), OneChange(voice, add, 'v', nick);
    ApplyConcat(b, cs + o, v);
    ApplyConcat(b, cs, o);
    ApplyOne(ApplyAll(b, cs), op, add, 'o', nick);
    ApplyOne(ApplyAll(b, cs + o), voice, add, 'v', nick);
  }

  function OpNicks(members: seq<Link>): set<string> {
    if members == [] then {}
    else OpNicks(members[..|members| - 1])
         + if members[|members| - 1].op then {members[|members| - 1].nick} else {}
  }

  function VoiceNicks(members: seq<Link>): set<string> {
    if members == [] then {}
    else VoiceNicks(members[..|members| - 1])
         + if members[|members| - 1].voice then {members[|members| - 1].nick} else {}
  }

  lemma {:induction false} FlaggedNicks(members: seq<Link>, n: string)
    ensures n in OpNicks(members) <==> exists l <- members :: l.nick == n && l.op
    ensures n in VoiceNicks(members) <==> exists l <- members :: l.nick == n && l.voice
  {
    if members != [] {
      var prefix, l := members[..|members| - 1], members[|members| - 1];
      FlaggedNicks(prefix, n);
      assert members == prefix + [l];
    }
  }

  lemma {:induction false} StripPatch(b: Board, members: seq<Link>)
    ensures ApplyAll(b, StripChanges(members))
         == Board(b.mode, b.ops - OpNicks(members), b.voices - VoiceNicks(members))
  {
    if members != [] {
      var prefix, l := members[..|members| - 1], members[|members| - 1];
      StripPatch(b, prefix);
      ApplyPair(b, StripChanges(prefix), l.op, l.voice, false, l.nick);
      Minus(b.ops, OpNicks(prefix), l.op, l.nick);
      Minus(b.voices, VoiceNicks(prefix), l.voice, l.nick);
      assert StripChanges(members) == StripChanges(prefix) + OneChange(l.op, false, 'o', l.nick)
        + OneChange(l.voice, false, 'v', l.nick);
    }
  }

  lemma Minus(s: set<string>, t: set<string>, on: bool, n: string)
    ensures (if on then s - t - {n} else s - t) == s - (t + if on then {n} else {})
  {
  }

  lemma RankedFlags(members: seq<Link>, n: string)
    requires DistinctNicks(members)
    ensures n in Ops(Ranks(members)) <==> n in OpNicks(members)
    ensures n in Voices(Ranks(members)) <==> n in VoiceNicks(members)
  {
    FlaggedNicks(members, n);
    MembersAreRanked(n, members);
    if n in Ranks(members) {
      var i :| 0 <= i < |members| && members[i].nick == n;
      RankOfMember(members, i);
      forall l | l in members && l.nick == n
        ensures l == members[i]
      {
        var j :| 0 <= j < |members| && members[j] == l;
      }
    }
  }

  lemma OpsOfMembers(members: seq<Link>)
    requires DistinctNicks(members)
    ensures Ops(Ranks(members)) == OpNicks(members) && Voices(Ranks(members)) == VoiceNicks(members)
  {
    forall n: string
      ensures n in Ops(Ranks(members)) <==> n in OpNicks(members)
      ensures n in Voices(Ranks(members)) <==> n in VoiceNicks(members)
    {
      RankedFlags(members, n);
    }
  }

  lemma {:induction false} Count(members: seq<Link>, n: string)
    requires DistinctNicks(members)
    ensures multiset(StripChanges(members))[Change(false, 'o', n)] == if n in OpNicks(members) then 1 else 0
    ensures multiset(StripChanges(members))[Change(false, 'v', n)] == if n in VoiceNicks(members) then 1 else 0
  {
    if members != [] {
      var prefix, l := members[..|members| - 1], members[|members| - 1];
      Count(prefix, n);
      FlaggedNicks(prefix, n);
      LostCount(l, n);
      StripOn(members, |members| - 1);
      assert members[..|members|] == members;
      assert multiset(StripChanges(members)) == multiset(StripChanges(prefix)) + multiset(LostBy(l));
      assert l.nick == n ==> n !in OpNicks(prefix) && n !in VoiceNicks(prefix);
    }
  }

  lemma LostCount(l: Link, n: string)
    ensures multiset(LostBy(l))[Change(false, 'o', n)] == if l.op && l.nick == n then 1 else 0
    ensures multiset(LostBy(l))[Change(false, 'v', n)] == if l.voice && l.nick == n then 1 else 0
  {
    assert multiset(LostBy(l)) == multiset(OneChange(l.op, false, 'o', l.nick))
      + multiset(OneChange(l.voice, false, 'v', l.nick));
  }

  // ---------- granted flags ----------

  function GrantedOps(taken: seq<string>): set<string> {
    if taken == [] then {}
    else GrantedOps(taken[..|taken| - 1])
         + if TokenOp(taken[|taken| - 1]) then {TokenNick(taken[|taken| - 1])} else {}
  }

  function GrantedVoices(taken: seq<string>): set<string> {
    if taken == [] then {}
    else GrantedVoices(taken[..|taken| - 1])
         + if TokenVoice(taken[|taken| - 1]) then {TokenNick(taken[|taken| - 1])} else {}
  }

  lemma {:induction false} GrantedMeans(taken: seq<string>, n: string)
    ensures n in GrantedOps(taken) <==> exists s <- taken :: TokenNick(s) == n && TokenOp(s)
    ensures n in GrantedVoices(taken) <==> exists s <- taken :: TokenNick(s) == n && TokenVoice(s)
  {
    if taken != [] {
      var prefix, s := taken[..|taken| - 1], taken[|taken| - 1];
      GrantedMeans(prefix, n);
      assert taken == prefix + [s];
    }
  }

  lemma {:induction false} GrantPatch(b: Board, taken: seq<string>, keepNew: bool)
    ensures ApplyAll(b, GrantChanges(taken, keepNew))
         == if keepNew then Board(b.mode, b.ops + GrantedOps(taken), b.voices + GrantedVoices(taken)) else b
  {
    if taken != [] {
      var prefix, s := taken[..|taken| - 1], taken[|taken| - 1];
      GrantPatch(b, prefix, keepNew);
      ApplyPair(b, GrantChanges(prefix, keepNew), keepNew && TokenOp(s), keepNew && TokenVoice(s), true, TokenNick(s));
      assert b.ops + GrantedOps(prefix) + {TokenNick(s)} == b.ops + (GrantedOps(prefix) + {TokenNick(s)});
      assert b.voices + GrantedVoices(prefix) + {TokenNick(s)} == b.voices + (GrantedVoices(prefix) + {TokenNick(s)});
    }
  }

  lemma {:induction false} ClaimsAreTaken(toks: seq<string>, accepted: set<string>)
    ensures forall n <- Claims(toks, accepted) ::
      exists s <- Taken(toks, accepted) :: TokenNick(s) == n
        && Claims(toks, accepted)[n] == Rank(TokenOp(s), TokenVoice(s))
    ensures forall s <- Taken(toks, accepted) :: TokenNick(s) in Claims(toks, accepted)
  {
    if toks != [] {
      var prefix, s := toks[..|toks| - 1], toks[|toks| - 1];
      ClaimsAreTaken(prefix, accepted);
      if TokenNick(s) in accepted {
        assert forall t <- Taken(prefix, accepted) :: t in Taken(toks, accepted);
        assert s in Taken(toks, accepted);
      }
    }
  }

  /** What a nick holds after the line: what it held before, or what the line says at its first mention. */
  function Standing(was: map<string, Rank>, claims: map<string, Rank>, nick: string): Rank
    requires nick in claims
  {
    if nick in was then was[nick] else claims[nick]
  }

  /** A token asks for a flag that its nick, on the channel or mentioned already, does not hold. */
  predicate Overclaims(was: map<string, Rank>, toks: seq<string>, accepted: set<string>) {
    var claims := Claims(toks, accepted);
    exists s <- Taken(toks, accepted) ::
      && TokenNick(s) in claims
      && ((TokenOp(s) && !Standing(was, claims, TokenNick(s)).op)
          || (TokenVoice(s) && !Standing(was, claims, TokenNick(s)).voice))
  }

  /** Granting over the flags that were there gives the final flags, unless the line overclaims. */
  lemma GrantsMatch(was: map<string, Rank>, toks: seq<string>, accepted: set<string>)
    ensures var taken, final := Taken(toks, accepted), Claims(toks, accepted) + was;
      (Ops(was) + GrantedOps(taken) == Ops(final) && Voices(was) + GrantedVoices(taken) == Voices(final))
      <==> !Overclaims(was, toks, accepted)
  {
    var taken, claims := Taken(toks, accepted), Claims(toks, accepted);
    var final := claims + was;
    ClaimsAreTaken(toks, accepted);
    forall n: string
      ensures n in Ops(final) ==> n in Ops(was) || n in GrantedOps(taken)
      ensures n in Voices(final) ==> n in Voices(was) || n in GrantedVoices(taken)
      ensures n in Ops(was) ==> n in Ops(final)
      ensures n in Voices(was) ==> n in Voices(final)
    {
      GrantedMeans(taken, n);
    }
    if !Overclaims(was, toks, accepted) {
      forall n: string
        ensures n in GrantedOps(taken) ==> n in Ops(final)
        ensures n in GrantedVoices(taken) ==> n in Voices(final)
      {
        GrantedMeans(taken, n);
      }
    } else {
      var s :| s in taken && TokenNick(s) in claims
        && ((TokenOp(s) && !Standing(was, claims, TokenNick(s)).op)
            || (TokenVoice(s) && !Standing(was, claims, TokenNick(s)).voice));
      GrantedMeans(taken, TokenNick(s));
      assert final[TokenNick(s)] == Standing(was, claims, TokenNick(s));
    }
  }

  /**
   Reading the announced changes in order over the old board gives the new board exactly when no
   token asks for a flag that a nick already present does not hold.
   */
  lemma AnnouncementIsPatch(isnew: bool, ch: Chan, m: SjoinLine, accepted: set<string>)
    requires Read(m).Some? && DistinctNicks(ch.members)
    ensures var v := Judge(isnew, ch, NewTs(m));
      ApplyAll(BoardOf(ch), Changes(isnew, ch, m, accepted)) == BoardOf(Handle(isnew, ch, m, accepted))
      <==> !(v.keepNew && Overclaims(Keep(v.keepOurs, Ranks(ch.members)), Toks(m), accepted))
  {
    var v := Judge(isnew, ch, NewTs(m));
    var was := Keep(v.keepOurs, Ranks(ch.members));
    RestIsPatch(v, BoardOf(ch), ch.members, Read(m).value.mode, Taken(Toks(m), accepted));
    HandledBoard(isnew, ch, m, accepted);
    if v.keepNew {
      GrantsMatch(was, Toks(m), accepted);
    } else {
      DemotedClaims(Claims(Toks(m), accepted), was);
    }
  }

  /** What the channel shows after the line. */
  lemma HandledBoard(isnew: bool, ch: Chan, m: SjoinLine, accepted: set<string>)
    requires Read(m).Some?
    ensures
      var v := Judge(isnew, ch, NewTs(m));
      var final := Keep(v.keepNew, Claims(Toks(m), accepted)) + Keep(v.keepOurs, Ranks(ch.members));
      BoardOf(Handle(isnew, ch, m, accepted))
        == Board(NewMode(v, ch.mode, Read(m).value.mode), Ops(final), Voices(final))
  {
    RanksOfHandle(isnew, ch, m, accepted);
  }

  /** Names joined without flags show nothing. */
  lemma DemotedClaims(claims: map<string, Rank>, was: map<string, Rank>)
    ensures Ops(Demote(claims) + was) == Ops(was) && Voices(Demote(claims) + was) == Voices(was)
  {
  }

  /** What the announcement leaves on a board, before it is compared with the channel. */
  lemma RestIsPatch(v: Verdict, b: Board, members: seq<Link>, offered: Mode, taken: seq<string>)
    requires DistinctNicks(members) && b.ops == Ops(Ranks(members)) && b.voices == Voices(Ranks(members))
    ensures var was := Keep(v.keepOurs, Ranks(members));
      ApplyAll(b, AllChanges(v, b.mode, members, offered, taken))
      == Board(NewMode(v, b.mode, offered),
               if v.keepNew then Ops(was) + GrantedOps(taken) else Ops(was),
               if v.keepNew then Voices(was) + GrantedVoices(taken) else Voices(was))
  {
    var next := NewMode(v, b.mode, offered);
    var c2 := if v.keepOurs then [] else StripChanges(members);
    ModeChangesPatch(b, next);
    KeptIsPatch(v.keepOurs, b.(mode := next), members);
    GrantPatch(ApplyAll(b.(mode := next), c2), taken, v.keepNew);
    ApplyThree(b, ModeChanges(b.mode, next), c2, GrantChanges(taken, v.keepNew));
  }

  lemma KeptIsPatch(keep: bool, b: Board, members: seq<Link>)
    requires DistinctNicks(members) && b.ops == Ops(Ranks(members)) && b.voices == Voices(Ranks(members))
    ensures var was := Keep(keep, Ranks(members));
      ApplyAll(b, if keep then [] else StripChanges(members)) == Board(b.mode, Ops(was), Voices(was))
  {
    OpsOfMembers(members);
    NoFlagsLeft(Ranks(members));
    StripPatch(b, members);
  }

  lemma NoFlagsLeft(r: map<string, Rank>)
    ensures Ops(Demote(r)) == {} && Voices(Demote(r)) == {}
  {
  }

  lemma ApplyThree(b: Board, p: seq<Change>, q: seq<Change>, r: seq<Change>)
    ensures ApplyAll(b, p + q + r) == ApplyAll(ApplyAll(ApplyAll(b, p), q), r)
  {
    ApplyConcat(b, p + q, r);
    ApplyConcat(b, p, q);
  }

  /** Nobody already on the channel, no nick twice: the ordinary line is always a correct patch. */
  lemma OrdinaryLineIsPatch(isnew: bool, ch: Chan, m: SjoinLine, accepted: set<string>)
    requires Read(m).Some? && DistinctNicks(ch.members)
    requires forall s <- Taken(Toks(m), accepted) :: !IsMember(TokenNick(s), ch.members)
    requires forall i, j :: 0 <= i < j < |Toks(m)| ==> TokenNick(Toks(m)[i]) != TokenNick(Toks(m)[j])
    ensures ApplyAll(BoardOf(ch), Changes(isnew, ch, m, accepted)) == BoardOf(Handle(isnew, ch, m, accepted))
  {
    AnnouncementIsPatch(isnew, ch, m, accepted);
    ClaimsOfDistinct(Toks(m), accepted);
    TakenTokens(Toks(m), accepted);
    forall s <- Taken(Toks(m), accepted)
      ensures TokenNick(s) !in Ranks(ch.members)
      ensures TokenNick(s) in Claims(Toks(m), accepted)
      ensures Claims(Toks(m), accepted)[TokenNick(s)] == Rank(TokenOp(s), TokenVoice(s))
    {
      MembersAreRanked(TokenNick(s), ch.members);
      var i :| 0 <= i < |Toks(m)| && Toks(m)[i] == s;
    }
  }

  /** Exactly the flags that were lost are announced as lost, each once. */
  lemma EveryLossAnnouncedOnce(isnew: bool, ch: Chan, m: SjoinLine, accepted: set<string>, n: string)
    requires Read(m).Some? && DistinctNicks(ch.members)
    ensures var v, cs := Judge(isnew, ch, NewTs(m)), multiset(Changes(isnew, ch, m, accepted));
      && cs[Change(false, 'o', n)] == (if !v.keepOurs && n in Ops(Ranks(ch.members)) then 1 else 0)
      && cs[Change(false, 'v', n)] == (if !v.keepOurs && n in Voices(Ranks(ch.members)) then 1 else 0)
  {
    var v := Judge(isnew, ch, NewTs(m));
    var c1 := ModeChanges(ch.mode, NewMode(v, ch.mode, Read(m).value.mode));
    var c2 := if v.keepOurs then [] else StripChanges(ch.members);
    var c3 := GrantChanges(Taken(Toks(m), accepted), v.keepNew);
    Count(ch.members, n);
    RankedFlags(ch.members, n);
    NoLossInModes(ch.mode, NewMode(v, ch.mode, Read(m).value.mode), n);
    NoLossInGrants(Taken(Toks(m), accepted), v.keepNew, n);
    CountMiddle(c1, c2, c3, Change(false, 'o', n), n);
    CountMiddle(c1, c2, c3, Change(false, 'v', n), n);
  }

  lemma CountMiddle(p: seq<Change>, q: seq<Change>, r: seq<Change>, c: Change, n: string)
    requires IsLossOf(c, n)
    requires (forall d <- p :: !IsLossOf(d, n)) && (forall d <- r :: !IsLossOf(d, n))
    ensures multiset(p + q + r)[c] == multiset(q)[c]
  {
    assert c !in p && c !in r;
  }

  predicate IsLossOf(c: Change, n: string) { c == Change(false, 'o', n) || c == Change(false, 'v', n) }

  lemma {:induction false} NoLossInFlags(add: bool, have: set<Flag>, lack: set<Flag>, k: nat, n: string)
    requires k <= |FLAG_ORDER|
    ensures forall c <- FlagChanges(add, have, lack, k) :: !IsLossOf(c, n)
  {
    if k > 0 {
      NoLossInFlags(add, have, lack, k - 1, n);
    }
  }

  lemma NoLossInModes(cur: Mode, next: Mode, n: string)
    ensures forall c <- ModeChanges(cur, next) :: !IsLossOf(c, n)
  {
    NoLossInFlags(true, next.flags, cur.flags, |FLAG_ORDER|, n);
    NoLossInFlags(false, cur.flags, next.flags, |FLAG_ORDER|, n);
  }

  lemma {:induction false} NoLossInGrants(taken: seq<string>, keepNew: bool, n: string)
    ensures forall c <- GrantChanges(taken, keepNew) :: !IsLossOf(c, n)
  {
    if taken != [] {
      NoLossInGrants(taken[..|taken| - 1], keepNew, n);
    }
  }
}
