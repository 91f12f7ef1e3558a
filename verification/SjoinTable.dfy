/**
 What `m_sjoin` makes of a channel and what it sends on, case by case of the two timestamps (src/channel.c):
 whose flags, limit, key, operators and voices are there afterwards.
 */
module SjoinTable {
  import opened Wrappers
  import opened Fields
  import opened ModeText
  import opened TextLaws
  import opened Sjoin
  import opened SjoinAgreement

  // ---------- prefixes ----------

  /** A nick is an operator's behind '@' and has voice behind '+', in either order. */
  lemma PrefixesAre(n: string)
    requires GoodNick(n)
    ensures TokenNick(n) == n && !TokenOp(n) && !TokenVoice(n)
    ensures TokenNick("@" + n) == n && TokenOp("@" + n) && !TokenVoice("@" + n)
    ensures TokenNick("+" + n) == n && !TokenOp("+" + n) && TokenVoice("+" + n)
  {
    assert n[0] in n && (|n| > 1 ==> n[1] in n);
    assert ("@" + n)[1..] == n && ("+" + n)[1..] == n;
  }

  lemma BothPrefixesAre(n: string)
    requires GoodNick(n)
    ensures TokenNick("@+" + n) == n && TokenOp("@+" + n) && TokenVoice("@+" + n)
    ensures TokenNick("+@" + n) == n && TokenOp("+@" + n) && TokenVoice("+@" + n)
  {
    PrefixesAre(n);
    assert ("@+" + n)[1..] == "+" + n && ("+@" + n)[1..] == "@" + n;
  }

  /** The tokens taken are those of known nicks, in their order. */
  lemma {:induction false} TakenConcat(a: seq<string>, b: seq<string>, accepted: set<string>)
    ensures Taken(a + b, accepted) == Taken(a, accepted) + Taken(b, accepted)
  {
    if b == [] {
      assert a + b == a;
    } else {
      var n := |b| - 1;
      assert (a + b)[..|a| + n] == a + b[..n] && (a + b)[|a| + n] == b[n];
      TakenConcat(a, b[..n], accepted);
    }
  }

  lemma TakenOne(s: string, accepted: set<string>)
    ensures Taken([s], accepted) == if TokenNick(s) in accepted then [s] else []
  {
    assert [s][..0] == [];
  }

  // ---------- modes ----------

  /** `k` is the one of two keys that `strcmp` does not find smaller than the other. */
  ghost predicate LargerKey(k: string, a: string, b: string) {
    && (k == a || k == b) && forall i: nat :: !LessAt(k, a, i) && !LessAt(k, b, i)
  }

  /** The flags of both, the larger limit and the larger key. */
  ghost predicate United(r: Mode, a: Mode, b: Mode) {
    && r.flags == a.flags + b.flags && LargerKey(r.key, a.key, b.key)
    && r.limit >= a.limit && r.limit >= b.limit && (r.limit == a.limit || r.limit == b.limit)
  }

  lemma JoinIsUnited(a: Mode, b: Mode)
    ensures United(JoinModes(a, b), a, b)
  {
    var r := JoinModes(a, b);
    KeyLessTotal(a.key, b.key);
    KeyLessTotal(r.key, r.key);
    KeyLessIff(r.key, a.key);
    KeyLessIff(r.key, b.key);
  }

  /** There is only one such mode. */
  lemma UnitedIsUnique(r: Mode, q: Mode, a: Mode, b: Mode)
    requires United(r, a, b) && United(q, a, b)
    ensures r == q
  {
    KeyLessTotal(a.key, b.key);
    KeyLessIff(a.key, b.key);
    KeyLessIff(b.key, a.key);
  }

  /** The same nicks without flags. */
  function Bare(r: map<string, Rank>): map<string, Rank> { map n | n in r :: Rank(false, false) }

  // ---------- what is sent on ----------

  /**
     The line sent on carries `ts`, the modes `mode` or "0" if there are none to send, and exactly the tokens
     taken, with their prefixes or without.
   */
  ghost predicate Carries(f: Option<SjoinLine>, ts: int, mode: Option<Mode>, taken: seq<string>, prefixes: bool) {
    if taken == [] then f.None?
    else
      && f.Some? && f.value.ts == PrintTs(ts) && f.value.rest != []
      && f.value.modes == (if mode.Some? then ModeLetters(mode.value) else "0")
      && f.value.rest[..|f.value.rest| - 1] == (if mode.Some? then ModeArgs(mode.value) else [])
      && Tokens(f.value.rest[|f.value.rest| - 1]) ==
         seq(|taken|, i requires 0 <= i < |taken| => if prefixes then taken[i] else TokenNick(taken[i]))
  }

  /** The modes to send, if the line's own mode field did not begin with a zero. */
  function Sendable(m: SjoinLine, mode: Mode): Option<Mode> {
    if m.modes != "" && m.modes[0] == '0' then None else Some(mode)
  }

  lemma ForwardCarries(isnew: bool, ch: Chan, m: SjoinLine, accepted: set<string>)
    requires Read(m).Some? && GoodNicks(accepted)
    ensures
      var v := Judge(isnew, ch, NewTs(m));
      var mode := NewMode(v, ch.mode, Read(m).value.mode);
      Carries(Forward(isnew, ch, m, accepted), v.ts, if v.keepNew then Sendable(m, mode) else None,
              Taken(Toks(m), accepted), v.keepNew)
  {
    var v, taken := Judge(isnew, ch, NewTs(m)), Taken(Toks(m), accepted);
    if taken != [] {
      TokensOfForward(m, accepted, v.keepNew);
      assert ForwardTokens(taken, v.keepNew) ==
        seq(|taken|, i requires 0 <= i < |taken| => if v.keepNew then taken[i] else TokenNick(taken[i]));
    }
  }

  // ---------- the table ----------

  /** Both sides count: the modes are united, and everybody has the flags the line or the channel gives. */
  ghost predicate Merges(isnew: bool, ch: Chan, m: SjoinLine, accepted: set<string>, ts: int)
    requires Read(m).Some?
  {
    var r := Handle(isnew, ch, m, accepted);
    && r.ts == ts && United(r.mode, Read(m).value.mode, ch.mode)
    && Ranks(r.members) == Claims(Toks(m), accepted) + Ranks(ch.members)
    && Carries(Forward(isnew, ch, m, accepted), ts, Sendable(m, r.mode), Taken(Toks(m), accepted), true)
  }

  lemma MergesIf(isnew: bool, ch: Chan, m: SjoinLine, accepted: set<string>)
    requires Read(m).Some? && GoodNicks(accepted)
    requires Judge(isnew, ch, NewTs(m)).keepOurs && Judge(isnew, ch, NewTs(m)).keepNew
    ensures Merges(isnew, ch, m, accepted, Judge(isnew, ch, NewTs(m)).ts)
  {
    RanksOfHandle(isnew, ch, m, accepted);
    JoinIsUnited(Read(m).value.mode, ch.mode);
    ForwardCarries(isnew, ch, m, accepted);
  }

  /** A line that creates the channel, meets or brings TS 0, or is as old as the channel: both sides count. */
  lemma PeersMerge(isnew: bool, ch: Chan, m: SjoinLine, accepted: set<string>)
    requires Read(m).Some? && GoodNicks(accepted)
    ensures isnew ==> Merges(isnew, ch, m, accepted, NewTs(m))
    ensures !isnew && (NewTs(m) == 0 || ch.ts == 0) ==> Merges(isnew, ch, m, accepted, 0)
    ensures !isnew && NewTs(m) == ch.ts ==> Merges(isnew, ch, m, accepted, ch.ts)
  {
    if isnew || NewTs(m) == 0 || ch.ts == 0 || NewTs(m) == ch.ts {
      MergesIf(isnew, ch, m, accepted);
    }
  }

  /** An older line: its modes and flags only. */
  lemma OlderWins(ch: Chan, m: SjoinLine, accepted: set<string>)
    requires Read(m).Some? && GoodNicks(accepted) && ch.ts != 0 && NewTs(m) != 0 && NewTs(m) < ch.ts
    ensures
      var r := Handle(false, ch, m, accepted);
      && r.ts == NewTs(m) && r.mode == Read(m).value.mode
      && Ranks(r.members) == Claims(Toks(m), accepted) + Bare(Ranks(ch.members))
      && Carries(Forward(false, ch, m, accepted), r.ts, Sendable(m, r.mode), Taken(Toks(m), accepted), true)
  {
    RanksOfHandle(false, ch, m, accepted);
    ForwardCarries(false, ch, m, accepted);
  }

  /** A newer line on a channel that is juped and empty: its TS, and both sides' modes; nobody was there before. */
  lemma JupedEmptyMerges(ch: Chan, m: SjoinLine, accepted: set<string>)
    requires Read(m).Some? && GoodNicks(accepted) && ch.ts != 0 && NewTs(m) != 0 && NewTs(m) > ch.ts
    requires ch.juped && ch.members == []
    ensures Merges(false, ch, m, accepted, NewTs(m))
    ensures Ranks(Handle(false, ch, m, accepted).members) == Claims(Toks(m), accepted)
  {
    MergesIf(false, ch, m, accepted);
    assert Claims(Toks(m), accepted) + Ranks(ch.members) == Claims(Toks(m), accepted);
  }

  /** Any other newer line: the channel's TS, modes and flags only; who comes in comes without. */
  lemma NewerLoses(ch: Chan, m: SjoinLine, accepted: set<string>)
    requires Read(m).Some? && GoodNicks(accepted) && ch.ts != 0 && NewTs(m) != 0 && NewTs(m) > ch.ts
    requires !(ch.juped && ch.members == [])
    ensures
      var r := Handle(false, ch, m, accepted);
      && r.ts == ch.ts && r.mode == ch.mode
      && Ranks(r.members) == Bare(Claims(Toks(m), accepted)) + Ranks(ch.members)
      && Carries(Forward(false, ch, m, accepted), ch.ts, None, Taken(Toks(m), accepted), false)
  {
    RanksOfHandle(false, ch, m, accepted);
    ForwardCarries(false, ch, m, accepted);
  }

  // ---------- the member list ----------

  /** Who was there loses operator status and voice and nothing else. */
  lemma StripIs(members: seq<Link>, i: nat)
    requires i < |members|
    ensures |Strip(members)| == |members|
    ensures Strip(members)[i] == Link(members[i].nick, false, false, members[i].deopped)
  {
  }

  /** The link is that of a token taken, with the flags of its prefixes if these count. */
  ghost predicate CameWith(l: Link, toks: seq<string>, keepNew: bool, accepted: set<string>) {
    exists s <- toks ::
      && l.nick == TokenNick(s) && l.nick in accepted && l.deopped == (!keepNew && TokenOp(s))
      && l.op == (keepNew && TokenOp(s)) && l.voice == (keepNew && TokenVoice(s))
  }

  /** Those who were there stay at the end of the list in their order, with or without their flags. */
  lemma {:induction false} NewestFirst(base: seq<Link>, toks: seq<string>, keepNew: bool, accepted: set<string>)
    ensures var r := AddNicks(base, toks, keepNew, accepted);
      && |r| >= |base| && r[|r| - |base|..] == base
      && forall i :: 0 <= i < |r| - |base| ==> CameWith(r[i], toks, keepNew, accepted)
  {
    if toks != [] {
      var prefix, last := toks[..|toks| - 1], toks[|toks| - 1];
      NewestFirst(base, prefix, keepNew, accepted);
      var before, r := AddNicks(base, prefix, keepNew, accepted), AddNicks(base, toks, keepNew, accepted);
      CameEarlier(prefix, last, keepNew, accepted);
      assert toks == prefix + [last];
      if r != before {
        assert r[|r| - |base|..] == before[|before| - |base|..];
        forall i | 0 <= i < |r| - |base|
          ensures CameWith(r[i], toks, keepNew, accepted)
        {
          assert i > 0 ==> r[i] == before[i - 1];
        }
      }
    }
  }

  lemma CameEarlier(prefix: seq<string>, last: string, keepNew: bool, accepted: set<string>)
    ensures forall l :: CameWith(l, prefix, keepNew, accepted) ==> CameWith(l, prefix + [last], keepNew, accepted)
    ensures TokenNick(last) in accepted ==> CameWith(JoinLink(last, keepNew), prefix + [last], keepNew, accepted)
  {
    assert (prefix + [last])[|prefix|] == last;
  }

  /** The first `j` tokens, each with its blank, make the line longer than the limit, and no fewer do. */
  predicate ClosesAt(toks: seq<string>, t: nat, j: nat) {
    && 0 < j <= |toks| && t + |Spaced(toks[..j])| > BUFSIZE - 80
    && (j == 1 || t + |Spaced(toks[..j - 1])| <= BUFSIZE - 80)
  }

  lemma SpacedCons(toks: seq<string>, j: nat)
    requires 0 < j <= |toks|
    ensures |Spaced(toks[..j])| == |toks[0]| + 1 + |Spaced(toks[1..][..j - 1])|
  {
    assert toks[..j][1..] == toks[1..][..j - 1];
  }

  lemma SpacedAll(toks: seq<string>)
    requires toks != []
    ensures |Spaced(toks)| == |toks[0]| + 1 + |Spaced(toks[1..])|
  {
    SpacedCons(toks, |toks|);
    assert toks[..|toks|] == toks && toks[1..][..|toks| - 1] == toks[1..];
  }

  /** The first `j` tokens are on the line being filled, and the others are cut anew. */
  predicate CutAt(cut: seq<seq<string>>, toks: seq<string>, names: seq<string>, head: nat, j: nat) {
    j <= |toks| && cut == [names + toks[..j]] + CutFrom(toks[j..], head, [], head)
  }

  /** A line of a burst is closed by the first token that makes it longer than the limit. */
  lemma {:induction false} CutIsTight(toks: seq<string>, t: nat, names: seq<string>, head: nat) returns (j: nat)
    requires toks != [] && t + |Spaced(toks)| > BUFSIZE - 80
    ensures ClosesAt(toks, t, j) && CutAt(CutFrom(toks, t, names, head), toks, names, head, j)
    decreases |toks|
  {
    if t + |toks[0]| + 1 > BUFSIZE - 80 {
      j := 1;
      ClosesAtOnce(toks, t, names, head);
    } else {
      SpacedAll(toks);
      var k := CutIsTight(toks[1..], t + |toks[0]| + 1, names + [toks[0]], head);
      j := k + 1;
      ClosesOneOn(toks, t, k);
      CutOneOn(CutFrom(toks, t, names, head), toks, names, head, k);
    }
  }

  lemma ClosesAtOnce(toks: seq<string>, t: nat, names: seq<string>, head: nat)
    requires toks != [] && t + |toks[0]| + 1 > BUFSIZE - 80
    ensures ClosesAt(toks, t, 1) && CutAt(CutFrom(toks, t, names, head), toks, names, head, 1)
  {
    SpacedCons(toks, 1);
    assert names + toks[..1] == names + [toks[0]];
  }

  lemma CutOneOn(cut: seq<seq<string>>, toks: seq<string>, names: seq<string>, head: nat, k: nat)
    requires toks != [] && CutAt(cut, toks[1..], names + [toks[0]], head, k)
    ensures CutAt(cut, toks, names, head, k + 1)
  {
    assert names + toks[..k + 1] == names + [toks[0]] + toks[1..][..k] && toks[k + 1..] == toks[1..][k..];
  }

  lemma ClosesOneOn(toks: seq<string>, t: nat, k: nat)
    requires toks != [] && t + |toks[0]| + 1 <= BUFSIZE - 80 && ClosesAt(toks[1..], t + |toks[0]| + 1, k)
    ensures ClosesAt(toks, t, k + 1)
  {
    SpacedCons(toks, k + 1);
    SpacedCons(toks, k);
    if k == 1 {
      assert toks[1..][..0] == [];
    }
  }

  /** What fits stays on the line being filled. */
  lemma {:induction false} CutFits(toks: seq<string>, t: nat, names: seq<string>, head: nat)
    requires t + |Spaced(toks)| <= BUFSIZE - 80
    ensures CutFrom(toks, t, names, head) == if names + toks == [] then [] else [names + toks]
    decreases |toks|
  {
    if toks == [] {
      assert names + toks == names;
    } else {
      CutFits(toks[1..], t + |toks[0]| + 1, names + [toks[0]], head);
      assert names + [toks[0]] + toks[1..] == names + toks;
    }
  }

  // ---------- the order of a burst ----------

  /** The first operator is named first, and the others in the order of the list. */
  lemma {:induction false} FirstOpIs(members: seq<Link>, i: nat)
    ensures FirstOp(members, i) >= 0 ==> members[FirstOp(members, i)].op
    ensures
      var end := if FirstOp(members, i) >= 0 then FirstOp(members, i) else |members|;
      forall j :: i <= j < end ==> !members[j].op
    decreases |members| - i
  {
    if i < |members| && !members[i].op {
      FirstOpIs(members, i + 1);
    }
  }

  /** The first line of a burst carries the modes, each other one the character zero. */
  lemma BurstLinesAre(ch: Chan, cut: seq<seq<string>>, i: nat)
    requires i < |cut|
    ensures
      var line, nicks := BurstLines(ch, cut)[i], Spaced(cut[i]);
      line == if i == 0 then SjoinLine(PrintTs(ch.ts), ModeLetters(ch.mode), ModeArgs(ch.mode) + [nicks])
        else SjoinLine(PrintTs(ch.ts), "0", [nicks])
  {
  }

  lemma BurstIs(members: seq<Link>)
    ensures
      var a, toks := FirstOp(members, 0), BurstTokens(members);
      forall k :: 0 <= k < |members| ==>
        var l := members[if a < 0 || k > a then k else if k == 0 then a else k - 1];
        toks[k] == (if l.op then "@" else "") + (if l.voice then "+" else "") + l.nick
  {
  }

  // ---------- MODE lines ----------

  /** Signs stand until the next one, and "o", "v", "k" and a limit that is set take the parameters in turn. */
  lemma ReadOn(front: string, c: char, args: seq<string>)
    ensures
      var r, was := ReadLine(front + [c], args), ReadLine(front, args);
      var add := was.sign >= 0;
      var arg := if was.used < |args| then args[was.used] else "";
      if c == '+' then r == Reading(1, was.changes, was.used)
      else if c == '-' then r == Reading(-1, was.changes, was.used)
      else if c in "ovk" || (c == 'l' && add) then
        r == Reading(was.sign, was.changes + [Change(add, c, arg)], was.used + 1)
      else r == Reading(was.sign, was.changes + [Change(add, c, "")], was.used)
  {
    assert (front + [c])[..|front|] == front;
  }
}
