/**
 The SJOIN handler and the net-join burst of a channel (src/channel.c), in the shipped
 configuration: TS5, SERVICES and JUPE_CHANNEL defined, IGNORE_BOGUS_TS undefined.
 */
module Sjoin {
  import opened Wrappers
  import opened Fields
  import opened ModeText

  const MAXMODEPARAMS := 5

  /** An SJOIN line but for the channel name: the TS as text, the mode field, then parameters and nick list. */
  datatype SjoinLine = SjoinLine(ts: string, modes: string, rest: seq<string>)

  /** The TS that `m_sjoin` reads in a line. */
  function NewTs(m: SjoinLine): int { Atol(m.ts) }

  /** A line that was sent comes in as such: the text of its TS starts a parameter. */
  predicate Arrives(m: SjoinLine) { StartsParameter(m.ts) }

  /** A link of a channel's member list. */
  datatype Link = Link(nick: string, op: bool, voice: bool, deopped: bool)

  datatype Chan = Chan(ts: int, mode: Mode, members: seq<Link>, juped: bool)

  // ---------- nick tokens ----------

  predicate TokenOp(s: string) { (|s| > 0 && s[0] == '@') || (|s| > 1 && s[1] == '@') }

  predicate TokenVoice(s: string) { (|s| > 0 && s[0] == '+') || (|s| > 1 && s[1] == '+') }

  /** The nick behind the prefix characters. */
  function TokenNick(s: string): string {
    if s != "" && (s[0] == '@' || s[0] == '+') then TokenNick(s[1..]) else s
  }

  predicate GoodNick(n: string) { n != "" && '@' !in n && '+' !in n && ' ' !in n }

  /** Nicks found behind the link the line came from. */
  ghost predicate GoodNicks(accepted: set<string>) { forall n <- accepted :: GoodNick(n) }

  // ---------- the channel after an SJOIN ----------

  /** What the two timestamps decide: the new TS and whose modes are kept. */
  datatype Verdict = Verdict(ts: int, keepOurs: bool, keepNew: bool)

  function Judge(isnew: bool, ch: Chan, newts: int): Verdict {
    if isnew then Verdict(newts, true, true)
    else if newts == 0 || ch.ts == 0 then Verdict(0, true, true)
    else if newts == ch.ts then Verdict(ch.ts, true, true)
    else if newts < ch.ts then Verdict(newts, false, true)
    else if ch.juped && |ch.members| == 0 then Verdict(newts, true, true)
    else Verdict(ch.ts, true, false)
  }

  function JoinModes(m: Mode, cur: Mode): Mode {
    Mode(m.flags + cur.flags,
         if cur.limit > m.limit then cur.limit else m.limit,
         if KeyLess(m.key, cur.key) then cur.key else m.key)
  }

  function NewMode(v: Verdict, cur: Mode, offered: Mode): Mode {
    if !v.keepNew then cur else if v.keepOurs then JoinModes(offered, cur) else offered
  }

  function StripLink(l: Link): Link { l.(op := false, voice := false) }

  function Strip(members: seq<Link>): (r: seq<Link>)
    ensures |r| == |members| && forall i :: 0 <= i < |r| ==> r[i] == StripLink(members[i])
  {
    seq(|members|, i requires 0 <= i < |members| => StripLink(members[i]))
  }

  predicate IsMember(nick: string, members: seq<Link>) {
    exists l <- members :: l.nick == nick
  }

  function JoinLink(s: string, keepNew: bool): Link {
    if keepNew then Link(TokenNick(s), TokenOp(s), TokenVoice(s), false)
    else Link(TokenNick(s), false, false, TokenOp(s))
  }

  /** The member list after the nick loop, newest member first. */
  function AddNicks(base: seq<Link>, toks: seq<string>, keepNew: bool, accepted: set<string>): seq<Link> {
    if toks == [] then base
    else
      var s := toks[|toks| - 1];
      var before := AddNicks(base, toks[..|toks| - 1], keepNew, accepted);
      if TokenNick(s) in accepted && !IsMember(TokenNick(s), before)
      then [JoinLink(s, keepNew)] + before else before
  }

  /** The tokens whose nick is known and comes from the right direction. */
  function Taken(toks: seq<string>, accepted: set<string>): seq<string> {
    if toks == [] then []
    else
      var s := toks[|toks| - 1];
      var before := Taken(toks[..|toks| - 1], accepted);
      if TokenNick(s) in accepted then before + [s] else before
  }

  /** A line with too few parameters is dropped before it touches the channel. */
  function Read(m: SjoinLine): Option<Parsed> {
    if m.rest == [] then None else ReadModes(m.modes, m.rest)
  }

  function Toks(m: SjoinLine): seq<string>
    requires Read(m).Some?
  {
    Tokens(m.rest[Read(m).value.args])
  }

  function Base(v: Verdict, members: seq<Link>): seq<Link> {
    if v.keepOurs then members else Strip(members)
  }

  function Handle(isnew: bool, ch: Chan, m: SjoinLine, accepted: set<string>): Chan
    requires Read(m).Some?
  {
    var v := Judge(isnew, ch, NewTs(m));
    Chan(v.ts, NewMode(v, ch.mode, Read(m).value.mode),
         AddNicks(Base(v, ch.members), Toks(m), v.keepNew, accepted), ch.juped)
  }

  function ForwardToken(s: string, keepNew: bool): string { if keepNew then s else TokenNick(s) }

  function ForwardTokens(taken: seq<string>, keepNew: bool): (r: seq<string>)
    ensures |r| == |taken| && forall i :: 0 <= i < |r| ==> r[i] == ForwardToken(taken[i], keepNew)
  {
    seq(|taken|, i requires 0 <= i < |taken| => ForwardToken(taken[i], keepNew))
  }

  predicate ModesAreZero(modes: string) { modes != "" && modes[0] == '0' }

  /** The rewritten SJOIN for the other servers; nothing is sent when no nick was taken. */
  function Rewrite(v: Verdict, mode: Mode, zero: bool, taken: seq<string>): Option<SjoinLine> {
    if taken == [] then None
    else
      var nicks := Trimmed(ForwardTokens(taken, v.keepNew));
      if !zero && v.keepNew
      then Some(SjoinLine(PrintTs(v.ts), ModeLetters(mode), ModeArgs(mode) + [nicks]))
      else Some(SjoinLine(PrintTs(v.ts), "0", [nicks]))
  }

  function Forward(isnew: bool, ch: Chan, m: SjoinLine, accepted: set<string>): Option<SjoinLine>
    requires Read(m).Some?
  {
    var v := Judge(isnew, ch, NewTs(m));
    Rewrite(v, NewMode(v, ch.mode, Read(m).value.mode), ModesAreZero(m.modes), Taken(Toks(m), accepted))
  }

  // ---------- MODE lines and how a client reads them ----------

  /** One MODE line: the letters with their signs, and the parameters. */
  datatype Line = Line(letters: string, args: seq<string>)

  /** One mode change as a client understands it. */
  datatype Change = Change(add: bool, letter: char, arg: string)

  datatype Reading = Reading(sign: int, changes: seq<Change>, used: nat)

  predicate TakesArg(add: bool, c: char) { c == 'o' || c == 'v' || c == 'k' || (c == 'l' && add) }

  function ReadLine(letters: string, args: seq<string>): Reading {
    if letters == "" then Reading(0, [], 0)
    else
      var r := ReadLine(letters[..|letters| - 1], args);
      var c := letters[|letters| - 1];
      if c == '+' then r.(sign := 1)
      else if c == '-' then r.(sign := -1)
      else if TakesArg(r.sign >= 0, c)
      then Reading(r.sign,
                   r.changes + [Change(r.sign >= 0, c, if r.used < |args| then args[r.used] else "")],
                   r.used + 1)
      else r.(changes := r.changes + [Change(r.sign >= 0, c, "")])
  }

  function ReadLines(lines: seq<Line>): seq<Change> {
    if lines == [] then []
    else
      var last := lines[|lines| - 1];
      ReadLines(lines[..|lines| - 1]) + ReadLine(last.letters, last.args).changes
  }

  /** The order in which `m_sjoin` walks the simple flags. */
  const FLAG_ORDER: seq<Flag> := [Private, Secret, Registered, Moderated, NoPrivMsgs, TopicLimit, InviteOnly]

  function FlagChanges(add: bool, have: set<Flag>, lack: set<Flag>, n: nat): seq<Change>
    requires n <= |FLAG_ORDER|
  {
    if n == 0 then []
    else
      FlagChanges(add, have, lack, n - 1)
      + if FLAG_ORDER[n - 1] in have && FLAG_ORDER[n - 1] !in lack
        then [Change(add, Letter(FLAG_ORDER[n - 1]), "")] else []
  }

  function OneChange(on: bool, add: bool, letter: char, arg: string): seq<Change> {
    if on then [Change(add, letter, arg)] else []
  }

  function ModeChanges(cur: Mode, next: Mode): seq<Change> {
    FlagChanges(true, next.flags, cur.flags, |FLAG_ORDER|)
    + FlagChanges(false, cur.flags, next.flags, |FLAG_ORDER|)
    + OneChange(cur.limit != 0 && next.limit == 0, false, 'l', "")
    + OneChange(cur.key != "" && next.key == "", false, 'k', cur.key)
    + OneChange(next.limit != 0 && cur.limit != next.limit, true, 'l', PrintInt(next.limit))
    + OneChange(next.key != "" && cur.key != next.key, true, 'k', next.key)
  }

  function StripChanges(members: seq<Link>): seq<Change> {
    if members == [] then []
    else
      var l := members[|members| - 1];
      StripChanges(members[..|members| - 1])
      + OneChange(l.op, false, 'o', l.nick) + OneChange(l.voice, false, 'v', l.nick)
  }

  function GrantChanges(taken: seq<string>, keepNew: bool): seq<Change> {
    if taken == [] then []
    else
      var s := taken[|taken| - 1];
      GrantChanges(taken[..|taken| - 1], keepNew)
      + OneChange(keepNew && TokenOp(s), true, 'o', TokenNick(s))
      + OneChange(keepNew && TokenVoice(s), true, 'v', TokenNick(s))
  }

  /** Every change announced to local clients, in order. */
  function AllChanges(v: Verdict, cur: Mode, members: seq<Link>, offered: Mode, taken: seq<string>): seq<Change> {
    ModeChanges(cur, NewMode(v, cur, offered))
    + (if v.keepOurs then [] else StripChanges(members))
    + GrantChanges(taken, v.keepNew)
  }

  function Changes(isnew: bool, ch: Chan, m: SjoinLine, accepted: set<string>): seq<Change>
    requires Read(m).Some?
  {
    AllChanges(Judge(isnew, ch, NewTs(m)), ch.mode, ch.members, Read(m).value.mode, Taken(Toks(m), accepted))
  }

  // ---------- the mode buffer ----------

  /** `modebuf`, `parabuf` and `what`: the line being filled and the sign last written in this stage. */
  datatype ModeBuf = ModeBuf(letters: string, args: seq<string>, what: int) {
    function Changes(): seq<Change> { ReadLine(letters, args).changes }

    predicate Valid() {
      && ReadLine(letters, args).used == |args|
      && (what == 1 || what == -1 ==> ReadLine(letters, args).sign == what)
    }

    /** Write the sign if it changed, then the letter and its parameter. */
    function Put(add: bool, c: char, arg: Option<string>): ModeBuf {
      var sign := if add then 1 else -1;
      ModeBuf(letters + (if what != sign then [if add then '+' else '-'] else []) + [c],
              args + (if arg.Some? then [arg.value] else []), sign)
    }
  }

  lemma {:induction false} ReadLineFrame(letters: string, args: seq<string>, more: seq<string>)
    requires ReadLine(letters, args).used <= |args|
    ensures ReadLine(letters, args + more) == ReadLine(letters, args)
  {
    if letters != "" {
      ReadLineFrame(letters[..|letters| - 1], args, more);
    }
  }

  lemma PutReads(b: ModeBuf, add: bool, c: char, arg: Option<string>)
    requires b.Valid() && c != '+' && c != '-' && arg.Some? == TakesArg(add, c)
    ensures b.Put(add, c, arg).Valid()
    ensures b.Put(add, c, arg).Changes()
         == b.Changes() + [Change(add, c, if arg.Some? then arg.value else "")]
  {
    var p := b.Put(add, c, arg);
    ReadLineFrame(b.letters, b.args, if arg.Some? then [arg.value] else []);
    var signed := b.letters + if b.what != p.what then [if add then '+' else '-'] else [];
    if b.what != p.what {
      assert signed[..|signed| - 1] == b.letters;
    } else {
      assert signed == b.letters;
    }
    assert p.letters[..|p.letters| - 1] == signed;
  }

  lemma ReadLinesPush(lines: seq<Line>, l: Line)
    ensures ReadLines(lines + [l]) == ReadLines(lines) + ReadLine(l.letters, l.args).changes
  {
    assert (lines + [l])[..|lines|] == lines;
  }

  predicate ShortLines(lines: seq<Line>) { forall l <- lines :: |l.args| <= MAXMODEPARAMS }

  /** `sjoin_sendit`: the line goes out to the local members. */
  method Send(lines: seq<Line>, b: ModeBuf) returns (sent: seq<Line>)
    requires ShortLines(lines) && |b.args| <= MAXMODEPARAMS
    ensures ShortLines(sent) && ReadLines(sent) == ReadLines(lines) + b.Changes()
  {
    ReadLinesPush(lines, Line(b.letters, b.args));
    sent := lines + [Line(b.letters, b.args)];
  }

  /** The simple flags that `have` holds and `lack` does not, as letters under one sign. */
  method PutFlags(b0: ModeBuf, add: bool, have: set<Flag>, lack: set<Flag>) returns (b: ModeBuf)
    requires b0.Valid()
    ensures b.Valid() && b.args == b0.args
    ensures b.Changes() == b0.Changes() + FlagChanges(add, have, lack, |FLAG_ORDER|)
  {
    b := b0;
    for n := 0 to |FLAG_ORDER|
      invariant b.Valid() && b.args == b0.args
      invariant b.Changes() == b0.Changes() + FlagChanges(add, have, lack, n)
    {
      var f := FLAG_ORDER[n];
      if f in have && f !in lack {
        PutReads(b, add, Letter(f), None);
        b := b.Put(add, Letter(f), None);
      }
    }
  }

  method PutIf(b0: ModeBuf, on: bool, add: bool, c: char, arg: string) returns (b: ModeBuf)
    requires b0.Valid() && (c == 'l' || c == 'k') && (!TakesArg(add, c) ==> arg == "")
    ensures b.Valid() && b.Changes() == b0.Changes() + OneChange(on, add, c, arg)
    ensures |b.args| == |b0.args| + if on && TakesArg(add, c) then 1 else 0
  {
    b := b0;
    if on {
      PutReads(b, add, c, if TakesArg(add, c) then Some(arg) else None);
      b := b.Put(add, c, if TakesArg(add, c) then Some(arg) else None);
    }
  }

  /** The first part of the MODE line: how the current modes become the next ones. */
  method PutModes(cur: Mode, next: Mode) returns (b: ModeBuf)
    ensures b.Valid() && |b.args| <= 2 && b.Changes() == ModeChanges(cur, next)
  {
    b := ModeBuf("", [], 0);
    b := PutFlags(b, true, next.flags, cur.flags);
    assert b.Changes() == FlagChanges(true, next.flags, cur.flags, |FLAG_ORDER|);
    b := PutFlags(b, false, cur.flags, next.flags);
    b := PutIf(b, cur.limit != 0 && next.limit == 0, false, 'l', "");
    b := PutIf(b, cur.key != "" && next.key == "", false, 'k', cur.key);
    b := PutIf(b, next.limit != 0 && cur.limit != next.limit, true, 'l', PrintInt(next.limit));
    b := PutIf(b, next.key != "" && cur.key != next.key, true, 'k', next.key);
  }

  /** Add one parameter change if `on`; a full line is sent and the buffer restarts as `empty`. */
  method PutOrSend(lines0: seq<Line>, b0: ModeBuf, on: bool, add: bool, c: char, arg: string, empty: ModeBuf)
    returns (lines: seq<Line>, b: ModeBuf)
    requires ShortLines(lines0) && b0.Valid() && |b0.args| < MAXMODEPARAMS
    requires c == 'o' || c == 'v'
    requires empty.Valid() && empty.args == [] && empty.Changes() == []
    requires b0.args == [] ==> b0.Changes() == [] || empty.letters == ""
    ensures ShortLines(lines) && b.Valid() && |b.args| < MAXMODEPARAMS
    ensures ReadLines(lines) + b.Changes()
         == ReadLines(lines0) + b0.Changes() + OneChange(on, add, c, arg)
    ensures b.args == [] ==> b.Changes() == [] || empty.letters == ""
  {
    lines, b := lines0, b0;
    if on {
      PutReads(b0, add, c, Some(arg));
      b := b0.Put(add, c, Some(arg));
      if |b.args| >= MAXMODEPARAMS {
        lines := Send(lines, b);
        b := empty;
      }
    }
  }

  lemma {:induction false} ReadLinesConcat(a: seq<Line>, b: seq<Line>)
    ensures ReadLines(a + b) == ReadLines(a) + ReadLines(b)
  {
    if b == [] {
      assert a + b == a;
    } else {
      var b', last := b[..|b| - 1], b[|b| - 1];
      ReadLinesConcat(a, b');
      assert (a + b)[|a + b| - 1] == last && (a + b)[..|a + b| - 1] == a + b';
      Assoc3(ReadLines(a), ReadLines(b'), ReadLine(last.letters, last.args).changes);
    }
  }

  lemma Assoc3<T>(a: seq<T>, b: seq<T>, c: seq<T>)
    ensures (a + b) + c == a + (b + c)
  {
  }

  /** What taking op and voice from a member announces. */
  function LostBy(l: Link): seq<Change> { OneChange(l.op, false, 'o', l.nick) + OneChange(l.voice, false, 'v', l.nick) }

  lemma StripOn(members: seq<Link>, i: nat)
    requires i < |members|
    ensures StripChanges(members[..i + 1]) == StripChanges(members[..i]) + LostBy(members[i])
  {
    assert members[..i + 1][..i] == members[..i];
  }

  method AnnounceLoss(lines0: seq<Line>, b0: ModeBuf, l: Link) returns (lines: seq<Line>, b: ModeBuf)
    requires ShortLines(lines0) && b0.Valid() && |b0.args| < MAXMODEPARAMS
    ensures ShortLines(lines) && b.Valid() && |b.args| < MAXMODEPARAMS
    ensures ReadLines(lines) + b.Changes() == ReadLines(lines0) + b0.Changes() + LostBy(l)
  {
    lines, b := PutOrSend(lines0, b0, l.op, false, 'o', l.nick, ModeBuf("", [], 0));
    lines, b := PutOrSend(lines, b, l.voice, false, 'v', l.nick, ModeBuf("", [], 0));
  }

  /** The buffer as the nick loop starts it. */
  const EMPTY_BUF := ModeBuf("+", [], 1)

  predicate Announcing(lines: seq<Line>, b: ModeBuf) {
    ShortLines(lines) && b.Valid() && |b.args| < MAXMODEPARAMS && (b.args == [] ==> b.Changes() == [])
  }

  /** What a taken token grants. */
  function GrantedBy(s: string, keepNew: bool): seq<Change> {
    OneChange(keepNew && TokenOp(s), true, 'o', TokenNick(s))
      + OneChange(keepNew && TokenVoice(s), true, 'v', TokenNick(s))
  }

  method AnnounceGrant(lines0: seq<Line>, b0: ModeBuf, s: string, keepNew: bool) returns (lines: seq<Line>, b: ModeBuf)
    requires Announcing(lines0, b0)
    ensures Announcing(lines, b)
    ensures ReadLines(lines) + b.Changes() == ReadLines(lines0) + b0.Changes() + GrantedBy(s, keepNew)
  {
    assert EMPTY_BUF.letters[..0] == "";
    lines, b := PutOrSend(lines0, b0, keepNew && TokenOp(s), true, 'o', TokenNick(s), EMPTY_BUF);
    lines, b := PutOrSend(lines, b, keepNew && TokenVoice(s), true, 'v', TokenNick(s), EMPTY_BUF);
  }

  /** One more token, taken or not. */
  lemma TakenOn(was: seq<Link>, toks: seq<string>, i: nat, keepNew: bool, accepted: set<string>)
    requires i < |toks|
    ensures
      var before, s, t := Taken(toks[..i], accepted), toks[i], Taken(toks[..i + 1], accepted);
      if TokenNick(s) in accepted then
        && t == before + [s] && GrantChanges(t, keepNew) == GrantChanges(before, keepNew) + GrantedBy(s, keepNew)
        && ForwardTokens(t, keepNew) == ForwardTokens(before, keepNew) + [ForwardToken(s, keepNew)]
      else t == before
    ensures
      var members, s := AddNicks(was, toks[..i], keepNew, accepted), toks[i];
      AddNicks(was, toks[..i + 1], keepNew, accepted) ==
        if TokenNick(s) in accepted && !IsMember(TokenNick(s), members) then [JoinLink(s, keepNew)] + members
        else members
  {
    assert toks[..i + 1][..i] == toks[..i];
    var before := Taken(toks[..i], accepted);
    assert (before + [toks[i]])[..|before|] == before;
  }

  // ---------- the net-join burst ----------

  /** Index of the first operator from position `i` on, or -1. */
  function FirstOp(members: seq<Link>, i: nat): (r: int)
    ensures r == -1 || i <= r < |members|
    decreases |members| - i
  {
    if i >= |members| then -1 else if members[i].op then i else FirstOp(members, i + 1)
  }

  /** The member list position that the burst names `k`-th: the operator at `a` first, if there is one. */
  function Position(a: int, k: nat): int {
    if a == -1 then k else if k == 0 then a else if k - 1 < a then k - 1 else k
  }

  function MemberToken(l: Link): string {
    (if l.op then "@" else "") + (if l.voice then "+" else "") + l.nick
  }

  function BurstTokens(members: seq<Link>): (r: seq<string>)
    ensures |r| == |members|
  {
    var a := FirstOp(members, 0);
    seq(|members|, k requires 0 <= k < |members| => MemberToken(members[Position(a, k)]))
  }

  lemma BurstTokenAt(members: seq<Link>, a: int, k: nat)
    requires a == FirstOp(members, 0) && k < |members| && 0 <= Position(a, k) < |members|
    ensures BurstTokens(members)[k..] == [MemberToken(members[Position(a, k)])] + BurstTokens(members)[k + 1..]
  {
    HeadAndTail(BurstTokens(members), k);
  }

  lemma HeadAndTail<T>(s: seq<T>, k: nat)
    requires k < |s|
    ensures s[k..] == [s[k]] + s[k + 1..]
  {
  }

  function Flatten(cut: seq<seq<string>>): seq<string> {
    if cut == [] then [] else Flatten(cut[..|cut| - 1]) + cut[|cut| - 1]
  }

  /** A way of cutting the tokens into lines, none of them empty. */
  predicate IsSplit(cut: seq<seq<string>>, toks: seq<string>) {
    Flatten(cut) == toks && forall c <- cut :: c != []
  }

  /** The first line carries the modes, the others say "0". */
  function BurstLine(ch: Chan, first: bool, names: seq<string>): SjoinLine {
    if first then SjoinLine(PrintTs(ch.ts), ModeLetters(ch.mode), ModeArgs(ch.mode) + [Spaced(names)])
    else SjoinLine(PrintTs(ch.ts), "0", [Spaced(names)])
  }

  function BurstLines(ch: Chan, cut: seq<seq<string>>): seq<SjoinLine> {
    seq(|cut|, i requires 0 <= i < |cut| => BurstLine(ch, i == 0, cut[i]))
  }

  lemma BurstLinesPush(ch: Chan, cut: seq<seq<string>>, names: seq<string>)
    ensures BurstLines(ch, cut + [names]) == BurstLines(ch, cut) + [BurstLine(ch, cut == [], names)]
  {
  }

  /** The mode field of the line being filled: the channel's modes first, "0" from then on. */
  predicate LineHead(ch: Chan, first: bool, modebuf: string, parabuf: seq<string>) {
    if first then modebuf == ModeLetters(ch.mode) && parabuf == ModeArgs(ch.mode)
    else modebuf == "0" && parabuf == []
  }

  /** The parameters as they stand in front of the nicks. */
  function Params(m: Mode): string {
    var p := (if m.limit != 0 then PrintInt(m.limit) + " " else "") + m.key;
    if p == "" then "" else p + " "
  }

  /** What stands before the nicks: of the first line of a burst, and of the others. */
  function HeadOf(me: string, chname: string, ch: Chan, first: bool): string {
    ":" + me + " SJOIN " + PrintTs(ch.ts) + " " + chname + " "
    + if first then ModeLetters(ch.mode) + " " + Params(ch.mode) + ":" else "0 :"
  }

  /**
     How tokens are cut into lines: a line is closed as soon as it is longer than the limit. `t` is its
     length so far, with the tokens `names` in it, and `head` the length each further one starts with.
   */
  function CutFrom(toks: seq<string>, t: nat, names: seq<string>, head: nat): seq<seq<string>> {
    if toks == [] then (if names == [] then [] else [names])
    else
      var more := names + [toks[0]];
      if t + |toks[0]| + 1 > BUFSIZE - 80 then [more] + CutFrom(toks[1..], head, [], head)
      else CutFrom(toks[1..], t + |toks[0]| + 1, more, head)
  }

  function BurstCut(me: string, chname: string, ch: Chan): seq<seq<string>> {
    CutFrom(BurstTokens(ch.members), |HeadOf(me, chname, ch, true)|, [], |HeadOf(me, chname, ch, false)|)
  }

  lemma {:induction false} FlattenCons(c: seq<string>, cut: seq<seq<string>>)
    ensures Flatten([c] + cut) == c + Flatten(cut)
  {
    if cut == [] {
      assert [c] + cut == [c] && [c][..0] == [];
    } else {
      var n := |cut| - 1;
      assert ([c] + cut)[..n + 1] == [c] + cut[..n];
      FlattenCons(c, cut[..n]);
      assert c + Flatten(cut[..n]) + cut[n] == c + (Flatten(cut[..n]) + cut[n]);
    }
  }

  /** Cutting loses no token and makes no empty line. */
  lemma {:induction false} CutIsSplit(toks: seq<string>, t: nat, names: seq<string>, head: nat)
    ensures IsSplit(CutFrom(toks, t, names, head), names + toks)
    decreases |toks|
  {
    if toks == [] {
      assert names + toks == names && [names][..0] == [];
    } else {
      var more := names + [toks[0]];
      assert names + toks == more + toks[1..];
      if t + |toks[0]| + 1 > BUFSIZE - 80 {
        CutIsSplit(toks[1..], head, [], head);
        FlattenCons(more, CutFrom(toks[1..], head, [], head));
        assert [] + toks[1..] == toks[1..];
      } else {
        CutIsSplit(toks[1..], t + |toks[0]| + 1, more, head);
      }
    }
  }

  /** The burst at work: the lines closed, the fields of the one being filled, its length and its tokens. */
  datatype Burst = Burst(out: seq<SjoinLine>, modebuf: string, parabuf: seq<string>, t: nat, names: seq<string>)

  /** The lines closed are those of `cut`, and the mode field fits. */
  predicate Closed(ch: Chan, cut: seq<seq<string>>, b: Burst) {
    b.out == BurstLines(ch, cut) && LineHead(ch, cut == [], b.modebuf, b.parabuf)
  }

  /** The line being filled goes out. */
  method CloseLine(ghost ch: Chan, ghost cut: seq<seq<string>>, ts: int, b0: Burst, head: nat) returns (b: Burst)
    requires ts == ch.ts && Closed(ch, cut, b0)
    ensures Closed(ch, cut + [b0.names], b) && b.t == head && b.names == []
  {
    BurstLinesPush(ch, cut, b0.names);
    assert [] + [Spaced(b0.names)] == [Spaced(b0.names)];
    b := Burst(b0.out + [SjoinLine(PrintTs(ts), b0.modebuf, b0.parabuf + [Spaced(b0.names)])], "0", [], head, []);
  }

  /** One more token, with `rest` still to come. */
  method AddToken(ghost ch: Chan, ghost cut0: seq<seq<string>>, ghost rest: seq<string>, ts: int, b0: Burst,
                  token: string,
                  head: nat) returns (b: Burst, ghost cut: seq<seq<string>>)
    requires ts == ch.ts && Closed(ch, cut0, b0)
    ensures Closed(ch, cut, b)
    ensures cut + CutFrom(rest, b.t, b.names, head) == cut0 + CutFrom([token] + rest, b0.t, b0.names, head)
  {
    assert ([token] + rest)[1..] == rest;
    b, cut := b0.(t := b0.t + |token| + 1, names := b0.names + [token]), cut0;
    if b.t > BUFSIZE - 80 {
      Assoc3(cut0, [b.names], CutFrom(rest, head, [], head));
      cut := cut0 + [b.names];
      b := CloseLine(ch, cut0, ts, b, head);
    }
  }

  function WalkNext(l: int, skip: int, n: nat): int {
    var start := if l == -1 || l == skip then 0 else l + 1;
    var found := if start < n && start == skip then start + 1 else start;
    if found < n then found else -1
  }

  /** One step of the burst's walk: the next member after `l`, from the front again after `skip`. */
  method NextMember(l0: int, skip: int, n: nat) returns (l: int)
    requires -1 <= l0 < n && -1 <= skip < n
    ensures l == WalkNext(l0, skip, n)
  {
    l := l0;
    if l == -1 || l == skip {
      l := if n == 0 then -1 else 0;
    } else {
      l := if l + 1 < n then l + 1 else -1;
    }
    if l != -1 && l == skip {
      l := if l + 1 < n then l + 1 else -1;
    }
  }

  /** The loop variables of the burst: the operator still to be named first, who is skipped for it, the last named. */
  datatype Walk = Walk(anop: int, skip: int, l: int)

  /** `k` members are named, with `a` the operator found first. */
  ghost predicate Walking(a: int, n: nat, k: nat, w: Walk) {
    && -1 <= a < n && k <= n
    && if k == 0 then w == Walk(a, -1, -1) else w == Walk(-1, a, Position(a, k - 1))
  }

  /** One round of the burst's walk; `l` is -1 when every member has been named. */
  method Advance(ghost a: int, n: nat, ghost k: nat, w0: Walk) returns (w: Walk)
    requires Walking(a, n, k, w0)
    ensures if k < n then w.l == Position(a, k) && 0 <= w.l < n && Walking(a, n, k + 1, w) else w.l == -1
  {
    if w0.anop != -1 {
      w := Walk(-1, w0.anop, w0.anop);
    } else {
      var l := NextMember(w0.l, w0.skip, n);
      w := w0.(l := l);
    }
  }

  method FindOp(members: seq<Link>) returns (anop: int)
    ensures anop == FirstOp(members, 0)
  {
    var i := 0;
    while i < |members|
      invariant 0 <= i <= |members|
      invariant FirstOp(members, 0) == FirstOp(members, i)
    {
      if members[i].op {
        return i;
      }
      i := i + 1;
    }
    anop := -1;
  }

  class Channel {
    const chname: string
    var channelts: int
    var mode: Mode
    var members: seq<Link>
    var juped: bool

    function State(): Chan
      reads this
    {
      Chan(channelts, mode, members, juped)
    }

    /** `get_channel` with CREATE: an empty channel carrying the current time. */
    constructor (name: string, now: int)
      ensures chname == name && State() == Chan(now, NO_MODE, [], false)
    {
      chname, channelts, mode, members, juped := name, now, NO_MODE, [], false;
    }

    /** Take op and voice from every member, announcing each loss. */
    method StripAll(lines0: seq<Line>, b0: ModeBuf) returns (lines: seq<Line>, b: ModeBuf)
      requires ShortLines(lines0) && b0.Valid() && |b0.args| < MAXMODEPARAMS
      modifies this`members
      ensures members == Strip(old(members))
      ensures ShortLines(lines) && b.Valid() && |b.args| < MAXMODEPARAMS
      ensures ReadLines(lines) + b.Changes()
           == ReadLines(lines0) + b0.Changes() + StripChanges(old(members))
    {
      lines, b := lines0, b0.(what := 0);
      ghost var was, start := members, ReadLines(lines0) + b0.Changes();
      assert StripChanges(was[..0]) == [] && start + [] == start;
      for i := 0 to |members|
        invariant |members| == |was|
        invariant forall j :: 0 <= j < i ==> members[j] == StripLink(was[j])
        invariant forall j :: i <= j < |was| ==> members[j] == was[j]
        invariant ShortLines(lines) && b.Valid() && |b.args| < MAXMODEPARAMS
        invariant ReadLines(lines) + b.Changes() == start + StripChanges(was[..i])
      {
        StripOn(was, i);
        Assoc3(start, StripChanges(was[..i]), LostBy(was[i]));
        lines, b := AnnounceLoss(lines, b, members[i]);
        members := members[i := members[i].(op := false, voice := false)];
      }
      assert was[..|was|] == was;
    }

    /** The nick loop: join the taken nicks, collect the tokens to forward, announce +o and +v. */
    method JoinAll(toks: seq<string>, keepNew: bool, accepted: set<string>)
      returns (lines: seq<Line>, people: nat, forwarded: seq<string>)
      modifies this`members
      ensures members == AddNicks(old(members), toks, keepNew, accepted)
      ensures ShortLines(lines)
      ensures ReadLines(lines) == GrantChanges(Taken(toks, accepted), keepNew)
      ensures people == |Taken(toks, accepted)|
      ensures forwarded == ForwardTokens(Taken(toks, accepted), keepNew)
    {
      var b := EMPTY_BUF;
      assert EMPTY_BUF.letters[..0] == "";
      lines, people, forwarded := [], 0, [];
      ghost var was := members;
      for i := 0 to |toks|
        invariant members == AddNicks(was, toks[..i], keepNew, accepted)
        invariant Announcing(lines, b)
        invariant ReadLines(lines) + b.Changes() == GrantChanges(Taken(toks[..i], accepted), keepNew)
        invariant people == |Taken(toks[..i], accepted)|
        invariant forwarded == ForwardTokens(Taken(toks[..i], accepted), keepNew)
      {
        var s := TokenNick(toks[i]);
        TakenOn(was, toks, i, keepNew, accepted);
        if s in accepted {
          people := people + 1;
          if !IsMember(s, members) {
            members := [JoinLink(toks[i], keepNew)] + members;
          }
          forwarded := forwarded + [ForwardToken(toks[i], keepNew)];
          lines, b := AnnounceGrant(lines, b, toks[i], keepNew);
        }
      }
      assert toks[..|toks|] == toks;
      if b.args != [] {
        lines := Send(lines, b);
      }
    }

    /** Adopt the new modes, strip the members if ours are not kept, and announce both. */
    method ChangeModes(next: Mode, keepOurs: bool) returns (lines: seq<Line>)
      modifies this`mode, this`members
      ensures mode == next && members == if keepOurs then old(members) else Strip(old(members))
      ensures ShortLines(lines)
      ensures ReadLines(lines)
           == ModeChanges(old(mode), next) + if keepOurs then [] else StripChanges(old(members))
    {
      ghost var announced := ModeChanges(mode, next);
      var b := PutModes(mode, next);
      mode, lines := next, [];
      assert ReadLines(lines) + b.Changes() == announced;
      if keepOurs {
        assert announced + [] == announced;
      } else {
        lines, b := StripAll(lines, b);
      }
      if b.letters != "" {
        lines := Send(lines, b);
      } else {
        assert ReadLines(lines) + b.Changes() == ReadLines(lines);
      }
    }

    /** The part of `m_sjoin` behind the timestamp decision. */
    method Merge(v: Verdict, offered: Mode, zero: bool, toks: seq<string>, accepted: set<string>)
      returns (lines: seq<Line>, forward: Option<SjoinLine>)
      modifies this`channelts, this`mode, this`members
      ensures channelts == v.ts && mode == NewMode(v, old(mode), offered)
      ensures members == AddNicks(Base(v, old(members)), toks, v.keepNew, accepted)
      ensures ShortLines(lines)
      ensures ReadLines(lines) == AllChanges(v, old(mode), old(members), offered, Taken(toks, accepted))
      ensures forward == Rewrite(v, mode, zero, Taken(toks, accepted))
    {
      channelts := v.ts;
      lines := ChangeModes(NewMode(v, mode, offered), v.keepOurs);
      var modebuf, parabuf := "0", [];
      if !zero && v.keepNew {
        modebuf, parabuf := ChannelModes(mode);
      }
      var grants, people, forwarded := JoinAll(toks, v.keepNew, accepted);
      ReadLinesConcat(lines, grants);
      lines := lines + grants;
      forward := None;
      if people > 0 {
        forward := Some(SjoinLine(PrintTs(v.ts), modebuf, parabuf + [Trimmed(forwarded)]));
        assert [] + [Trimmed(forwarded)] == [Trimmed(forwarded)];
      }
    }

    /**
     `m_sjoin` on a known line. `isnew` says that the channel was created for this line; `accepted`
     holds the nicks that `find_chasing` resolves to a client behind the sending link.
     */
    method HandleSjoin(isnew: bool, m: SjoinLine, accepted: set<string>)
      returns (lines: seq<Line>, forward: Option<SjoinLine>)
      modifies this
      ensures Read(m).None? ==> State() == old(State()) && lines == [] && forward == None
      ensures Read(m).Some? ==>
        && State() == Handle(isnew, old(State()), m, accepted)
        && forward == Forward(isnew, old(State()), m, accepted)
        && ShortLines(lines)
        && ReadLines(lines) == Changes(isnew, old(State()), m, accepted)
    {
      lines, forward := [], None;
      if m.rest == [] {
        return;
      }
      var parsed := ParseModes(m.modes, m.rest);
      if parsed.None? {
        return;
      }
      var offered, args := parsed.value.mode, parsed.value.args;
      var v := Judge(isnew, State(), NewTs(m));
      lines, forward := Merge(v, offered, ModesAreZero(m.modes), Tokens(m.rest[args]), accepted);
    }

    /**
     `send_channel_modes`: the SJOIN lines of the net-join burst of server `me`. An operator goes first,
     then the list in order with that one skipped; a line is closed once it has grown past its limit.
     */
    method SendChannelModes(me: string) returns (out: seq<SjoinLine>)
      ensures chname == "" || chname[0] != '#' ==> out == []
      ensures chname != "" && chname[0] == '#' ==>
        && out == BurstLines(State(), BurstCut(me, chname, State()))
        && IsSplit(BurstCut(me, chname, State()), BurstTokens(members))
    {
      out := [];
      if chname == "" || chname[0] != '#' {
        return;
      }
      var ch := State();
      CutIsSplit(BurstTokens(members), |HeadOf(me, chname, ch, true)|, [], |HeadOf(me, chname, ch, false)|);
      assert [] + BurstTokens(members) == BurstTokens(members);
      out := BurstWalk(|HeadOf(me, chname, ch, true)|, |HeadOf(me, chname, ch, false)|);
    }

    /** One round of the walk: the next member is named, if there is one; `k` are named before. */
    method Round(ghost ch: Chan, ghost cut0: seq<seq<string>>, ghost k: nat, w0: Walk, b0: Burst, head: nat)
      returns (more: bool, w: Walk, b: Burst, ghost cut: seq<seq<string>>)
      requires ch == State() && Closed(ch, cut0, b0) && Walking(FirstOp(members, 0), |members|, k, w0)
      ensures more == (k < |members|)
      ensures Closed(ch, cut, b) && (more ==> Walking(FirstOp(members, 0), |members|, k + 1, w))
      ensures cut + CutFrom(BurstTokens(members)[if more then k + 1 else k..], b.t, b.names, head)
           == cut0 + CutFrom(BurstTokens(members)[k..], b0.t, b0.names, head)
    {
      w := Advance(FirstOp(members, 0), |members|, k, w0);
      more, b, cut := w.l != -1, b0, cut0;
      if more {
        BurstTokenAt(members, FirstOp(members, 0), k);
        b, cut := AddToken(ch, cut0, BurstTokens(members)[k + 1..], channelts, b0, MemberToken(members[w.l]), head);
      }
    }

    /** The walk over the members; the line being filled is still open. */
    method NameAll(ghost ch: Chan, b0: Burst, head: nat) returns (b: Burst, ghost cut: seq<seq<string>>)
      requires ch == State() && Closed(ch, [], b0)
      ensures Closed(ch, cut, b)
      ensures cut + CutFrom([], b.t, b.names, head) == CutFrom(BurstTokens(members), b0.t, b0.names, head)
    {
      var anop := FindOp(members);
      var w, more := Walk(anop, -1, -1), true;
      b, cut := b0, [];
      ghost var k, toks := 0, BurstTokens(members);
      assert toks[0..] == toks;
      while more
        invariant k <= |members| && (more ==> Walking(FirstOp(members, 0), |members|, k, w))
        invariant Closed(ch, cut, b) && (!more ==> k == |members|)
        invariant cut + CutFrom(toks[k..], b.t, b.names, head) == CutFrom(toks, b0.t, b0.names, head)
        decreases |members| - k, if more then 1 else 0
      {
        more, w, b, cut := Round(ch, cut, k, w, b, head);
        k := if more then k + 1 else k;
      }
      assert toks[k..] == [];
    }

    method BurstWalk(headLen: nat, contLen: nat) returns (out: seq<SjoinLine>)
      ensures out == BurstLines(State(), CutFrom(BurstTokens(members), headLen, [], contLen))
    {
      var modebuf, parabuf := ChannelModes(mode);
      var b := Burst([], modebuf, parabuf, headLen, []);
      ghost var cut;
      b, cut := NameAll(State(), b, contLen);
      if b.names != [] {
        b := CloseLine(State(), cut, channelts, b, contLen);
      } else {
        assert cut + [] == cut;
      }
      out := b.out;
    }
  }
}
