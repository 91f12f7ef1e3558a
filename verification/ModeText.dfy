/**
 The text forms of the channel protocol: decimal numbers, space separated tokens, and the
 mode field of an SJOIN line with its parameters (src/channel.c).
 */
module ModeText {
  import opened Wrappers
  import opened Fields

  // ---------- decimal numbers: sprintf "%d" and atoi ----------

  predicate IsDigit(c: char) { '0' <= c <= '9' }

  function DigitChar(d: nat): char
    requires d < 10
  {
    "0123456789"[d]
  }

  function DigitValue(c: char): nat
    requires IsDigit(c)
  {
    c as int - '0' as int
  }

  function Digits(n: nat): string {
    if n < 10 then [DigitChar(n)] else Digits(n / 10) + [DigitChar(n % 10)]
  }

  function PrintInt(n: int): string {
    if n < 0 then "-" + Digits(-n) else Digits(n)
  }

  /** The digits at the front of `s`, read on top of `acc`; the first other character stops the scan. */
  function ReadDigits(s: string, acc: nat): nat {
    if s == "" || !IsDigit(s[0]) then acc else ReadDigits(s[1..], acc * 10 + DigitValue(s[0]))
  }

  /** `atoi` on a parameter, which holds no white space. */
  function Atoi(s: string): int {
    if s != "" && s[0] == '-' then -(ReadDigits(s[1..], 0) as int)
    else if s != "" && s[0] == '+' then ReadDigits(s[1..], 0)
    else ReadDigits(s, 0)
  }

  /** White space as `atol` skips it. */
  predicate IsSpace(c: char) { c == ' ' || 9 <= c as int <= 13 }

  function Atol(s: string): int { if s != "" && IsSpace(s[0]) then Atol(s[1..]) else Atoi(s) }

  lemma ReadOneDigit(d: nat, rest: string, acc: nat)
    requires d < 10
    ensures IsDigit(DigitChar(d)) && DigitValue(DigitChar(d)) == d
    ensures ReadDigits([DigitChar(d)] + rest, acc) == ReadDigits(rest, acc * 10 + d)
  {
    assert ([DigitChar(d)] + rest)[1..] == rest;
  }

  lemma {:induction false} ReadDigitsOfDigits(n: nat, rest: string)
    ensures ReadDigits(Digits(n) + rest, 0) == ReadDigits(rest, n)
    ensures IsDigit(Digits(n)[0])
  {
    if n < 10 {
      ReadOneDigit(n, rest, 0);
    } else {
      var last := [DigitChar(n % 10)];
      calc {
        ReadDigits(Digits(n) + rest, 0);
        { assert Digits(n) + rest == Digits(n / 10) + (last + rest); }
        ReadDigits(Digits(n / 10) + (last + rest), 0);
        { ReadDigitsOfDigits(n / 10, last + rest); }
        ReadDigits(last + rest, n / 10);
        { ReadOneDigit(n % 10, rest, n / 10); }
        ReadDigits(rest, (n / 10) * 10 + n % 10);
      }
      ReadDigitsOfDigits(n / 10, "");
    }
  }

  /** A limit printed by one server is the number the next server reads. */
  lemma {:induction false} AtoiPrintInt(n: int)
    ensures Atoi(PrintInt(n)) == n
  {
    var d := if n < 0 then -n else n;
    ReadDigitsOfDigits(d, "");
    assert Digits(d) + "" == Digits(d);
    if n < 0 {
      assert PrintInt(n)[1..] == Digits(d);
    }
  }

  // ---------- timestamps: "%lu" of ircsprintf and atol ----------

  const LONG := 0x1_0000_0000_0000_0000
  const BILLION := 1_000_000_000

  /** A group of three digits, from a table. */
  function Three(n: nat): (s: string)
    requires n < 1000
    ensures |s| == 3
  {
    [DigitChar(n / 100), DigitChar(n / 10 % 10), DigitChar(n % 10)]
  }

  function Nine(n: nat): (s: string)
    requires n < BILLION
    ensures |s| == 9
  {
    Three(n / 1_000_000) + Three(n / 1000 % 1000) + Three(n % 1000)
  }

  /** The one character written for all that is above nine digits. */
  function LeadChar(q: nat): char { (('0' as int + q) % 256) as char }

  /** A timestamp as it is sent: nine digits, behind one character more if they are not enough. */
  function PrintTs(ts: int): (s: string)
    ensures s != ""
  {
    PrintWord(ts % LONG)
  }

  function PrintWord(v: nat): (s: string)
    ensures s != ""
  {
    if v >= BILLION then [LeadChar(v / BILLION)] + Nine(v % BILLION) else Nine(v)
  }

  /** What the next server takes the timestamp for. */
  function ReadBack(ts: int): int { Atol(PrintTs(ts)) }

  /**
     The text starts a parameter of its own: it does not end the string or the line, and is not taken for
     the last parameter. A blank in front is skipped.
   */
  predicate StartsParameter(s: string) { s != "" && s[0] !in {0 as char, 10 as char, 13 as char, ':'} }

  predicate InRange(ts: int) { 0 <= ts < 10 * BILLION }

  lemma ReadThreeDigits(h: nat, t: nat, o: nat, rest: string, acc: nat)
    requires h < 10 && t < 10 && o < 10
    ensures ReadDigits([DigitChar(h), DigitChar(t), DigitChar(o)] + rest, acc)
         == ReadDigits(rest, ((acc * 10 + h) * 10 + t) * 10 + o)
  {
    ReadOneDigit(h, [DigitChar(t), DigitChar(o)] + rest, acc);
    ReadOneDigit(t, [DigitChar(o)] + rest, acc * 10 + h);
    ReadOneDigit(o, rest, (acc * 10 + h) * 10 + t);
    var tail := [DigitChar(t), DigitChar(o)] + rest;
    assert tail == [DigitChar(t)] + ([DigitChar(o)] + rest);
    assert [DigitChar(h), DigitChar(t), DigitChar(o)] + rest == [DigitChar(h)] + tail;
  }

  lemma SplitThree(n: nat)
    requires n < 1000
    ensures n == n / 100 * 100 + n / 10 % 10 * 10 + n % 10 && n / 100 < 10
  {
  }

  lemma ReadThree(n: nat, rest: string, acc: nat)
    requires n < 1000
    ensures ReadDigits(Three(n) + rest, acc) == ReadDigits(rest, acc * 1000 + n)
    ensures IsDigit(Three(n)[0])
  {
    SplitThree(n);
    var h, t, o := n / 100, n / 10 % 10, n % 10;
    ReadThreeDigits(h, t, o, rest, acc);
    ReadOneDigit(h, "", 0);
    assert ((acc * 10 + h) * 10 + t) * 10 + o == acc * 1000 + n;
  }

  lemma SplitNine(n: nat)
    requires n < BILLION
    ensures n == n / 1_000_000 * 1_000_000 + n / 1000 % 1000 * 1000 + n % 1000 && n / 1_000_000 < 1000
  {
  }

  lemma NineDigits(n: nat, acc: nat)
    requires n < BILLION
    ensures ReadDigits(Nine(n), acc) == acc * BILLION + n
    ensures IsDigit(Nine(n)[0])
  {
    SplitNine(n);
    var m, t, o := n / 1_000_000, n / 1000 % 1000, n % 1000;
    ReadGroups(m, t, o, acc);
    assert ((acc * 1000 + m) * 1000 + t) * 1000 + o == acc * BILLION + n;
  }

  lemma ReadGroups(m: nat, t: nat, o: nat, acc: nat)
    requires m < 1000 && t < 1000 && o < 1000
    ensures ReadDigits(Three(m) + Three(t) + Three(o), acc) == ((acc * 1000 + m) * 1000 + t) * 1000 + o
    ensures IsDigit((Three(m) + Three(t) + Three(o))[0])
  {
    ReadThree(m, Three(t) + Three(o), acc);
    ReadThree(t, Three(o), acc * 1000 + m);
    ReadThree(o, "", (acc * 1000 + m) * 1000 + t);
    assert Three(m) + Three(t) + Three(o) == Three(m) + (Three(t) + Three(o));
    assert Three(o) + "" == Three(o);
  }

  /** What `atol` makes of nine digits behind some character. */
  function LedBy(c: char, n: nat): int {
    if IsDigit(c) then DigitValue(c) * BILLION + n
    else if c == '-' then -(n as int)
    else if c == '+' || IsSpace(c) then n
    else 0
  }

  lemma AtolOfLead(c: char, n: nat)
    requires n < BILLION
    ensures Atol([c] + Nine(n)) == LedBy(c, n)
  {
    var s := Nine(n);
    NineDigits(n, 0);
    assert ([c] + s)[1..] == s;
    if IsDigit(c) {
      NineDigits(n, DigitValue(c));
    }
  }

  lemma ReadWord(v: nat)
    ensures Atol(PrintWord(v)) == if v < BILLION then v else LedBy(LeadChar(v / BILLION), v % BILLION)
  {
    if v < BILLION {
      NineDigits(v, 0);
    } else {
      AtolOfLead(LeadChar(v / BILLION), v % BILLION);
    }
  }

  /** A number of ten digits has the first of them in front. */
  lemma SmallLead(v: nat)
    requires BILLION <= v < 10 * BILLION
    ensures IsDigit(LeadChar(v / BILLION)) && LedBy(LeadChar(v / BILLION), v % BILLION) == v
  {
    LeadDigit(v / BILLION);
    assert v == v / BILLION * BILLION + v % BILLION;
  }

  lemma LeadDigit(q: nat)
    requires q < 10
    ensures IsDigit(LeadChar(q)) && DigitValue(LeadChar(q)) == q
  {
    assert ('0' as int + q) % 256 == '0' as int + q;
  }

  lemma FirstChar(v: nat)
    ensures if v < BILLION then IsDigit(PrintWord(v)[0]) else PrintWord(v)[0] == LeadChar(v / BILLION)
  {
    if v < BILLION {
      NineDigits(v, 0);
    }
  }

  lemma SmallWordReads(v: nat)
    requires v < 10 * BILLION
    ensures Atol(PrintWord(v)) == v && StartsParameter(PrintWord(v))
  {
    ReadWord(v);
    FirstChar(v);
    if v >= BILLION {
      SmallLead(v);
    }
  }

  /** The first characters of the numbers just below the width of a word are digits. */
  lemma NegativeReads(ts: int)
    requires -BILLION < ts < 0
    ensures ReadBack(ts) >= 0
  {
    var v := LONG + ts;
    assert ts % LONG == v;
    assert v / BILLION == 18446744072 || v / BILLION == 18446744073;
    HighWordReads(v);
  }

  lemma HighWordReads(v: nat)
    requires v / BILLION == 18446744072 || v / BILLION == 18446744073
    ensures Atol(PrintWord(v)) >= 0
  {
    ReadWord(v);
    HighLead(v / BILLION, v % BILLION);
  }

  lemma HighLead(q: nat, n: nat)
    requires q == 18446744072 || q == 18446744073
    ensures LedBy(LeadChar(q), n) >= 0
  {
    assert LeadChar(18446744072) == '8' && LeadChar(18446744073) == '9';
  }

  /** Exactly the timestamps that are not negative and have at most ten digits are read as they were. */
  lemma TsReadsBackIff(ts: int)
    ensures ReadBack(ts) == ts <==> InRange(ts)
    ensures InRange(ts) ==> StartsParameter(PrintTs(ts))
  {
    if InRange(ts) {
      assert ts % LONG == ts;
      SmallWordReads(ts);
    } else if -BILLION < ts < 0 {
      NegativeReads(ts);
    } else {
      ReadBackBound(ts);
    }
  }

  lemma ReadBackBound(ts: int)
    ensures -BILLION < ReadBack(ts) < 10 * BILLION
  {
    ReadWord(ts % LONG);
  }

  // ---------- space separated tokens: strtoken ----------

  /** The characters before the first space. */
  function Word(s: string): (w: string)
    ensures |w| <= |s| && ' ' !in w && w == s[..|w|]
    ensures |w| == |s| || s[|w|] == ' '
  {
    if s == "" || s[0] == ' ' then "" else [s[0]] + Word(s[1..])
  }

  function Tokens(s: string): seq<string>
    decreases |s|
  {
    if s == "" then []
    else if s[0] == ' ' then Tokens(s[1..])
    else [Word(s)] + Tokens(s[|Word(s)|..])
  }

  predicate IsToken(s: string) { s != "" && ' ' !in s }

  /** Each token followed by one space, as both writers of an SJOIN line lay them out. */
  function Spaced(ts: seq<string>): string {
    if ts == [] then "" else ts[0] + " " + Spaced(ts[1..])
  }

  lemma {:induction false} WordOf(w: string, rest: string)
    requires ' ' !in w && (rest == "" || rest[0] == ' ')
    ensures Word(w + rest) == w
  {
    if w == "" {
      assert w + rest == rest;
    } else {
      assert (w + rest)[1..] == w[1..] + rest;
      WordOf(w[1..], rest);
    }
  }

  lemma TokensStep(w: string, rest: string)
    requires IsToken(w) && (rest == "" || rest[0] == ' ')
    ensures Tokens(w + rest) == [w] + Tokens(rest)
  {
    WordOf(w, rest);
    assert (w + rest)[|w|..] == rest;
  }

  lemma {:induction false} TokensOfSpaced(ts: seq<string>)
    requires forall t <- ts :: IsToken(t)
    ensures Tokens(Spaced(ts)) == ts
  {
    if ts != [] {
      var rest := " " + Spaced(ts[1..]);
      assert Spaced(ts) == ts[0] + rest;
      TokensStep(ts[0], rest);
      assert rest[1..] == Spaced(ts[1..]);
      TokensOfSpaced(ts[1..]);
    }
  }

  /** The forwarding writer overwrites the final space by the terminator. */
  function Trimmed(ts: seq<string>): string
    requires ts != []
  {
    assert Spaced(ts) != "";
    Spaced(ts)[..|Spaced(ts)| - 1]
  }

  lemma {:induction false} TokensOfTrimmed(ts: seq<string>)
    requires ts != [] && forall t <- ts :: IsToken(t)
    ensures Tokens(Trimmed(ts)) == ts
  {
    if |ts| == 1 {
      assert Spaced(ts[1..]) == "";
      assert Trimmed(ts) == ts[0] + "";
      TokensStep(ts[0], "");
    } else {
      var rest := " " + Trimmed(ts[1..]);
      assert Trimmed(ts) == ts[0] + rest;
      TokensStep(ts[0], rest);
      assert rest[1..] == Trimmed(ts[1..]);
      TokensOfTrimmed(ts[1..]);
    }
  }

  lemma {:induction false} TokensAreTokens(s: string)
    ensures forall t <- Tokens(s) :: IsToken(t)
    decreases |s|
  {
    if s == "" {
    } else if s[0] == ' ' {
      TokensAreTokens(s[1..]);
    } else {
      TokensAreTokens(s[|Word(s)|..]);
    }
  }

  // ---------- channel modes ----------

  datatype Flag = Secret | Private | Registered | Moderated | TopicLimit | InviteOnly | NoPrivMsgs

  /** `struct Mode`: the simple flags, the user limit (0 for none) and the key ("" for none). */
  datatype Mode = Mode(flags: set<Flag>, limit: int, key: string)

  const NO_MODE := Mode({}, 0, "")

  /** The bound on a key comes from its buffer. A limit may be any number, negative ones included. */
  predicate ShortKey(m: Mode) { |m.key| <= KEYLEN }

  function Letter(f: Flag): char {
    match f
    case Secret => 's' case Private => 'p' case Registered => 'r' case Moderated => 'm'
    case TopicLimit => 't' case InviteOnly => 'i' case NoPrivMsgs => 'n'
  }

  function FlagOf(c: char): Option<Flag> {
    if c == 's' then Some(Secret) else if c == 'p' then Some(Private)
    else if c == 'r' then Some(Registered) else if c == 'm' then Some(Moderated)
    else if c == 't' then Some(TopicLimit) else if c == 'i' then Some(InviteOnly)
    else if c == 'n' then Some(NoPrivMsgs) else None
  }

  /** Mode field read so far, and how many parameters it has taken. */
  datatype Parsed = Parsed(mode: Mode, args: nat)

  function ReadLetter(p: Parsed, c: char, rest: seq<string>): (r: Option<Parsed>)
    requires p.args < |rest|
    ensures r.Some? ==> r.value.args < |rest|
  {
    if FlagOf(c).Some? then Some(p.(mode := p.mode.(flags := p.mode.flags + {FlagOf(c).value})))
    else if c == 'k' then
      if |rest| < p.args + 2 then None
      else Some(Parsed(p.mode.(key := Clip(rest[p.args], KEYLEN)), p.args + 1))
    else if c == 'l' then
      if |rest| < p.args + 2 then None
      else Some(Parsed(p.mode.(limit := Atoi(rest[p.args])), p.args + 1))
    else Some(p)
  }

  /**
   What the letters of the mode field say, given the parameters after it. `rest` always keeps one
   parameter in reserve, for the nick list; a line without it is dropped.
   */
  function ReadModes(modes: string, rest: seq<string>): (r: Option<Parsed>)
    requires rest != []
    ensures r.Some? ==> r.value.args < |rest|
  {
    if modes == "" then Some(Parsed(NO_MODE, 0))
    else
      var before := ReadModes(modes[..|modes| - 1], rest);
      if before.None? then None else ReadLetter(before.value, modes[|modes| - 1], rest)
  }

  method ParseModes(modes: string, rest: seq<string>) returns (r: Option<Parsed>)
    requires rest != []
    ensures r == ReadModes(modes, rest)
  {
    var p := Parsed(NO_MODE, 0);
    var i := 0;
    while i < |modes|
      invariant 0 <= i <= |modes| && p.args < |rest|
      invariant ReadModes(modes[..i], rest) == Some(p)
    {
      assert modes[..i + 1][..i] == modes[..i];
      var next := ReadLetter(p, modes[i], rest);
      if next.None? {
        NoneStays(modes, i + 1, rest);
        return None;
      }
      p := next.value;
      i := i + 1;
    }
    assert modes[..i] == modes;
    r := Some(p);
  }

  lemma {:induction false} NoneStays(modes: string, i: nat, rest: seq<string>)
    requires rest != [] && i <= |modes| && ReadModes(modes[..i], rest).None?
    ensures ReadModes(modes, rest).None?
    decreases |modes|
  {
    if i < |modes| {
      var shorter := modes[..|modes| - 1];
      assert shorter[..i] == modes[..i];
      NoneStays(shorter, i, rest);
    } else {
      assert modes[..i] == modes;
    }
  }

  function Opt(on: bool, s: string): string { if on then s else "" }

  /** The letters `channel_modes` writes for mode `m`, in its order. */
  function ModeLetters(m: Mode): string {
    FlagLetters(m.flags) + Opt(m.limit != 0, "l") + Opt(m.key != "", "k")
  }

  function FlagLetters(s: set<Flag>): string {
    "+" + Opt(Secret in s, "s") + Opt(Private in s, "p") + Opt(Registered in s, "r")
    + Opt(Moderated in s, "m") + Opt(TopicLimit in s, "t") + Opt(InviteOnly in s, "i")
    + Opt(NoPrivMsgs in s, "n")
  }

  /** The parameters `channel_modes` writes for a server. */
  function ModeArgs(m: Mode): seq<string> {
    (if m.limit != 0 then [PrintInt(m.limit)] else []) + (if m.key != "" then [m.key] else [])
  }

  /** `channel_modes` for a server or a member. */
  method ChannelModes(m: Mode) returns (mbuf: string, pbuf: seq<string>)
    ensures mbuf == ModeLetters(m) && pbuf == ModeArgs(m)
  {
    mbuf, pbuf := "+", [];
    mbuf := mbuf + Opt(Secret in m.flags, "s");
    mbuf := mbuf + Opt(Private in m.flags, "p");
    mbuf := mbuf + Opt(Registered in m.flags, "r");
    mbuf := mbuf + Opt(Moderated in m.flags, "m");
    mbuf := mbuf + Opt(TopicLimit in m.flags, "t");
    mbuf := mbuf + Opt(InviteOnly in m.flags, "i");
    mbuf := mbuf + Opt(NoPrivMsgs in m.flags, "n");
    mbuf := mbuf + Opt(m.limit != 0, "l");
    if m.limit != 0 { pbuf := pbuf + [PrintInt(m.limit)]; }
    mbuf := mbuf + Opt(m.key != "", "k");
    if m.key != "" { pbuf := pbuf + [m.key]; }
  }

  lemma ReadFlag(s: string, rest: seq<string>, have: set<Flag>, f: Flag, on: bool)
    requires rest != [] && ReadModes(s, rest) == Some(Parsed(Mode(have, 0, ""), 0))
    ensures ReadModes(s + Opt(on, [Letter(f)]), rest)
         == Some(Parsed(Mode(if on then have + {f} else have, 0, ""), 0))
  {
    if on {
      ReadOneMore(s, Letter(f), rest);
      assert FlagOf(Letter(f)) == Some(f);
    } else {
      assert s + Opt(on, [Letter(f)]) == s;
    }
  }

  lemma ReadOneMore(s: string, c: char, rest: seq<string>)
    requires rest != []
    ensures ReadModes(s + [c], rest) ==
      if ReadModes(s, rest).None? then None else ReadLetter(ReadModes(s, rest).value, c, rest)
  {
    var longer := s + [c];
    assert longer[..|longer| - 1] == s;
  }

  lemma ReadFlagLetters(s: set<Flag>, rest: seq<string>)
    requires rest != []
    ensures ReadModes(FlagLetters(s), rest) == Some(Parsed(Mode(s, 0, ""), 0))
  {
    var t4, f4 := ReadFourFlags(s, rest);
    var t5, f5 := ReadFlagStep(t4, rest, f4, TopicLimit, s);
    var t6, f6 := ReadFlagStep(t5, rest, f5, InviteOnly, s);
    var t7, f7 := ReadFlagStep(t6, rest, f6, NoPrivMsgs, s);
    AllFlags(s);
    assert f7 == s;
  }

  lemma ReadFourFlags(s: set<Flag>, rest: seq<string>) returns (t: string, have: set<Flag>)
    requires rest != []
    ensures t ==
      "+" + Opt(Secret in s, "s") + Opt(Private in s, "p") + Opt(Registered in s, "r") + Opt(Moderated in s, "m")
    ensures have == {} + s * {Secret} + s * {Private} + s * {Registered} + s * {Moderated}
    ensures ReadModes(t, rest) == Some(Parsed(Mode(have, 0, ""), 0))
  {
    assert "+"[..0] == "";
    var t1, f1 := ReadFlagStep("+", rest, {}, Secret, s);
    var t2, f2 := ReadFlagStep(t1, rest, f1, Private, s);
    var t3, f3 := ReadFlagStep(t2, rest, f2, Registered, s);
    t, have := ReadFlagStep(t3, rest, f3, Moderated, s);
  }

  lemma AllFlags(s: set<Flag>)
    ensures s == {} + s * {Secret} + s * {Private} + s * {Registered} + s * {Moderated}
                 + s * {TopicLimit} + s * {InviteOnly} + s * {NoPrivMsgs}
  {
    forall f <- s
      ensures f in {Secret, Private, Registered, Moderated, TopicLimit, InviteOnly, NoPrivMsgs}
    {
      match f { case Secret => case Private => case Registered => case Moderated =>
                case TopicLimit => case InviteOnly => case NoPrivMsgs => }
    }
  }

  lemma ReadFlagStep(t: string, rest: seq<string>, have: set<Flag>, f: Flag, s: set<Flag>)
    returns (t': string, have': set<Flag>)
    requires rest != [] && ReadModes(t, rest) == Some(Parsed(Mode(have, 0, ""), 0))
    ensures t' == t + Opt(f in s, [Letter(f)])
    ensures have' == have + s * {f}
    ensures ReadModes(t', rest) == Some(Parsed(Mode(have', 0, ""), 0))
  {
    ReadFlag(t, rest, have, f, f in s);
    t' := t + Opt(f in s, [Letter(f)]);
    have' := have + s * {f};
    assert have' == if f in s then have + {f} else have;
  }

  /** What `channel_modes` prints, the mode loop of `m_sjoin` reads back exactly. */
  lemma ReadOwnModes(m: Mode, nicks: string)
    requires ShortKey(m)
    ensures ReadModes(ModeLetters(m), ModeArgs(m) + [nicks]) == Some(Parsed(m, |ModeArgs(m)|))
  {
    var rest := ModeArgs(m) + [nicks];
    var t0 := FlagLetters(m.flags);
    ReadFlagLetters(m.flags, rest);
    var t1 := t0 + Opt(m.limit != 0, "l");
    var n := if m.limit != 0 then 1 else 0;
    assert ReadModes(t1, rest) == Some(Parsed(Mode(m.flags, m.limit, ""), n)) by {
      ReadLimit(t0, rest, m.flags, m.limit);
    }
    ReadKey(t1, rest, m.flags, m.limit, m.key, n);
  }

  lemma ReadLimit(t: string, rest: seq<string>, flags: set<Flag>, limit: int)
    requires rest != [] && ReadModes(t, rest) == Some(Parsed(Mode(flags, 0, ""), 0))
    requires limit != 0 ==> |rest| >= 2 && rest[0] == PrintInt(limit)
    ensures ReadModes(t + Opt(limit != 0, "l"), rest)
         == Some(Parsed(Mode(flags, limit, ""), if limit != 0 then 1 else 0))
  {
    if limit != 0 {
      assert (t + "l")[..|t|] == t;
      AtoiPrintInt(limit);
    } else {
      assert t + Opt(limit != 0, "l") == t;
    }
  }

  lemma ReadKey(t: string, rest: seq<string>, flags: set<Flag>, limit: int, key: string, n: nat)
    requires n < |rest| && ReadModes(t, rest) == Some(Parsed(Mode(flags, limit, ""), n))
    requires |key| <= KEYLEN && (key != "" ==> |rest| == n + 2 && rest[n] == key)
    ensures ReadModes(t + Opt(key != "", "k"), rest)
         == Some(Parsed(Mode(flags, limit, key), if key != "" then n + 1 else n))
  {
    if key != "" {
      assert (t + "k")[..|t|] == t;
    } else {
      assert t + Opt(key != "", "k") == t;
    }
  }

  // ---------- the order of keys: strcmp ----------

  predicate KeyLess(a: string, b: string) {
    if b == "" then false
    else if a == "" then true
    else if a[0] != b[0] then a[0] < b[0]
    else KeyLess(a[1..], b[1..])
  }

  lemma {:induction false} KeyLessTotal(a: string, b: string)
    ensures a == b || KeyLess(a, b) || KeyLess(b, a)
    ensures !(KeyLess(a, b) && KeyLess(b, a))
    ensures !KeyLess(a, a)
  {
    if a != "" && b != "" && a[0] == b[0] {
      KeyLessTotal(a[1..], b[1..]);
      assert a == [a[0]] + a[1..] && b == [b[0]] + b[1..];
    }
    if a != "" {
      KeyLessTotal(a[1..], a[1..]);
    }
  }

  lemma {:induction false} KeyLessTransitive(a: string, b: string, c: string)
    requires !KeyLess(b, a) && !KeyLess(c, b)
    ensures !KeyLess(c, a)
  {
    if a != "" && b != "" && c != "" && a[0] == b[0] == c[0] {
      KeyLessTransitive(a[1..], b[1..], c[1..]);
    }
  }
}
