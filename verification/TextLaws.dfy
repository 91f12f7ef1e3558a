/**
 What the readers and printers of `ModeText` make of text, letter by letter: numbers by the place of each
 digit, keys by the first place where they differ, mode fields by the letters in them.
 */
module TextLaws {
  import opened Wrappers
  import opened Fields
  import opened ModeText

  // ---------- numbers ----------

  predicate Decimal(s: string) { forall i :: 0 <= i < |s| ==> '0' <= s[i] <= '9' }

  /** The number a text of digits stands for, by its last digit. */
  function Value(s: string): nat
    requires Decimal(s)
  {
    if s == "" then 0 else Value(s[..|s| - 1]) * 10 + (s[|s| - 1] as int - 48)
  }

  lemma {:induction false} ReadDigitsIs(s: string, rest: string, acc: nat)
    requires Decimal(s) && (rest == "" || rest[0] < '0' || '9' < rest[0])
    ensures ReadDigits(s + rest, acc) == acc * Pow10(|s|) + Value(s)
  {
    if s == "" {
      assert s + rest == rest;
    } else {
      assert (s + rest)[1..] == s[1..] + rest;
      ReadDigitsIs(s[1..], rest, acc * 10 + (s[0] as int - 48));
      ValueOn(s);
      Regrouped(acc, s[0] as int - 48, Pow10(|s| - 1));
    }
  }

  function Pow10(k: nat): nat { if k == 0 then 1 else 10 * Pow10(k - 1) }

  lemma Regrouped(acc: nat, d: nat, p: nat)
    ensures (acc * 10 + d) * p == acc * (10 * p) + d * p
  {
  }

  /** The first digit counts by its place. */
  lemma {:induction false} ValueOn(s: string)
    requires s != "" && Decimal(s)
    ensures Value(s) == (s[0] as int - 48) * Pow10(|s| - 1) + Value(s[1..])
  {
    if |s| > 1 {
      var front, back := s[..|s| - 1], s[1..];
      var d, p := s[0] as int - 48, Pow10(|s| - 2);
      assert front[1..] == back[..|back| - 1];
      ValueOn(front);
      ByTen(Value(s), Value(front), Value(back), Value(front[1..]), d, p, s[|s| - 1] as int - 48);
    } else {
      assert s[..0] == "" && s[1..] == "";
    }
  }

  lemma ByTen(v: int, front: int, back: int, mid: int, d: int, p: int, last: int)
    requires v == front * 10 + last && front == d * p + mid && back == mid * 10 + last
    ensures v == d * (10 * p) + back
  {
    assert d * (10 * p) == d * p * 10;
  }

  /** `atoi` takes a sign and the digits behind it, and stops at anything else. */
  lemma AtoiIs(s: string, rest: string)
    requires Decimal(s) && (rest == "" || rest[0] < '0' || '9' < rest[0])
    ensures Atoi("-" + s + rest) == -(Value(s) as int) && Atoi("+" + s + rest) == Value(s)
    ensures s != "" ==> Atoi(s + rest) == Value(s)
    ensures s == "" && (rest == "" || rest[0] !in "+-") ==> Atoi(s + rest) == 0
  {
    ReadDigitsIs(s, rest, 0);
    assert ("-" + s + rest)[1..] == s + rest && ("+" + s + rest)[1..] == s + rest;
    assert s != "" ==> (s + rest)[0] == s[0] && s[0] in s;
  }

  /** `atol` does the same behind blanks, tabs, line ends, and vertical tabs and form feeds. */
  lemma AtolIs(c: char, s: string)
    ensures c as int in {9, 10, 11, 12, 13, 32} ==> Atol([c] + s) == Atol(s)
    ensures c as int !in {9, 10, 11, 12, 13, 32} ==> Atol([c] + s) == Atoi([c] + s)
  {
    assert ([c] + s)[1..] == s;
  }

  /** A number is printed as digits, without a zero in front, behind a minus sign if it is negative. */
  lemma {:induction false} PrintedIs(n: nat)
    ensures Decimal(PrintInt(n)) && PrintInt(n) != "" && Value(PrintInt(n)) == n
    ensures |PrintInt(n)| > 1 ==> PrintInt(n)[0] != '0'
    ensures n > 0 ==> PrintInt(-(n as int)) == "-" + PrintInt(n)
  {
    DigitsAre(n);
  }

  lemma {:induction false} DigitsAre(n: nat)
    ensures Decimal(Digits(n)) && Digits(n) != "" && Value(Digits(n)) == n && (n > 0 ==> Digits(n)[0] != '0')
  {
    var last := [DigitChar(n % 10)];
    assert '0' <= DigitChar(n % 10) <= '9' && DigitChar(n % 10) as int - 48 == n % 10;
    if n < 10 {
      assert last[..0] == "";
    } else {
      DigitsAre(n / 10);
      var s := Digits(n / 10) + last;
      assert s[..|s| - 1] == Digits(n / 10);
    }
  }

  /** The character in front of nine digits stands for all above them, less a multiple of 256. */
  lemma LeadIs(q: nat) returns (k: nat)
    ensures 0 <= LeadChar(q) as int < 256 && 48 + q == LeadChar(q) as int + 256 * k
  {
    k := (48 + q) / 256;
    assert 48 + q == k * 256 + (48 + q) % 256;
  }

  // ---------- keys ----------

  /** `a` and `b` are the same up to place `i`, and there `a` ends or has the smaller character. */
  predicate LessAt(a: string, b: string, i: nat) {
    i <= |a| && i < |b| && a[..i] == b[..i] && (i == |a| || a[i] < b[i])
  }

  /** The smaller key of two is the one that `strcmp` finds smaller where they first differ. */
  lemma {:induction false} KeyLessIff(a: string, b: string)
    ensures KeyLess(a, b) <==> exists i: nat :: LessAt(a, b, i)
  {
    if a != "" && b != "" && a[0] == b[0] {
      KeyLessIff(a[1..], b[1..]);
      if KeyLess(a[1..], b[1..]) {
        var i: nat :| LessAt(a[1..], b[1..], i);
        assert a[..i + 1] == [a[0]] + a[1..][..i] && b[..i + 1] == [b[0]] + b[1..][..i];
        assert LessAt(a, b, i + 1);
      }
      if i: nat :| LessAt(a, b, i) {
        assert i > 0 && a[1..][..i - 1] == a[..i][1..] && b[1..][..i - 1] == b[..i][1..];
        assert LessAt(a[1..], b[1..], i - 1);
      }
    } else if b != "" && (a == "" || a[0] < b[0]) {
      assert LessAt(a, b, 0);
    } else {
      forall i: nat
        ensures !LessAt(a, b, i)
      {
        if a != "" && b != "" && i > 0 && i <= |a| && i < |b| {
          assert a[..i][0] == a[0] && b[..i][0] == b[0];
        }
      }
    }
  }

  // ---------- tokens ----------

  /** A blank separates, however many there are. */
  lemma {:induction false} TokensApart(s: string, t: string)
    ensures Tokens(s + " " + t) == Tokens(s) + Tokens(t)
    decreases |s|
  {
    var all := s + " " + t;
    if s == "" {
      assert all[1..] == t;
    } else if s[0] == ' ' {
      assert all[1..] == s[1..] + " " + t;
      TokensApart(s[1..], t);
    } else {
      FirstWord(s, t);
      TokensApart(s[|Word(s)|..], t);
    }
  }

  lemma FirstWord(s: string, t: string)
    requires s != "" && s[0] != ' '
    ensures
      var w := Word(s);
      |w| > 0 && Tokens(s + " " + t) == [w] + Tokens(s[|w|..] + " " + t) && Tokens(s) == [w] + Tokens(s[|w|..])
  {
    var w := Word(s);
    var rest := s[|w|..] + " " + t;
    assert s + " " + t == w + rest;
    WordOf(w, rest);
    assert (s + " " + t)[|w|..] == rest;
  }

  lemma OneToken(w: string)
    requires w != "" && ' ' !in w
    ensures Tokens(w) == [w] && Tokens("") == []
  {
    WordOf(w, "");
    assert w + "" == w;
  }

  // ---------- mode fields ----------

  /** How many letters take a parameter. */
  function Takers(modes: string): nat {
    if modes == "" then 0
    else Takers(modes[..|modes| - 1]) + if modes[|modes| - 1] in "kl" then 1 else 0
  }

  /** The last place of letter `c`, or -1. */
  function LastAt(modes: string, c: char): int {
    if modes == "" then -1
    else if modes[|modes| - 1] == c then |modes| - 1 else LastAt(modes[..|modes| - 1], c)
  }

  lemma {:induction false} LastAtIs(modes: string, c: char)
    ensures -1 <= LastAt(modes, c) < |modes| && (LastAt(modes, c) >= 0 ==> modes[LastAt(modes, c)] == c)
    ensures forall i :: LastAt(modes, c) < i < |modes| ==> modes[i] != c
  {
    if modes != "" && modes[|modes| - 1] != c {
      LastAtIs(modes[..|modes| - 1], c);
    }
  }

  /** A mode field sets exactly the flags whose letters are in it. */
  ghost predicate FlagsAre(modes: string, flags: set<Flag>) {
    && (Secret in flags <==> 's' in modes) && (Private in flags <==> 'p' in modes)
    && (Registered in flags <==> 'r' in modes) && (Moderated in flags <==> 'm' in modes)
    && (TopicLimit in flags <==> 't' in modes) && (InviteOnly in flags <==> 'i' in modes)
    && (NoPrivMsgs in flags <==> 'n' in modes)
  }

  /** The parameter at place `i`. */
  function Param(rest: seq<string>, i: nat): string { if i < |rest| then rest[i] else "" }

  /** The parameter that a letter at place `i` takes: as many as letters before it take one are gone. */
  function Turn(modes: string, i: int): nat {
    if 0 <= i <= |modes| then Takers(modes[..i]) else 0
  }

  /** A mode field is read exactly if a parameter is left behind those its letters take, for the nicks. */
  lemma {:induction false} ReadModesIs(modes: string, rest: seq<string>)
    requires rest != []
    ensures ReadModes(modes, rest).Some? <==> Takers(modes) < |rest|
    ensures ReadModes(modes, rest).Some? ==>
      ReadModes(modes, rest).value.args == Takers(modes) && FlagsAre(modes, ReadModes(modes, rest).value.mode.flags)
  {
    if modes != "" {
      var before, c := modes[..|modes| - 1], modes[|modes| - 1];
      ReadModesIs(before, rest);
      assert modes == before + [c];
      if ReadModes(modes, rest).Some? {
        FlagsOn(before, c, ReadModes(before, rest).value, rest);
      }
    }
  }

  lemma FlagsOn(before: string, c: char, p: Parsed, rest: seq<string>)
    requires p.args < |rest| && FlagsAre(before, p.mode.flags) && ReadLetter(p, c, rest).Some?
    ensures FlagsAre(before + [c], ReadLetter(p, c, rest).value.mode.flags)
  {
    assert forall d :: d in before + [c] <==> d in before || d == c;
  }

  /** The last `l` and the last `k` count, each with the parameter at its turn; a key is cut to its field. */
  lemma {:induction false} LimitAndKeyAre(modes: string, rest: seq<string>)
    requires rest != [] && ReadModes(modes, rest).Some?
    ensures
      var mode, l, k := ReadModes(modes, rest).value.mode, LastAt(modes, 'l'), LastAt(modes, 'k');
      && mode.limit == (if l < 0 then 0 else Atoi(Param(rest, Turn(modes, l))))
      && mode.key == (if k < 0 then "" else Clip(Param(rest, Turn(modes, k)), KEYLEN))
  {
    if modes != "" {
      var n := |modes| - 1;
      LimitAndKeyAre(modes[..n], rest);
      ReadModesIs(modes[..n], rest);
      LastAtIs(modes[..n], 'l');
      LastAtIs(modes[..n], 'k');
      TurnInFront(modes, n, LastAt(modes[..n], 'l'));
      TurnInFront(modes, n, LastAt(modes[..n], 'k'));
    }
  }

  lemma TurnInFront(modes: string, n: nat, i: int)
    requires n <= |modes| && i < n
    ensures Turn(modes[..n], i) == Turn(modes, i)
  {
    if i >= 0 {
      assert modes[..n][..i] == modes[..i];
    }
  }
}
