/**
 Names turned into text and back (adns/parse.c, adns/transmit.c): what `adns__parse_domain` shows of a
 name, which owner texts a question gives back, and which labels survive quoting.
 */
module DomainRoundTrip {
  import opened Wrappers
  import opened Bytes
  import opened DomainWire
  import opened DomainText

  /** How quoted text shows an octet: octal, behind a backslash, or as it is. */
  function QuoteByte(b: byte): Text {
    if b <= 32 || b >= 127 then [BACKSLASH, 48 + b / 64, 48 + b / 8 % 8, 48 + b % 8]
    else if Unquoted(b) then [b]
    else [BACKSLASH, b]
  }

  function Quote(l: Label): Text {
    if l == [] then [] else QuoteByte(l[0]) + Quote(l[1..])
  }

  lemma Associate(a: Text, b: Text, c: Text)
    ensures (a + b) + c == a + (b + c)
  {
  }

  lemma {:induction false} QuoteApart(a: Label, b: Label)
    ensures Quote(a + b) == Quote(a) + Quote(b)
  {
    if a == [] {
      assert a + b == b;
    } else {
      QuoteApart(a[1..], b);
      Associate(QuoteByte(a[0]), Quote(a[1..]), Quote(b));
      assert (a + b)[0] == a[0] && (a + b)[1..] == a[1..] + b;
    }
  }

  /** Shown as it is. */
  predicate Clear(b: byte) { 32 < b < 127 && Unquoted(b) }

  lemma {:induction false} QuoteClear(l: Label)
    requires forall i :: 0 <= i < |l| ==> Clear(l[i])
    ensures Quote(l) == l
  {
    if l != [] {
      QuoteClear(l[1..]);
      assert l == [l[0]] + l[1..];
    }
  }

  /** The inner loop of `vbuf__append_quoted1035`: how far octets are shown as they are. */
  method ClearRun(buf: Label, at: nat) returns (i: nat)
    requires at <= |buf|
    ensures at <= i <= |buf| && (i < |buf| ==> !Clear(buf[i])) && Quote(buf[at..i]) == buf[at..i]
  {
    i := at;
    while i < |buf| && Clear(buf[i])
      invariant at <= i <= |buf| && forall j :: at <= j < i ==> Clear(buf[j])
    {
      i := i + 1;
    }
    QuoteClear(buf[at..i]);
  }

  /** `vbuf__append_quoted1035` */
  method AppendQuoted(vb: Text, buf: Label) returns (out: Text)
    ensures out == vb + Quote(buf)
  {
    out := vb;
    var at := 0;
    while at < |buf|
      invariant 0 <= at <= |buf| && out == vb + Quote(buf[..at])
    {
      var i := ClearRun(buf, at);
      QuoteOn(vb, buf, at, i);
      out := out + buf[at..i];
      if i < |buf| {
        var ch := buf[i];
        QuoteOn(vb, buf, i, i + 1);
        QuoteOne(ch);
        assert buf[i..i + 1] == [ch];
        var qbuf: Text := if ch <= 32 || ch >= 127 then [BACKSLASH, 48 + ch / 64, 48 + ch / 8 % 8, 48 + ch % 8]
          else [BACKSLASH, ch];
        out := out + qbuf;
        i := i + 1;
      }
      at := i;
    }
    assert buf[..at] == buf;
  }

  lemma QuoteOne(b: byte)
    ensures Quote([b]) == QuoteByte(b)
  {
    assert QuoteByte(b) + Quote([]) == QuoteByte(b);
  }

  lemma QuoteOn(vb: Text, buf: Label, at: nat, i: nat)
    requires at <= i <= |buf|
    ensures (vb + Quote(buf[..at])) + Quote(buf[at..i]) == vb + Quote(buf[..i])
  {
    QuoteApart(buf[..at], buf[at..i]);
    assert buf[..at] + buf[at..i] == buf[..i];
    Associate(vb, Quote(buf[..at]), Quote(buf[at..i]));
  }

  predicate PlainLabel(l: Label) { forall i :: 0 <= i < |l| ==> Plain(l[i], i == 0) }

  datatype Decoded = Readable(text: Text) | CutShort | Unreadable(status: Status)

  function Shown(l: Label, quoteok: bool): Text { if quoteok then Quote(l) else l }

  /** Labels behind a first one, a dot before each. */
  function Tail(labels: seq<Label>, quoteok: bool): Text {
    if labels == [] then [] else [DOT] + Shown(labels[0], quoteok) + Tail(labels[1..], quoteok)
  }

  /** The text of a name. */
  function TextOf(labels: seq<Label>, quoteok: bool): Text {
    if labels == [] then [] else Shown(labels[0], quoteok) + Tail(labels[1..], quoteok)
  }

  /** The text of the name at `s`, `sofar` shown already; without quoting a label must be plain. */
  function Parse(dgram: Dgram, s: Cursor, quoteok: bool, sofar: Text, first: bool): Decoded
    requires !Read(dgram, s).Endless?
    decreases MAXDOMAIN - s.namelen
  {
    var (step, next) := NextStep(dgram, s);
    match step
    case Failed(st) => Unreadable(st)
    case Truncated => CutShort
    case Root => Readable(sofar)
    case At(_, _) =>
      ReadOn(dgram, s);
      var l := Slice(dgram, step);
      if !quoteok && !PlainLabel(l) then Unreadable(AnswerDomainInvalid)
      else Parse(dgram, next, quoteok, sofar + (if first then [] else [DOT]) + Shown(l, quoteok), false)
  }

  /** `adns__parse_domain_more` */
  method ParseDomain(fls: FindLabel, quoteok: bool) returns (r: Decoded)
    requires !Read(fls.dgram, fls.State()).Endless?
    modifies fls
    ensures r == Parse(fls.dgram, old(fls.State()), quoteok, [], true)
  {
    var vb: Text, first := [], true;
    while true
      invariant !Read(fls.dgram, fls.State()).Endless?
      invariant Parse(fls.dgram, fls.State(), quoteok, vb, first) ==
        Parse(fls.dgram, old(fls.State()), quoteok, [], true)
      decreases MAXDOMAIN - fls.namelen
    {
      ReadOn(fls.dgram, fls.State());
      var step := fls.Next();
      if step.Failed? { return Unreadable(step.status); }
      if step.Truncated? { return CutShort; }
      if step.Root? { break; }
      assert vb + [] == vb;
      if first {
        first := false;
      } else {
        vb := vb + [DOT];
      }
      var l := Slice(fls.dgram, step);
      if quoteok {
        vb := AppendQuoted(vb, l);
      } else {
        var plain := CheckPlain(l);
        if !plain { return Unreadable(AnswerDomainInvalid); }
        vb := vb + l;
      }
    }
    r := Readable(vb);
  }

  /** The character checks of `adns__parse_domain_more`. */
  method CheckPlain(l: Label) returns (ok: bool)
    requires l != []
    ensures ok == PlainLabel(l)
  {
    if !Alpha(l[0]) && !Digit(l[0]) { return false; }
    var i := 1;
    while i < |l|
      invariant 1 <= i <= |l| && forall j :: 0 <= j < i ==> Plain(l[j], j == 0)
    {
      if l[i] != DASH && !Alpha(l[i]) && !Digit(l[i]) { return false; }
      i := i + 1;
    }
    ok := true;
  }

  predicate AllPlain(labels: seq<Label>) { forall i :: 0 <= i < |labels| ==> PlainLabel(labels[i]) }

  /** A whole name is shown as its labels between dots, or refused for a label that is not plain. */
  lemma {:induction false} WholeNameIsShown(dgram: Dgram, s: Cursor, quoteok: bool, sofar: Text, first: bool)
    requires Read(dgram, s).Full?
    ensures
      var labels := Read(dgram, s).labels;
      Parse(dgram, s, quoteok, sofar, first) ==
      if quoteok || AllPlain(labels) then
        Readable(sofar + if first then TextOf(labels, quoteok) else Tail(labels, quoteok))
      else Unreadable(AnswerDomainInvalid)
    decreases MAXDOMAIN - s.namelen
  {
    var (step, next) := NextStep(dgram, s);
    ReadOn(dgram, s);
    if step.At? {
      var l, rest := Slice(dgram, step), Read(dgram, next).labels;
      Heads(l, rest);
      TailOn(sofar, first, l, rest, quoteok);
      WholeNameIsShown(dgram, next, quoteok, sofar + (if first then [] else [DOT]) + Shown(l, quoteok), false);
    }
  }

  lemma Heads(l: Label, rest: seq<Label>)
    ensures ([l] + rest)[0] == l && ([l] + rest)[1..] == rest
    ensures AllPlain([l] + rest) <==> PlainLabel(l) && AllPlain(rest)
  {
    var all := [l] + rest;
    assert forall i :: 0 <= i < |rest| ==> rest[i] == all[i + 1];
    if AllPlain(all) {
      assert PlainLabel(all[0]);
    }
  }

  lemma TailOn(sofar: Text, first: bool, l: Label, rest: seq<Label>, quoteok: bool)
    ensures sofar + (if first then TextOf([l] + rest, quoteok) else Tail([l] + rest, quoteok)) ==
            sofar + (if first then [] else [DOT]) + Shown(l, quoteok) + Tail(rest, quoteok)
  {
    assert ([l] + rest)[1..] == rest;
  }

  /** A plain label read back from its text, up to the dot or the end behind it. */
  lemma {:induction false} ReadPlainLabel(l: Label, tail: Text, sofar: Label)
    requires PlainLabel(sofar + l) && |sofar + l| <= 255 && (tail == [] || tail[0] == DOT)
    ensures ReadLabel(l + tail, false, sofar) == LabelOk(sofar + l, if tail == [] then [] else tail[1..])
    decreases |l|
  {
    if l == [] {
      assert l + tail == tail && sofar + l == sofar;
    } else {
      assert (sofar + l)[|sofar|] == l[0];
      assert (l + tail)[1..] == l[1..] + tail && sofar + [l[0]] + l[1..] == sofar + l;
      ReadPlainLabel(l[1..], tail, sofar + [l[0]]);
    }
  }

  /** What a label read without quoting looked like. */
  lemma {:induction false} PlainLabelText(t: Text, sofar: Label)
    requires PlainLabel(sofar) && ReadLabel(t, false, sofar).LabelOk?
    ensures
      var r := ReadLabel(t, false, sofar);
      && PlainLabel(r.octets) && |sofar| <= |r.octets| && r.octets[..|sofar|] == sofar
      && (t == r.octets[|sofar|..] + [DOT] + r.rest || (t == r.octets[|sofar|..] && r.rest == []))
    decreases |t|
  {
    if t != [] && t[0] != DOT {
      var longer := sofar + [t[0]];
      PlainLabelText(t[1..], longer);
      var r := ReadLabel(t, false, sofar);
      assert r.octets[|sofar|] == longer[|sofar|];
      assert r.octets[|sofar|..] == [t[0]] + r.octets[|sofar| + 1..];
      assert t == [t[0]] + t[1..];
      assert r.octets[..|sofar|] == longer[..|sofar|];
    }
  }

  /** A host name: plain legal labels that fit a message. */
  predicate HostName(labels: seq<Label>, nbytes: nat) {
    LegalLabels(labels) && AllPlain(labels) && (labels == [] || nbytes + Weight(labels) < MAXDOMAIN)
  }

  /** Text that is a name's, with or without a dot behind it. */
  predicate NameText(t: Text, labels: seq<Label>) {
    t == TextOf(labels, false) || (labels != [] && t == TextOf(labels, false) + [DOT])
  }

  /** Only host names are accepted without quoting, from their text. */
  lemma {:induction false} PlainOnly(t: Text, nbytes: nat)
    requires ReadOwner(t, false, nbytes).Labels?
    ensures
      var labels := ReadOwner(t, false, nbytes).labels;
      HostName(labels, nbytes) && NameText(t, labels)
    decreases |t|
  {
    OwnerIsLegal(t, false, nbytes);
    if t != [] {
      OwnerStep(t, false, nbytes);
      PlainLabelText(t, []);
      var one := ReadLabel(t, false, []);
      var rest := ReadOwner(one.rest, false, nbytes + |one.octets| + 1).labels;
      assert one.octets[0..] == one.octets;
      PlainOnly(one.rest, nbytes + |one.octets| + 1);
      Heads(one.octets, rest);
      PlainTextOn(t, one.octets, one.rest, rest);
    }
  }

  lemma PlainTextOn(t: Text, l: Label, rest: Text, labels: seq<Label>)
    requires t == l + [DOT] + rest || (t == l && rest == [])
    requires rest == [] <==> labels == []
    requires rest != [] ==> NameText(rest, labels)
    ensures NameText(t, [l] + labels)
  {
    var all := [l] + labels;
    assert all[0] == l && all[1..] == labels;
    if labels == [] {
      assert TextOf(all, false) == l + [];
    } else {
      assert TextOf(all, false) == l + ([DOT] + TextOf(labels, false)) by {
        Associate([DOT], labels[0], Tail(labels[1..], false));
      }
      assert t == l + ([DOT] + rest);
    }
  }

  /** The text of every host name is accepted, with or without a dot behind it. */
  lemma {:induction false} PlainAccepts(t: Text, labels: seq<Label>, nbytes: nat)
    requires HostName(labels, nbytes) && NameText(t, labels)
    ensures ReadOwner(t, false, nbytes) == Labels(labels)
    decreases |labels|
  {
    if labels != [] {
      var rest := PlainNameStep(t, labels, nbytes);
      PlainAccepts(rest, labels[1..], nbytes + |labels[0]| + 1);
    }
  }

  lemma PlainNameStep(t: Text, labels: seq<Label>, nbytes: nat) returns (rest: Text)
    requires labels != [] && HostName(labels, nbytes) && NameText(t, labels)
    ensures HostName(labels[1..], nbytes + |labels[0]| + 1) && NameText(rest, labels[1..])
    ensures ReadOwner(t, false, nbytes) == Before(labels[0], ReadOwner(rest, false, nbytes + |labels[0]| + 1))
    ensures Before(labels[0], Labels(labels[1..])) == Labels(labels)
  {
    HostSplit(labels, nbytes);
    var tail := SplitText(t, labels);
    assert [] + labels[0] == labels[0];
    ReadPlainLabel(labels[0], tail, []);
    rest := if tail == [] then [] else tail[1..];
    if labels[1..] != [] {
      TailIsText(labels[1..], tail);
    }
    OwnerOn(t, false, nbytes, labels[0], rest);
  }

  lemma HostSplit(labels: seq<Label>, nbytes: nat)
    requires labels != [] && HostName(labels, nbytes)
    ensures LegalLabel(labels[0]) && PlainLabel(labels[0]) && HostName(labels[1..], nbytes + |labels[0]| + 1)
    ensures nbytes + |labels[0]| + 1 < MAXDOMAIN && [labels[0]] + labels[1..] == labels
  {
    assert [labels[0]] + labels[1..] == labels;
    Heads(labels[0], labels[1..]);
  }

  lemma SplitText(t: Text, labels: seq<Label>) returns (tail: Text)
    requires labels != [] && NameText(t, labels)
    ensures t == labels[0] + tail && (tail == Tail(labels[1..], false) || tail == Tail(labels[1..], false) + [DOT])
  {
    var rest := Tail(labels[1..], false);
    Associate(labels[0], rest, [DOT]);
    tail := if t == TextOf(labels, false) then rest else rest + [DOT];
  }

  lemma TailIsText(labels: seq<Label>, tail: Text)
    requires labels != [] && (tail == Tail(labels, false) || tail == Tail(labels, false) + [DOT])
    ensures tail[0] == DOT && NameText(tail[1..], labels)
  {
    Associate([DOT], labels[0], Tail(labels[1..], false));
    assert Tail(labels, false)[1..] == TextOf(labels, false);
    if tail == Tail(labels, false) + [DOT] {
      assert tail[1..] == Tail(labels, false)[1..] + [DOT];
    }
  }

  /** Without quoting the accepted texts are exactly those of host names that fit. */
  lemma AcceptedUnquoted(t: Text)
    ensures ReadOwner(t, false, 0).Labels? <==> exists labels :: HostName(labels, 0) && NameText(t, labels)
  {
    if ReadOwner(t, false, 0).Labels? {
      PlainOnly(t, 0);
    }
    forall labels | HostName(labels, 0) && NameText(t, labels)
      ensures ReadOwner(t, false, 0).Labels?
    {
      PlainAccepts(t, labels, 0);
    }
  }

  lemma {:induction false} TailEnd(labels: seq<Label>)
    requires LegalLabels(labels) && AllPlain(labels) && labels != []
    ensures TextOf(labels, false) != [] && TextOf(labels, false)[|TextOf(labels, false)| - 1] != DOT
  {
    var l, rest := labels[0], labels[1..];
    if rest == [] {
      assert TextOf(labels, false) == l + [] == l;
      assert Plain(l[|l| - 1], |l| == 1);
    } else {
      Heads(l, rest);
      assert labels == [l] + rest;
      assert forall i :: 0 <= i < |rest| ==> rest[i] == labels[i + 1];
      TailEnd(rest);
      Associate([DOT], rest[0], Tail(rest[1..], false));
      assert TextOf(labels, false) == l + ([DOT] + TextOf(rest, false));
    }
  }

  /**
     An owner accepted without quoting comes back from the message: exactly as it was if and only if it
     does not end in a dot, and otherwise without that dot.
   */
  lemma UnquotedRoundTrip(id: nat, t: Text, qtype: nat)
    requires ReadOwner(t, false, 0).Labels?
    ensures LegalLabels(ReadOwner(t, false, 0).labels)
    ensures
      var dgram := Question(id, ReadOwner(t, false, 0).labels, qtype);
      var s := Start(HDRSIZE, |dgram|);
      && !Read(dgram, s).Endless?
      && (Parse(dgram, s, false, [], true) == Readable(t) <==> t == [] || t[|t| - 1] != DOT)
      && (t != [] && t[|t| - 1] == DOT ==> Parse(dgram, s, false, [], true) == Readable(t[..|t| - 1]))
  {
    var labels := ReadOwner(t, false, 0).labels;
    PlainOnly(t, 0);
    QuestionFits(t, false);
    QuestionShows(id, labels, qtype, false);
    if labels != [] {
      TailEnd(labels);
      if t != TextOf(labels, false) {
        assert t[..|t| - 1] == TextOf(labels, false);
      }
    }
  }

  /** What `adns__parse_domain` shows of the name in a question. */
  lemma QuestionShows(id: nat, labels: seq<Label>, qtype: nat, quoteok: bool)
    requires LegalLabels(labels) && Grown(0, labels) <= MAXDOMAIN && (quoteok || AllPlain(labels))
    ensures
      var dgram := Question(id, labels, qtype);
      var s := Start(HDRSIZE, |dgram|);
      !Read(dgram, s).Endless? && Parse(dgram, s, quoteok, [], true) == Readable(TextOf(labels, quoteok))
  {
    QuestionReads(id, labels, qtype);
    var dgram := Question(id, labels, qtype);
    WholeNameIsShown(dgram, Start(HDRSIZE, |dgram|), quoteok, [], true);
    assert [] + TextOf(labels, quoteok) == TextOf(labels, quoteok);
  }

  /** What the octal digits of an octet say when they are read as decimal ones. */
  function Misread(b: byte): nat {
    if 32 < b < 127 then b else b / 64 * 100 + b / 8 % 8 * 10 + b % 8
  }

  /** Printable octets and those below 8 come back; all others come back as more, or not at all. */
  lemma MisreadIs(b: byte)
    ensures Misread(b) == b <==> 32 < b < 127 || b < 8
    ensures 0 <= b <= Misread(b)
  {
  }

  lemma ReadQuotedByte(b: byte, t: Text)
    ensures (QuoteByte(b) + t)[0] != DOT
    ensures NextChar(QuoteByte(b) + t, true) == if Misread(b) < 256 then Octet(Misread(b), t) else BadChar
  {
    var q := QuoteByte(b) + t;
    if b <= 32 || b >= 127 {
      assert q[1..][3..] == t;
      assert q[1] == 48 + b / 64 && q[2] == 48 + b / 8 % 8 && q[3] == 48 + b % 8;
      assert Decimal(q[1], q[2], q[3]) == Misread(b);
    } else if Unquoted(b) {
      assert q[1..] == t;
    } else {
      assert q[1..][1..] == t;
    }
  }

  predicate Decodes(l: Label) { forall i :: 0 <= i < |l| ==> Misread(l[i]) < 256 }

  function MisreadAll(l: Label): (r: Label)
    requires Decodes(l)
    ensures |r| == |l| && forall i :: 0 <= i < |l| ==> r[i] == Misread(l[i])
  {
    seq(|l|, i requires 0 <= i < |l| => Misread(l[i]))
  }

  /** How a quoted label is read. */
  lemma {:induction false} ReadQuotedLabel(l: Label, tail: Text, sofar: Label)
    requires |sofar| + |l| <= 255 && (tail == [] || tail[0] == DOT)
    ensures ReadLabel(Quote(l) + tail, true, sofar) ==
            if Decodes(l) then LabelOk(sofar + MisreadAll(l), if tail == [] then [] else tail[1..]) else LabelBad
    decreases |l|
  {
    if l == [] {
      assert Quote(l) + tail == tail && sofar + MisreadAll(l) == sofar;
    } else {
      QuoteStep(l, tail, sofar);
      DecodeStep(l, sofar);
      if Misread(l[0]) < 256 {
        ReadQuotedLabel(l[1..], tail, sofar + [Misread(l[0])]);
      }
    }
  }

  lemma QuoteStep(l: Label, tail: Text, sofar: Label)
    requires l != [] && |sofar| < 255
    ensures ReadLabel(Quote(l) + tail, true, sofar) ==
            if Misread(l[0]) < 256 then ReadLabel(Quote(l[1..]) + tail, true, sofar + [Misread(l[0])]) else LabelBad
  {
    var t := Quote(l[1..]) + tail;
    Associate(QuoteByte(l[0]), Quote(l[1..]), tail);
    ReadQuotedByte(l[0], t);
    LabelOn(QuoteByte(l[0]) + t, true, sofar);
  }

  lemma DecodeStep(l: Label, sofar: Label)
    requires l != []
    ensures Decodes(l) <==> Misread(l[0]) < 256 && Decodes(l[1..])
    ensures Decodes(l) ==> (sofar + [Misread(l[0])]) + MisreadAll(l[1..]) == sofar + MisreadAll(l)
  {
    assert forall i :: 0 < i < |l| ==> l[i] == l[1..][i - 1];
    if Decodes(l) {
      assert MisreadAll(l) == [Misread(l[0])] + MisreadAll(l[1..]);
      Associate(sofar, [Misread(l[0])], MisreadAll(l[1..]));
    }
  }

  predicate AllDecode(labels: seq<Label>) { forall i :: 0 <= i < |labels| ==> Decodes(labels[i]) }

  function MisreadNames(labels: seq<Label>): (r: seq<Label>)
    requires AllDecode(labels)
    ensures |r| == |labels| && forall i :: 0 <= i < |labels| ==> r[i] == MisreadAll(labels[i])
  {
    seq(|labels|, i requires 0 <= i < |labels| => MisreadAll(labels[i]))
  }

  /** How the quoted text of a name is read as an owner. */
  lemma {:induction false} ReadQuotedName(labels: seq<Label>, nbytes: nat)
    requires LegalLabels(labels) && (labels == [] || nbytes + Weight(labels) < MAXDOMAIN)
    ensures ReadOwner(TextOf(labels, true), true, nbytes) ==
      if AllDecode(labels) then Labels(MisreadNames(labels)) else Refused(Invalid)
    decreases |labels|
  {
    if labels == [] {
      assert MisreadNames(labels) == [];
    } else {
      QuotedNameStep(labels, nbytes);
      DecodeCons(labels);
      if Decodes(labels[0]) {
        ReadQuotedName(labels[1..], nbytes + |labels[0]| + 1);
        MisreadOn(labels, ReadOwner(TextOf(labels[1..], true), true, nbytes + |labels[0]| + 1));
      }
    }
  }

  lemma MisreadOn(labels: seq<Label>, more: Owner)
    requires labels != [] && Decodes(labels[0]) && (AllDecode(labels) <==> AllDecode(labels[1..]))
    requires more == if AllDecode(labels[1..]) then Labels(MisreadNames(labels[1..])) else Refused(Invalid)
    ensures Before(MisreadAll(labels[0]), more) ==
      if AllDecode(labels) then Labels(MisreadNames(labels)) else Refused(Invalid)
  {
    if AllDecode(labels) {
      assert MisreadNames(labels) == [MisreadAll(labels[0])] + MisreadNames(labels[1..]);
    }
  }

  lemma QuotedNameStep(labels: seq<Label>, nbytes: nat)
    requires labels != [] && LegalLabels(labels) && nbytes + Weight(labels) < MAXDOMAIN
    ensures ReadOwner(TextOf(labels, true), true, nbytes) ==
            if Decodes(labels[0])
              then Before(MisreadAll(labels[0]), ReadOwner(TextOf(labels[1..], true), true, nbytes + |labels[0]| + 1))
            else Refused(Invalid)
  {
    var l, rest := labels[0], labels[1..];
    ReadQuotedLabel(l, Tail(rest, true), []);
    QuoteLonger(l);
    QuotedTail(rest);
    if Decodes(l) {
      assert [] + MisreadAll(l) == MisreadAll(l);
      OwnerOn(TextOf(labels, true), true, nbytes, MisreadAll(l), TextOf(rest, true));
    }
  }

  lemma DecodeCons(labels: seq<Label>)
    requires labels != []
    ensures AllDecode(labels) <==> Decodes(labels[0]) && AllDecode(labels[1..])
    ensures AllDecode(labels) ==> MisreadNames(labels) == [MisreadAll(labels[0])] + MisreadNames(labels[1..])
  {
    assert forall i :: 0 < i < |labels| ==> labels[i] == labels[1..][i - 1];
    var rest := labels[1..];
    if AllDecode(labels) {
      forall i | 0 <= i < |rest|
        ensures Decodes(rest[i])
      {
        assert Decodes(labels[i + 1]);
      }
    }
    if AllDecode(rest) && Decodes(labels[0]) {
      forall i | 0 <= i < |labels|
        ensures Decodes(labels[i])
      {
        assert i > 0 ==> Decodes(rest[i - 1]);
      }
    }
  }

  lemma {:induction false} QuoteLonger(l: Label)
    ensures |l| <= |Quote(l)|
  {
    if l != [] {
      QuoteLonger(l[1..]);
    }
  }

  lemma QuotedTail(labels: seq<Label>)
    ensures labels != [] ==>
      Tail(labels, true) != [] && Tail(labels, true)[0] == DOT && Tail(labels, true)[1..] == TextOf(labels, true)
  {
    if labels != [] {
      Associate([DOT], Quote(labels[0]), Tail(labels[1..], true));
    }
  }

  /** An octet that quoting does not change: printable, or below 8. */
  predicate Faithful(b: byte) { 32 < b < 127 || b < 8 }

  predicate AllFaithful(labels: seq<Label>) {
    forall i, j :: 0 <= i < |labels| && 0 <= j < |labels[i]| ==> Faithful(labels[i][j])
  }

  /**
     Quoting and reading back gives a name's own labels exactly if every octet is printable or below 8:
     the text is written in octal and read in decimal.
   */
  lemma QuotedRoundTrip(labels: seq<Label>)
    requires LegalLabels(labels) && Weight(labels) < MAXDOMAIN
    ensures ReadOwner(TextOf(labels, true), true, 0) == Labels(labels) <==> AllFaithful(labels)
  {
    ReadQuotedName(labels, 0);
    if AllFaithful(labels) {
      forall i | 0 <= i < |labels|
        ensures Decodes(labels[i]) && MisreadAll(labels[i]) == labels[i]
      {
        FaithfulLabel(labels[i]);
        assert forall j :: 0 <= j < |labels[i]| ==> Faithful(labels[i][j]);
      }
      assert MisreadNames(labels) == labels;
    } else {
      var i, j :| 0 <= i < |labels| && 0 <= j < |labels[i]| && !Faithful(labels[i][j]);
      FaithfulLabel(labels[i]);
      if AllDecode(labels) {
        assert MisreadNames(labels)[i] == MisreadAll(labels[i]) != labels[i];
      }
    }
  }

  lemma FaithfulLabel(l: Label)
    ensures (Decodes(l) && MisreadAll(l) == l) <==> forall j :: 0 <= j < |l| ==> Faithful(l[j])
  {
    forall j | 0 <= j < |l|
      ensures Misread(l[j]) == l[j] <==> Faithful(l[j])
    {
      MisreadIs(l[j]);
    }
    if Decodes(l) && MisreadAll(l) == l {
      assert forall j :: 0 <= j < |l| ==> MisreadAll(l)[j] == Misread(l[j]);
    }
  }

  /** The quoted text of a faithful name, asked for and read from the message, is the same text again. */
  lemma QuotedTextRoundTrip(id: nat, labels: seq<Label>, qtype: nat)
    requires LegalLabels(labels) && Weight(labels) < MAXDOMAIN && AllFaithful(labels)
    ensures
      var text := TextOf(labels, true);
      var dgram := Question(id, labels, qtype);
      && ReadOwner(text, true, 0) == Labels(labels)
      && !Read(dgram, Start(HDRSIZE, |dgram|)).Endless?
      && Parse(dgram, Start(HDRSIZE, |dgram|), true, [], true) == Readable(text)
  {
    QuotedRoundTrip(labels);
    WireWeight(labels, 0);
    QuestionShows(id, labels, qtype, true);
  }
}
