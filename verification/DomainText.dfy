/**
 Domain names as text (adns/transmit.c, adns/parse.c): `adns__mkquery` turns an owner name into a
 question, `adns__parse_domain` turns a name of a message into text, with or without quoting.
 */
module DomainText {
  import opened Bytes
  import opened DomainWire

  const DOT: byte := '.' as int
  const DASH: byte := '-' as int
  const BACKSLASH: byte := '\\' as int
  const MAXLABEL := 63

  type Text = seq<byte>

  predicate Digit(c: byte) { '0' as int <= c <= '9' as int }

  /** Three digits read as a decimal number. */
  function Decimal(a: byte, b: byte, c: byte): int { (a as int - 48) * 100 + (b as int - 48) * 10 + (c as int - 48) }

  predicate Alpha(c: byte) { 'a' as int <= c <= 'z' as int || 'A' as int <= c <= 'Z' as int }

  predicate Unquoted(c: byte) { Alpha(c) || Digit(c) || c in [DASH, '_' as int, '/' as int, '+' as int] }

  datatype Refusal = Invalid | TooLong

  datatype OneChar = Octet(c: byte, rest: Text) | BadChar

  datatype OneLabel = LabelOk(octets: Label, rest: Text) | LabelBad

  datatype Owner = Labels(labels: seq<Label>) | Refused(why: Refusal)

  /** The octet behind a backslash: three decimal digits, or the character itself. */
  function Unquote(t: Text): (r: OneChar)
    ensures r.Octet? ==> |r.rest| < |t|
  {
    if t == [] then BadChar
    else if Digit(t[0]) then
      if |t| > 2 && Digit(t[1]) && Digit(t[2]) && Decimal(t[0], t[1], t[2]) < 256
      then Octet(Decimal(t[0], t[1], t[2]), t[3..])
      else BadChar
    else if t[0] == 0 then BadChar
    else Octet(t[0], t[1..])
  }

  /** The next octet of a label, quoted or not. */
  function NextChar(t: Text, quoteok: bool): (r: OneChar)
    requires t != []
    ensures r.Octet? ==> |r.rest| < |t|
  {
    if t[0] != BACKSLASH then Octet(t[0], t[1..])
    else if quoteok then Unquote(t[1..])
    else BadChar
  }

  /** Without quoting only letters, digits and inner dashes are taken. */
  predicate Plain(c: byte, first: bool) { Alpha(c) || Digit(c) || (c == DASH && !first) }

  /** The label at the head of `t`, `sofar` of it read. */
  function ReadLabel(t: Text, quoteok: bool, sofar: Label): (r: OneLabel)
    ensures r.LabelOk? ==> |r.rest| <= |t| && (t != [] ==> |r.rest| < |t|)
    decreases |t|
  {
    if t == [] then LabelOk(sofar, [])
    else if t[0] == DOT then LabelOk(sofar, t[1..])
    else
      match NextChar(t, quoteok)
      case BadChar => LabelBad
      case Octet(c, rest) =>
        if !quoteok && !Plain(c, sofar == []) then LabelBad
        else if |sofar| == 255 then LabelBad
        else ReadLabel(rest, quoteok, sofar + [c])
  }

  function Before(l: Label, more: Owner): Owner { if more.Labels? then Labels([l] + more.labels) else more }

  /** The labels of `t` when `nbytes` octets of the message are taken. */
  function ReadOwner(t: Text, quoteok: bool, nbytes: nat): Owner
    decreases |t|
  {
    if t == [] then Labels([])
    else
      match ReadLabel(t, quoteok, [])
      case LabelBad => Refused(Invalid)
      case LabelOk(l, rest) =>
        if l == [] then Refused(Invalid)
        else if |l| > MAXLABEL || nbytes + |l| + 1 >= MAXDOMAIN then Refused(TooLong)
        else
          Before(l, ReadOwner(rest, quoteok, nbytes + |l| + 1))
  }

  lemma LabelOn(t: Text, quoteok: bool, sofar: Label)
    requires t != [] && t[0] != DOT && |sofar| < 255
    ensures NextChar(t, quoteok).BadChar? ==> ReadLabel(t, quoteok, sofar).LabelBad?
    ensures NextChar(t, quoteok).Octet? && (quoteok || Plain(NextChar(t, quoteok).c, sofar == [])) ==>
              ReadLabel(t, quoteok, sofar)
                == ReadLabel(NextChar(t, quoteok).rest, quoteok, sofar + [NextChar(t, quoteok).c])
  {
  }

  lemma OwnerOn(t: Text, quoteok: bool, nbytes: nat, l: Label, rest: Text)
    requires t != [] && ReadLabel(t, quoteok, []) == LabelOk(l, rest) && LegalLabel(l) && nbytes + |l| + 1 < MAXDOMAIN
    ensures ReadOwner(t, quoteok, nbytes) == Before(l, ReadOwner(rest, quoteok, nbytes + |l| + 1))
  {
  }

  /** Octets the labels take in a message, the root not counted. */
  function Weight(labels: seq<Label>): nat {
    if labels == [] then 0 else |labels[0]| + 1 + Weight(labels[1..])
  }

  lemma WeightCons(l: Label, labels: seq<Label>)
    ensures Weight([l] + labels) == |l| + 1 + Weight(labels)
  {
    assert ([l] + labels)[1..] == labels;
  }

  /** An accepted text is an accepted label and an accepted rest. */
  lemma OwnerStep(t: Text, quoteok: bool, nbytes: nat)
    requires t != [] && ReadOwner(t, quoteok, nbytes).Labels?
    ensures
      var one := ReadLabel(t, quoteok, []);
      && one.LabelOk? && LegalLabel(one.octets) && nbytes + |one.octets| + 1 < MAXDOMAIN
      && ReadOwner(one.rest, quoteok, nbytes + |one.octets| + 1).Labels?
      && ReadOwner(t, quoteok, nbytes).labels == [one.octets]
         + ReadOwner(one.rest, quoteok, nbytes + |one.octets| + 1).labels
  {
  }

  /** What is accepted is a legal name of at most 255 octets (section 2.3.4 of RFC 1035). */
  lemma {:induction false} OwnerIsLegal(t: Text, quoteok: bool, nbytes: nat)
    requires ReadOwner(t, quoteok, nbytes).Labels?
    ensures LegalLabels(ReadOwner(t, quoteok, nbytes).labels)
    ensures t != [] ==> nbytes + Weight(ReadOwner(t, quoteok, nbytes).labels) < MAXDOMAIN
    decreases |t|
  {
    if t != [] {
      OwnerStep(t, quoteok, nbytes);
      var one := ReadLabel(t, quoteok, []);
      var more := ReadOwner(one.rest, quoteok, nbytes + |one.octets| + 1).labels;
      OwnerIsLegal(one.rest, quoteok, nbytes + |one.octets| + 1);
      LegalCons(0, one.octets, more);
      WeightCons(one.octets, more);
    }
  }

  /** A message holds a name in its weight and one octet for the root, and reading counts less. */
  lemma {:induction false} WireWeight(labels: seq<Label>, namelen: nat)
    requires LegalLabels(labels)
    ensures |Wire(labels)| == Weight(labels) + 1
    ensures Grown(namelen, labels) <= namelen + Weight(labels)
    decreases |labels|
  {
    if labels != [] {
      WireWeight(labels[1..], namelen + |labels[0]| + if namelen > 0 then 1 else 0);
    }
  }

  /** A label never has more octets than its text has characters, nor the name. */
  lemma {:induction false} LabelFits(t: Text, quoteok: bool, sofar: Label)
    requires ReadLabel(t, quoteok, sofar).LabelOk?
    ensures
      var r := ReadLabel(t, quoteok, sofar);
      |sofar| <= |r.octets| && |r.octets| - |sofar| + |r.rest| + (if r.rest == [] then 0 else 1) <= |t|
    decreases |t|
  {
    if t != [] && t[0] != DOT {
      LabelFits(NextChar(t, quoteok).rest, quoteok, sofar + [NextChar(t, quoteok).c]);
    }
  }

  /** The name takes at most `ol + 2` octets of the message. */
  lemma {:induction false} OwnerFits(t: Text, quoteok: bool, nbytes: nat)
    requires ReadOwner(t, quoteok, nbytes).Labels?
    ensures Weight(ReadOwner(t, quoteok, nbytes).labels) <= |t| + if t == [] then 0 else 1
    decreases |t|
  {
    if t != [] {
      OwnerStep(t, quoteok, nbytes);
      var one := ReadLabel(t, quoteok, []);
      LabelFits(t, quoteok, []);
      OwnerFits(one.rest, quoteok, nbytes + |one.octets| + 1);
      WeightCons(one.octets, ReadOwner(one.rest, quoteok, nbytes + |one.octets| + 1).labels);
    }
  }

  datatype Query = Message(dgram: Dgram) | Denied(why: Refusal)

  /** The inner loop of `adns__mkquery`: one label, and where the text goes on. */
  method TakeLabel(owner: Text, start: nat, quoteok: bool) returns (ok: bool, octets: Label, p: nat)
    requires start < |owner|
    ensures ok ==> start < p <= |owner| && ReadLabel(owner[start..], quoteok, []) == LabelOk(octets, owner[p..])
    ensures !ok ==> ReadLabel(owner[start..], quoteok, []).LabelBad?
  {
    octets, p, ok := [], start, false;
    while p != |owner|
      invariant start <= p <= |owner| && (p == start ==> octets == [])
      invariant ReadLabel(owner[p..], quoteok, octets) == ReadLabel(owner[start..], quoteok, [])
      decreases |owner| - p
    {
      ghost var t := owner[p..];
      var c := owner[p];
      p := p + 1;
      assert t[1..] == owner[p..];
      if c == DOT {
        return true, octets, p;
      }
      if c == BACKSLASH {
        if !quoteok { return; }
        var e, q := Escape(owner, p);
        if e < 0 { return; }
        c, p := e, q;
      }
      if !quoteok {
        if c == DASH {
          if octets == [] { return; }
        } else if !Alpha(c) && !Digit(c) {
          return;
        }
      }
      if |octets| == 255 { return; }
      octets := octets + [c];
    }
    assert owner[p..] == [];
    ok := true;
  }

  /** The octet after a backslash, negative if there is none, and where the text goes on. */
  method Escape(owner: Text, start: nat) returns (c: int, p: nat)
    requires start <= |owner|
    ensures c < 0 ==> Unquote(owner[start..]).BadChar?
    ensures c >= 0 ==> c < 256 && start < p <= |owner| && Unquote(owner[start..]) == Octet(c, owner[p..])
  {
    p := start;
    ghost var t := owner[start..];
    assert forall i :: 0 <= i < |t| ==> t[i] == owner[start + i];
    if p < |owner| && Digit(owner[p]) {
      if p + 2 < |owner| && Digit(owner[p + 1]) && Digit(owner[p + 2]) {
        c := Decimal(owner[p], owner[p + 1], owner[p + 2]);
        p := p + 3;
        if c >= 256 { return -1, p; }
      } else {
        return -1, p;
      }
    } else {
      if p == |owner| || owner[p] == 0 { return -1, p; }
      c := owner[p];
      p := p + 1;
    }
  }

  /**
     `adns__mkquery`: the question for the labels of the owner text, or the reason there is none. The
     text ends with a NUL, so that no escape reaches beyond it.
   */
  method MkQuery(id: nat, owner: Text, quoteok: bool, qtype: nat) returns (r: Query)
    ensures
      match ReadOwner(owner, quoteok, 0)
      case Refused(why) => r == Denied(why)
      case Labels(labels) =>
        && LegalLabels(labels) && r == Message(Question(id, labels, qtype))
        && |Wire(labels)| <= |owner| + 2 && |Wire(labels)| <= MAXDOMAIN
  {
    var name: seq<byte>, p, nbytes := [], 0, 0;
    ghost var all := ReadOwner(owner, quoteok, 0);
    ghost var done: seq<Label> := [];
    while p != |owner|
      invariant 0 <= p <= |owner| && 0 <= nbytes && LegalLabels(done) && name + [0] == Wire(done)
      invariant all == Joined(done, ReadOwner(owner[p..], quoteok, nbytes))
      decreases |owner| - p
    {
      var ok, octets, next := TakeLabel(owner, p, quoteok);
      if !ok || octets == [] { return Denied(Invalid); }
      if |octets| > MAXLABEL { return Denied(TooLong); }
      nbytes := nbytes + |octets| + 1;
      if nbytes >= MAXDOMAIN { return Denied(TooLong); }
      WireSnoc(done, octets);
      JoinedOn(done, octets, ReadOwner(owner[next..], quoteok, nbytes));
      name := name + [|octets|] + octets;
      done, p := done + [octets], next;
    }
    assert owner[p..] == [] && done + [] == done;
    QuestionFits(owner, quoteok);
    r := Message(Header(id) + (name + [0]) + Footer(qtype));
  }

  /** The name of a question takes at most `ol + 2` octets, and never more than 255. */
  lemma QuestionFits(owner: Text, quoteok: bool)
    requires ReadOwner(owner, quoteok, 0).Labels?
    ensures
      var labels := ReadOwner(owner, quoteok, 0).labels;
      LegalLabels(labels) && |Wire(labels)| <= |owner| + 2 && |Wire(labels)| <= MAXDOMAIN
        && Grown(0, labels) < MAXDOMAIN
  {
    OwnerIsLegal(owner, quoteok, 0);
    OwnerFits(owner, quoteok, 0);
    WireWeight(ReadOwner(owner, quoteok, 0).labels, 0);
  }

  lemma JoinedOn(done: seq<Label>, l: Label, more: Owner)
    ensures Joined(done, Before(l, more)) == Joined(done + [l], more)
  {
    if more.Labels? {
      assert done + ([l] + more.labels) == (done + [l]) + more.labels;
    }
  }

  function Joined(done: seq<Label>, more: Owner): Owner { if more.Labels? then Labels(done + more.labels) else more }

  lemma {:induction false} WireSnoc(labels: seq<Label>, l: Label)
    requires LegalLabels(labels) && LegalLabel(l)
    ensures LegalLabels(labels + [l])
    ensures |Wire(labels)| > 0 && Wire(labels + [l]) == Wire(labels)[..|Wire(labels)| - 1] + [|l|] + l + [0]
  {
    if labels != [] {
      WireSnoc(labels[1..], l);
      assert (labels + [l])[1..] == labels[1..] + [l];
    }
  }
}
