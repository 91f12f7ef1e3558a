/**
 The format of DNS messages told by octets (sections 3.2.1, 4.1.1, 4.1.2 and 4.1.4 of RFC 1035), and that the reader
 and the writer of `DomainWire` keep to it (adns/parse.c, adns/transmit.c).
 */
module WireLaws {
  import opened Wrappers
  import opened Bytes
  import opened DomainWire
  import opened DomainText
  import opened DomainRoundTrip

  // ---------- numbers ----------

  /** The fixed part of a resource record: type, class, time to live and length, high octets first. */
  function Fixed(type': nat, class': nat, ttl: nat, rdlen: nat): (r: seq<byte>)
    requires type' < 0x10000 && class' < 0x10000 && ttl < 0x1_0000_0000 && rdlen < 0x10000
    ensures |r| == 10
  {
    [type' / 256, type' % 256, class' / 256, class' % 256,
     ttl / 16777216, ttl / 65536 % 256, ttl / 256 % 256, ttl % 256, rdlen / 256, rdlen % 256]
  }

  lemma HighFirst(w: nat)
    requires w < 0x10000
    ensures 0 <= w / 256 < 256 && w / 256 * 256 + w % 256 == w
  {
  }

  lemma FourOctets(w: nat)
    requires w < 0x1_0000_0000
    ensures 0 <= w / 16777216 < 256
    ensures (w / 16777216 * 256 + w / 65536 % 256) * 65536 + (w / 256 % 256 * 256 + w % 256) == w
  {
    assert w / 256 == w / 65536 * 256 + w / 256 % 256 && w / 65536 == w / 16777216 * 256 + w / 65536 % 256;
  }

  /**
   A record whose fixed part stands behind its owner's name is read as exactly these numbers, the time to live capped at
   seven days, unless its data run beyond the datagram.
   */
  lemma RecordIs(dgram: Dgram, owner: Name, matched: bool, type': nat, class': nat, ttl: nat, rdlen: nat)
    requires type' < 0x10000 && class' < 0x10000 && ttl < 0x1_0000_0000 && rdlen < 0x10000
    requires owner.Full? && Stands(dgram, owner.end, Fixed(type', class', ttl, rdlen))
    ensures
      var rdstart := owner.end + 10;
      RecordAt(dgram, owner, matched) ==
      if rdstart + rdlen > |dgram| then Cut
      else Rr(type', class', if ttl <= 604800 then ttl else 604800, rdlen, rdstart, rdstart + rdlen, matched)
  {
    var at, fixed := owner.end, Fixed(type', class', ttl, rdlen);
    assert dgram[at..at + 10] == fixed;
    HighFirst(type');
    HighFirst(class');
    HighFirst(rdlen);
    FourOctets(ttl);
    assert dgram[at] == fixed[0] && dgram[at + 1] == fixed[1] && dgram[at + 2] == fixed[2] && dgram[at + 3] == fixed[3];
    assert dgram[at + 4] == fixed[4] && dgram[at + 5] == fixed[5] && dgram[at + 6] == fixed[6];
    assert dgram[at + 7] == fixed[7] && dgram[at + 8] == fixed[8] && dgram[at + 9] == fixed[9];
  }

  /** Without room for a fixed part there is no record. */
  lemma RecordIsCut(dgram: Dgram, owner: Name, matched: bool)
    requires owner.Full? && |dgram| < owner.end + 10
    ensures RecordAt(dgram, owner, matched) == Cut
  {
  }

  /** A whole record that `FindRr` is given: any owner without compression, its fixed part, and its data. */
  lemma RecordReads(dgram: Dgram, begin: nat, labels: seq<Label>, type': nat, class': nat, ttl: nat, data: seq<byte>,
                    matched: bool) returns (end: nat)
    requires LegalLabels(labels) && Grown(0, labels) <= MAXDOMAIN
    requires type' < 0x10000 && class' < 0x10000 && ttl < 0x1_0000_0000 && |data| < 0x10000
    requires Stands(dgram, begin, Wire(labels) + (Fixed(type', class', ttl, |data|) + data))
    ensures Read(dgram, Start(begin, |dgram|)) == Full(labels, end) && Stands(dgram, end + 10, data)
    ensures RecordAt(dgram, Full(labels, end), matched)
      == Rr(type', class', if ttl <= 604800 then ttl else 604800, |data|, end + 10, end + 10 + |data|, matched)
  {
    end := OwnerThen(dgram, begin, labels, Fixed(type', class', ttl, |data|), data);
    RecordIs(dgram, Full(labels, end), matched, type', class', ttl, |data|);
  }

  lemma OwnerThen(dgram: Dgram, begin: nat, labels: seq<Label>, a: seq<byte>, b: seq<byte>) returns (end: nat)
    requires LegalLabels(labels) && Grown(0, labels) <= MAXDOMAIN && Stands(dgram, begin, Wire(labels) + (a + b))
    ensures Read(dgram, Start(begin, |dgram|)) == Full(labels, end)
    ensures Stands(dgram, end, a) && Stands(dgram, end + |a|, b)
  {
    end := begin + |Wire(labels)|;
    StandsApart(dgram, begin, Wire(labels), a + b);
    StandsApart(dgram, end, a, b);
    ReadWire(dgram, Start(begin, |dgram|), labels);
  }

  /** The octets of a query: number, flags with recursion desired, one question, and its type for the Internet. */
  lemma QuestionIs(id: nat, labels: seq<Label>, qtype: nat)
    requires LegalLabels(labels) && id < 0x10000 && qtype < 0x10000
    ensures Question(id, labels, qtype) ==
      [id / 256, id % 256, 1, 0, 0, 1, 0, 0, 0, 0, 0, 0] + Wire(labels) + [qtype / 256, qtype % 256, 0, 1]
  {
    HighFirst(id);
    HighFirst(qtype);
  }

  // ---------- case ----------

  /** Octets are the same if they are equal or one is the other's letter in the other case; labels octet by octet. */
  lemma SameLabelIff(a: Label, b: Label)
    ensures SameLabel(a, b) <==>
      |a| == |b| && forall i :: 0 <= i < |a| ==>
        || a[i] == b[i]
        || ('A' as int <= a[i] <= 'Z' as int && b[i] == a[i] + 32)
        || ('A' as int <= b[i] <= 'Z' as int && a[i] == b[i] + 32)
  {
  }

  // ---------- names, compressed or not ----------

  /** Where a pointer leads: the last fourteen bits, the high ones first. */
  function Place(dgram: Dgram, c: nat): nat
    requires c + 1 < |dgram| && dgram[c] >= 192
  {
    (dgram[c] as int - 192) * 256 + dgram[c + 1]
  }

  /** A label of 1 to 63 octets behind its length. */
  predicate LabelAt(dgram: Dgram, c: nat, max: nat, l: Label) {
    && 0 < |l| < 64 && c + 1 + |l| <= max && c + 1 + |l| <= |dgram|
    && dgram[c] == |l| && dgram[c + 1..c + 1 + |l|] == l
  }

  /**
   `labels` are written at `c`, in place up to `end` and no further than `max`, with `jumps` pointers to the rest: each
   label behind its length, and a zero octet at the end.
   */
  ghost predicate Written(dgram: Dgram, c: nat, max: nat, labels: seq<Label>, end: nat, jumps: nat)
    decreases jumps, |labels|
  {
    c < |dgram| && c < max &&
    (|| (labels == [] && dgram[c] == 0 && end == c + 1)
     || (labels != [] && LabelAt(dgram, c, max, labels[0])
         && Written(dgram, c + 1 + |labels[0]|, max, labels[1..], end, jumps))
     || (jumps > 0 && dgram[c] >= 192 && c + 1 < |dgram| && c + 1 < max && end == c + 2
         && Led(dgram, Place(dgram, c), |dgram| + 1, labels, jumps - 1)))
  }

  /** A pointer leads to `labels`, wherever they end. */
  ghost predicate Led(dgram: Dgram, c: nat, max: nat, labels: seq<Label>, jumps: nat)
    decreases jumps, |labels| + 1
  {
    exists e :: Written(dgram, c, max, labels, e, jumps)
  }

  /** A pointer reads as what it leads to. */
  lemma JumpReads(dgram: Dgram, s: Cursor, t: nat)
    requires Target(dgram, s) == Some(t) && Ends(dgram, Jump(dgram, s, t))
    ensures Ends(dgram, s) && Read(dgram, s) == Read(dgram, Jump(dgram, s, t))
  {
    ChainEndsSoonOrNever(dgram, s, |dgram| + 2);
    ReadAlike(dgram, s, Jump(dgram, s, t));
  }

  lemma ReadAlike(dgram: Dgram, s: Cursor, s': Cursor)
    requires Ends(dgram, s) && Ends(dgram, s') && NextStep(dgram, s) == NextStep(dgram, s')
    ensures Read(dgram, s) == Read(dgram, s')
  {
  }

  /** A name is at its root, at a label, or at a pointer. */
  lemma WrittenCases(dgram: Dgram, c: nat, max: nat, labels: seq<Label>, end: nat, jumps: nat)
    requires Written(dgram, c, max, labels, end, jumps)
    ensures c < |dgram| && c < max
    ensures dgram[c] == 0 ==> labels == [] && end == c + 1
    ensures 0 < dgram[c] < 192 ==>
      && labels != [] && LabelAt(dgram, c, max, labels[0])
      && Written(dgram, c + 1 + |labels[0]|, max, labels[1..], end, jumps)
    ensures dgram[c] >= 192 ==>
      && jumps > 0 && c + 1 < |dgram| && c + 1 < max && end == c + 2
      && Led(dgram, Place(dgram, c), |dgram| + 1, labels, jumps - 1)
  {
  }

  lemma {:induction false} WrittenReads(dgram: Dgram, s: Cursor, labels: seq<Label>, end: nat, jumps: nat)
    requires Written(dgram, s.cbyte, s.max, labels, end, jumps) && Grown(s.namelen, labels) <= MAXDOMAIN
    ensures Read(dgram, s) == Full(labels, if s.end.Some? then s.end.value else end)
    decreases jumps, |labels|
  {
    WrittenCases(dgram, s.cbyte, s.max, labels, end, jumps);
    if dgram[s.cbyte] == 0 {
      LengthByte(dgram, s);
    } else if dgram[s.cbyte] >= 192 {
      var t := PointsTo(dgram, s);
      var e :| Written(dgram, t, |dgram| + 1, labels, e, jumps - 1);
      WrittenReads(dgram, Jump(dgram, s, t), labels, e, jumps - 1);
      JumpReads(dgram, s, t);
    } else {
      var next := LabelFirst(dgram, s, labels);
      WrittenReads(dgram, next, labels[1..], end, jumps);
      PrependFull(labels, Full(labels[1..], if s.end.Some? then s.end.value else end));
    }
  }

  lemma LabelFirst(dgram: Dgram, s: Cursor, labels: seq<Label>) returns (next: Cursor)
    requires labels != [] && LabelAt(dgram, s.cbyte, s.max, labels[0]) && Grown(s.namelen, labels) <= MAXDOMAIN
    ensures Grown(next.namelen, labels[1..]) <= MAXDOMAIN && next == After(s, labels[0])
    ensures Read(dgram, s) == Prepend(labels[0], Read(dgram, next))
  {
    next := After(s, labels[0]);
    GrownGrows(next.namelen, labels[1..]);
    LabelStands(dgram, s.cbyte, labels[0]);
    HeadStep(dgram, s, labels[0]);
  }

  lemma PointsTo(dgram: Dgram, s: Cursor) returns (t: nat)
    requires s.cbyte + 1 < |dgram| && s.cbyte + 1 < s.max && dgram[s.cbyte] >= 192
    ensures t == Place(dgram, s.cbyte) && Target(dgram, s) == Some(t)
  {
    t := Target(dgram, s).value;
  }

  /** What was read at a cursor is written there. */
  ghost predicate Found(dgram: Dgram, s: Cursor, name: Name, end: nat, jumps: nat) {
    && name.Full? && Written(dgram, s.cbyte, s.max, name.labels, end, jumps)
    && name.end == if s.end.Some? then s.end.value else end
  }

  lemma {:induction false} ReadIsWritten(dgram: Dgram, s: Cursor, k: nat, name: Name) returns (end: nat, jumps: nat)
    requires Read(dgram, s) == name && name.Full? && Chase(dgram, s, k).Some?
    ensures Found(dgram, s, name, end, jumps)
    decreases MAXDOMAIN - s.namelen, k, 1
  {
    if Target(dgram, s).Some? {
      end, jumps := WrittenAtPointer(dgram, s, k, name);
    } else {
      end, jumps := WrittenAtLabel(dgram, s, name);
    }
  }

  lemma {:induction false} WrittenAtPointer(dgram: Dgram, s: Cursor, k: nat, name: Name)
    returns (end: nat, jumps: nat)
    requires Read(dgram, s) == name && name.Full? && Chase(dgram, s, k).Some? && Target(dgram, s).Some?
    ensures Found(dgram, s, name, end, jumps)
    decreases MAXDOMAIN - s.namelen, k, 0
  {
    var next := JumpHere(dgram, s, k);
    var e, j := ReadIsWritten(dgram, next, k - 1, name);
    end, jumps := s.cbyte + 2, j + 1;
    FoundBehind(dgram, s, next, name, e, j);
  }

  lemma {:induction false} WrittenAtLabel(dgram: Dgram, s: Cursor, name: Name) returns (end: nat, jumps: nat)
    requires Read(dgram, s) == name && name.Full? && Target(dgram, s).None?
    ensures Found(dgram, s, name, end, jumps)
    decreases MAXDOMAIN - s.namelen, 0, 0
  {
    var l, next, rest := StepHere(dgram, s);
    if l != [] {
      end, jumps := ReadIsWritten(dgram, next, |dgram| + 1, rest);
      WrittenOn(dgram, s.cbyte, s.max, l, rest, end, jumps, name);
    } else {
      end, jumps := s.cbyte + 1, 0;
      WrittenRoot(dgram, s.cbyte, s.max, name.labels);
    }
  }

  /** What is read where there is a pointer. */
  lemma JumpHere(dgram: Dgram, s: Cursor, k: nat) returns (next: Cursor)
    requires Target(dgram, s).Some? && Chase(dgram, s, k).Some?
    ensures s.cbyte + 1 < |dgram| && s.cbyte + 1 < s.max && dgram[s.cbyte] >= 192
    ensures next.cbyte == Place(dgram, s.cbyte) && next.max == |dgram| + 1 && next.namelen == s.namelen
    ensures next.end == Some(if s.end.Some? then s.end.value else s.cbyte + 2)
    ensures k > 0 && Chase(dgram, next, k - 1).Some? && Read(dgram, next) == Read(dgram, s)
  {
    var t := PointsTo(dgram, s);
    next := Jump(dgram, s, t);
    ChainEndsSoonOrNever(dgram, next, k - 1);
    JumpReads(dgram, s, t);
  }

  lemma FoundBehind(dgram: Dgram, s: Cursor, next: Cursor, name: Name, e: nat, j: nat)
    requires s.cbyte + 1 < |dgram| && s.cbyte + 1 < s.max && dgram[s.cbyte] >= 192
    requires next.cbyte == Place(dgram, s.cbyte) && next.max == |dgram| + 1
    requires next.end == Some(if s.end.Some? then s.end.value else s.cbyte + 2) && Found(dgram, next, name, e, j)
    ensures Found(dgram, s, name, s.cbyte + 2, j + 1)
  {
    assert Led(dgram, Place(dgram, s.cbyte), |dgram| + 1, name.labels, j);
  }

  /** What is read where there is no pointer: the root, or a label. */
  lemma StepHere(dgram: Dgram, s: Cursor) returns (l: Label, next: Cursor, rest: Name)
    requires Read(dgram, s).Full? && Target(dgram, s).None?
    ensures s.cbyte < |dgram| && s.cbyte < s.max
    ensures l == [] ==>
      dgram[s.cbyte] == 0 && Read(dgram, s) == Full([], if s.end.Some? then s.end.value else s.cbyte + 1)
    ensures l != [] ==>
      && LabelAt(dgram, s.cbyte, s.max, l) && next.cbyte == s.cbyte + 1 + |l|
      && next.max == s.max && next.end == s.end && s.namelen < next.namelen <= MAXDOMAIN && Ends(dgram, next)
      && Read(dgram, next) == rest && rest.Full? && Read(dgram, s) == Full([l] + rest.labels, rest.end)
  {
    var (step, t) := NextStep(dgram, s);
    assert (step, t) == Here(dgram, s);
    ReadOn(dgram, s);
    l, next, rest := [], t, Read(dgram, t);
    if step.At? {
      l := Slice(dgram, step);
    }
  }

  lemma WrittenOn(dgram: Dgram, c: nat, max: nat, l: Label, rest: Name, end: nat, jumps: nat, name: Name)
    requires LabelAt(dgram, c, max, l) && rest.Full?
    requires Written(dgram, c + 1 + |l|, max, rest.labels, end, jumps) && name == Full([l] + rest.labels, rest.end)
    ensures Written(dgram, c, max, name.labels, end, jumps)
  {
    assert ([l] + rest.labels)[1..] == rest.labels;
  }

  lemma WrittenRoot(dgram: Dgram, c: nat, max: nat, labels: seq<Label>)
    requires c < |dgram| && c < max && dgram[c] == 0 && labels == []
    ensures Written(dgram, c, max, labels, c + 1, 0)
  {
  }

  lemma LabelStands(dgram: Dgram, c: nat, l: Label)
    requires |l| < 64 && c + 1 + |l| <= |dgram| && dgram[c] == |l| && dgram[c + 1..c + 1 + |l|] == l
    ensures Stands(dgram, c, [|l|] + l)
  {
    assert dgram[c..c + 1 + |l|] == [dgram[c]] + dgram[c + 1..c + 1 + |l|];
  }

  ghost predicate Stored(dgram: Dgram, c: nat, max: nat, labels: seq<Label>, end: nat) {
    exists jumps :: Written(dgram, c, max, labels, end, jumps)
  }

  /** A place reads as a whole name exactly if that name is written there and fits. */
  lemma ReadIffWritten(dgram: Dgram, begin: nat, max: nat, labels: seq<Label>, end: nat)
    ensures Read(dgram, Start(begin, max)) == Full(labels, end) <==>
      LegalLabels(labels) && Grown(0, labels) <= MAXDOMAIN
      && Stored(dgram, begin, max, labels, end)
  {
    var s := Start(begin, max);
    if Read(dgram, s) == Full(labels, end) {
      ReadIsLegal(dgram, s);
      var e, jumps := ReadIsWritten(dgram, s, |dgram| + 1, Full(labels, end));
      assert Written(dgram, begin, max, labels, end, jumps);
    } else if LegalLabels(labels) && Grown(0, labels) <= MAXDOMAIN {
      forall jumps | Written(dgram, begin, max, labels, end, jumps)
        ensures false
      {
        WrittenReads(dgram, s, labels, end, jumps);
      }
    }
  }

  /** How long a name counts: its octets and one between any two labels. */
  lemma {:induction false} GrownIs(namelen: nat, labels: seq<Label>)
    requires LegalLabels(labels)
    ensures Grown(namelen, labels) == namelen + Weight(labels) - if namelen == 0 && Weight(labels) > 0 then 1 else 0
    decreases |labels|
  {
    if labels != [] {
      GrownIs(namelen + |labels[0]| + if namelen > 0 then 1 else 0, labels[1..]);
    }
  }

  /** Labels in a row, with no octet for the root. */
  predicate Laid(dgram: Dgram, c: nat, max: nat, labels: seq<Label>)
    decreases |labels|
  {
    labels == [] ||
    (LabelAt(dgram, c, max, labels[0]) && Laid(dgram, c + 1 + |labels[0]|, max, labels[1..]))
  }

  /** The cursor behind labels in a row. */
  function Behind(s: Cursor, labels: seq<Label>): Cursor {
    Cursor(s.cbyte + Weight(labels), Grown(s.namelen, labels), s.max, s.end)
  }

  lemma BehindFirst(s: Cursor, labels: seq<Label>)
    requires labels != []
    ensures Behind(s, labels) == Behind(After(s, labels[0]), labels[1..])
  {
  }

  /** A name fails as what is behind its first labels does. */
  lemma {:induction false} FailsBehind(dgram: Dgram, s: Cursor, labels: seq<Label>)
    requires Laid(dgram, s.cbyte, s.max, labels) && Grown(s.namelen, labels) <= MAXDOMAIN
    requires !Read(dgram, Behind(s, labels)).Full?
    ensures Read(dgram, s) == Read(dgram, Behind(s, labels))
    decreases |labels|
  {
    if labels != [] {
      var next := LabelFirst(dgram, s, labels);
      BehindFirst(s, labels);
      FailsBehind(dgram, next, labels[1..]);
    }
  }

  /**
   What is wrong at `c` with a name that has taken `weight` octets: one the datagram cuts off is short; one that goes on
   behind `max`, or is too long, or has a reserved length, is bad.
   */
  function Wrong(dgram: Dgram, c: nat, max: nat, weight: nat): Option<Name> {
    if c >= |dgram| then Some(Short)
    else if c >= max then Some(Bad(InvalidResponse))
    else if dgram[c] >= 192 then
      if c + 1 >= |dgram| then Some(Short) else if c + 1 >= max then Some(Bad(InvalidResponse)) else None
    else if dgram[c] >= 64 then Some(Bad(UnknownFormat))
    else if dgram[c] == 0 then None
    else if weight + dgram[c] > 255 then Some(Bad(AnswerDomainTooLong))
    else if c + 1 + dgram[c] > |dgram| then Some(Short)
    else if c + 1 + dgram[c] > max then Some(Bad(InvalidResponse))
    else None
  }

  /** A name is refused for what is wrong behind the labels it begins with. */
  lemma RefusedIf(dgram: Dgram, begin: nat, max: nat, labels: seq<Label>)
    requires Laid(dgram, begin, max, labels) && LegalLabels(labels) && Weight(labels) <= MAXDOMAIN + 1
    requires Wrong(dgram, begin + Weight(labels), max, Weight(labels)).Some?
    ensures Read(dgram, Start(begin, max)) == Wrong(dgram, begin + Weight(labels), max, Weight(labels)).value
  {
    GrownIs(0, labels);
    WrongHere(dgram, Behind(Start(begin, max), labels), Weight(labels));
    FailsBehind(dgram, Start(begin, max), labels);
  }

  lemma WrongHere(dgram: Dgram, t: Cursor, weight: nat)
    requires Wrong(dgram, t.cbyte, t.max, weight).Some? && t.namelen == weight - if weight > 0 then 1 else 0
    ensures Read(dgram, t) == Wrong(dgram, t.cbyte, t.max, weight).value
  {
    assert NextStep(dgram, t) == Here(dgram, t);
  }

  // ---------- owners as text ----------

  /** Letters, digits and inner dashes are what is taken without quoting. */
  lemma PlainIff(c: byte, first: bool)
    ensures Plain(c, first) <==> 97 <= c <= 122 || 65 <= c <= 90 || 48 <= c <= 57 || (c == 45 && !first)
  {
  }

  /** Behind a backslash three digits are a decimal octet, and anything else but a NUL is itself. */
  lemma EscapeIs(w: nat, t: Text)
    requires w < 1000
    ensures NextChar([BACKSLASH, 48 + w / 100, 48 + w / 10 % 10, 48 + w % 10] + t, true)
      == if w < 256 then Octet(w, t) else BadChar
    ensures 0 < w < 48 || 57 < w < 256 ==> NextChar([BACKSLASH, w] + t, true) == Octet(w, t)
    ensures NextChar([BACKSLASH, 0] + t, true) == BadChar == NextChar([BACKSLASH], true)
    ensures NextChar([BACKSLASH] + t, false) == BadChar
  {
    var d := [48 + w / 100, 48 + w / 10 % 10, 48 + w % 10];
    assert ([BACKSLASH] + d + t)[1..] == d + t && (d + t)[3..] == t;
    assert [BACKSLASH] + d + t == [BACKSLASH, 48 + w / 100, 48 + w / 10 % 10, 48 + w % 10] + t;
    if w < 256 {
      assert ([BACKSLASH, w] + t)[1..][1..] == t;
    }
  }

  /** How an octet is shown: as it is, behind a backslash, or as three octal digits behind one. */
  lemma QuotedIs(b: byte)
    ensures QuoteByte(b) ==
      if 97 <= b <= 122 || 65 <= b <= 90 || 48 <= b <= 57 || b in {45, 95, 47, 43} then [b]
      else if 32 < b < 127 then [92, b]
      else [92, 48 + b / 64, 48 + b / 8 % 8, 48 + b % 8]
  {
  }

  /** A plain label read as far as it goes. */
  lemma {:induction false} PlainRun(l: Label, tail: Text, sofar: Label)
    requires PlainLabel(sofar + l) && |sofar + l| <= 255
    ensures ReadLabel(l + tail, false, sofar) == ReadLabel(tail, false, sofar + l)
    decreases |l|
  {
    if l == [] {
      assert l + tail == tail && sofar + l == sofar;
    } else {
      assert (sofar + l)[|sofar|] == l[0];
      assert (l + tail)[1..] == l[1..] + tail && sofar + [l[0]] + l[1..] == sofar + l;
      PlainRun(l[1..], tail, sofar + [l[0]]);
    }
  }

  /**
   Why a text is refused without quoting, by the first thing wrong with it: behind a plain label `l` of at most 255
   characters comes the end, a dot or something else. An empty label, a character that is not plain, and one more than
   255 are invalid; a label of more than 63, or one that takes the name to 255 octets, is too long.
   */
  lemma OwnerRefusedIf(l: Label, tail: Text, nbytes: nat)
    requires PlainLabel(l) && |l| <= 255 && l + tail != []
    ensures
      var r := ReadOwner(l + tail, false, nbytes);
      if tail == [] || tail[0] == DOT then
        if l == [] then r == Refused(Invalid)
        else if |l| > 63 || nbytes + |l| + 1 >= 255 then r == Refused(TooLong)
        else r == Before(l, ReadOwner(if tail == [] then [] else tail[1..], false, nbytes + |l| + 1))
      else if |l| == 255 || !Plain(tail[0], l == []) then r == Refused(Invalid)
      else true
  {
    assert [] + l == l;
    PlainRun(l, tail, []);
    if tail != [] && tail[0] != DOT && (|l| == 255 || !Plain(tail[0], l == [])) {
      StopsRun(tail, l);
    }
  }

  lemma StopsRun(tail: Text, sofar: Label)
    requires tail != [] && tail[0] != DOT && (|sofar| == 255 || !Plain(tail[0], sofar == []))
    ensures ReadLabel(tail, false, sofar) == LabelBad
  {
  }
}
