/**
 Domain names in DNS messages (adns/parse.c, adns/transmit.c): walking over labels and compression
 pointers, finding the owner of a resource record, and copying a name without compression.
 */
module DomainWire {
  import opened Wrappers
  import opened Bytes

  const MAXDOMAIN := 255
  const MAXTTLBELIEVE := 7 * 86400

  datatype Status = UnknownFormat | AnswerDomainTooLong | InvalidResponse | AnswerDomainInvalid

  type Dgram = seq<byte>

  type Label = seq<byte>

  /** Where a walk is; `end` is where the name stops in its place, set by the first pointer or by the root. */
  datatype Cursor = Cursor(cbyte: nat, namelen: nat, max: nat, end: Option<nat>)

  datatype Step = At(start: nat, len: nat) | Root | Truncated | Failed(status: Status)

  /** A whole name. `Endless` is a chain of pointers that comes to no label. */
  datatype Name = Full(labels: seq<Label>, end: nat) | Short | Bad(status: Status) | Endless

  function Start(begin: nat, max: nat): Cursor { Cursor(begin, 0, max, None) }

  /** Where the pointer at the cursor leads, if both its bytes are there. */
  function Target(dgram: Dgram, s: Cursor): Option<nat> {
    if s.cbyte + 1 < |dgram| && s.cbyte + 1 < s.max && dgram[s.cbyte] >= 0xc0
    then Some((dgram[s.cbyte] as int) % 64 * 256 + dgram[s.cbyte + 1])
    else None
  }

  /** After a jump only the datagram bounds the name. */
  function Jump(dgram: Dgram, s: Cursor, target: nat): Cursor {
    Cursor(target, s.namelen, |dgram| + 1, if s.end.None? then Some(s.cbyte + 2) else s.end)
  }

  /** Follow up to `k` pointers; nothing if a pointer is still left. */
  function Chase(dgram: Dgram, s: Cursor, k: nat): Option<Cursor>
    decreases k
  {
    match Target(dgram, s)
    case None => Some(s)
    case Some(t) => if k == 0 then None else Chase(dgram, Jump(dgram, s, t), k - 1)
  }

  /** As many pointers as the datagram has bytes are as good as any number. */
  predicate Ends(dgram: Dgram, s: Cursor) { Chase(dgram, s, |dgram| + 1).Some? }

  lemma {:induction false} ChaseMore(dgram: Dgram, s: Cursor, j: nat, k: nat)
    requires Chase(dgram, s, j).Some? && j <= k
    ensures Chase(dgram, s, k) == Chase(dgram, s, j)
    decreases k
  {
    if Target(dgram, s).Some? {
      ChaseMore(dgram, Jump(dgram, s, Target(dgram, s).value), j - 1, k - 1);
    }
  }

  /** The chain of pointers has exactly `k` of them. */
  predicate Exactly(dgram: Dgram, s: Cursor, k: nat) {
    Chase(dgram, s, k).Some? && (k > 0 ==> Chase(dgram, s, k - 1).None?)
  }

  function Bare(dgram: Dgram, c: nat): Cursor { Cursor(c, 0, |dgram| + 1, Some(0)) }

  /** How far a chain goes depends on the place only. */
  lemma {:induction false} ChaseBare(dgram: Dgram, s: Cursor, k: nat)
    requires s.max == |dgram| + 1
    ensures Chase(dgram, s, k).Some? == Chase(dgram, Bare(dgram, s.cbyte), k).Some?
    decreases k
  {
    var bare := Bare(dgram, s.cbyte);
    assert Target(dgram, s) == Target(dgram, bare);
    if Target(dgram, s).Some? && k > 0 {
      var t := Target(dgram, s).value;
      ChaseBare(dgram, Jump(dgram, s, t), k - 1);
      ChaseBare(dgram, Jump(dgram, bare, t), k - 1);
    }
  }

  lemma {:induction false} ShortChain(dgram: Dgram, c: nat, k: nat, seen: set<nat>)
    requires Exactly(dgram, Bare(dgram, c), k)
    requires forall p :: p in seen ==> p < |dgram| && Chase(dgram, Bare(dgram, p), k).None?
    ensures k + |seen| <= |dgram|
    decreases k
  {
    var s := Bare(dgram, c);
    if k == 0 {
      Few(seen, |dgram|);
    } else {
      var next := Jump(dgram, s, Target(dgram, s).value);
      ChaseBare(dgram, next, k - 1);
      if k > 1 {
        ChaseBare(dgram, next, k - 2);
      }
      forall p | p in seen
        ensures Chase(dgram, Bare(dgram, p), k - 1).None?
      {
        if Chase(dgram, Bare(dgram, p), k - 1).Some? {
          ChaseMore(dgram, Bare(dgram, p), k - 1, k);
        }
      }
      ShortChain(dgram, next.cbyte, k - 1, seen + {c});
    }
  }

  lemma {:induction false} Few(seen: set<nat>, n: nat)
    requires forall p :: p in seen ==> p < n
    ensures |seen| <= n
  {
    if n > 0 {
      Few(seen - {n - 1}, n - 1);
    } else {
      assert seen == {};
    }
  }

  lemma {:induction false} Shortest(dgram: Dgram, s: Cursor, k: nat) returns (j: nat)
    requires Chase(dgram, s, k).Some?
    ensures j <= k && Exactly(dgram, s, j)
  {
    if k == 0 || Chase(dgram, s, k - 1).None? {
      j := k;
    } else {
      j := Shortest(dgram, s, k - 1);
    }
  }

  /** A chain of pointers that ends at all ends within the bound: `Ends` is exactly termination. */
  lemma ChainEndsSoonOrNever(dgram: Dgram, s: Cursor, k: nat)
    ensures Chase(dgram, s, k).Some? ==> Ends(dgram, s) && Chase(dgram, s, |dgram| + 1) == Chase(dgram, s, k)
  {
    if Chase(dgram, s, k).Some? {
      if k > 0 && Target(dgram, s).Some? {
        var next := Jump(dgram, s, Target(dgram, s).value);
        ChaseBare(dgram, next, k - 1);
        var j := Shortest(dgram, Bare(dgram, next.cbyte), k - 1);
        ShortChain(dgram, next.cbyte, j, {});
        ChaseBare(dgram, next, j);
        ChaseMore(dgram, next, j, |dgram|);
      }
      ChaseMore(dgram, s, if k < |dgram| + 1 then k else |dgram| + 1, if k < |dgram| + 1 then |dgram| + 1 else k);
    }
  }

  /** Every pointer leads to an earlier place, as section 4.1.4 of RFC 1035 has it. */
  predicate Backward(dgram: Dgram) {
    forall c :: 0 <= c < |dgram| && Target(dgram, Bare(dgram, c)).Some? ==> Target(dgram, Bare(dgram, c)).value < c
  }

  lemma {:induction false} BackwardEnds(dgram: Dgram, s: Cursor)
    requires Backward(dgram)
    ensures Ends(dgram, s)
  {
    BackwardChase(dgram, s);
    ChainEndsSoonOrNever(dgram, s, s.cbyte);
  }

  lemma {:induction false} BackwardChase(dgram: Dgram, s: Cursor)
    requires Backward(dgram)
    ensures Chase(dgram, s, s.cbyte).Some?
    decreases s.cbyte
  {
    var t := Target(dgram, s);
    if t.Some? {
      assert Target(dgram, Bare(dgram, s.cbyte)) == t;
      var next := Jump(dgram, s, t.value);
      BackwardChase(dgram, next);
      ChaseMore(dgram, next, next.cbyte, s.cbyte - 1);
    }
  }

  /** A pointer to itself, anywhere in any datagram, is never left, however many times it is followed. */
  lemma {:induction false} SelfPointerNeverEnds(dgram: Dgram, s: Cursor, k: nat)
    requires Target(dgram, s) == Some(s.cbyte)
    ensures Chase(dgram, s, k).None?
    decreases k
  {
    if k > 0 {
      SelfPointerNeverEnds(dgram, Jump(dgram, s, s.cbyte), k - 1);
    }
  }

  /** What is at a cursor that stands on no pointer. */
  function Here(dgram: Dgram, s: Cursor): (r: (Step, Cursor))
    requires Target(dgram, s).None?
    ensures r.0.Root? ==> r.1.end.Some?
    ensures r.0.At? ==> s.namelen < r.1.namelen <= MAXDOMAIN && r.0.len < 64 && InDgram(dgram, r.0)
  {
    if s.cbyte >= |dgram| then (Truncated, s)
    else if s.cbyte >= s.max then (Failed(InvalidResponse), s)
    else
      var lablen := dgram[s.cbyte];
      var start := s.cbyte + 1;
      if lablen >= 0xc0 then (if start >= |dgram| then Truncated else Failed(InvalidResponse), s)
      else if lablen >= 0x40 then (Failed(UnknownFormat), s)
      else if lablen == 0 then (Root, s.(cbyte := start, end := if s.end.None? then Some(start) else s.end))
      else
        var namelen := s.namelen + lablen + if s.namelen > 0 then 1 else 0;
        if namelen > MAXDOMAIN then (Failed(AnswerDomainTooLong), s)
        else if start + lablen > |dgram| then (Truncated, s)
        else if start + lablen > s.max then (Failed(InvalidResponse), s)
        else (At(start, lablen), s.(cbyte := start + lablen, namelen := namelen))
  }

  lemma ChaseStops(dgram: Dgram, s: Cursor, k: nat)
    requires Chase(dgram, s, k).Some?
    ensures Target(dgram, Chase(dgram, s, k).value).None? && Chase(dgram, s, k).value.namelen == s.namelen
    decreases k
  {
    if Target(dgram, s).Some? {
      ChaseStops(dgram, Jump(dgram, s, Target(dgram, s).value), k - 1);
    }
  }

  /** The next label of a name and the cursor behind it. */
  function NextStep(dgram: Dgram, s: Cursor): (r: (Step, Cursor))
    requires Ends(dgram, s)
    ensures r.0.Root? ==> r.1.end.Some?
    ensures r.0.At? ==> s.namelen < r.1.namelen <= MAXDOMAIN && r.0.len < 64 && InDgram(dgram, r.0)
  {
    ChaseStops(dgram, s, |dgram| + 1);
    Here(dgram, Chase(dgram, s, |dgram| + 1).value)
  }

  /** A label inside the datagram, or the root. */
  predicate InDgram(dgram: Dgram, step: Step) {
    step.Root? || (step.At? && step.len > 0 && step.start + step.len <= |dgram|)
  }

  function Slice(dgram: Dgram, step: Step): Label
    requires step.At? && InDgram(dgram, step)
  {
    dgram[step.start..step.start + step.len]
  }

  function Prepend(octets: Label, name: Name): Name {
    if name.Full? then name.(labels := [octets] + name.labels) else name
  }

  /** The name at a cursor. */
  function Read(dgram: Dgram, s: Cursor): Name
    decreases MAXDOMAIN - s.namelen
  {
    if !Ends(dgram, s) then Endless
    else
      var (step, next) := NextStep(dgram, s);
      match step
      case At(_, _) => Prepend(Slice(dgram, step), Read(dgram, next))
      case Root => Full([], next.end.value)
      case Truncated => Short
      case Failed(st) => Bad(st)
  }

  /** Walking over any name of a datagram with backward pointers comes to an end. */
  lemma {:induction false} BackwardNamesEnd(dgram: Dgram, s: Cursor)
    requires Backward(dgram)
    ensures !Read(dgram, s).Endless?
    decreases MAXDOMAIN - s.namelen
  {
    BackwardEnds(dgram, s);
    match NextStep(dgram, s)
    case (At(_, _), s') => BackwardNamesEnd(dgram, s');
    case _ =>
  }

  /** `findlabel_state`, a walk in progress. */
  class FindLabel {
    const dgram: Dgram
    var cbyte: nat
    var namelen: nat
    var max: nat
    var dmend: Option<nat>

    constructor (dgram: Dgram, begin: nat, max: nat)
      ensures this.dgram == dgram && State() == Start(begin, max)
    {
      this.dgram, cbyte, namelen, this.max, dmend := dgram, begin, 0, max, None;
    }

    ghost function State(): Cursor
      reads this
    {
      Cursor(cbyte, namelen, max, dmend)
    }

    /** `adns__findlabel_next`. It comes to an end exactly if the pointers it meets do. */
    method Next() returns (step: Step)
      requires Ends(dgram, State())
      modifies this
      ensures (step, State()) == NextStep(dgram, old(State()))
    {
      var lablen;
      ghost var left: nat := |dgram| + 1;
      ghost var goal := Chase(dgram, State(), left);
      while true
        invariant Chase(dgram, State(), left) == goal && namelen == old(namelen)
        decreases left
      {
        if cbyte >= |dgram| { return Truncated; }
        if cbyte >= max { return Failed(InvalidResponse); }
        lablen := dgram[cbyte];
        if lablen < 0x40 { break; }
        if lablen < 0xc0 { return Failed(UnknownFormat); }
        if cbyte + 1 >= |dgram| { return Truncated; }
        if cbyte + 1 >= max { return Failed(InvalidResponse); }
        var jumpto := (lablen as int) % 64 * 256 + dgram[cbyte + 1];
        if dmend.None? { dmend := Some(cbyte + 2); }
        cbyte, max := jumpto, |dgram| + 1;
        left := left - 1;
      }
      var start := cbyte + 1;
      if lablen == 0 {
        cbyte := start;
        if dmend.None? { dmend := Some(cbyte); }
        return Root;
      }
      var len := namelen + lablen + if namelen > 0 then 1 else 0;
      if len > MAXDOMAIN { return Failed(AnswerDomainTooLong); }
      if start + lablen > |dgram| { return Truncated; }
      if start + lablen > max { return Failed(InvalidResponse); }
      namelen, cbyte := len, start + lablen;
      step := At(start, lablen);
    }
  }

  /** Letters compare without case. */
  function Upper(b: byte): byte { if 'a' as int <= b <= 'z' as int then b - 32 else b }

  predicate SameLabel(a: Label, b: Label) {
    |a| == |b| && forall i :: 0 <= i < |a| ==> Upper(a[i]) == Upper(b[i])
  }

  /** Names are equal if their labels are, up to ASCII case (section 2.3.3 of RFC 1035). */
  predicate SameName(a: seq<Label>, b: seq<Label>) {
    |a| == |b| && forall i :: 0 <= i < |a| ==> SameLabel(a[i], b[i])
  }

  lemma SameNameCons(x: Label, a: seq<Label>, y: Label, b: seq<Label>)
    ensures SameName([x] + a, [y] + b) <==> SameLabel(x, y) && SameName(a, b)
  {
    var xa, yb := [x] + a, [y] + b;
    assert xa[0] == x && yb[0] == y;
    assert forall i :: 0 <= i < |a| ==> a[i] == xa[i + 1];
    assert forall i :: 0 <= i < |b| ==> b[i] == yb[i + 1];
  }

  /** How a name stops, whatever its labels. */
  function Ending(name: Name): Name {
    if name.Full? then name.(labels := []) else name
  }

  /** A resource record's fixed part, and whether its owner is the name looked for. */
  datatype Record = Rr(type': nat, class': nat, ttl: nat, rdlen: nat, rdstart: nat, next: nat, matched: bool) | Cut
    | BadRr(status: Status)

  function Word(dgram: Dgram, c: nat): nat
    requires c + 2 <= |dgram|
  {
    dgram[c] as nat * 256 + dgram[c + 1]
  }

  function Long(dgram: Dgram, c: nat): nat
    requires c + 4 <= |dgram|
  {
    Word(dgram, c) * 0x10000 + Word(dgram, c + 2)
  }

  /** The record behind `owner`, if that can be read. */
  function RecordAt(dgram: Dgram, owner: Name, matched: bool): Record
    requires !owner.Endless?
  {
    match owner
    case Bad(st) => BadRr(st)
    case Short => Cut
    case Full(_, end) =>
      if end + 10 > |dgram| || end + 10 + Word(dgram, end + 8) > |dgram| then Cut
      else
        Rr(Word(dgram, end), Word(dgram, end + 2),
           if Long(dgram, end + 4) > MAXTTLBELIEVE then MAXTTLBELIEVE else Long(dgram, end + 4),
           Word(dgram, end + 8), end + 10, end + 10 + Word(dgram, end + 8), matched)
  }

  /** The comparison loop over two labels of equal length. */
  method LabelsDiffer(dgram: Dgram, start: nat, len: nat, dgram': Dgram, start': nat) returns (differ: bool)
    requires start + len <= |dgram| && start' + len <= |dgram'|
    ensures differ <==> !SameLabel(dgram[start..start + len], dgram'[start'..start' + len])
  {
    var i := 0;
    while i < len
      invariant 0 <= i <= len && SameLabel(dgram[start..start + i], dgram'[start'..start' + i])
    {
      if Upper(dgram[start + i]) != Upper(dgram'[start' + i]) {
        assert dgram[start..start + len][i] == dgram[start + i]
          && dgram'[start'..start' + len][i] == dgram'[start' + i];
        return true;
      }
      i := i + 1;
      assert dgram[start..start + i] == dgram[start..start + i - 1] + [dgram[start + i - 1]];
      assert dgram'[start'..start' + i] == dgram'[start'..start' + i - 1] + [dgram'[start' + i - 1]];
    }
    differ := false;
  }

  /** Both names have the same labels up to case. */
  predicate Matches(name: Name, other: Name) {
    name.Full? && other.Full? && SameName(name.labels, other.labels)
  }

  /** The loop of `adns__findrr_anychk`: how the owner stops, and whether it is the name `efls` walks over. */
  method MatchOwner(fls: FindLabel, efls: FindLabel, eo: bool) returns (stop: Step, matched: bool)
    requires fls != efls && !Read(fls.dgram, fls.State()).Endless?
    requires eo ==> Read(efls.dgram, efls.State()).Full?
    modifies fls, efls
    ensures
      match old(Read(fls.dgram, fls.State()))
      case Full(_, end) => stop == Root && fls.dmend == Some(end)
      case Short => stop == Truncated
      case Bad(st) => stop == Failed(st)
    ensures stop.Root? ==>
      (matched <==> eo && old(Matches(Read(fls.dgram, fls.State()), Read(efls.dgram, efls.State()))))
  {
    var mismatch := !eo;
    ghost var whole, wanted := Read(fls.dgram, fls.State()), Read(efls.dgram, efls.State());
    while true
      invariant Ending(whole) == Ending(Read(fls.dgram, fls.State()))
      invariant !mismatch ==> Read(efls.dgram, efls.State()).Full?
      invariant whole.Full? ==> (eo && Matches(whole, wanted) <==>
        !mismatch && Matches(Read(fls.dgram, fls.State()), Read(efls.dgram, efls.State())))
      decreases MAXDOMAIN - fls.namelen
    {
      if !mismatch {
        WholeStep(efls.dgram, efls.State());
        if InDgram(fls.dgram, NextStep(fls.dgram, fls.State()).0) {
          MatchStep(fls.dgram, fls.State(), efls.dgram, efls.State());
        }
      }
      EndingStep(fls.dgram, fls.State());
      stop := fls.Next();
      if stop.Failed? || stop.Truncated? { return stop, false; }
      if !mismatch {
        var estop := efls.Next();
        mismatch := CompareLabels(fls.dgram, stop, efls.dgram, estop);
      }
      if stop.Root? { break; }
    }
    matched := !mismatch;
  }

  /** Two places hold the same label, or both hold the root. */
  predicate SameStep(dgram: Dgram, step: Step, dgram': Dgram, step': Step)
    requires InDgram(dgram, step) && InDgram(dgram', step')
  {
    if step.Root? then step'.Root?
    else step'.At? && SameLabel(Slice(dgram, step), Slice(dgram', step'))
  }

  /** Walking on does not change how a name stops. */
  lemma EndingStep(dgram: Dgram, s: Cursor)
    requires !Read(dgram, s).Endless?
    ensures NextStep(dgram, s).0.At? ==> Ending(Read(dgram, s)) == Ending(Read(dgram, NextStep(dgram, s).1))
  {
  }

  lemma PrependMatches(x: Label, name: Name, y: Label, name': Name)
    ensures Matches(Prepend(x, name), Prepend(y, name')) <==> SameLabel(x, y) && Matches(name, name')
  {
    if name.Full? && name'.Full? {
      SameNameCons(x, name.labels, y, name'.labels);
    }
  }

  lemma ReadOn(dgram: Dgram, s: Cursor)
    requires Ends(dgram, s)
    ensures NextStep(dgram, s).0.At? ==>
      Read(dgram, s) == Prepend(Slice(dgram, NextStep(dgram, s).0), Read(dgram, NextStep(dgram, s).1))
    ensures NextStep(dgram, s).0.Root? ==> Read(dgram, s).Full? && Read(dgram, s).labels == []
  {
  }

  /** Names match if their first labels are the same and what is behind them matches. */
  lemma MatchStep(dgram: Dgram, s: Cursor, dgram': Dgram, s': Cursor)
    requires Ends(dgram, s) && InDgram(dgram, NextStep(dgram, s).0)
    requires Ends(dgram', s') && InDgram(dgram', NextStep(dgram', s').0)
    ensures
      var ((step, t), (step', t')) := (NextStep(dgram, s), NextStep(dgram', s'));
      Matches(Read(dgram, s), Read(dgram', s')) <==>
      SameStep(dgram, step, dgram', step') && (step.Root? || Matches(Read(dgram, t), Read(dgram', t')))
  {
    var ((step, t), (step', t')) := (NextStep(dgram, s), NextStep(dgram', s'));
    ReadOn(dgram, s);
    ReadOn(dgram', s');
    if step.At? && step'.At? {
      PrependMatches(Slice(dgram, step), Read(dgram, t), Slice(dgram', step'), Read(dgram', t'));
    }
  }

  /** A whole name goes on, whole, or is at its root. */
  lemma WholeStep(dgram: Dgram, s: Cursor)
    requires Read(dgram, s).Full?
    ensures InDgram(dgram, NextStep(dgram, s).0)
    ensures NextStep(dgram, s).0.At? ==> Read(dgram, NextStep(dgram, s).1).Full?
  {
  }

  /** Whether two places hold different labels, the root being a label of no octets. */
  method CompareLabels(dgram: Dgram, step: Step, dgram': Dgram, step': Step) returns (mismatch: bool)
    requires InDgram(dgram, step) && InDgram(dgram', step')
    ensures mismatch <==> !SameStep(dgram, step, dgram', step')
  {
    var lablen, lablen' := if step.At? then step.len else 0, if step'.At? then step'.len else 0;
    if lablen != lablen' {
      mismatch := true;
    } else if step.Root? {
      mismatch := false;
    } else {
      mismatch := LabelsDiffer(dgram, step.start, lablen, dgram', step'.start);
    }
  }

  /**
     `adns__findrr_anychk`: the record at `begin`, matched exactly if its owner and the name at `eo.1` of
     the datagram `eo.0` have the same labels up to case, however either of them is compressed. That
     second name was read before, so it is whole.
   */
  method FindRr(dgram: Dgram, begin: nat, eo: Option<(Dgram, nat)>) returns (r: Record)
    requires !Read(dgram, Start(begin, |dgram|)).Endless?
    requires eo.Some? ==> Read(eo.value.0, Start(eo.value.1, |eo.value.0|)).Full?
    ensures r == RecordAt(dgram, Read(dgram, Start(begin, |dgram|)),
                          eo.Some? && Matches(Read(dgram, Start(begin, |dgram|)),
                                              Read(eo.value.0, Start(eo.value.1, |eo.value.0|))))
  {
    var fls := new FindLabel(dgram, begin, |dgram|);
    var (edgram, ebegin) := if eo.Some? then eo.value else ([0], 0);
    var efls := new FindLabel(edgram, ebegin, |edgram|);
    var stop, matched := MatchOwner(fls, efls, eo.Some?);
    if stop.Failed? { return BadRr(stop.status); }
    if stop.Truncated? { return Cut; }
    var end := fls.dmend.value;
    if end + 10 > |dgram| { return Cut; }
    var ttl := Long(dgram, end + 4);
    if ttl > MAXTTLBELIEVE { ttl := MAXTTLBELIEVE; }
    var rdlen := Word(dgram, end + 8);
    if end + 10 + rdlen > |dgram| { return Cut; }
    r := Rr(Word(dgram, end), Word(dgram, end + 2), ttl, rdlen, end + 10, end + 10 + rdlen, matched);
  }

  /** A label fits the format: 1 to 63 octets (section 2.3.4 of RFC 1035). */
  predicate LegalLabel(l: Label) { 0 < |l| < 64 }

  predicate LegalLabels(labels: seq<Label>) { forall i :: 0 <= i < |labels| ==> LegalLabel(labels[i]) }

  /** Length of a name, counting one between labels, when `namelen` was counted before. */
  function Grown(namelen: nat, labels: seq<Label>): nat
    decreases |labels|
  {
    if labels == [] then namelen
    else Grown(namelen + |labels[0]| + if namelen > 0 then 1 else 0, labels[1..])
  }

  /** A name without compression. */
  function Wire(labels: seq<Label>): seq<byte>
    requires LegalLabels(labels)
  {
    if labels == [] then [0] else [|labels[0]|] + labels[0] + Wire(labels[1..])
  }

  /** What was read is a legal name. */
  lemma {:induction false} ReadIsLegal(dgram: Dgram, s: Cursor)
    requires Read(dgram, s).Full? && s.namelen <= MAXDOMAIN
    ensures LegalLabels(Read(dgram, s).labels) && Grown(s.namelen, Read(dgram, s).labels) <= MAXDOMAIN
    decreases MAXDOMAIN - s.namelen
  {
    var (step, t) := NextStep(dgram, s);
    ChaseStops(dgram, s, |dgram| + 1);
    ReadOn(dgram, s);
    if step.At? {
      ReadIsLegal(dgram, t);
      LegalCons(s.namelen, Slice(dgram, step), Read(dgram, t).labels);
    }
  }

  lemma LegalCons(namelen: nat, l: Label, labels: seq<Label>)
    requires LegalLabel(l) && LegalLabels(labels)
    ensures LegalLabels([l] + labels)
    ensures Grown(namelen, [l] + labels) == Grown(namelen + |l| + if namelen > 0 then 1 else 0, labels)
  {
    assert ([l] + labels)[1..] == labels;
  }

  /** `part` stands at `c`. */
  predicate Stands(dgram: Dgram, c: nat, part: seq<byte>) {
    c + |part| <= |dgram| && dgram[c..c + |part|] == part
  }

  lemma StandsApart(dgram: Dgram, c: nat, a: seq<byte>, b: seq<byte>)
    ensures Stands(dgram, c, a + b) <==> Stands(dgram, c, a) && Stands(dgram, c + |a|, b)
  {
    if c + |a + b| <= |dgram| {
      var whole := dgram[c..c + |a + b|];
      assert whole[..|a|] == dgram[c..c + |a|] && whole[|a|..] == dgram[c + |a|..c + |a| + |b|];
      assert whole == whole[..|a|] + whole[|a|..];
      assert (a + b)[..|a|] == a && (a + b)[|a|..] == b;
    }
  }

  /** The cursor behind a label that stands at `s`. */
  function After(s: Cursor, l: Label): Cursor {
    s.(cbyte := s.cbyte + 1 + |l|, namelen := s.namelen + |l| + if s.namelen > 0 then 1 else 0)
  }

  /** A name written without compression reads as its labels, wherever it stands. */
  lemma {:induction false} ReadWire(dgram: Dgram, s: Cursor, labels: seq<Label>)
    requires s.end.None? && LegalLabels(labels) && Grown(s.namelen, labels) <= MAXDOMAIN
    requires s.cbyte + |Wire(labels)| <= s.max && Stands(dgram, s.cbyte, Wire(labels))
    ensures Read(dgram, s) == Full(labels, s.cbyte + |Wire(labels)|)
    decreases |labels|
  {
    if labels == [] {
      assert dgram[s.cbyte..s.cbyte + 1][0] == dgram[s.cbyte];
      LengthByte(dgram, s);
    } else {
      var l, rest, next := labels[0], labels[1..], After(s, labels[0]);
      GrownGrows(next.namelen, rest);
      StandsApart(dgram, s.cbyte, [|l|] + l, Wire(rest));
      HeadStep(dgram, s, l);
      ReadWire(dgram, next, rest);
      PrependFull(labels, Read(dgram, next));
    }
  }

  lemma PrependFull(labels: seq<Label>, name: Name)
    requires labels != [] && name.Full? && name.labels == labels[1..]
    ensures Prepend(labels[0], name) == Full(labels, name.end)
  {
    assert labels == [labels[0]] + labels[1..];
  }

  lemma HeadStep(dgram: Dgram, s: Cursor, l: Label)
    requires LegalLabel(l) && Stands(dgram, s.cbyte, [|l|] + l) && s.cbyte + 1 + |l| <= s.max
    requires After(s, l).namelen <= MAXDOMAIN
    ensures Read(dgram, s) == Prepend(l, Read(dgram, After(s, l)))
  {
    StandsApart(dgram, s.cbyte, [|l|], l);
    assert dgram[s.cbyte..s.cbyte + 1][0] == dgram[s.cbyte];
    LengthByte(dgram, s);
    assert Here(dgram, s) == (At(s.cbyte + 1, |l|), After(s, l));
    assert Slice(dgram, At(s.cbyte + 1, |l|)) == l;
    ReadOn(dgram, s);
  }

  /** A length byte below 64 is no pointer: the label stands here. */
  lemma LengthByte(dgram: Dgram, s: Cursor)
    requires s.cbyte < |dgram| && s.cbyte < s.max && dgram[s.cbyte] < 64
    ensures Ends(dgram, s) && NextStep(dgram, s) == Here(dgram, s)
  {
  }

  lemma {:induction false} GrownGrows(namelen: nat, labels: seq<Label>)
    ensures namelen <= Grown(namelen, labels)
    decreases |labels|
  {
    if labels != [] {
      GrownGrows(namelen + |labels[0]| + if namelen > 0 then 1 else 0, labels[1..]);
    }
  }

  const HDRSIZE := 12
  const CLASS_IN := 1

  function Bytes2(w: nat): seq<byte> { [w / 256 % 256, w % 256] }

  /** `mkquery_header`: a recursive query with one question. */
  function Header(id: nat): (r: seq<byte>)
    ensures |r| == HDRSIZE
  {
    Bytes2(id % 0x10000) + [1, 0] + Bytes2(1) + Bytes2(0) + Bytes2(0) + Bytes2(0)
  }

  /** `mkquery_footer` */
  function Footer(qtype: nat): seq<byte> { Bytes2(qtype) + Bytes2(CLASS_IN) }

  /** The message that asks for records of type `qtype` of a name. */
  function Question(id: nat, labels: seq<Label>, qtype: nat): Dgram
    requires LegalLabels(labels)
  {
    Header(id) + Wire(labels) + Footer(qtype)
  }

  /** The question's name is the labels put in. */
  lemma QuestionReads(id: nat, labels: seq<Label>, qtype: nat)
    requires LegalLabels(labels) && Grown(0, labels) <= MAXDOMAIN
    ensures Read(Question(id, labels, qtype), Start(HDRSIZE, |Question(id, labels, qtype)|)) ==
      Full(labels, HDRSIZE + |Wire(labels)|)
  {
    var dgram := Question(id, labels, qtype);
    assert dgram[HDRSIZE..HDRSIZE + |Wire(labels)|] == Wire(labels);
    ReadWire(dgram, Start(HDRSIZE, |dgram|), labels);
  }

  lemma WireOn(before: seq<byte>, l: Label, labels: seq<Label>)
    requires LegalLabels([l] + labels)
    ensures LegalLabels(labels) && before + Wire([l] + labels) == (before + [|l|] + l) + Wire(labels)
  {
    var all := [l] + labels;
    assert all[0] == l && all[1..] == labels;
    assert forall i :: 0 <= i < |labels| ==> labels[i] == all[i + 1];
  }

  /** The places of the datagram from which a name is copied: length bytes, labels and the root. */
  function Used(dgram: Dgram, s: Cursor): seq<nat>
    requires Read(dgram, s).Full?
    decreases MAXDOMAIN - s.namelen
  {
    ReadOn(dgram, s);
    var (step, t) := NextStep(dgram, s);
    if step.At? then Range(step.start - 1, step.len + 1) + Used(dgram, t) else [t.cbyte - 1]
  }

  function Range(from: nat, n: nat): (r: seq<nat>)
    ensures |r| == n && forall i :: 0 <= i < n ==> r[i] == from + i
  {
    seq(n, i requires 0 <= i < n => from + i)
  }

  lemma {:induction false} UsedIsWire(dgram: Dgram, s: Cursor)
    requires Read(dgram, s).Full? && LegalLabels(Read(dgram, s).labels)
    ensures |Used(dgram, s)| == |Wire(Read(dgram, s).labels)|
    ensures forall i :: 0 <= i < |Used(dgram, s)| ==> Used(dgram, s)[i] < |dgram|
    decreases MAXDOMAIN - s.namelen
  {
    ReadOn(dgram, s);
    ChaseStops(dgram, s, |dgram| + 1);
    var (step, t) := NextStep(dgram, s);
    if step.At? {
      WireOn([], Slice(dgram, step), Read(dgram, t).labels);
      UsedIsWire(dgram, t);
    }
  }

  predicate EachOnce(places: seq<nat>) { forall i, j :: 0 <= i < j < |places| ==> places[i] != places[j] }

  lemma {:induction false} OnceFits(places: seq<nat>, n: nat)
    requires EachOnce(places) && forall i :: 0 <= i < |places| ==> places[i] < n
    ensures |places| <= n
  {
    var all := set i | 0 <= i < |places| :: places[i];
    OnceCounts(places);
    Few(all, n);
  }

  lemma {:induction false} OnceCounts(places: seq<nat>)
    requires EachOnce(places)
    ensures |set i | 0 <= i < |places| :: places[i]| == |places|
  {
    if places != [] {
      var n := |places| - 1;
      var front := places[..n];
      OnceCounts(front);
      var was := set i | 0 <= i < n :: front[i];
      assert (set i | 0 <= i < |places| :: places[i]) == was + {places[n]};
      assert places[n] !in was;
    }
  }

  /**
     The room set aside for the name is as long as the datagram it is copied from. It is enough if no place
     of the datagram is used twice.
   */
  lemma NameHasRoom(dgram: Dgram, s: Cursor)
    requires Read(dgram, s).Full? && LegalLabels(Read(dgram, s).labels) && EachOnce(Used(dgram, s))
    ensures |Wire(Read(dgram, s).labels)| <= |dgram|
  {
    UsedIsWire(dgram, s);
    OnceFits(Used(dgram, s), |dgram|);
  }

  const INNER: Label := seq(38, _ => 120)

  /** A label of 40 octets that holds a label of 38 and the root, and a pointer into it. */
  const OVERLAP: seq<byte> := [40, 38] + INNER + [0, 0xc0, HDRSIZE + 6]

  /** What a message needs in front of its records: the header, and a question for the root. */
  predicate IsFront(front: seq<byte>) { |front| == HDRSIZE + 5 }

  lemma OverlapAt(front: seq<byte>)
    requires IsFront(front)
    ensures
      var dgram := front + OVERLAP;
      && |dgram| == 60 && dgram[17] == 40 && dgram[18] == 38 && dgram[57] == 0 && dgram[58] == 0xc0 && dgram[59] == 18
      && dgram[19..57] == INNER && dgram[18..58] == [38] + INNER + [0]
  {
    var dgram := front + OVERLAP;
    assert dgram[18..58] == OVERLAP[1..41] == [38] + INNER + [0];
    assert dgram[19..57] == OVERLAP[2..40] == INNER;
  }

  /** Behind any header and question, 43 octets hold a name that takes 81: the message has room for 60. */
  lemma OverlappingNameHasNoRoom(front: seq<byte>)
    requires IsFront(front)
    ensures
      var dgram, labels := front + OVERLAP, [[38] + INNER + [0], INNER];
      && Read(dgram, Start(|front|, |dgram|)) == Full(labels, |dgram|) && LegalLabels(labels)
      && |Wire(labels)| == 81 && |dgram| == 60
  {
    var dgram, first := front + OVERLAP, [38] + INNER + [0];
    OverlapAt(front);
    OverlappingTail(front);
    assert |first| == 40 && dgram[17..58] == [dgram[17]] + dgram[18..58];
    HeadStep(dgram, Start(17, 60), first);
    WireOn([], first, [INNER]);
    WireOn([], INNER, []);
  }

  lemma OverlappingTail(front: seq<byte>)
    requires IsFront(front)
    ensures Read(front + OVERLAP, Cursor(58, 40, 60, None)) == Full([INNER], 60)
  {
    var dgram := front + OVERLAP;
    var t, u, v := Cursor(58, 40, 60, None), Cursor(18, 40, 61, Some(60)), Cursor(57, 79, 61, Some(60));
    OverlapAt(front);
    assert Target(dgram, t) == Some(18) && Jump(dgram, t, 18) == u;
    assert Chase(dgram, t, 61) == Chase(dgram, u, 60) == Some(u);
    assert NextStep(dgram, t) == Here(dgram, u) == (At(19, 38), v);
    ReadOn(dgram, t);
    LengthByte(dgram, v);
    ReadOn(dgram, v);
    assert Read(dgram, v) == Full([], 60) && Slice(dgram, At(19, 38)) == INNER;
  }

  /** `adns__mkquery_frdgram`: ask for the name at `begin` of a datagram, which was read before. */
  method MkQueryFrDgram(id: nat, dgram: Dgram, begin: nat, qtype: nat) returns (vb: Dgram)
    requires Read(dgram, Start(begin, |dgram|)).Full?
    ensures LegalLabels(Read(dgram, Start(begin, |dgram|)).labels)
    ensures vb == Question(id, Read(dgram, Start(begin, |dgram|)).labels, qtype)
    ensures Read(vb, Start(HDRSIZE, |vb|)) == Full(Read(dgram, Start(begin, |dgram|)).labels, |vb| - 4)
    ensures EachOnce(Used(dgram, Start(begin, |dgram|))) ==> |vb| <= HDRSIZE + |dgram| + 4
  {
    var fls := new FindLabel(dgram, begin, |dgram|);
    ReadIsLegal(dgram, fls.State());
    ghost var labels := Read(dgram, fls.State()).labels;
    var name := CopyLabels(fls);
    vb := Header(id) + name + Footer(qtype);
    QuestionReads(id, labels, qtype);
    if EachOnce(Used(dgram, Start(begin, |dgram|))) {
      NameHasRoom(dgram, Start(begin, |dgram|));
    }
  }

  /** One turn of the copying loop. */
  lemma CopyOn(vb: seq<byte>, dgram: Dgram, s: Cursor)
    requires Read(dgram, s).Full? && LegalLabels(Read(dgram, s).labels)
    ensures
      var (step, t) := NextStep(dgram, s);
      && (step.At? || step.Root?)
      && (step.Root? ==> Wire(Read(dgram, s).labels) == [0])
      && (step.At? ==>
            Read(dgram, t).Full? && LegalLabels(Read(dgram, t).labels) &&
            vb + Wire(Read(dgram, s).labels) == (vb + [|Slice(dgram, step)|] + Slice(dgram, step))
              + Wire(Read(dgram, t).labels))
  {
    ReadOn(dgram, s);
    var (step, t) := NextStep(dgram, s);
    if step.At? {
      WireOn(vb, Slice(dgram, step), Read(dgram, t).labels);
    }
  }

  /** The copying loop: a name without compression. */
  method CopyLabels(fls: FindLabel) returns (vb: seq<byte>)
    requires Read(fls.dgram, fls.State()).Full? && LegalLabels(Read(fls.dgram, fls.State()).labels)
    modifies fls
    ensures vb == old(Wire(Read(fls.dgram, fls.State()).labels))
  {
    vb := [];
    ghost var whole := Wire(Read(fls.dgram, fls.State()).labels);
    while true
      invariant Read(fls.dgram, fls.State()).Full? && LegalLabels(Read(fls.dgram, fls.State()).labels)
      invariant vb + Wire(Read(fls.dgram, fls.State()).labels) == whole
      decreases MAXDOMAIN - fls.namelen
    {
      CopyOn(vb, fls.dgram, fls.State());
      var step := fls.Next();
      if step.Root? { break; }
      var octets := Slice(fls.dgram, step);
      vb := vb + [|octets|] + octets;
    }
    vb := vb + [0];
  }
}
