/**
 What the vote on a G-line must let through (src/m_gline.c): how long a request counts, and that three good ones come
 to a YES whatever else is asked for in between.
 */
module GlineLaws {
  import opened Fields
  import opened GlineVote

  /** A pending ban counts for ten minutes after the last request for it, and the list keeps its order. */
  lemma {:induction false} LiveIs(e: Entry, now: int)
    ensures Unexpired([e], now) == if now < e.p.last + 600 then [e] else []
  {
  }

  lemma {:induction false} LiveConcat(a: seq<Entry>, b: seq<Entry>, now: int)
    ensures Unexpired(a + b, now) == Unexpired(a, now) + Unexpired(b, now)
  {
    if a == [] {
      assert a + b == b;
    } else {
      assert (a + b)[0] == a[0] && (a + b)[1..] == a[1..] + b;
      LiveConcat(a[1..], b, now);
    }
  }

  predicate NoneNames(fold: char -> char, box: seq<Entry>, v: Vote) {
    forall i :: 0 <= i < |box| ==> !Names(fold, box[i].p, v)
  }

  lemma {:induction false} LiveNoneNames(fold: char -> char, box: seq<Entry>, v: Vote, now: int)
    requires NoneNames(fold, box, v)
    ensures NoneNames(fold, Unexpired(box, now), v)
  {
  }

  /** `e` is what a request for the victim of `a` finds: nothing in front of it names that victim. */
  ghost predicate Pends(fold: char -> char, box: seq<Entry>, e: Entry, a: Vote) {
    exists front, back :: Parted(fold, box, front, e, back, a)
  }

  predicate Parted(fold: char -> char, box: seq<Entry>, front: seq<Entry>, e: Entry, back: seq<Entry>, a: Vote) {
    box == front + [e] + back && NoneNames(fold, front, a)
  }

  lemma {:induction false} StaysParted(fold: char -> char, box: seq<Entry>, front: seq<Entry>, e: Entry,
                                       back: seq<Entry>, a: Vote, now: int)
    requires Parted(fold, box, front, e, back, a) && now < e.p.last + 600
    ensures Parted(fold, Unexpired(box, now), Unexpired(front, now), e, Unexpired(back, now), a)
  {
    LiveConcat(front + [e], back, now);
    LiveConcat(front, [e], now);
    LiveIs(e, now);
    LiveNoneNames(fold, front, a, now);
  }

  /** The search finds the entry that pends. */
  lemma {:induction false} FindsParted(fold: char -> char, box: seq<Entry>, front: seq<Entry>, e: Entry,
                                       back: seq<Entry>, a: Vote, v: Vote)
    requires Parted(fold, box, front, e, back, a) && SameAsked(fold, a, v) && Names(fold, e.p, v)
    ensures FirstNamed(fold, box, v) == |front| && box[|front|] == e
  {
    assert box[|front|] == e;
    forall j | 0 <= j < |front|
      ensures !Names(fold, box[j].p, v)
    {
      assert box[j] == front[j];
    }
  }

  /** Requests for the same victim. */
  predicate SameAsked(fold: char -> char, a: Vote, v: Vote) { Same(fold, a.user, v.user) && Same(fold, a.host, v.host) }

  /** A request for another victim, also as far as fields hold its names. */
  predicate Elsewhere(fold: char -> char, a: Vote, w: Vote) {
    !SameAsked(fold, a, w) && !Names(fold, Opened(w), a)
  }

  /** A request for another victim leaves the entry where it pends. */
  lemma {:induction false} OtherKeeps(fold: char -> char, box: seq<Entry>, e: Entry, a: Vote, w: Vote, glined: bool)
    requires Pends(fold, box, e, a) && Elsewhere(fold, a, w) && w.time < e.p.last + 600
    requires SameVictim(fold, e.p, Opened(a)) && VictimFits(a)
    ensures Pends(fold, Cast(fold, box, w, glined).0, e, a)
  {
    var front, back :| Parted(fold, box, front, e, back, a);
    StaysParted(fold, box, front, e, back, a, w.time);
    OtherKeepsLive(fold, Unexpired(box, w.time), Unexpired(front, w.time), e, Unexpired(back, w.time), a, w);
  }

  lemma {:induction false} OtherKeepsLive(fold: char -> char, live: seq<Entry>, front: seq<Entry>, e: Entry,
                                          back: seq<Entry>, a: Vote, w: Vote)
    requires Parted(fold, live, front, e, back, a) && Elsewhere(fold, a, w)
    requires SameVictim(fold, e.p, Opened(a)) && VictimFits(a)
    ensures Pends(fold, live, e, a) && Pends(fold, WithNew(live, w), e, a)
    ensures
      var i := FirstNamed(fold, live, w);
      i < |live| ==> Pends(fold, live[i := Seconded(live[i], w)], e, a)
  {
    var new' := [Entry(Opened(w), [w])];
    assert new' + (front + [e] + back) == (new' + front) + [e] + back;
    assert Parted(fold, WithNew(live, w), new' + front, e, back, a);
    var i := FirstNamed(fold, live, w);
    if i < |live| {
      assert !Names(fold, e.p, w);
      assert live[|front|] == e;
      SecondedParted(fold, live, front, e, back, a, w, i);
    }
  }

  lemma {:induction false} SecondedParted(fold: char -> char, live: seq<Entry>, front: seq<Entry>, e: Entry,
                                          back: seq<Entry>, a: Vote, w: Vote, i: nat)
    requires Parted(fold, live, front, e, back, a) && i < |live| && i != |front|
    ensures Pends(fold, live[i := Seconded(live[i], w)], e, a)
  {
    var s := Seconded(live[i], w);
    if i < |front| {
      assert live[i] == front[i];
      assert live[i := s] == front[i := s] + [e] + back;
      assert Parted(fold, live[i := s], front[i := s], e, back, a);
    } else {
      var k := i - |front| - 1;
      assert live[i] == back[k];
      assert live[i := s] == front + [e] + back[k := s];
      assert Parted(fold, live[i := s], front, e, back[k := s], a);
    }
  }

  /** The list after a run of requests. */
  function After(fold: char -> char, box: seq<Entry>, votes: seq<(Vote, bool)>): seq<Entry>
    decreases |votes|
  {
    if votes == [] then box else After(fold, Cast(fold, box, votes[0].0, votes[0].1).0, votes[1..])
  }

  /** Requests for other victims, all before `deadline`. */
  predicate Meanwhile(fold: char -> char, votes: seq<(Vote, bool)>, a: Vote, deadline: int) {
    forall i :: 0 <= i < |votes| ==> Elsewhere(fold, a, votes[i].0) && votes[i].0.time < deadline
  }

  lemma {:induction false} MeanwhileKeeps(fold: char -> char, box: seq<Entry>, e: Entry, a: Vote,
                                          votes: seq<(Vote, bool)>)
    requires Pends(fold, box, e, a) && Meanwhile(fold, votes, a, e.p.last + 600)
    requires SameVictim(fold, e.p, Opened(a)) && VictimFits(a)
    ensures Pends(fold, After(fold, box, votes), e, a)
    decreases |votes|
  {
    if votes != [] {
      assert Elsewhere(fold, a, votes[0].0);
      OtherKeeps(fold, box, e, a, votes[0].0, votes[0].1);
      assert forall i :: 0 <= i < |votes| - 1 ==> votes[1..][i] == votes[i + 1];
      MeanwhileKeeps(fold, Cast(fold, box, votes[0].0, votes[0].1).0, e, a, votes[1..]);
    }
  }

  /** A request for a victim that is not pending opens an entry. */
  lemma {:induction false} FirstOpens(fold: char -> char, box: seq<Entry>, a: Vote, glined: bool)
    requires forall e :: e in box && a.time < e.p.last + 600 ==> !Names(fold, e.p, a)
    ensures Cast(fold, box, a, glined) == ([Entry(Opened(a), [a])] + Unexpired(box, a.time), false)
    ensures Pends(fold, Cast(fold, box, a, glined).0, Entry(Opened(a), [a]), a)
  {
    var live := Unexpired(box, a.time);
    assert forall i :: 0 <= i < |live| ==> live[i] in live;
    assert Parted(fold, WithNew(live, a), [], Entry(Opened(a), [a]), live, a);
  }

  /** The second request is noted, and counts anew from its time, exactly if it is apart from the first. */
  lemma {:induction false} SecondIsNoted(fold: char -> char, box: seq<Entry>, a: Vote, b: Vote, glined: bool)
    requires Pends(fold, box, Entry(Opened(a), [a]), a) && VictimFits(a) && SameAsked(fold, a, b)
    requires b.time < a.time + 600
    ensures !Cast(fold, box, b, glined).1
    ensures Apart(fold, a, b) ==>
      Pends(fold, Cast(fold, box, b, glined).0, Seconded(Entry(Opened(a), [a]), b), a)
    ensures !Apart(fold, a, b) ==> Cast(fold, box, b, glined).0 == Unexpired(box, b.time)
  {
    var e := Entry(Opened(a), [a]);
    var front, back :| Parted(fold, box, front, e, back, a);
    StaysParted(fold, box, front, e, back, a, b.time);
    var live, f, g := Unexpired(box, b.time), Unexpired(front, b.time), Unexpired(back, b.time);
    FindsParted(fold, live, f, e, g, a, b);
    assert live[|f| := Seconded(e, b)] == f + [Seconded(e, b)] + g;
    assert Parted(fold, live[|f| := Seconded(e, b)], f, Seconded(e, b), g, a);
  }

  /** The third request decides exactly if it is apart from both and the ban is not in force; the list stays. */
  lemma {:induction false} ThirdIsJudged(fold: char -> char, box: seq<Entry>, a: Vote, b: Vote, c: Vote, glined: bool)
    requires Pends(fold, box, Seconded(Entry(Opened(a), [a]), b), a) && VictimFits(a) && SameAsked(fold, a, c)
    requires c.time < b.time + 600 && b.operUser != ""
    ensures Cast(fold, box, c, glined)
      == (Unexpired(box, c.time), Apart(fold, a, c) && Apart(fold, b, c) && !glined)
  {
    var e := Seconded(Entry(Opened(a), [a]), b);
    var front, back :| Parted(fold, box, front, e, back, a);
    StaysParted(fold, box, front, e, back, a, c.time);
    FindsParted(fold, Unexpired(box, c.time), Unexpired(front, c.time), e, Unexpired(back, c.time), a, c);
    SecondIsSomebody(b);
  }

  /**
   Three requests for a victim that fits and is not pending, each within ten minutes of the one before and the second
   apart from the first, with requests for other victims in between, from any list: there is no YES before the third,
   and then one exactly if the third is apart from both and the ban is not in force.
   */
  lemma {:induction false} ThreeDecide(fold: char -> char, box: seq<Entry>, a: Vote, ws: seq<(Vote, bool)>, b: Vote,
                                       xs: seq<(Vote, bool)>, c: Vote, glined: bool)
    requires VictimFits(a) && SameAsked(fold, a, b) && SameAsked(fold, a, c) && b.operUser != ""
    requires forall e :: e in box && a.time < e.p.last + 600 ==> !Names(fold, e.p, a)
    requires Meanwhile(fold, ws, a, a.time + 600) && b.time < a.time + 600 && Apart(fold, a, b)
    requires Meanwhile(fold, xs, a, b.time + 600) && c.time < b.time + 600
    ensures
      var (box1, yes1) := Cast(fold, box, a, glined);
      var (box2, yes2) := Cast(fold, After(fold, box1, ws), b, glined);
      && !yes1 && !yes2
      && Cast(fold, After(fold, box2, xs), c, glined).1 == (Apart(fold, a, c) && Apart(fold, b, c) && !glined)
  {
    var e := Entry(Opened(a), [a]);
    FirstOpens(fold, box, a, glined);
    var box1 := Cast(fold, box, a, glined).0;
    MeanwhileKeeps(fold, box1, e, a, ws);
    SecondIsNoted(fold, After(fold, box1, ws), a, b, glined);
    var box2 := Cast(fold, After(fold, box1, ws), b, glined).0;
    MeanwhileKeeps(fold, box2, Seconded(e, b), a, xs);
    ThirdIsJudged(fold, After(fold, box2, xs), a, b, c, glined);
  }
}
