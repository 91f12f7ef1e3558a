/**
 Whole runs of SJOIN lines on one server: what they settle on, and exactly when their order does not
 matter (src/channel.c).
 */
module SjoinRuns {
  import opened Wrappers
  import opened ModeText
  import opened Sjoin
  import opened SjoinAgreement

  function ArrivalTs(a: Arrival): int { NewTs(a.line) }

  function OfferedMode(a: Arrival): Mode
    requires Read(a.line).Some?
  {
    Read(a.line).value.mode
  }

  function OfferedRanks(a: Arrival): map<string, Rank>
    requires Read(a.line).Some?
  {
    Claims(Toks(a.line), a.accepted)
  }

  /** The channel after a run of lines, the first of which created it. */
  function Run(arrivals: seq<Arrival>, now: int): Chan
    requires arrivals != [] && forall a <- arrivals :: Read(a.line).Some?
  {
    var last := arrivals[|arrivals| - 1];
    if |arrivals| == 1 then Handle(true, Chan(now, NO_MODE, [], false), last.line, last.accepted)
    else Handle(false, Run(arrivals[..|arrivals| - 1], now), last.line, last.accepted)
  }

  /** Readable lines with nonzero TS, no nick taken from two of them. */
  ghost predicate Orderly(arrivals: seq<Arrival>) {
    && (forall a <- arrivals :: Read(a.line).Some? && ArrivalTs(a) != 0)
    && (forall i, j :: 0 <= i < j < |arrivals| ==>
          OfferedRanks(arrivals[i]).Keys !! OfferedRanks(arrivals[j]).Keys)
  }

  /** The state `a` carries the TS that prevails. */
  predicate Prevails(a: Arrival, ts: int) { ArrivalTs(a) == ts }

  /** The first line, which finds a new channel with limit 0, carries the TS that prevails. */
  predicate FirstPrevails(arrivals: seq<Arrival>, ts: int)
    requires arrivals != []
  {
    Prevails(arrivals[0], ts)
  }

  /** The largest limit among the states that carry `ts`; the 0 of the new channel counts if the first of all is one. */
  ghost predicate LimitSettled(arrivals: seq<Arrival>, ts: int, limit: int)
    requires arrivals != [] && forall a <- arrivals :: Read(a.line).Some?
  {
    && (forall a <- arrivals :: Prevails(a, ts) ==> OfferedMode(a).limit <= limit)
    && ((limit == 0 && FirstPrevails(arrivals, ts))
        || exists a <- arrivals :: Prevails(a, ts) && OfferedMode(a).limit == limit)
    && (FirstPrevails(arrivals, ts) ==> limit >= 0)
  }

  /** The flags that some state carrying `ts` offers. */
  ghost predicate FlagsSettled(arrivals: seq<Arrival>, ts: int, flags: set<Flag>)
    requires forall a <- arrivals :: Read(a.line).Some?
  {
    forall f: Flag :: f in flags <==> exists a <- arrivals :: Prevails(a, ts) && f in OfferedMode(a).flags
  }

  /** The largest key among the states that carry `ts`. */
  ghost predicate KeySettled(arrivals: seq<Arrival>, ts: int, key: string)
    requires forall a <- arrivals :: Read(a.line).Some?
  {
    && (exists a <- arrivals :: Prevails(a, ts) && OfferedMode(a).key == key)
    && (forall a <- arrivals :: Prevails(a, ts) ==> !KeyLess(key, OfferedMode(a).key))
  }

  /** The modes of `ch` are the join over exactly the states that carry its TS, the smallest one seen. */
  ghost predicate ModesSettled(arrivals: seq<Arrival>, ts: int, mode: Mode)
    requires arrivals != [] && forall a <- arrivals :: Read(a.line).Some?
  {
    && (exists a <- arrivals :: Prevails(a, ts))
    && (forall a <- arrivals :: ts <= ArrivalTs(a))
    && FlagsSettled(arrivals, ts, mode.flags)
    && LimitSettled(arrivals, ts, mode.limit)
    && KeySettled(arrivals, ts, mode.key)
  }

  /** Every nick of every line is there, with its flags if its line carries `ts` and with none otherwise. */
  ghost predicate RanksSettled(arrivals: seq<Arrival>, ts: int, ranks: map<string, Rank>)
    requires forall a <- arrivals :: Read(a.line).Some?
  {
    && (forall n: string :: n in ranks <==> exists a <- arrivals :: n in OfferedRanks(a))
    && (forall a <- arrivals, n: string :: n in OfferedRanks(a) ==>
          ranks[n] == if Prevails(a, ts) then OfferedRanks(a)[n] else Rank(false, false))
  }

  /** What a run settles on, said without any order. */
  ghost predicate Settled(arrivals: seq<Arrival>, ch: Chan)
    requires arrivals != [] && forall a <- arrivals :: Read(a.line).Some?
  {
    ModesSettled(arrivals, ch.ts, ch.mode) && RanksSettled(arrivals, ch.ts, Ranks(ch.members))
  }

  lemma FirstSettles(a: Arrival, now: int)
    requires Orderly([a])
    ensures Settled([a], Run([a], now))
  {
    var ch := Run([a], now);
    assert a in [a] && Prevails(a, ch.ts);
    RanksOfHandle(true, Chan(now, NO_MODE, [], false), a.line, a.accepted);
    KeyLessTotal(OfferedMode(a).key, "");
    KeyLessTotal(ch.mode.key, ch.mode.key);
  }

  /** A later state with a larger TS adds its nicks without flags and nothing else. */
  lemma {:induction false} RunSettles(arrivals: seq<Arrival>, now: int)
    requires arrivals != [] && Orderly(arrivals)
    ensures Settled(arrivals, Run(arrivals, now)) && !Run(arrivals, now).juped && Run(arrivals, now).ts != 0
  {
    var last := arrivals[|arrivals| - 1];
    if |arrivals| == 1 {
      assert arrivals == [last];
      FirstSettles(last, now);
    } else {
      var prefix := arrivals[..|arrivals| - 1];
      assert arrivals == prefix + [last];
      RunSettles(prefix, now);
      StepSettles(prefix, Run(prefix, now), last);
    }
  }

  lemma StepSettles(prefix: seq<Arrival>, ch: Chan, last: Arrival)
    requires prefix != [] && Orderly(prefix + [last]) && Orderly(prefix) && Settled(prefix, ch) && !ch.juped
    requires ch.ts != 0
    ensures Settled(prefix + [last], Handle(false, ch, last.line, last.accepted))
  {
    StepModes(prefix, ch, last);
    var v := Judge(false, ch, ArrivalTs(last));
    RanksOfHandle(false, ch, last.line, last.accepted);
    StepRanks(prefix, last, ch.ts, v, Ranks(ch.members));
  }

  lemma StepLimit(prefix: seq<Arrival>, ch: Chan, last: Arrival)
    requires prefix != [] && Orderly(prefix + [last]) && !ch.juped && ch.ts != 0
    requires forall a <- prefix :: Read(a.line).Some? && ch.ts <= ArrivalTs(a)
    requires LimitSettled(prefix, ch.ts, ch.mode.limit)
    ensures LimitSettled(prefix + [last], Judge(false, ch, ArrivalTs(last)).ts,
                         NewMode(Judge(false, ch, ArrivalTs(last)), ch.mode, OfferedMode(last)).limit)
  {
    var arrivals := prefix + [last];
    assert last in arrivals && forall a <- prefix :: a in arrivals;
    assert forall a <- arrivals :: a in prefix || a == last;
    assert arrivals[0] == prefix[0] && prefix[0] in prefix;
  }

  lemma StepFlags(prefix: seq<Arrival>, ch: Chan, last: Arrival)
    requires Orderly(prefix + [last]) && !ch.juped && ch.ts != 0
    requires forall a <- prefix :: Read(a.line).Some? && ch.ts <= ArrivalTs(a)
    requires FlagsSettled(prefix, ch.ts, ch.mode.flags)
    ensures FlagsSettled(prefix + [last], Judge(false, ch, ArrivalTs(last)).ts,
                         NewMode(Judge(false, ch, ArrivalTs(last)), ch.mode, OfferedMode(last)).flags)
  {
    var arrivals := prefix + [last];
    assert last in arrivals && forall a <- prefix :: a in arrivals;
    assert forall a <- arrivals :: a in prefix || a == last;
  }

  lemma StepKey(prefix: seq<Arrival>, ch: Chan, last: Arrival)
    requires Orderly(prefix + [last]) && !ch.juped && ch.ts != 0
    requires forall a <- prefix :: Read(a.line).Some? && ch.ts <= ArrivalTs(a)
    requires KeySettled(prefix, ch.ts, ch.mode.key)
    ensures KeySettled(prefix + [last], Judge(false, ch, ArrivalTs(last)).ts,
                       NewMode(Judge(false, ch, ArrivalTs(last)), ch.mode, OfferedMode(last)).key)
  {
    var arrivals, v := prefix + [last], Judge(false, ch, ArrivalTs(last));
    var key := NewMode(v, ch.mode, OfferedMode(last)).key;
    assert last in arrivals && forall a <- prefix :: a in arrivals;
    KeyLessTotal(OfferedMode(last).key, ch.mode.key);
    KeyLessTotal(key, key);
    forall a <- arrivals | Prevails(a, v.ts)
      ensures !KeyLess(key, OfferedMode(a).key)
    {
      if a != last {
        assert a in prefix;
        KeyLessTransitive(OfferedMode(a).key, ch.mode.key, key);
      }
    }
  }

  lemma StepModes(prefix: seq<Arrival>, ch: Chan, last: Arrival)
    requires prefix != [] && Orderly(prefix + [last]) && Orderly(prefix) && Settled(prefix, ch) && !ch.juped
    requires ch.ts != 0
    ensures ModesSettled(prefix + [last], Judge(false, ch, ArrivalTs(last)).ts,
                         NewMode(Judge(false, ch, ArrivalTs(last)), ch.mode, OfferedMode(last)))
  {
    var arrivals := prefix + [last];
    assert last in arrivals && forall a <- prefix :: a in arrivals;
    assert forall a <- arrivals :: a in prefix || a == last;
    StepFlags(prefix, ch, last);
    StepLimit(prefix, ch, last);
    StepKey(prefix, ch, last);
  }

  lemma StepRanks(prefix: seq<Arrival>, last: Arrival, ts: int, v: Verdict, before: map<string, Rank>)
    requires Orderly(prefix + [last]) && Orderly(prefix)
    requires RanksSettled(prefix, ts, before) && forall a <- prefix :: ts <= ArrivalTs(a)
    requires v.ts == if ArrivalTs(last) < ts then ArrivalTs(last) else ts
    requires v.keepNew == (ArrivalTs(last) <= ts) && v.keepOurs == (ArrivalTs(last) >= ts)
    ensures RanksSettled(prefix + [last], v.ts, Keep(v.keepNew, OfferedRanks(last)) + Keep(v.keepOurs, before))
  {
    var arrivals := prefix + [last];
    var after := Keep(v.keepNew, OfferedRanks(last)) + Keep(v.keepOurs, before);
    assert last in arrivals && forall a <- prefix :: a in arrivals;
    assert forall a <- arrivals :: a in prefix || a == last;
    forall a <- arrivals, n: string | n in OfferedRanks(a)
      ensures after[n] == if Prevails(a, v.ts) then OfferedRanks(a)[n] else Rank(false, false)
    {
      if n in before {
        var b :| b in prefix && n in OfferedRanks(b);
        DisjointFromLast(prefix, last, b);
        assert a in prefix;
      } else {
        assert a == last;
      }
    }
  }

  lemma DisjointFromLast(prefix: seq<Arrival>, last: Arrival, a: Arrival)
    requires Orderly(prefix + [last]) && a in prefix
    ensures OfferedRanks(a).Keys !! OfferedRanks(last).Keys
  {
    var i :| 0 <= i < |prefix| && prefix[i] == a;
    assert (prefix + [last])[i] == a && (prefix + [last])[|prefix|] == last;
  }

  /** Some state that carries the prevailing TS offers a limit that is not negative. */
  ghost predicate OffersLimit(arrivals: seq<Arrival>, ts: int)
    requires forall a <- arrivals :: Read(a.line).Some?
  {
    exists a <- arrivals :: Prevails(a, ts) && OfferedMode(a).limit >= 0
  }

  /** The conditions of `Settled` fix the channel for a given set of states, but for which of them came first. */
  lemma SettledIsUnique(a: seq<Arrival>, b: seq<Arrival>, x: Chan, z: Chan)
    requires a != [] && b != []
    requires forall s <- a :: Read(s.line).Some?
    requires forall s <- b :: Read(s.line).Some?
    requires forall s :: s in a <==> s in b
    requires Settled(a, x) && Settled(b, z)
    ensures x.ts == z.ts
    ensures Agree(x, z) <==> FirstPrevails(a, x.ts) == FirstPrevails(b, x.ts) || OffersLimit(a, x.ts)
  {
    ModesAreUnique(a, b, x.ts, x.mode, z.ts, z.mode);
    LimitIsUniqueIff(a, b, x.ts, x.mode.limit, z.mode.limit);
    RanksAreUnique(a, b, x.ts, Ranks(x.members), Ranks(z.members));
  }

  lemma LimitIsUniqueIff(a: seq<Arrival>, b: seq<Arrival>, ts: int, limit: int, limit': int)
    requires a != [] && b != []
    requires forall s <- a :: Read(s.line).Some?
    requires forall s <- b :: Read(s.line).Some?
    requires forall s :: s in a <==> s in b
    requires LimitSettled(a, ts, limit) && LimitSettled(b, ts, limit') && exists s <- a :: Prevails(s, ts)
    ensures limit == limit' <==> FirstPrevails(a, ts) == FirstPrevails(b, ts) || OffersLimit(a, ts)
  {
    assert a[0] in a && b[0] in b;
  }

  lemma ModesAreUnique(a: seq<Arrival>, b: seq<Arrival>, ts: int, mode: Mode, ts': int, mode': Mode)
    requires a != [] && b != []
    requires forall s <- a :: Read(s.line).Some?
    requires forall s <- b :: Read(s.line).Some?
    requires forall s :: s in a <==> s in b
    requires ModesSettled(a, ts, mode) && ModesSettled(b, ts', mode')
    ensures ts == ts' && mode == mode'.(limit := mode.limit)
  {
    assert ts == ts';
    forall f: Flag
      ensures f in mode.flags <==> f in mode'.flags
    {
    }
    assert mode.flags == mode'.flags;
    KeyLessTotal(mode.key, mode'.key);
    assert mode.key == mode'.key;
  }

  lemma SettledRank(arrivals: seq<Arrival>, ts: int, ranks: map<string, Rank>, s: Arrival, n: string)
    requires forall a <- arrivals :: Read(a.line).Some?
    requires RanksSettled(arrivals, ts, ranks) && s in arrivals && n in OfferedRanks(s)
    ensures n in ranks && ranks[n] == if Prevails(s, ts) then OfferedRanks(s)[n] else Rank(false, false)
  {
  }

  lemma RankIsUnique(a: seq<Arrival>, b: seq<Arrival>, ts: int, ranks: map<string, Rank>, ranks': map<string, Rank>,
                     n: string)
    requires forall s <- a :: Read(s.line).Some?
    requires forall s <- b :: Read(s.line).Some?
    requires forall s :: s in a ==> s in b
    requires RanksSettled(a, ts, ranks) && RanksSettled(b, ts, ranks') && n in ranks
    ensures n in ranks' && ranks'[n] == ranks[n]
  {
    var s :| s in a && n in OfferedRanks(s);
    SettledRank(a, ts, ranks, s, n);
    SettledRank(b, ts, ranks', s, n);
  }

  lemma RanksAreUnique(a: seq<Arrival>, b: seq<Arrival>, ts: int, ranks: map<string, Rank>, ranks': map<string, Rank>)
    requires forall s <- a :: Read(s.line).Some?
    requires forall s <- b :: Read(s.line).Some?
    requires forall s :: s in a <==> s in b
    requires RanksSettled(a, ts, ranks) && RanksSettled(b, ts, ranks')
    ensures ranks == ranks'
  {
    forall n | n in ranks
      ensures n in ranks' && ranks'[n] == ranks[n]
    {
      RankIsUnique(a, b, ts, ranks, ranks', n);
    }
    forall n | n in ranks'
      ensures n in ranks
    {
      RankIsUnique(b, a, ts, ranks', ranks, n);
    }
  }

  /** The first line carries the least TS of all. */
  predicate FirstIsOldest(arrivals: seq<Arrival>)
    requires arrivals != []
  {
    forall a <- arrivals :: ArrivalTs(arrivals[0]) <= ArrivalTs(a)
  }

  /** Some line that carries the least TS offers a limit that is not negative. */
  predicate OldestOffersLimit(arrivals: seq<Arrival>)
    requires forall a <- arrivals :: Read(a.line).Some?
  {
    exists a <- arrivals :: OfferedMode(a).limit >= 0 && forall b <- arrivals :: ArrivalTs(a) <= ArrivalTs(b)
  }

  /**
   Two servers that see the same lines in two orders end with the same channel exactly if an oldest line
   comes first in both orders or in none, or one of the oldest offers a limit that is not negative.
   */
  lemma OrderDoesNotMatter(a: seq<Arrival>, b: seq<Arrival>, nowA: int, nowB: int)
    requires a != [] && Orderly(a) && multiset(a) == multiset(b)
    ensures Orderly(b) && b != []
    ensures Agree(Run(a, nowA), Run(b, nowB)) <==> FirstIsOldest(a) == FirstIsOldest(b) || OldestOffersLimit(a)
  {
    SameElements(a, b);
    OrderlyPermutes(a, b);
    RunSettles(a, nowA);
    RunSettles(b, nowB);
    SettledIsUnique(a, b, Run(a, nowA), Run(b, nowB));
    OldestPrevail(a, Run(a, nowA).ts);
    OldestPrevail(b, Run(b, nowB).ts);
  }

  lemma OldestPrevail(a: seq<Arrival>, ts: int)
    requires a != [] && forall s <- a :: Read(s.line).Some? && ts <= ArrivalTs(s)
    requires exists s <- a :: Prevails(s, ts)
    ensures FirstIsOldest(a) <==> FirstPrevails(a, ts)
    ensures OldestOffersLimit(a) <==> OffersLimit(a, ts)
  {
    assert a[0] in a;
    var s :| s in a && Prevails(s, ts);
    assert forall t <- a :: (forall u <- a :: ArrivalTs(t) <= ArrivalTs(u)) <==> ArrivalTs(t) == ts;
  }

  ghost predicate IsOrderOf(b: seq<Arrival>, a: seq<Arrival>) {
    multiset(b) == multiset(a) && b != [] && forall s <- b :: Read(s.line).Some?
  }

  /** The lines lead to one channel in whatever order they come. */
  ghost predicate AnyOrderAgrees(a: seq<Arrival>, now: int)
    requires a != [] && Orderly(a)
  {
    forall b: seq<Arrival>, now': int :: IsOrderOf(b, a) ==> Agree(Run(a, now), Run(b, now'))
  }

  /**
   Every order leads to the same channel exactly if all lines are equally old or an oldest one offers a limit that is
   not negative.
   */
  lemma AnyOrderAgreesIff(a: seq<Arrival>, now: int)
    requires a != [] && Orderly(a)
    ensures AnyOrderAgrees(a, now) <==>
      (forall s, t :: s in a && t in a ==> ArrivalTs(s) == ArrivalTs(t)) || OldestOffersLimit(a)
  {
    if (forall s, t :: s in a && t in a ==> ArrivalTs(s) == ArrivalTs(t)) || OldestOffersLimit(a) {
      forall b: seq<Arrival>, now': int | IsOrderOf(b, a)
        ensures Agree(Run(a, now), Run(b, now'))
      {
        SameElements(a, b);
        OrderDoesNotMatter(a, b, now, now');
      }
    } else {
      var i := OtherFirst(a);
      var b := ToFront(a, i);
      OrderDoesNotMatter(a, b, now, now);
      assert IsOrderOf(b, a) && !Agree(Run(a, now), Run(b, now));
    }
  }

  function ToFront(a: seq<Arrival>, i: nat): seq<Arrival>
    requires i < |a|
  {
    [a[i]] + a[..i] + a[i + 1..]
  }

  lemma ToFrontHasSame(a: seq<Arrival>, i: nat)
    requires i < |a|
    ensures multiset(ToFront(a, i)) == multiset(a) && forall s :: s in a <==> s in ToFront(a, i)
  {
    assert a == a[..i] + [a[i]] + a[i + 1..];
    SameElements(a, ToFront(a, i));
  }

  /** A line whose move to the front changes whether an oldest one comes first. */
  lemma OtherFirst(a: seq<Arrival>) returns (i: nat)
    requires a != [] && exists s, t :: s in a && t in a && ArrivalTs(s) != ArrivalTs(t)
    ensures i < |a| && multiset(ToFront(a, i)) == multiset(a)
    ensures FirstIsOldest(ToFront(a, i)) != FirstIsOldest(a)
  {
    if FirstIsOldest(a) {
      i :| 0 <= i < |a| && ArrivalTs(a[i]) != ArrivalTs(a[0]);
    } else {
      i := Oldest(a);
    }
    ToFrontHasSame(a, i);
    assert a[0] in a && a[i] in a;
  }

  lemma {:induction false} Oldest(a: seq<Arrival>) returns (i: nat)
    requires a != []
    ensures i < |a| && forall s <- a :: ArrivalTs(a[i]) <= ArrivalTs(s)
  {
    var n := |a| - 1;
    i := n;
    if n > 0 {
      var j := Oldest(a[..n]);
      assert a == a[..n] + [a[n]];
      i := if ArrivalTs(a[j]) <= ArrivalTs(a[n]) then j else n;
    }
  }

  lemma SameElements<T>(a: seq<T>, b: seq<T>)
    requires multiset(a) == multiset(b)
    ensures |a| == |b| && forall s :: s in a <==> s in b
  {
    assert |a| == |multiset(a)| == |multiset(b)| == |b|;
    forall s
      ensures s in a <==> s in b
    {
      assert s in a <==> s in multiset(a);
      assert s in b <==> s in multiset(b);
    }
  }

  /** An element met at two places of one order is met at two places of the other. */
  lemma {:induction false} TwicePermutes<T>(b: seq<T>, i: nat, j: nat)
    requires i < j < |b| && b[i] == b[j]
    ensures multiset(b)[b[i]] >= 2
  {
    assert b == b[..j] + [b[j]] + b[j + 1..];
    assert b[..j][i] == b[i];
    assert b[i] in multiset(b[..j]);
  }

  lemma OnceInSeq<T>(a: seq<T>, s: T)
    requires multiset(a)[s] >= 2
    ensures exists i, j :: 0 <= i < j < |a| && a[i] == s && a[j] == s
    decreases |a|
  {
    assert a != [];
    var n := |a| - 1;
    assert a == a[..n] + [a[n]];
    if a[n] == s {
      assert s in multiset(a[..n]);
      var i :| 0 <= i < n && a[..n][i] == s;
      assert a[i] == s && a[n] == s;
    } else {
      OnceInSeq(a[..n], s);
      var i, j :| 0 <= i < j < n && a[..n][i] == s && a[..n][j] == s;
      assert a[i] == s && a[j] == s;
    }
  }

  lemma OrderlyPermutes(a: seq<Arrival>, b: seq<Arrival>)
    requires Orderly(a) && multiset(a) == multiset(b) && forall s :: s in a <==> s in b
    ensures Orderly(b)
  {
    forall i, j | 0 <= i < j < |b|
      ensures OfferedRanks(b[i]).Keys !! OfferedRanks(b[j]).Keys
    {
      assert b[i] in a && b[j] in a;
      if b[i] == b[j] {
        TwicePermutes(b, i, j);
        OnceInSeq(a, b[i]);
      } else {
        var k :| 0 <= k < |a| && a[k] == b[i];
        var l :| 0 <= l < |a| && a[l] == b[j];
        if k < l {
        } else {
          assert l < k;
        }
      }
    }
  }

  /** With a negative limit, which the line reader accepts, the order does matter. */
  lemma NegativeLimitDependsOnOrder()
    ensures
      var p := Arrival(SjoinLine("5", "+l", ["-3", "bob"]), {});
      var q := Arrival(SjoinLine("9", "+", ["bob"]), {});
      && Read(p.line).Some? && Read(q.line).Some?
      && Run([p, q], 0).mode.limit == 0 && Run([q, p], 0).mode.limit == -3
  {
    var p := Arrival(SjoinLine("5", "+l", ["-3", "bob"]), {});
    var q := Arrival(SjoinLine("9", "+", ["bob"]), {});
    ReadOwnTs(5);
    ReadOwnTs(9);
    ReadPlus("bob");
    ReadLimitOnly("bob");
    assert [p, q][..1] == [p] && [q, p][..1] == [q];
  }

  lemma ReadLimitOnly(nicks: string)
    ensures ReadModes("+l", ["-3", nicks]) == Some(Parsed(Mode({}, -3, ""), 1))
  {
    var rest := ["-3", nicks];
    AtoiPrintInt(-3);
    assert PrintInt(-3) == "-3" && rest[0] == "-3";
    assert "+l"[..1] == "+" && "+"[..0] == "";
    assert ReadModes("+", rest) == Some(Parsed(NO_MODE, 0));
    assert ReadLetter(Parsed(NO_MODE, 0), 'l', rest) == Some(Parsed(Mode({}, -3, ""), 1));
  }
}
