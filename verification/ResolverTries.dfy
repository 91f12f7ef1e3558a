/**
 A query that nobody answers, in whole runs of the resolver with whatever else happens there: how often it is
 sent, to which servers, and how it ends (adns/transmit.c, adns/event.c).
 */
module ResolverTries {
  import opened Wrappers
  import Bytes
  import opened ResolverState
  import opened ResolverRuns

  /** How many of the first `k` sends go to server `i`. */
  function SendsTo(k: nat, n: nat, i: nat): nat
    requires n > 0
  {
    if k == 0 then 0 else SendsTo(k - 1, n, i) + if (k - 1) % n == i then 1 else 0
  }

  /** A query of the user's: number `i` of its sends so far went to server `i % n`. */
  ghost predicate Tried(r: Query, n: nat)
    requires n > 0
  {
    && r.parent.None? && r.state == ToSend && r.nextserver == r.retries % n
    && forall i: nat :: i in r.sent <==> SendsTo(r.retries, n, i) > 0
  }

  lemma TriedOnce(r: Query, now: int, n: nat)
    requires n > 0 && Tried(r, n)
    ensures Tried(SentRecord(r, now, n), n)
  {
    TurnOver(r.retries, n);
    forall i: nat
      ensures i in SentRecord(r, now, n).sent <==> SendsTo(r.retries + 1, n, i) > 0
    {
      assert SendsTo(r.retries + 1, n, i) == SendsTo(r.retries, n, i) + if r.retries % n == i then 1 else 0;
    }
  }

  /** Counting on takes the next turn. */
  lemma TurnOver(k: nat, n: nat)
    requires n > 0
    ensures 0 <= k % n < n && (k + 1) % n == (k % n + 1) % n
    ensures (k + 1) / n == k / n + (if k % n + 1 == n then 1 else 0)
    ensures 0 % n == 0 && 0 / n == 0
    ensures (k + 1) % n == if k % n + 1 == n then 0 else k % n + 1
  {
    var d, m := k / n, k % n;
    assert k == d * n + m;
    if m + 1 == n {
      Divided(k + 1, d + 1, 0, n);
      Divided(n, 1, 0, n);
    } else {
      Divided(k + 1, d, m + 1, n);
      Divided(m + 1, 0, m + 1, n);
    }
    Divided(0, 0, 0, n);
  }

  lemma Divided(x: nat, d: nat, m: nat, n: nat)
    requires n > 0 && m < n && x == d * n + m
    ensures x / n == d && x % n == m
  {
    var e, l := x / n, x % n;
    assert x == e * n + l;
    if e < d {
      Mult(e + 1, d, n);
    } else if d < e {
      Mult(d + 1, e, n);
    }
  }

  lemma {:induction false} Mult(a: nat, b: nat, n: nat)
    requires a <= b
    ensures a * n <= b * n && a * n == (a - 1) * n + n
  {
    assert b * n == a * n + (b - a) * n && (b - a) * n >= 0;
  }

  /** Each server gets its share, rounded down or up, and the first ones the rest. */
  lemma {:induction false} SendsAreShared(k: nat, n: nat, i: nat)
    requires n > 0 && i < n
    ensures SendsTo(k, n, i) == k / n + if i < k % n then 1 else 0
  {
    if k > 0 {
      SendsAreShared(k - 1, n, i);
      TurnOver(k - 1, n);
    } else {
      TurnOver(0, n);
    }
  }

  /** Query `q` was sent `k` times and is on the UDP queue. */
  ghost predicate Awaits(s: Sys, q: Qid, k: nat, n: nat)
    requires n > 0
  {
    q in s.qs && q in s.queues.udpw && s.qs[q].retries == k && Tried(s.qs[q], n)
  }

  /** It was given up after all its sends. */
  ghost predicate GivenUp(s: Sys, q: Qid) {
    && q in s.qs && q in s.queues.output && s.qs[q].state == Done
    && s.qs[q].status == TimedOut && s.qs[q].retries == UDPMAXRETRIES
  }

  // ---------- what the steps do to other queries ----------

  /** A query of the user's that waits for a datagram and is not being worked on. */
  predicate Waits(s: Sys, q: Qid, loose: set<Qid>) { Owned(s, q) && q !in loose && s.qs[q].state == ToSend }

  /** The query is as it was. */
  predicate Same(s: Sys, s': Sys, q: Qid) { q in s.qs && q in s'.qs && s'.qs[q] == s.qs[q] }

  lemma OnUdp(s: Sys, q: Qid, loose: set<Qid>, n: nat)
    requires Inv(s, loose, n) && Waits(s, q, loose)
    ensures q in s.queues.udpw && q < s.next
  {
    assert Queued(s.qs, loose, Of(s.queues, ToSend), ToSend);
  }

  lemma ShrinksSpares(s: Sys, s': Sys, q: Qid, loose: set<Qid>, n: nat)
    requires Inv(s, loose, n) && Waits(s, q, loose) && Shrinks(s, s')
    ensures Same(s, s', q)
  {
    OnUdp(s, q, loose, n);
    KeepIs(s.queues.udpw, s.qs.Keys - s'.qs.Keys);
    assert q in Of(s'.queues, ToSend);
  }

  lemma SendSpares(s: Sys, x: Qid, now: int, net: Network, q: Qid, n: nat)
    requires Inv(s, {x}, n) && n > 0 && Sendable(s.qs[x]) && Waits(s, q, {x})
    ensures Same(s, Send(s, x, now, net, n), q)
  {
    if s.qs[x].retries >= UDPMAXRETRIES {
      ShrinksSpares(s, Failed(s, x, TimedOut, n), q, {x}, n);
    }
  }

  lemma {:induction false} SpawnedSpares(s: Sys, x: Qid, sps: seq<Spawn>, now: int, q: Qid, n: nat)
    requires Inv(s, {x}, n) && n > 0 && Waits(s, q, {x})
    ensures Same(s, AllSpawned(s, x, sps, now, n), q)
    decreases |sps|
  {
    if sps != [] {
      SpawnedSpares(Spawned(s, x, sps[0], now, n), x, sps[1..], now, q, n);
    }
  }

  lemma ConcludedSpares(s: Sys, x: Qid, ending: Ending, now: int, q: Qid, n: nat)
    requires Inv(s, {x}, n) && n > 0 && s.qs[x].id >= 0 && Waits(s, q, {x})
    ensures Same(s, Concluded(s, x, ending, now, n), q)
  {
    match ending
    case FailWith(st) => ShrinksSpares(s, Failed(s, x, st, n), q, {x}, n);
    case Restart(renamed, net) =>
      PrunedKeeps(s, x, {x}, n);
      ShrinksSpares(s, Pruned(s, x), q, {x}, n);
      SendSpares(Renewed(s, x, renamed, n), x, now, net, q, n);
    case Answered(confirms) => AnsweredSpares(s, x, confirms, q, n);
  }

  lemma AnsweredSpares(s: Sys, x: Qid, confirms: bool, q: Qid, n: nat)
    requires Inv(s, {x}, n) && n > 0 && s.qs[x].id >= 0 && Waits(s, q, {x})
    ensures Same(s, WholeAnswer(s, x, confirms, n), q)
  {
    var r := s.qs[x].(confirms := confirms);
    if r.children == [] {
      var s1 := s.(qs := s.qs[x := r]);
      ChangedKeeps(s, x, r, {x}, n);
      ShrinksSpares(s1, Finish(s1, x, n), q, {x}, n);
    }
  }

  lemma RepliedSpares(s: Sys, rep: Reply, now: int, q: Qid, n: nat)
    requires Inv(s, {}, n) && n > 0 && Waits(s, q, {}) && Target(s, rep, n) != Some(q)
    ensures Same(s, Replied(s, rep, now, n), q)
  {
    var found := Target(s, rep, n);
    if found.Some? {
      var x := found.value;
      UnlinkedKeeps(s, x, {}, n);
      assert {} + {x} == {x};
      SpawnedSpares(Unlinked(s, x), x, rep.spawned, now, q, n);
      ConcludedSpares(AllSpawned(Unlinked(s, x), x, rep.spawned, now, n), x, rep.ending, now, q, n);
    }
  }

  lemma SubmittedSpares(s: Sys, asked: Option<(nat, seq<Bytes.byte>)>, now: int, net: Network, q: Qid, n: nat)
    requires Inv(s, {}, n) && n > 0 && Waits(s, q, {})
    ensures Same(s, Submitted(s, asked, now, net, n), q)
  {
    var s1 := Added(s, NewQuery(asked));
    AddedKeeps(s, NewQuery(asked), {}, n);
    assert {} + {s.next} == {s.next};
    if asked.None? {
      ShrinksSpares(s1, Failed(s1, s.next, Other(0), n), q, {s.next}, n);
    } else {
      SendSpares(s1, s.next, now, net, q, n);
    }
  }

  lemma ExpiredSpares(s: Sys, x: Qid, now: int, net: Network, q: Qid, n: nat)
    requires Inv(s, {}, n) && n > 0 && x in s.qs && s.qs[x].state in {ToSend, TcpWait} && Waits(s, q, {}) && x != q
    ensures Same(s, Expired(s, x, now, net, n), q)
  {
    UnlinkedKeeps(s, x, {}, n);
    assert {} + {x} == {x} && Fit(s.qs[x]);
    var s1 := Unlinked(s, x);
    if s.qs[x].state == ToSend {
      SendSpares(s1, x, now, net, q, n);
    } else {
      ShrinksSpares(s1, Failed(s1, x, TimedOut, n), q, {x}, n);
    }
  }

  /** Taking out queries that `q` does not descend from. */
  lemma CutSpares(s: Sys, gone: set<Qid>, q: Qid)
    requires q in s.qs && q !in gone && s.qs[q].children == []
    ensures Same(s, Cut(s, gone), q)
  {
  }

  // ---------- the sends of a query ----------

  /** How often the loop over late queries sends `q`. */
  ghost function ClockSends(s: Sys, st: State, now: int, nets: Qid -> Network, q: Qid, n: nat): nat
    requires Inv(s, {}, n) && n > 0 && st in {ToSend, TcpWait}
    decreases CountLate(s.qs, Of(s.queues, st), now)
  {
    assert Queued(s.qs, {}, Of(s.queues, st), st);
    match FirstLate(s.qs, Of(s.queues, st), now)
    case None => 0
    case Some(x) =>
      ExpiredCounts(s, x, now, nets(x), n);
      (if x == q && st == ToSend && s.qs[q].retries < UDPMAXRETRIES then 1 else 0)
      + ClockSends(Expired(s, x, now, nets(x), n), st, now, nets, q, n)
  }

  /** How often a step sends `q`: when it is asked, asked again under another name, or not answered in time. */
  ghost function StepSends(s: Sys, e: Event, q: Qid, n: nat): nat
    requires Inv(s, {}, n) && n > 0 && Allowed(s, e)
  {
    match e
    case Ask(asked, _, _) => if q == s.next && asked.Some? then 1 else 0
    case Arrive(rep, _) => if Target(s, rep, n) == Some(q) && rep.ending.Restart? then 1 else 0
    case Clock(st, now, nets) => ClockSends(s, st, now, nets, q, n)
    case _ => 0
  }

  ghost function Sends(s: Sys, events: seq<Event>, q: Qid, n: nat): nat
    requires Inv(s, {}, n) && n > 0
    decreases |events|
  {
    if events == [] || !Allowed(s, events[0]) then 0
    else StepSends(s, events[0], q, n) + Sends(Step(s, events[0], n), events[1..], q, n)
  }

  /** The clock is read when the query waits and its time is up. */
  predicate Overdue(s: Sys, e: Event, q: Qid) {
    e.Clock? && e.st == ToSend && q in s.qs && s.qs[q].state == ToSend && Late(s.qs[q], e.now)
  }

  ghost function Overdues(s: Sys, events: seq<Event>, q: Qid, n: nat): nat
    requires Inv(s, {}, n) && n > 0
    decreases |events|
  {
    if events == [] || !Allowed(s, events[0]) then 0
    else (if Overdue(s, events[0], q) then 1 else 0) + Overdues(Step(s, events[0], n), events[1..], q, n)
  }

  /**
   The step is not about `q` but for the clock: no answer for it, not cancelled, not taken; and no send of it is too
   big for UDP.
   */
  ghost predicate Ignores(s: Sys, e: Event, q: Qid, n: nat)
    requires Inv(s, {}, n) && Allowed(s, e)
  {
    match e
    case Ask(_, _, net) => q == s.next ==> !net.toobig
    case Arrive(rep, _) => Target(s, rep, n) != Some(q)
    case Clock(_, _, nets) => !nets(q).toobig
    case Cancel(x) => x != q
    case Check(wanted) => CheckFor(s, wanted) != Answer(q)
  }

  ghost predicate AllIgnore(s: Sys, events: seq<Event>, q: Qid, n: nat)
    requires Inv(s, {}, n) && n > 0
    decreases |events|
  {
    events == []
    || (Allowed(s, events[0]) && Ignores(s, events[0], q, n) && AllIgnore(Step(s, events[0], n), events[1..], q, n))
  }

  /** Where the query stands after so many time-outs. */
  ghost predicate Stands(s: Sys, q: Qid, overdue: nat, n: nat)
    requires n > 0
  {
    if overdue < UDPMAXRETRIES then Awaits(s, q, overdue + 1, n) else overdue == UDPMAXRETRIES && GivenUp(s, q)
  }

  function SentAfter(overdue: nat): nat { if overdue < UDPMAXRETRIES then overdue + 1 else UDPMAXRETRIES }

  /** A finished query stays as it is until it is taken. */
  lemma GivenUpStays(s: Sys, s': Sys, q: Qid, n: nat)
    requires Inv(s', {}, n) && GivenUp(s, q) && Same(s, s', q)
    ensures GivenUp(s', q)
  {
    assert Queued(s'.qs, {}, Of(s'.queues, Done), Done);
  }

  lemma AwaitsStays(s: Sys, s': Sys, q: Qid, k: nat, n: nat)
    requires Inv(s', {}, n) && n > 0 && Awaits(s, q, k, n) && Same(s, s', q)
    ensures Awaits(s', q, k, n)
  {
    OnUdp(s', q, {}, n);
  }

  /** One time-out of a query of the user's: another send, or the end. */
  lemma ExpiredOnce(s: Sys, q: Qid, now: int, net: Network, n: nat)
    requires Inv(s, {}, n) && n > 0 && Owned(s, q) && s.qs[q].state == ToSend && !net.toobig
    ensures
      var s' := Expired(s, q, now, net, n);
      q in s'.qs &&
      if s.qs[q].retries < UDPMAXRETRIES then q in s'.queues.udpw && s'.qs[q] == SentRecord(s.qs[q], now, n)
      else
        && q in s'.queues.output && s'.qs[q].state == Done && s'.qs[q].status == TimedOut
        && s'.qs[q].retries == s.qs[q].retries
  {
    UnlinkedKeeps(s, q, {}, n);
    assert {} + {q} == {q} && Fit(s.qs[q]);
    if s.qs[q].retries >= UDPMAXRETRIES {
      FailedTop(Unlinked(s, q), q, TimedOut, n);
    }
  }

  lemma FailedTop(s: Sys, q: Qid, st: Status, n: nat)
    requires Inv(s, {q}, n) && s.qs[q].parent.None?
    ensures
      var s' := Failed(s, q, st, n);
      q in s'.qs && q in s'.queues.output && s'.qs[q].state == Done && s'.qs[q].status == st
        && s'.qs[q].retries == s.qs[q].retries
  {
    FailedKeeps(s, q, st, n);
    var s1 := Marked(s, q, st);
    PrunedKeeps(s1, q, {q}, n);
    FinishedTop(Pruned(s1, q), q, n);
  }

  lemma FinishedTop(s: Sys, q: Qid, n: nat)
    requires Inv(s, {q}, n) && s.qs[q].parent.None? && s.qs[q].children == []
    ensures FinishAlone(s, q, n) == Output(s, q)
  {
  }

  lemma {:induction false} ClockLeavesDone(s: Sys, st: State, now: int, nets: Qid -> Network, q: Qid, n: nat)
    requires Inv(s, {}, n) && n > 0 && st in {ToSend, TcpWait} && q in s.qs && s.qs[q].state == Done
    ensures ClockSends(s, st, now, nets, q, n) == 0
    decreases CountLate(s.qs, Of(s.queues, st), now)
  {
    assert Queued(s.qs, {}, Of(s.queues, st), st);
    match FirstLate(s.qs, Of(s.queues, st), now)
    case None =>
    case Some(x) =>
      ExpiredCounts(s, x, now, nets(x), n);
      ClockLeavesDone(Expired(s, x, now, nets(x), n), st, now, nets, q, n);
  }

  /** A query that is not late, or not on the queue gone through, is left alone. */
  lemma {:induction false} ClockLeaves(s: Sys, st: State, now: int, nets: Qid -> Network, q: Qid, n: nat)
    requires Inv(s, {}, n) && n > 0 && st in {ToSend, TcpWait} && Waits(s, q, {})
    requires st == TcpWait || now <= s.qs[q].timeout
    ensures ClockSends(s, st, now, nets, q, n) == 0 && Same(s, Timeouts(s, st, now, nets, n), q)
    decreases CountLate(s.qs, Of(s.queues, st), now)
  {
    assert Queued(s.qs, {}, Of(s.queues, st), st);
    match FirstLate(s.qs, Of(s.queues, st), now)
    case None =>
    case Some(x) =>
      ExpiredCounts(s, x, now, nets(x), n);
      ExpiredSpares(s, x, now, nets(x), q, n);
      ClockLeaves(Expired(s, x, now, nets(x), n), st, now, nets, q, n);
  }

  /** A late query is sent once more, or given up after its last send. */
  lemma {:induction false} ClockSendsOnce(s: Sys, now: int, nets: Qid -> Network, q: Qid, overdue: nat, n: nat)
    requires Inv(s, {}, n) && n > 0 && overdue < UDPMAXRETRIES && Stands(s, q, overdue, n)
    requires Late(s.qs[q], now) && !nets(q).toobig
    ensures Stands(Timeouts(s, ToSend, now, nets, n), q, overdue + 1, n)
    ensures ClockSends(s, ToSend, now, nets, q, n) == SentAfter(overdue + 1) - SentAfter(overdue)
    decreases CountLate(s.qs, Of(s.queues, ToSend), now)
  {
    assert Queued(s.qs, {}, Of(s.queues, ToSend), ToSend);
    var x := FirstLate(s.qs, s.queues.udpw, now).value;
    var s1 := Expired(s, x, now, nets(x), n);
    ExpiredCounts(s, x, now, nets(x), n);
    if x != q {
      ExpiredSpares(s, x, now, nets(x), q, n);
      AwaitsStays(s, s1, q, overdue + 1, n);
      ClockSendsOnce(s1, now, nets, q, overdue, n);
    } else {
      TriedOnce(s.qs[q], now, n);
      ExpiredOnce(s, q, now, nets(q), n);
      AfterItsTurn(s1, now, nets, q, overdue + 1, n);
    }
  }

  lemma AfterItsTurn(s: Sys, now: int, nets: Qid -> Network, q: Qid, overdue: nat, n: nat)
    requires Inv(s, {}, n) && n > 0 && Stands(s, q, overdue, n) && (overdue < UDPMAXRETRIES ==> !Late(s.qs[q], now))
    ensures Stands(Timeouts(s, ToSend, now, nets, n), q, overdue, n) && ClockSends(s, ToSend, now, nets, q, n) == 0
  {
    var s' := Timeouts(s, ToSend, now, nets, n);
    if overdue < UDPMAXRETRIES {
      ClockLeaves(s, ToSend, now, nets, q, n);
      AwaitsStays(s, s', q, overdue + 1, n);
    } else {
      ClockLeavesDone(s, ToSend, now, nets, q, n);
      GivenUpStays(s, s', q, n);
    }
  }

  /** A step that ignores the query leaves it where it stands, unless it is overdue. */
  lemma StepStands(s: Sys, e: Event, q: Qid, overdue: nat, n: nat)
    requires Inv(s, {}, n) && n > 0 && Allowed(s, e) && Ignores(s, e, q, n) && Stands(s, q, overdue, n)
    ensures Overdue(s, e, q) ==> overdue < UDPMAXRETRIES
    ensures
      var overdue' := overdue + if Overdue(s, e, q) then 1 else 0;
      && Stands(Step(s, e, n), q, overdue', n)
      && StepSends(s, e, q, n) == SentAfter(overdue') - SentAfter(overdue)
  {
    if overdue < UDPMAXRETRIES {
      WaitingStep(s, e, q, overdue, n);
    } else {
      GivenUpStep(s, e, q, n);
    }
  }

  lemma WaitingStep(s: Sys, e: Event, q: Qid, overdue: nat, n: nat)
    requires Inv(s, {}, n) && n > 0 && Allowed(s, e) && Ignores(s, e, q, n)
    requires overdue < UDPMAXRETRIES && Stands(s, q, overdue, n)
    ensures
      var overdue' := overdue + if Overdue(s, e, q) then 1 else 0;
      && Stands(Step(s, e, n), q, overdue', n)
      && StepSends(s, e, q, n) == SentAfter(overdue') - SentAfter(overdue)
  {
    if Overdue(s, e, q) {
      ClockSendsOnce(s, e.now, e.nets, q, overdue, n);
    } else {
      QuietStep(s, e, q, n);
      AwaitsStays(s, Step(s, e, n), q, overdue + 1, n);
    }
  }

  lemma QuietStep(s: Sys, e: Event, q: Qid, n: nat)
    requires Inv(s, {}, n) && n > 0 && Allowed(s, e) && Ignores(s, e, q, n) && !Overdue(s, e, q) && Waits(s, q, {})
    ensures Same(s, Step(s, e, n), q) && StepSends(s, e, q, n) == 0
  {
    assert q < s.next && Fit(s.qs[q]);
    match e
    case Ask(asked, now, net) => SubmittedSpares(s, asked, now, net, q, n);
    case Arrive(rep, now) => RepliedSpares(s, rep, now, q, n);
    case Clock(st, now, nets) => ClockLeaves(s, st, now, nets, q, n);
    case Cancel(x) => CutSpares(s, Subtree(s.qs, x), q);
    case Check(wanted) => CheckSpares(s, wanted, q, n);
  }

  lemma GivenUpStep(s: Sys, e: Event, q: Qid, n: nat)
    requires Inv(s, {}, n) && n > 0 && Allowed(s, e) && Ignores(s, e, q, n) && GivenUp(s, q)
    ensures !Overdue(s, e, q) && GivenUp(Step(s, e, n), q) && StepSends(s, e, q, n) == 0
  {
    DoneIsSame(s, e, q, n);
    DoneIsNotSent(s, e, q, n);
    GivenUpStays(s, Step(s, e, n), q, n);
  }

  lemma DoneStays(s: Sys, s': Sys, q: Qid)
    requires Onward(s, s') && q in s.qs && s.qs[q].state == Done
    ensures Same(s, s', q)
  {
  }

  lemma DoneIsSame(s: Sys, e: Event, q: Qid, n: nat)
    requires Inv(s, {}, n) && n > 0 && Allowed(s, e) && Ignores(s, e, q, n) && q in s.qs && s.qs[q].state == Done
    ensures Same(s, Step(s, e, n), q)
  {
    assert Fit(s.qs[q]);
    match e
    case Ask(asked, now, net) => DoneStays(Added(s, NewQuery(asked)), Submitted(s, asked, now, net, n), q);
    case Arrive(rep, now) => DoneStays(s, Replied(s, rep, now, n), q);
    case Clock(st, now, nets) => DoneStays(s, Timeouts(s, st, now, nets, n), q);
    case Cancel(x) => CutSpares(s, Subtree(s.qs, x), q);
    case Check(wanted) => CheckSpares(s, wanted, q, n);
  }

  lemma CheckSpares(s: Sys, wanted: Option<Qid>, q: Qid, n: nat)
    requires Inv(s, {}, n) && n > 0 && Allowed(s, Check(wanted)) && CheckFor(s, wanted) != Answer(q)
    requires q in s.qs && s.qs[q].children == []
    ensures Same(s, Step(s, Check(wanted), n), q)
  {
    if CheckFor(s, wanted).Answer? {
      CutSpares(s, {CheckFor(s, wanted).q}, q);
    }
  }

  lemma DoneIsNotSent(s: Sys, e: Event, q: Qid, n: nat)
    requires Inv(s, {}, n) && n > 0 && Allowed(s, e) && Ignores(s, e, q, n) && q in s.qs && s.qs[q].state == Done
    ensures StepSends(s, e, q, n) == 0
  {
    if e.Clock? {
      ClockLeavesDone(s, e.st, e.now, e.nets, q, n);
    }
  }

  /** The counts of a run are those of its first step and of the rest. */
  lemma CountsOn(s: Sys, events: seq<Event>, q: Qid, n: nat)
    requires Inv(s, {}, n) && n > 0 && events != [] && Allowed(s, events[0])
    ensures Sends(s, events, q, n) == StepSends(s, events[0], q, n) + Sends(Step(s, events[0], n), events[1..], q, n)
    ensures Overdues(s, events, q, n) ==
      (if Overdue(s, events[0], q) then 1 else 0) + Overdues(Step(s, events[0], n), events[1..], q, n)
  {
  }

  lemma ReachesOn(r: Run, events: seq<Event>, r': Run, q: Qid, n: nat)
    requires Inv(r.s, {}, n) && n > 0 && Reaches(r, events, r', n) && AllIgnore(r.s, events, q, n) && events != []
    ensures
      var e, r1 := events[0], RunStep(r, events[0], n);
      && Allowed(r.s, e) && Ignores(r.s, e, q, n) && r1.s == Step(r.s, e, n)
      && Reaches(r1, events[1..], r', n) && AllIgnore(r1.s, events[1..], q, n)
  {
  }

  lemma {:induction false} RunStands(r: Run, events: seq<Event>, r': Run, q: Qid, overdue: nat, n: nat)
    returns (overdue': nat)
    requires Inv(r.s, {}, n) && n > 0 && Reaches(r, events, r', n) && AllIgnore(r.s, events, q, n)
    requires Stands(r.s, q, overdue, n)
    ensures overdue' == overdue + Overdues(r.s, events, q, n)
    ensures Stands(r'.s, q, overdue', n)
    ensures Sends(r.s, events, q, n) == SentAfter(overdue') - SentAfter(overdue)
    decreases |events|
  {
    overdue' := overdue;
    if events != [] {
      ReachesOn(r, events, r', q, n);
      var e, r1, rest := events[0], RunStep(r, events[0], n), events[1..];
      StepStands(r.s, e, q, overdue, n);
      CountsOn(r.s, events, q, n);
      overdue' := RunStands(r1, rest, r', q, overdue + if Overdue(r.s, e, q) then 1 else 0, n);
    }
  }

  /** Asking sends once. */
  lemma AskedStands(s: Sys, e: Event, n: nat)
    requires Inv(s, {}, n) && n > 0 && e.Ask? && e.asked.Some? && !e.net.toobig
    ensures Stands(Step(s, e, n), s.next, 0, n) && StepSends(s, e, s.next, n) == 1
  {
    var r := NewQuery(e.asked);
    AddedKeeps(s, r, {}, n);
    assert {} + {s.next} == {s.next};
    TurnOver(0, n);
    TriedOnce(r, e.now, n);
  }

  /**
     In every run in which a query is asked and then not answered, cancelled or taken, and never too big for UDP:
     while other queries are asked, answered, timed out and cancelled as they may, it is sent once more at each of its
     time-outs, on the UDP queue with its sends spread over the servers in turn, and given up for good
     at the time-out after `UDPMAXRETRIES` sends.
   */
  lemma SentFifteenTimes(r: Run, events: seq<Event>, r': Run, n: nat)
    requires Inv(r.s, {}, n) && n > 0 && Reaches(r, events, r', n)
    requires events != [] && events[0].Ask? && events[0].asked.Some? && AllIgnore(r.s, events, r.s.next, n)
    ensures
      var q, sends, overdue := r.s.next, Sends(r.s, events, r.s.next, n), Overdues(r.s, events, r.s.next, n);
      && 1 <= sends <= UDPMAXRETRIES
      && (if overdue < UDPMAXRETRIES then sends == overdue + 1 && Awaits(r'.s, q, sends, n)
          else overdue == UDPMAXRETRIES && sends == UDPMAXRETRIES && GivenUp(r'.s, q))
  {
    AskedStands(r.s, events[0], n);
    CountsOn(r.s, events, r.s.next, n);
    var _ := RunStands(RunStep(r, events[0], n), events[1..], r', r.s.next, 0, n);
  }
}
