/**
 Whole runs of the resolver: the invariant of adns/check.c in every reachable state, and each query answered
 at most once.
 */
module ResolverRuns {
  import opened Wrappers
  import Bytes
  import opened ResolverState

  datatype Checked = Again | NoSuch | Answer(q: Qid)

  /** `adns__internal_check`: the oldest finished query, or the one asked about. */
  function CheckFor(s: Sys, wanted: Option<Qid>): Checked
    requires wanted.Some? ==> wanted.value in s.qs
  {
    match wanted
    case None =>
      if s.queues.output != [] then Answer(s.queues.output[0])
      else if s.queues.udpw != [] || s.queues.tcpw != [] then Again
      else NoSuch
    case Some(q) => if s.qs[q].id >= 0 then Again else Answer(q)
  }

  /** What happens to the resolver from outside. */
  datatype Event =
    | Ask(asked: Option<(nat, seq<Bytes.byte>)>, now: int, net: Network)
    | Arrive(reply: Reply, now: int)
    | Clock(st: State, now: int, nets: Qid -> Network)
    | Cancel(q: Qid)
    | Check(wanted: Option<Qid>)

  /** Users speak of their own queries only: live ones without a parent. */
  predicate Owned(s: Sys, q: Qid) { q in s.qs && s.qs[q].parent.None? }

  predicate Allowed(s: Sys, e: Event) {
    match e
    case Clock(st, _, _) => st in {ToSend, TcpWait}
    case Cancel(q) => Owned(s, q)
    case Check(wanted) => wanted.None? || Owned(s, wanted.value)
    case _ => true
  }

  ghost function Step(s: Sys, e: Event, n: nat): (s': Sys)
    requires Inv(s, {}, n) && n > 0 && Allowed(s, e)
    ensures Inv(s', {}, n)
  {
    match e
    case Ask(asked, now, net) => Submitted(s, asked, now, net, n)
    case Arrive(rep, now) => Replied(s, rep, now, n)
    case Clock(st, now, nets) => Timeouts(s, st, now, nets, n)
    case Cancel(q) =>
      CancelledKeeps(s, q, {}, n);
      assert {} - Subtree(s.qs, q) == {};
      Cancelled(s, q)
    case Check(wanted) =>
      var r := CheckFor(s, wanted);
      if r.Answer? then
        TakenKeeps(s, wanted, n);
        Cut(s, {r.q})
      else s
  }

  /** The query handed out is finished, and taking it keeps the invariant. */
  lemma TakenKeeps(s: Sys, wanted: Option<Qid>, n: nat)
    requires Inv(s, {}, n) && (wanted.Some? ==> wanted.value in s.qs) && CheckFor(s, wanted).Answer?
    ensures
      var q := CheckFor(s, wanted).q;
      q in s.qs && s.qs[q].state == Done && q in s.finished && Inv(Cut(s, {q}), {}, n)
  {
    var q := CheckFor(s, wanted).q;
    assert Queued(s.qs, {}, Of(s.queues, Done), Done);
    assert Fit(s.qs[q]);
    CanTake(s.qs, q);
    CutKeeps(s, {q}, {}, n);
    assert {} - {q} == {};
  }

  lemma CanTake(qs: Net, q: Qid)
    requires Kin(qs) && q in qs && qs[q].parent.None? && qs[q].children == []
    ensures CanCut(qs, {q}, {})
  {
  }

  /**
     Asked for any answer, the resolver says there is no query only if there is none: as long as a parent
     waits for a child, a message is waited for too.
   */
  lemma NoSuchMeansNone(s: Sys, n: nat)
    requires Inv(s, {}, n)
    ensures CheckFor(s, None) == NoSuch <==> s.qs == map[]
  {
    if s.qs != map[] {
      var q := Latest(s.qs.Keys);
      OnItsQueue(s, q, n);
      if s.qs[q].state == ChildWait {
        WaitsForLater(s.qs, q);
        assert false;
      }
    } else {
      forall st
        ensures Of(s.queues, st) == []
      {
        EmptyQueue(s, st, n);
      }
      assert Of(s.queues, Done) == [] && Of(s.queues, ToSend) == [] && Of(s.queues, TcpWait) == [];
    }
  }

  lemma WaitsForLater(qs: Net, q: Qid)
    requires Kin(qs) && q in qs && qs[q].children != []
    ensures exists c :: c in qs.Keys && q < c
  {
    assert qs[q].children[0] in qs.Keys;
  }

  lemma OnItsQueue(s: Sys, q: Qid, n: nat)
    requires Inv(s, {}, n) && q in s.qs
    ensures Of(s.queues, s.qs[q].state) != [] && Fit(s.qs[q])
  {
    assert Queued(s.qs, {}, Of(s.queues, s.qs[q].state), s.qs[q].state);
  }

  lemma HasFirst(queue: seq<Qid>)
    ensures queue != [] ==> exists q :: q in queue
  {
    if queue != [] {
      assert queue[0] in queue;
    }
  }

  lemma EmptyQueue(s: Sys, st: State, n: nat)
    requires Inv(s, {}, n) && s.qs == map[]
    ensures Of(s.queues, st) == []
  {
    assert Queued(s.qs, {}, Of(s.queues, st), st);
    HasFirst(Of(s.queues, st));
  }

  lemma {:induction false} Latest(ids: set<Qid>) returns (q: Qid)
    requires ids != {}
    ensures q in ids && forall x :: x in ids ==> x <= q
  {
    var some :| some in ids;
    var rest := ids - {some};
    q := some;
    if rest != {} {
      var r := Latest(rest);
      q := if some < r then r else some;
    }
    assert forall x :: x in ids ==> x == some || x in rest;
  }

  /** A run: the resolver's state, the queries asked, answered in this order, and cancelled so far. */
  datatype Run = Run(s: Sys, asked: set<Qid>, answered: seq<Qid>, cancelled: set<Qid>)

  ghost function RunStep(r: Run, e: Event, n: nat): Run
    requires Inv(r.s, {}, n) && n > 0 && Allowed(r.s, e)
  {
    var s' := Step(r.s, e, n);
    match e
    case Ask(_, _, _) => r.(s := s', asked := r.asked + {r.s.next})
    case Cancel(q) => r.(s := s', cancelled := r.cancelled + {q})
    case Check(wanted) =>
      var c := CheckFor(r.s, wanted);
      r.(s := s', answered := if c.Answer? then r.answered + [c.q] else r.answered)
    case _ => r.(s := s')
  }

  /** All runs: what users do is allowed, replies and the clock are whatever they are. */
  ghost predicate Reaches(r: Run, events: seq<Event>, r': Run, n: nat)
    requires Inv(r.s, {}, n) && n > 0
    decreases |events|
  {
    if events == [] then r' == r
    else Allowed(r.s, events[0]) && Reaches(RunStep(r, events[0], n), events[1..], r', n)
  }

  const START := Run(Sys(map[], Queues([], [], [], []), [], 0), {}, [], {})

  lemma StartIsSound(n: nat)
    ensures Inv(START.s, {}, n) && Accounted(START)
  {
    forall st
      ensures Queued(START.s.qs, {}, Of(START.s.queues, st), st)
    {
    }
  }

  /** What became of a query that was asked: it is live, or was answered, or was cancelled. */
  datatype Fate = Live | GotAnswer | WasCancelled

  ghost predicate Is(r: Run, q: Qid, fate: Fate) {
    match fate
    case Live => Owned(r.s, q)
    case GotAnswer => q in r.answered
    case WasCancelled => q in r.cancelled
  }

  /** Every query asked has exactly one fate, no other query has any, and no answer is given twice. */
  ghost predicate Accounted(r: Run) {
    && NoDup(r.answered) && (forall q :: q in r.asked ==> q < r.s.next)
    && (forall q :: q in r.asked <==> exists fate :: Is(r, q, fate))
    && (forall q, f, g :: Is(r, q, f) && Is(r, q, g) ==> f == g)
  }

  lemma AccountedStep(r: Run, e: Event, n: nat)
    requires Inv(r.s, {}, n) && n > 0 && Allowed(r.s, e) && Accounted(r)
    ensures Accounted(RunStep(r, e, n))
  {
    match e
    case Ask(_, _, _) => AskedStep(r, e, n);
    case Cancel(q) => CancelStep(r, e, n);
    case Check(_) => CheckStep(r, e, n);
    case _ => OtherStep(r, e, n);
  }

  lemma OtherStep(r: Run, e: Event, n: nat)
    requires Inv(r.s, {}, n) && n > 0 && Allowed(r.s, e) && (e.Arrive? || e.Clock?) && Accounted(r)
    ensures Accounted(RunStep(r, e, n))
  {
    var r' := RunStep(r, e, n);
    OnwardOwned(r.s, r'.s);
    FatesAfter(r, r', {}, {}, {});
  }

  lemma AskedStep(r: Run, e: Event, n: nat)
    requires Inv(r.s, {}, n) && n > 0 && e.Ask? && Accounted(r)
    ensures Accounted(RunStep(r, e, n))
  {
    var s', s1 := Step(r.s, e, n), Added(r.s, NewQuery(e.asked));
    AddedOwned(r.s, NewQuery(e.asked));
    OnwardOwned(s1, s');
    FatesAfter(r, RunStep(r, e, n), {r.s.next}, {}, {});
  }

  lemma AddedOwned(s: Sys, r: Query)
    requires r.parent.None?
    ensures forall q :: Owned(Added(s, r), q) <==> Owned(s, q) || q == s.next
  {
  }

  lemma OnwardOwned(s: Sys, s': Sys)
    requires Onward(s, s')
    ensures forall q :: Owned(s', q) <==> Owned(s, q)
  {
  }

  lemma CancelStep(r: Run, e: Event, n: nat)
    requires Inv(r.s, {}, n) && n > 0 && e.Cancel? && Allowed(r.s, e) && Accounted(r)
    ensures Accounted(RunStep(r, e, n))
  {
    CancelledGone(r.s, e.q, n);
    FatesAfter(r, RunStep(r, e, n), {}, {}, {e.q});
  }

  lemma CheckStep(r: Run, e: Event, n: nat)
    requires Inv(r.s, {}, n) && n > 0 && e.Check? && Allowed(r.s, e) && Accounted(r)
    ensures Accounted(RunStep(r, e, n))
  {
    var c := CheckFor(r.s, e.wanted);
    if c.Answer? {
      TakenKeeps(r.s, e.wanted, n);
      assert Fit(r.s.qs[c.q]);
      assert Is(r, c.q, Live);
      assert !Is(r, c.q, GotAnswer);
      NoDupSnoc(c.q, r.answered);
      FatesAfter(r, RunStep(r, e, n), {}, {c.q}, {});
    }
  }

  /** Queries asked, answered and cancelled in a step, and nothing else, change their fate. */
  lemma FatesAfter(r: Run, r': Run, asked: set<Qid>, answered: set<Qid>, cancelled: set<Qid>)
    requires Accounted(r) && NoDup(r'.answered) && r.s.next <= r'.s.next
    requires r'.asked == r.asked + asked && r'.cancelled == r.cancelled + cancelled
    requires forall q :: q in r'.answered <==> q in r.answered || q in answered
    requires forall q :: q in asked ==> r.s.next <= q < r'.s.next
    requires forall q :: q in answered || q in cancelled ==> Owned(r.s, q)
    requires answered !! cancelled
    requires forall q :: Owned(r'.s, q) <==> (Owned(r.s, q) || q in asked) && q !in answered && q !in cancelled
    ensures Accounted(r')
  {
    forall q
      ensures q in r'.asked <==> exists fate :: Is(r', q, fate)
    {
      OnlyFates(r, q);
      OnlyFates(r', q);
    }
    forall q, f, g | Is(r', q, f) && Is(r', q, g)
      ensures f == g
    {
      OnlyFates(r, q);
    }
  }

  /** A query asked is live, answered or cancelled, and there is no fourth fate. */
  lemma OnlyFates(r: Run, q: Qid)
    ensures (exists fate :: Is(r, q, fate)) <==> Owned(r.s, q) || q in r.answered || q in r.cancelled
    ensures Is(r, q, Live) == Owned(r.s, q) && Is(r, q, GotAnswer) == (q in r.answered)
    ensures Is(r, q, WasCancelled) == (q in r.cancelled)
  {
    assert Is(r, q, Live) == Owned(r.s, q) && Is(r, q, GotAnswer) == (q in r.answered)
      && Is(r, q, WasCancelled) == (q in r.cancelled);
  }

  /** Of the queries a user holds, cancelling takes exactly the one that was meant. */
  lemma CancelledGone(s: Sys, q: Qid, n: nat)
    requires Inv(s, {}, n) && Owned(s, q)
    ensures forall x :: Owned(Cancelled(s, q), x) <==> Owned(s, x) && x != q
  {
    assert forall x :: Owned(s, x) && Under(s.qs, x, q) ==> x == q;
  }

  /**
     In every run of asking, replies, time-outs, cancelling and checking, the invariant holds, every query
     asked is live or was answered or cancelled, only one of these, and no answer is given twice.
   */
  lemma {:induction false} EveryRunIsSound(r: Run, events: seq<Event>, r': Run, n: nat)
    requires Inv(r.s, {}, n) && n > 0 && Accounted(r) && Reaches(r, events, r', n)
    ensures Inv(r'.s, {}, n) && Accounted(r')
    decreases |events|
  {
    if events != [] {
      AccountedStep(r, events[0], n);
      EveryRunIsSound(RunStep(r, events[0], n), events[1..], r', n);
    }
  }
}
