/**
 The resolver itself (adns/query.c, adns/reply.c, adns/event.c): its methods work on the queries and
 queues step by step and come to what `ResolverState` says.
 */
module Resolver {
  import opened Wrappers
  import opened Bytes
  import opened ResolverState
  import opened ResolverRuns
  import opened ResolverLaws

  lemma CutCut(s: Sys, a: set<Qid>, b: set<Qid>)
    ensures Cut(Cut(s, a), b) == Cut(s, a + b)
  {
    var once, twice := Cut(s, a + b), Cut(Cut(s, a), b);
    forall q | q in s.qs && q !in a && q !in b
      ensures twice.qs[q] == once.qs[q]
    {
      KeepKeep(s.qs[q].children, a, b);
    }
    assert twice.qs == once.qs;
    KeepKeep(s.queues.udpw, a, b);
    KeepKeep(s.queues.tcpw, a, b);
    KeepKeep(s.queues.childw, a, b);
    KeepKeep(s.queues.output, a, b);
  }

  lemma {:induction false} UnderCut(s: Sys, gone: set<Qid>, x: Qid, q: Qid)
    requires Under(Cut(s, gone).qs, x, q)
    ensures Under(s.qs, x, q)
    decreases x
  {
    if x != q {
      UnderCut(s, gone, s.qs[x].parent.value, q);
    }
  }

  lemma {:induction false} UnderTrans(qs: Net, x: Qid, c: Qid, q: Qid)
    requires Under(qs, x, c) && Under(qs, c, q)
    ensures Under(qs, x, q)
    decreases x
  {
    if x != c {
      UnderTrans(qs, qs[x].parent.value, c, q);
    }
  }

  /** Once a query has no children, nothing that descended from it is left. */
  lemma {:induction false} NoneBelow(s: Sys, gone: set<Qid>, x: Qid, q: Qid)
    requires Kin(Cut(s, gone).qs) && q in Cut(s, gone).qs && Cut(s, gone).qs[q].children == []
    requires x in s.qs && x !in gone && x != q
    ensures !Under(s.qs, x, q)
    decreases x
  {
    var qs' := Cut(s, gone).qs;
    if Under(s.qs, x, q) {
      var p := qs'[x].parent.value;
      assert p in qs' && x in qs'[p].children;
      if p != q {
        NoneBelow(s, gone, p, q);
      }
    }
  }

  class Adns {
    const nservers: nat
    var queries: Net
    var udpw: seq<Qid>
    var tcpw: seq<Qid>
    var childw: seq<Qid>
    var output: seq<Qid>
    var next: Qid
    /** The queries that reached the output so far. */
    ghost var finished: seq<Qid>

    ghost function Now(): Sys
      reads this
    {
      Sys(queries, Queues(udpw, tcpw, childw, output), finished, next)
    }

    /** What adns/check.c checks, between steps. */
    ghost predicate Valid()
      reads this
    {
      nservers > 0 && Inv(Now(), {}, nservers)
    }

    constructor (nservers: nat)
      requires nservers > 0
      ensures Valid() && Now() == START.s
    {
      this.nservers := nservers;
      queries, udpw, tcpw, childw, output, next, finished := map[], [], [], [], [], 0, [];
      new;
      StartIsSound(nservers);
    }

    /** `DLIST_UNLINK` from the queue of a state. */
    method Unlink(q: Qid, st: State)
      modifies this`udpw, this`tcpw, this`childw, this`output
      ensures Now() == old(Now()).(queues := With(old(Now()).queues, st, Keep(Of(old(Now()).queues, st), {q})))
    {
      match st
      case ToSend => udpw := Keep(udpw, {q});
      case TcpWait => tcpw := Keep(tcpw, {q});
      case ChildWait => childw := Keep(childw, {q});
      case Done => output := Keep(output, {q});
    }

    /** `DLIST_LINK_TAIL` on the queue of the state in the new record. */
    method LinkTail(q: Qid, r: Query)
      modifies this`queries, this`udpw, this`tcpw, this`childw, this`output
      ensures Now() == Linked(old(Now()), q, r)
    {
      queries := queries[q := r];
      match r.state
      case ToSend => udpw := udpw + [q];
      case TcpWait => tcpw := tcpw + [q];
      case ChildWait => childw := childw + [q];
      case Done => output := output + [q];
    }

    /** Off its parent's list and freed: a query without children that is on no queue. */
    method Free(q: Qid)
      requires Kin(queries) && q in queries && queries[q].children == [] && forall st :: q !in Of(Now().queues, st)
      modifies this`queries
      ensures Now() == Cut(old(Now()), {q})
    {
      FreedIsCut(Now(), q);
      var parent := queries[q].parent;
      if parent.Some? {
        var p := parent.value;
        queries := queries[p := queries[p].(children := Keep(queries[p].children, {q}))];
      }
      queries := queries - {q};
    }

    /** `cancel_children`, for a query off its queue: all that is below it goes. */
    method CancelChildren(q: Qid, ghost loose: set<Qid>)
      requires q in queries && Kin(queries) && (queries[q].children != [] ==> Inv(Now(), loose, nservers))
      requires q in loose && forall x :: x in loose ==> x <= q
      modifies this`queries, this`udpw, this`tcpw, this`childw, this`output
      ensures Now() == Pruned(old(Now()), q)
      decreases next - q, 0
    {
      ghost var s, gone := Now(), {};
      NothingCut(s);
      while queries[q].children != []
        invariant q in queries && Now() == Cut(s, gone) && gone <= Descendants(s.qs, q) && Kin(queries)
        invariant queries[q].children != [] ==> Inv(Now(), loose, nservers)
        decreases |queries[q].children|
      {
        var c := queries[q].children[0];
        ghost var t := Now();
        ChildGoes(s, gone, q, c, loose, nservers);
        Cancel(c, loose);
        gone := gone + Subtree(t.qs, c);
      }
      AllGone(s, gone, q);
    }

    /** `adns_cancel` */
    method Cancel(q: Qid, ghost loose: set<Qid>)
      requires Inv(Now(), loose, nservers) && q in queries
      requires queries[q].parent.Some? ==> queries[q].parent.value in loose
      requires forall x :: x in loose ==> x < q
      modifies this`queries, this`udpw, this`tcpw, this`childw, this`output
      ensures Now() == Cancelled(old(Now()), q)
      decreases next - q, 1
    {
      OffQueue(Now(), q, loose, nservers);
      PrunedThenFree(Now(), q, loose, nservers);
      ghost var t := Pruned(Unlinked(Now(), q), q);
      Unlink(q, queries[q].state);
      CancelChildren(q, loose + {q});
      assert Now() == t;
      Free(q);
    }

    /** `adns__query_done`, for a query off its queue. */
    method QueryDone(q: Qid)
      requires Inv(Now(), {q}, nservers)
      modifies this`queries, this`udpw, this`tcpw, this`childw, this`output, this`finished
      ensures Now() == Finish(old(Now()), q, nservers) && Inv(Now(), {}, nservers)
      decreases q, 1
    {
      PrunedKeeps(Now(), q, {q}, nservers);
      CancelChildren(q, {q});
      HandOn(q);
    }

    /** A query without children goes to the output or to its parent. */
    method HandOn(q: Qid)
      requires Inv(Now(), {q}, nservers) && queries[q].children == []
      modifies this`queries, this`udpw, this`tcpw, this`childw, this`output, this`finished
      ensures Now() == FinishAlone(old(Now()), q, nservers) && Inv(Now(), {}, nservers)
      decreases q, 0
    {
      var r := queries[q];
      match r.parent
      case None =>
        LinkTail(q, r.(id := -1, state := Done));
        finished := finished + [q];
      case Some(p) =>
        HandedUpKeeps(Now(), q, p, nservers);
        HandedUpParent(Now(), q, p, nservers);
        LeaveParent(q, p);
        Callback(p, r);
    }

    /** A finished child leaves its parent's list, and the parent its queue. */
    method LeaveParent(q: Qid, p: Qid)
      requires Inv(Now(), {q}, nservers) && queries[q].parent == Some(p) && queries[q].children == []
      requires p in queries && queries[p].state == ChildWait
      modifies this`queries, this`udpw, this`tcpw, this`childw, this`output
      ensures Now() == HandedUp(old(Now()), q, p)
    {
      LooseIsNowhere(Now(), q, p, nservers);
      ghost var t := Unlinked(Now(), p);
      Unlink(p, ChildWait);
      assert Now() == t;
      Free(q);
    }

    /** What `icb_hostaddr` or `icb_ptr` finds wrong with the finished child. */
    method Blame(child: Query) returns (st: Option<Status>)
      ensures st == Verdict(child)
    {
      st := None;
      if child.callback == PtrCheck {
        if child.status == NxDomain || child.status == NoData {
          st := Some(Inconsistent);
        } else if child.status != Ok {
          st := Some(child.status);
        } else if !child.confirms {
          st := Some(Inconsistent);
        }
      }
    }

    /**
     The child's callback on its parent, which passes unless the child was the check of a PTR answer and did not end
     well or does not confirm the address.
     */
    method Callback(p: Qid, child: Query)
      requires Inv(Now(), {p}, nservers) && queries[p].state == ChildWait && queries[p].id >= 0
      modifies this`queries, this`udpw, this`tcpw, this`childw, this`output, this`finished
      ensures Now() == FinishParent(old(Now()), p, Verdict(child), nservers) && Inv(Now(), {}, nservers)
      ensures Heard(old(Now()), Now(), p, child.callback == PtrCheck ==> child.status == Ok && child.confirms,
                    if child.status in {NxDomain, NoData, Ok} then Inconsistent else child.status)
      decreases p, 3
    {
      ChildIsHeard(Now(), p, child, nservers);
      var st := Blame(child);
      if st.Some? {
        QueryFail(p, st.value);
      } else if queries[p].children != [] {
        LinkTail(p, queries[p]);
      } else {
        QueryDone(p);
      }
    }

    /** `adns__query_fail` */
    method QueryFail(q: Qid, st: Status)
      requires Inv(Now(), {q}, nservers)
      modifies this`queries, this`udpw, this`tcpw, this`childw, this`output, this`finished
      ensures Now() == Failed(old(Now()), q, st, nservers) && Inv(Now(), {}, nservers)
      decreases q, 2
    {
      FailedKeeps(Now(), q, st, nservers);
      queries := queries[q := queries[q].(status := st)];
      QueryDone(q);
    }

    /** `adns__query_send` with tries left; `loose` holds what is being worked on, `q` too. */
    method Transmit(q: Qid, now: int, net: Network, ghost loose: set<Qid>)
      requires Inv(Now(), loose, nservers) && nservers > 0 && q in loose && Sendable(queries[q])
      requires queries[q].retries < UDPMAXRETRIES
      modifies this`queries, this`udpw, this`tcpw, this`childw, this`output
      ensures Now() == Sent(old(Now()), q, now, net, loose, nservers)
    {
      var r := queries[q];
      var serv := r.nextserver;
      if net.toobig {
        LinkTail(q, r.(state := TcpWait, timeout := now + TCPWAITMS, retries := if net.tcpup then 1 else 0));
        return;
      }
      r := r.(timeout := now + UDPRETRYMS);
      r := r.(sent := r.sent + {serv});
      r := r.(nextserver := (serv + 1) % nservers);
      r := r.(retries := r.retries + 1);
      LinkTail(q, r);
    }

    /** `adns__query_send` */
    method QuerySend(q: Qid, now: int, net: Network)
      requires Inv(Now(), {q}, nservers) && nservers > 0 && Sendable(queries[q])
      modifies this`queries, this`udpw, this`tcpw, this`childw, this`output, this`finished
      ensures Now() == Send(old(Now()), q, now, net, nservers) && Inv(Now(), {}, nservers)
    {
      if queries[q].retries >= UDPMAXRETRIES {
        QueryFail(q, TimedOut);
        return;
      }
      Transmit(q, now, net, {q});
    }

    /** `query_alloc`: a query on no queue, at the end of its parent's children if it has one. */
    method Alloc(r: Query) returns (q: Qid)
      requires r.parent.Some? ==> r.parent.value in queries
      modifies this`queries, this`next
      ensures Now() == Added(old(Now()), r) && q == old(next)
    {
      q := next;
      if r.parent.Some? {
        var p := r.parent.value;
        queries := queries[p := queries[p].(children := queries[p].children + [q])];
      }
      queries := queries[q := r];
      next := next + 1;
    }

    /** `adns__internal_submit` with the linking its callers do. */
    method InternalSubmit(q: Qid, sp: Spawn, now: int)
      requires Inv(Now(), {q}, nservers) && nservers > 0
      modifies this`queries, this`udpw, this`tcpw, this`childw, this`output, this`next
      ensures Now() == Spawned(old(Now()), q, sp, now, nservers)
    {
      AddedKeeps(Now(), Fresh(sp.id, sp.question, Some(q), sp.callback), {q}, nservers);
      var c := Alloc(Fresh(sp.id, sp.question, Some(q), sp.callback));
      Transmit(c, now, sp.net, {q} + {c});
    }

    /** `adns_submit`; an owner that makes no question fails the query at once. */
    method Submit(asked: Option<(nat, seq<byte>)>, now: int, net: Network) returns (q: Qid)
      requires Valid()
      modifies this
      ensures Valid() && q == old(next) && Now() == Submitted(old(Now()), asked, now, net, nservers)
    {
      AddedKeeps(Now(), NewQuery(asked), {}, nservers);
      assert {} + {next} == {next};
      q := Alloc(NewQuery(asked));
      if asked.None? {
        QueryFail(q, Other(0));
      } else {
        QuerySend(q, now, net);
      }
    }

    /** The search loop of `adns__procdgram`. */
    method FindQuery(rep: Reply) returns (found: Option<Qid>)
      requires Valid() && rep.readable
      ensures (forall x :: x in Of(Now().queues, if rep.viatcp then TcpWait else ToSend) ==> x in queries)
      ensures found == FirstMatch(queries, Of(Now().queues, if rep.viatcp then TcpWait else ToSend), rep)
    {
      ghost var st := if rep.viatcp then TcpWait else ToSend;
      var queue := if rep.viatcp then tcpw else udpw;
      assert Queued(queries, {}, Of(Now().queues, st), st);
      var i := 0;
      while i < |queue|
        invariant 0 <= i <= |queue| && FirstMatch(queries, queue[i..], rep) == FirstMatch(queries, queue, rep)
      {
        var r := queries[queue[i]];
        MatchOn(queries, queue, i, rep);
        if r.id == rep.id && |rep.body| >= |r.question| && rep.body[..|r.question|] == r.question
          && (rep.viatcp || rep.serv in r.sent) {
          return Some(queue[i]);
        }
        i := i + 1;
      }
      found := None;
    }

    /** `adns__procdgram` */
    method ProcDgram(rep: Reply, now: int)
      requires Valid()
      modifies this
      ensures Valid() && Now() == Replied(old(Now()), rep, now, nservers)
    {
      if !rep.readable { return; }
      var found := FindQuery(rep);
      if found.None? { return; }
      var q := found.value;
      ghost var st := if rep.viatcp then TcpWait else ToSend;
      assert Queued(queries, {}, Of(Now().queues, st), st);
      assert Fit(queries[q]);
      UnlinkedKeeps(Now(), q, {}, nservers);
      assert {} + {q} == {q};
      Unlink(q, if rep.viatcp then TcpWait else ToSend);
      UseReply(q, rep, now);
    }

    /** The rest of `adns__procdgram`, for the query the reply is for. */
    method UseReply(q: Qid, rep: Reply, now: int)
      requires Inv(Now(), {q}, nservers) && nservers > 0 && queries[q].id >= 0 && queries[q].children == []
      requires queries[q].state in {ToSend, TcpWait}
      modifies this
      ensures Valid() && Now() == Worked(old(Now()), q, rep, now, nservers)
    {
      SpawnAll(q, rep.spawned, now);
      Conclude(q, rep.ending, now);
    }

    method Conclude(q: Qid, ending: Ending, now: int)
      requires Inv(Now(), {q}, nservers) && nservers > 0 && queries[q].id >= 0 && queries[q].state in {ToSend, TcpWait}
      modifies this`queries, this`udpw, this`tcpw, this`childw, this`output, this`finished
      ensures Now() == Concluded(old(Now()), q, ending, now, nservers) && Inv(Now(), {}, nservers)
    {
      match ending
      case FailWith(st) => QueryFail(q, st);
      case Restart(renamed, net) => RestartQuery(q, renamed, now, net);
      case Answered(confirms) =>
        TakeAnswer(q, confirms);
    }

    /** The answer may have generated child queries; without any the query is done. */
    method TakeAnswer(q: Qid, confirms: bool)
      requires Inv(Now(), {q}, nservers) && queries[q].id >= 0
      modifies this`queries, this`udpw, this`tcpw, this`childw, this`output, this`finished
      ensures Now() == WholeAnswer(old(Now()), q, confirms, nservers) && Inv(Now(), {}, nservers)
    {
      var r := queries[q].(confirms := confirms);
      if r.children != [] {
        LinkTail(q, r.(state := ChildWait));
      } else {
        ChangedKeeps(Now(), q, r, {q}, nservers);
        queries := queries[q := r];
        QueryDone(q);
      }
    }

    method SpawnAll(q: Qid, sps: seq<Spawn>, now: int)
      requires Inv(Now(), {q}, nservers) && nservers > 0
      modifies this`queries, this`udpw, this`tcpw, this`childw, this`output, this`next
      ensures Now() == AllSpawned(old(Now()), q, sps, now, nservers)
    {
      ghost var s := Now();
      var i := 0;
      while i < |sps|
        invariant 0 <= i <= |sps| && Inv(Now(), {q}, nservers)
        invariant AllSpawned(Now(), q, sps[i..], now, nservers) == AllSpawned(s, q, sps, now, nservers)
      {
        InternalSubmit(q, sps[i], now);
        assert sps[i..][1..] == sps[i + 1..];
        i := i + 1;
      }
    }

    /** The restart of `adns__procdgram`, perhaps with the canonical name. */
    method RestartQuery(q: Qid, renamed: Option<(nat, seq<byte>)>, now: int, net: Network)
      requires Inv(Now(), {q}, nservers) && nservers > 0 && queries[q].id >= 0 && queries[q].state in {ToSend, TcpWait}
      modifies this`queries, this`udpw, this`tcpw, this`childw, this`output, this`finished
      ensures Now() == AskedAgain(old(Now()), q, renamed, now, net, nservers) && Inv(Now(), {}, nservers)
    {
      Renew(q, renamed);
      QuerySend(q, now, net);
    }

    method Renew(q: Qid, renamed: Option<(nat, seq<byte>)>)
      requires Inv(Now(), {q}, nservers) && queries[q].id >= 0 && queries[q].state in {ToSend, TcpWait}
      modifies this`queries, this`udpw, this`tcpw, this`childw, this`output
      ensures Now() == Renewed(old(Now()), q, renamed, nservers)
    {
      PrunedKeeps(Now(), q, {q}, nservers);
      CancelChildren(q, {q});
      var r := queries[q];
      if renamed.Some? {
        r := r.(id := renamed.value.0, question := renamed.value.1);
      }
      if r.state == TcpWait {
        r := r.(state := ToSend);
      }
      r := r.(retries := 0);
      queries := queries[q := r];
    }

    /**
     One pass of `timeouts_queue` over the UDP or the TCP queue, starting over after every query it
     handles: it comes to an end, and no late query is left there.
     */
    method TimeoutsQueue(st: State, now: int, nets: Qid -> Network)
      requires Valid() && st in {ToSend, TcpWait}
      modifies this
      ensures Valid() && Now() == Timeouts(old(Now()), st, now, nets, nservers)
      ensures forall q :: q in Of(Now().queues, st) ==> q in queries && now <= queries[q].timeout
    {
      ghost var s := Now();
      var i := 0;
      while i < |if st == ToSend then udpw else tcpw|
        invariant 0 <= i <= |Of(Now().queues, st)| && Valid()
        invariant Timeouts(Now(), st, now, nets, nservers) == Timeouts(s, st, now, nets, nservers)
        invariant NoneLate(queries, Of(Now().queues, st)[..i], now)
        decreases CountLate(queries, Of(Now().queues, st), now), |Of(Now().queues, st)| - i
      {
        ghost var queue := Of(Now().queues, st);
        var q := if st == ToSend then udpw[i] else tcpw[i];
        assert q in queue && Queued(queries, {}, queue, st);
        FirstOf(queries, queue, i, now);
        if !Late(queries[q], now) {
          i := i + 1;
        } else {
          ExpiredCounts(Now(), q, now, nets(q), nservers);
          Expire(q, st, now, nets(q));
          i := 0;
        }
      }
      AllSeen(queries, Of(Now().queues, st), now);
    }

    /** What is done with a late query: sent again, or failed. */
    method Expire(q: Qid, st: State, now: int, net: Network)
      requires Valid() && q in queries && queries[q].state == st && st in {ToSend, TcpWait}
      modifies this
      ensures Valid() && Now() == Expired(old(Now()), q, now, net, nservers)
    {
      UnlinkedKeeps(Now(), q, {}, nservers);
      assert {} + {q} == {q} && Fit(queries[q]);
      Unlink(q, st);
      if queries[q].state != ToSend {
        QueryFail(q, TimedOut);
      } else {
        QuerySend(q, now, net);
      }
    }

    /** `adns__internal_check`, and freeing the query if it is answered. */
    method InternalCheck(wanted: Option<Qid>) returns (r: Checked)
      requires Valid() && (wanted.Some? ==> Owned(Now(), wanted.value))
      modifies this`queries, this`output
      ensures Valid() && r == CheckFor(old(Now()), wanted)
      ensures Now() == if r.Answer? then Cut(old(Now()), {r.q}) else old(Now())
      ensures r.NoSuch? ==> queries == map[]
    {
      var q;
      NoSuchMeansNone(Now(), nservers);
      if wanted.None? {
        if output != [] {
          q := output[0];
        } else if udpw != [] || tcpw != [] {
          return Again;
        } else {
          return NoSuch;
        }
      } else {
        q := wanted.value;
        if queries[q].id >= 0 { return Again; }
      }
      ghost var s := Now();
      TakenKeeps(s, wanted, nservers);
      OffOutput(s, q, nservers);
      output := Keep(output, {q});
      Free(q);
      r := Answer(q);
    }

    /** `adns_cancel` as users call it. */
    method UserCancel(q: Qid)
      requires Valid() && Owned(Now(), q)
      modifies this
      ensures Valid() && Now() == Cancelled(old(Now()), q)
    {
      CancelledKeeps(Now(), q, {}, nservers);
      assert {} - Subtree(queries, q) == {};
      Cancel(q, {});
    }
  }

  /** The queries without `q`, struck from its parent's list. */
  function Struck(qs: Net, q: Qid): Net
    requires q in qs && (qs[q].parent.Some? ==> qs[q].parent.value in qs)
  {
    match qs[q].parent
    case None => qs - {q}
    case Some(p) => qs[p := qs[p].(children := Keep(qs[p].children, {q}))] - {q}
  }

  lemma MatchOn(qs: Net, queue: seq<Qid>, i: nat, rep: Reply)
    requires i < |queue| && forall x :: x in queue ==> x in qs
    ensures FirstMatch(qs, queue[i..], rep) ==
      if Matches(qs[queue[i]], rep) then Some(queue[i]) else FirstMatch(qs, queue[i + 1..], rep)
  {
    assert queue[i..][1..] == queue[i + 1..];
  }

  lemma FreedIsCut(s: Sys, q: Qid)
    requires Kin(s.qs) && q in s.qs && forall st :: q !in Of(s.queues, st)
    ensures Cut(s, {q}) == s.(qs := Struck(s.qs, q))
  {
    OnNoQueue(s.queues, {q});
    forall x | x in s.qs && x != q
      ensures Cut(s, {q}).qs[x] == Struck(s.qs, q)[x]
    {
      if s.qs[q].parent != Some(x) {
        assert q !in s.qs[x].children;
        KeepAllOf(s.qs[x].children, {q});
      }
    }
    assert Cut(s, {q}).qs == Struck(s.qs, q);
  }

  lemma OnNoQueue(queues: Queues, bad: set<Qid>)
    requires forall st, x :: x in bad ==> x !in Of(queues, st)
    ensures KeepIn(queues, bad) == queues
  {
    forall x | x in bad
      ensures x !in queues.udpw && x !in queues.tcpw && x !in queues.childw && x !in queues.output
    {
      assert x !in Of(queues, ToSend) && x !in Of(queues, TcpWait) && x !in Of(queues, ChildWait)
        && x !in Of(queues, Done);
    }
    KeepAllOf(queues.udpw, bad);
    KeepAllOf(queues.tcpw, bad);
    KeepAllOf(queues.childw, bad);
    KeepAllOf(queues.output, bad);
  }

  lemma NothingCut(s: Sys)
    ensures Cut(s, {}) == s
  {
    forall q | q in s.qs
      ensures Cut(s, {}).qs[q] == s.qs[q]
    {
      KeepAllOf(s.qs[q].children, {});
    }
    assert Cut(s, {}).qs == s.qs;
    OnNoQueue(s.queues, {});
  }

  /** Cancelling the first child is allowed, takes only descendants, and leaves a shorter list. */
  lemma ChildGoes(s: Sys, gone: set<Qid>, q: Qid, c: Qid, loose: set<Qid>, n: nat)
    requires q in Cut(s, gone).qs && Inv(Cut(s, gone), loose, n) && c in Cut(s, gone).qs[q].children
    requires q in loose && (forall x :: x in loose ==> x <= q) && gone <= Descendants(s.qs, q)
    ensures
      var t := Cut(s, gone);
      && c in t.qs && t.qs[c].parent == Some(q) && q < c
      && gone + Subtree(t.qs, c) <= Descendants(s.qs, q)
      && Cancelled(t, c) == Cut(s, gone + Subtree(t.qs, c)) && Inv(Cancelled(t, c), loose, n)
      && q in Cancelled(t, c).qs && |Cancelled(t, c).qs[q].children| < |t.qs[q].children|
  {
    var t := Cut(s, gone);
    var sub := Subtree(t.qs, c);
    BelowChild(s, gone, q, c);
    CutCut(s, gone, sub);
    CancelledKeeps(t, c, loose, n);
    assert loose - sub == loose;
    assert Under(t.qs, c, c);
    KeepShorter(t.qs[q].children, sub, c);
  }

  lemma BelowChild(s: Sys, gone: set<Qid>, q: Qid, c: Qid)
    requires q in Cut(s, gone).qs && Kin(Cut(s, gone).qs) && c in Cut(s, gone).qs[q].children
    ensures c in Cut(s, gone).qs && Cut(s, gone).qs[c].parent == Some(q) && q < c
    ensures forall x :: x in Subtree(Cut(s, gone).qs, c) ==> x in Descendants(s.qs, q) && q < x
  {
    var t := Cut(s, gone);
    assert t.qs[c].parent == Some(q) && q < c;
    assert s.qs[c].parent == Some(q) && Under(s.qs, q, q);
    assert Under(s.qs, c, q);
    forall x | x in Subtree(t.qs, c)
      ensures x in Descendants(s.qs, q) && q < x
    {
      UnderIsLater(t.qs, x, c);
      UnderCut(s, gone, x, c);
      UnderTrans(s.qs, x, c, q);
    }
  }

  lemma {:induction false} KeepShorter(s: seq<Qid>, bad: set<Qid>, x: Qid)
    requires x in s && x in bad
    ensures |Keep(s, bad)| < |s|
  {
    KeepIs(s[1..], bad);
    if s[0] !in bad {
      KeepShorter(s[1..], bad, x);
    }
  }

  lemma AllGone(s: Sys, gone: set<Qid>, q: Qid)
    requires q in Cut(s, gone).qs && Kin(Cut(s, gone).qs) && Cut(s, gone).qs[q].children == []
    requires gone <= Descendants(s.qs, q)
    ensures Cut(s, gone) == Pruned(s, q)
  {
    forall x | x in Descendants(s.qs, q)
      ensures x in gone
    {
      if x !in gone {
        NoneBelow(s, gone, x, q);
      }
    }
    assert gone == Descendants(s.qs, q);
  }

  /** A query that leaves its queue is loose; a finished one has nothing below it. */
  lemma OffQueue(s: Sys, q: Qid, loose: set<Qid>, n: nat)
    requires Inv(s, loose, n) && q in s.qs && q !in loose
    ensures s.qs[q].children != [] ==> Inv(Unlinked(s, q), loose + {q}, n)
  {
    assert Fit(s.qs[q]);
    if s.qs[q].children != [] {
      UnlinkedKeeps(s, q, loose, n);
    }
  }

  lemma PrunedThenFree(s: Sys, q: Qid, loose: set<Qid>, n: nat)
    requires Inv(s, loose, n) && q in s.qs && q !in loose
    ensures
      var t := Pruned(Unlinked(s, q), q);
      && Kin(t.qs) && q in t.qs && t.qs[q].children == [] && (forall st :: q !in Of(t.queues, st))
      && Cut(t, {q}) == Cancelled(s, q)
  {
    var u := Unlinked(s, q);
    var below := Descendants(s.qs, q);
    DescendantsCut(s.qs, q, {q});
    CutKin(u, below, {q});
    ChildrenDescend(s.qs, q);
    KeepNone(s.qs[q].children, below);
    NotQueuedAgain(s, q, loose, n);
    CutCut(u, below, {q});
    assert below + {q} == Subtree(s.qs, q);
    UnlinkedCut(s, q, below + {q});
  }

  lemma NotQueuedAgain(s: Sys, q: Qid, loose: set<Qid>, n: nat)
    requires Inv(s, loose, n) && q in s.qs && q !in loose
    ensures forall st :: q !in Of(Pruned(Unlinked(s, q), q).queues, st)
  {
    var u := Unlinked(s, q);
    forall st
      ensures q !in Of(Pruned(u, q).queues, st)
    {
      assert Queued(s.qs, loose, Of(s.queues, st), st);
      KeepIs(Of(s.queues, st), {q});
      KeepIs(Of(u.queues, st), Descendants(u.qs, q));
    }
  }

  lemma UnlinkedCut(s: Sys, q: Qid, gone: set<Qid>)
    requires q in s.qs && q in gone
    ensures Cut(Unlinked(s, q), gone) == Cut(s, gone)
  {
    assert {q} + gone == gone;
    KeepKeep(Of(s.queues, s.qs[q].state), {q}, gone);
    assert Cut(Unlinked(s, q), gone).qs == Cut(s, gone).qs;
  }

  /** A query off its queue stays on none while its parent leaves the children queue. */
  lemma LooseIsNowhere(s: Sys, q: Qid, p: Qid, n: nat)
    requires Inv(s, {q}, n) && p in s.qs
    ensures forall st :: q !in Of(Unlinked(s, p).queues, st)
  {
    forall st
      ensures q !in Of(Unlinked(s, p).queues, st)
    {
      assert Queued(s.qs, {q}, Of(s.queues, st), st);
      KeepIs(Of(s.queues, st), {p});
    }
  }

  predicate NoneLate(qs: Net, queue: seq<Qid>, now: int) {
    forall x :: x in queue ==> x in qs && !Late(qs[x], now)
  }

  lemma AllSeen(qs: Net, queue: seq<Qid>, now: int)
    requires NoneLate(qs, queue[..|queue|], now)
    ensures NoneLate(qs, queue, now) && FirstLate(qs, queue, now).None?
  {
    assert queue[..|queue|] == queue;
    FirstOf(qs, queue, |queue|, now);
  }

  /** Behind queries that are not late, the next late one is the first. */
  lemma {:induction false} FirstOf(qs: Net, queue: seq<Qid>, i: nat, now: int)
    requires i <= |queue| && NoneLate(qs, queue[..i], now) && forall x :: x in queue ==> x in qs
    ensures i == |queue| ==> FirstLate(qs, queue, now).None?
    ensures i < |queue| && Late(qs[queue[i]], now) ==> FirstLate(qs, queue, now) == Some(queue[i])
    ensures i < |queue| && !Late(qs[queue[i]], now) ==> NoneLate(qs, queue[..i + 1], now)
  {
    if 0 < i {
      assert queue[..i][0] == queue[0] && queue[0] in queue[..i];
      assert queue[1..][..i - 1] == queue[..i][1..];
      FirstOf(qs, queue[1..], i - 1, now);
    }
    if i < |queue| {
      assert queue[..i + 1] == queue[..i] + [queue[i]];
    }
  }

  lemma OffOutput(s: Sys, q: Qid, n: nat)
    requires Inv(s, {}, n) && q in s.qs && s.qs[q].state == Done
    ensures Kin(s.qs) && s.qs[q].children == [] && forall st :: q !in Of(Unlinked(s, q).queues, st)
    ensures Cut(Unlinked(s, q), {q}) == Cut(s, {q})
  {
    assert Fit(s.qs[q]);
    forall st
      ensures q !in Of(Unlinked(s, q).queues, st)
    {
      assert Queued(s.qs, {}, Of(s.queues, st), st);
      KeepIs(Of(s.queues, st), {q});
    }
    UnlinkedCut(s, q, {q});
  }
}
