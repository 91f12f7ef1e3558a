/**
 What single steps of the resolver do to the records of queries, told without its own helpers: a child's end, a reply
 and a time-out (adns/query.c, adns/reply.c, adns/types.c, adns/event.c).
 */
module ResolverLaws {
  import opened Wrappers
  import opened Bytes
  import opened ResolverState
  import opened ResolverRuns

  // ---------- the end of a query ----------

  /** The record and the queues of a user's query that ends with a status. */
  ghost predicate EndsWith(s: Sys, s': Sys, q: Qid, st: Status)
    requires q in s.qs
  {
    && q in s'.qs && s'.qs[q] == s.qs[q].(status := st, id := -1, state := Done, children := [])
    && s'.finished == s.finished + [q] && s'.queues.output != [] && s'.queues.output[|s'.queues.output| - 1] == q
  }

  lemma FinishIs(s: Sys, q: Qid, n: nat)
    requires Inv(s, {q}, n)
    ensures s.qs[q].parent.None? ==> EndsWith(s, Finish(s, q, n), q, s.qs[q].status)
    ensures s.qs[q].parent.Some? ==> q !in Finish(s, q, n).qs
  {
    PrunedKeeps(s, q, {q}, n);
    FinishAloneIs(Pruned(s, q), q, n);
  }

  lemma FinishAloneIs(s: Sys, q: Qid, n: nat)
    requires Inv(s, {q}, n) && s.qs[q].children == []
    ensures s.qs[q].parent.None? ==> FinishAlone(s, q, n) == Output(s, q)
    ensures s.qs[q].parent.Some? ==> q !in FinishAlone(s, q, n).qs
  {
    match s.qs[q].parent
    case None =>
    case Some(p) => ParentGetsIt(s, q, p, n);
  }

  lemma ParentGetsIt(s: Sys, q: Qid, p: Qid, n: nat)
    requires Inv(s, {q}, n) && s.qs[q].parent == Some(p) && s.qs[q].children == []
    ensures p in s.qs && s.qs[p].state == ChildWait && s.qs[p].id >= 0 && Inv(HandedUp(s, q, p), {p}, n)
    ensures HandedUp(s, q, p).qs[p] == s.qs[p].(children := Keep(s.qs[p].children, {q}))
    ensures FinishAlone(s, q, n) == FinishParent(HandedUp(s, q, p), p, Verdict(s.qs[q]), n)
    ensures q !in FinishAlone(s, q, n).qs
  {
    HandedUpKeeps(s, q, p, n);
    HandedUpParent(s, q, p, n);
  }

  lemma FailedIs(s: Sys, q: Qid, st: Status, n: nat)
    requires Inv(s, {q}, n)
    ensures s.qs[q].parent.None? ==> EndsWith(s, Failed(s, q, st, n), q, st)
    ensures s.qs[q].parent.Some? ==> q !in Failed(s, q, st, n).qs
  {
    FailedKeeps(s, q, st, n);
    FinishIs(Marked(s, q, st), q, n);
  }

  /** What becomes of a parent that passes, or fails with a status. */
  ghost predicate Heard(s: Sys, s': Sys, p: Qid, passes: bool, st: Status)
    requires p in s.qs
  {
    if passes && s.qs[p].children != [] then
      s'.qs == s.qs && s'.finished == s.finished && s'.queues == s.queues.(childw := s.queues.childw + [p])
    else if s.qs[p].parent.Some? then p !in s'.qs
    else EndsWith(s, s', p, if passes then s.qs[p].status else st)
  }

  /**
   What a finished child does to its parent. The check of a PTR answer lets it pass exactly if the check ended well and
   confirms the address, any other child always does; a parent that may pass waits on for the children it has left, and
   is done with the status it has when there are none. Otherwise it fails: as inconsistent when the check found no
   such name, no data or only other addresses, and else with the check's own status.
   */
  lemma ChildIsHeard(s: Sys, p: Qid, child: Query, n: nat)
    requires Inv(s, {p}, n) && s.qs[p].state == ChildWait && s.qs[p].id >= 0
    ensures
      var passes := child.callback == PtrCheck ==> child.status == Ok && child.confirms;
      var inconsistent := child.status == NxDomain || child.status == NoData || child.status == Ok;
      Heard(s, FinishParent(s, p, Verdict(child), n), p, passes, if inconsistent then Inconsistent else child.status)
  {
    match Verdict(child)
    case Some(st) => ParentFails(s, p, st, n);
    case None => ParentPasses(s, p, n, if child.status == Ok then Inconsistent else child.status);
  }

  lemma ParentPasses(s: Sys, p: Qid, n: nat, st: Status)
    requires Inv(s, {p}, n) && s.qs[p].state == ChildWait && s.qs[p].id >= 0
    ensures Heard(s, FinishParent(s, p, None, n), p, true, st)
  {
    if s.qs[p].children == [] {
      FinishIs(s, p, n);
    }
  }

  lemma ParentFails(s: Sys, p: Qid, st: Status, n: nat)
    requires Inv(s, {p}, n) && s.qs[p].state == ChildWait && s.qs[p].id >= 0
    ensures Heard(s, FinishParent(s, p, Some(st), n), p, false, st)
  {
    FailedKeeps(s, p, st, n);
    FailedIs(s, p, st, n);
  }

  /** A child that ends leaves its parent's list, and its own record is what the parent hears. */
  lemma ChildEnds(s: Sys, q: Qid, p: Qid, n: nat)
    requires Inv(s, {q}, n) && s.qs[q].children == [] && s.qs[q].parent == Some(p) && s.qs[p].parent.None?
    ensures
      var s', r, child := FinishAlone(s, q, n), s.qs[p], s.qs[q];
      var passes := child.callback == PtrCheck ==> child.status == Ok && child.confirms;
      var inconsistent := child.status == NxDomain || child.status == NoData || child.status == Ok;
      && q !in s'.qs && p in s'.qs
      && (passes && r.children != [q] ==>
            s'.qs[p] == r.(children := Keep(r.children, {q})) && p in s'.queues.childw && p !in s'.finished)
      && (passes && r.children == [q] ==>
            s'.qs[p] == r.(id := -1, state := Done, children := []) && p in s'.queues.output)
      && (!passes ==>
            var st := if inconsistent then Inconsistent else child.status;
            s'.qs[p] == r.(status := st, id := -1, state := Done, children := []) && p in s'.queues.output)
  {
    ParentGetsIt(s, q, p, n);
    ChildIsHeard(HandedUp(s, q, p), p, s.qs[q], n);
    LastChild(s.qs[p].children, q);
  }

  lemma LastChild(cs: seq<Qid>, q: Qid)
    requires NoDup(cs) && q in cs
    ensures Keep(cs, {q}) == [] <==> cs == [q]
  {
    KeepIs(cs, {q});
    if Keep(cs, {q}) == [] {
      forall i | 0 <= i < |cs|
        ensures cs[i] == q
      {
        assert cs[i] in cs;
      }
    }
  }

  // ---------- sending ----------

  /** The record of a query that is sent: the next server in turn has it, or it waits for TCP. */
  function Transmitted(r: Query, now: int, net: Network, n: nat): Query {
    if net.toobig then r.(state := TcpWait, timeout := now + 30000, retries := if net.tcpup then 1 else 0)
    else
      r.(timeout := now + 1500, sent := r.sent + {r.nextserver}, retries := r.retries + 1,
         nextserver := if r.nextserver + 1 == n then 0 else r.nextserver + 1)
  }

  /**
   A send over UDP goes to the next server in turn, which is given a second and a half; a question too big for UDP waits
   half a minute for TCP; and after fifteen tries the query fails.
   */
  lemma SendIs(s: Sys, q: Qid, now: int, net: Network, n: nat)
    requires Inv(s, {q}, n) && n > 0 && Sendable(s.qs[q])
    ensures
      var s', r := Send(s, q, now, net, n), Transmitted(s.qs[q], now, net, n);
      if s.qs[q].retries >= 15 then s.qs[q].parent.None? ==> EndsWith(s, s', q, TimedOut)
      else
        && s'.qs == s.qs[q := r] && s'.finished == s.finished
        && s'.queues == if net.toobig then s.queues.(tcpw := s.queues.tcpw + [q])
                        else s.queues.(udpw := s.queues.udpw + [q])
  {
    if s.qs[q].retries >= 15 {
      FailedIs(s, q, TimedOut, n);
    } else {
      assert {q} - {q} == {};
      SentIs(s, q, now, net, {q}, n);
      assert Send(s, q, now, net, n) == Linked(s, q, Transmitted(s.qs[q], now, net, n));
    }
  }

  lemma WrapsAround(i: nat, n: nat)
    requires i < n
    ensures (i + 1) % n == if i + 1 == n then 0 else i + 1
  {
  }

  /** A child query as it is after its first send. */
  function FirstSent(sp: Spawn, q: Qid, now: int, n: nat): Query {
    Transmitted(Query(sp.id, sp.question, ToSend, 0, 0, {}, 0, Some(q), [], sp.callback, Ok, false), now, sp.net, n)
  }

  function Numbers(from: nat, k: nat): seq<Qid> { seq(k, i => from + i) }

  /** `q` has these new children at the end of its list, each sent once, and nothing else has changed on record. */
  ghost predicate Bred(s: Sys, s': Sys, q: Qid, sps: seq<Spawn>, now: int, n: nat)
    requires q in s.qs
  {
    && s'.next == s.next + |sps| && s.qs.Keys <= s'.qs.Keys
    && s'.qs[q] == s.qs[q].(children := s.qs[q].children + Numbers(s.next, |sps|))
    && (forall x :: x in s.qs && x != q ==> s'.qs[x] == s.qs[x])
    && (forall c :: s.next <= c < s'.next ==> c in s'.qs && s'.qs[c] == FirstSent(sps[c - s.next], q, now, n))
    && s'.queues.childw == s.queues.childw && s'.queues.output == s.queues.output && s'.finished == s.finished
  }

  lemma AddedIs(s: Sys, q: Qid, sp: Spawn, r: Query, now: int, n: nat)
    requires q in s.qs && q != s.next && s.next !in s.qs && r.parent == Some(q)
    requires FirstSent(sp, q, now, n).state != Done && FirstSent(sp, q, now, n).state != ChildWait
    ensures Bred(s, Linked(Added(s, r), s.next, FirstSent(sp, q, now, n)), q, [sp], now, n)
  {
    assert Numbers(s.next, 1) == [s.next];
  }

  lemma SpawnedIs(s: Sys, q: Qid, sp: Spawn, now: int, n: nat)
    requires Inv(s, {q}, n) && n > 0
    ensures q < s.next && s.next !in s.qs && Bred(s, Spawned(s, q, sp, now, n), q, [sp], now, n)
  {
    var r := Fresh(sp.id, sp.question, Some(q), sp.callback);
    AddedKeeps(s, r, {q}, n);
    SentIs(Added(s, r), s.next, now, sp.net, {q} + {s.next}, n);
    AddedIs(s, q, sp, r, now, n);
  }

  lemma SentIs(s: Sys, q: Qid, now: int, net: Network, loose: set<Qid>, n: nat)
    requires Inv(s, loose, n) && n > 0 && q in loose && Sendable(s.qs[q]) && s.qs[q].retries < UDPMAXRETRIES
    ensures Sent(s, q, now, net, loose, n) == Linked(s, q, Transmitted(s.qs[q], now, net, n))
  {
    WrapsAround(s.qs[q].nextserver, n);
  }

  lemma BredOn(s: Sys, s1: Sys, s': Sys, q: Qid, sps: seq<Spawn>, now: int, n: nat)
    requires sps != [] && q in s.qs && s.next !in s.qs && Bred(s, s1, q, [sps[0]], now, n)
    requires q < s.next && q in s1.qs && Bred(s1, s', q, sps[1..], now, n)
    ensures Bred(s, s', q, sps, now, n)
  {
    assert Numbers(s.next, 1) + Numbers(s.next + 1, |sps| - 1) == Numbers(s.next, |sps|);
    assert s'.qs[q].children == s.qs[q].children + (Numbers(s.next, 1) + Numbers(s.next + 1, |sps| - 1));
    forall c | s.next <= c < s'.next
      ensures c in s'.qs && s'.qs[c] == FirstSent(sps[c - s.next], q, now, n)
    {
      if c == s.next {
        assert c in s1.qs && s1.qs[c] == FirstSent([sps[0]][0], q, now, n);
      }
    }
  }

  /** The children that an answer asks for are new queries in its order, each sent once. */
  lemma {:induction false} AllSpawnedIs(s: Sys, q: Qid, sps: seq<Spawn>, now: int, n: nat)
    requires Inv(s, {q}, n) && n > 0
    ensures Bred(s, AllSpawned(s, q, sps, now, n), q, sps, now, n)
    decreases |sps|
  {
    if sps == [] {
      NoneBred(s, q, now, n);
    } else {
      var s1 := FirstBred(s, q, sps, now, n);
      AllSpawnedIs(s1, q, sps[1..], now, n);
      BredOn(s, s1, AllSpawned(s, q, sps, now, n), q, sps, now, n);
    }
  }

  lemma FirstBred(s: Sys, q: Qid, sps: seq<Spawn>, now: int, n: nat) returns (s1: Sys)
    requires Inv(s, {q}, n) && n > 0 && sps != []
    ensures q in s.qs && q < s.next && s.next !in s.qs && q in s1.qs
    ensures Inv(s1, {q}, n) && Bred(s, s1, q, [sps[0]], now, n)
    ensures AllSpawned(s, q, sps, now, n) == AllSpawned(s1, q, sps[1..], now, n)
  {
    s1 := Spawned(s, q, sps[0], now, n);
    SpawnedIs(s, q, sps[0], now, n);
  }

  lemma NoneBred(s: Sys, q: Qid, now: int, n: nat)
    requires q in s.qs
    ensures Bred(s, s, q, [], now, n)
  {
    assert s.qs[q].children + Numbers(s.next, 0) == s.qs[q].children;
  }

  // ---------- a reply ----------

  /** The reply repeats the query's number and question, and its sender was asked. */
  predicate Meant(r: Query, rep: Reply) {
    r.id == rep.id && r.question <= rep.body && (!rep.viatcp ==> rep.serv in r.sent)
  }

  /** A readable reply is for the first query of its transport that it is meant for. */
  lemma TargetIs(s: Sys, rep: Reply, i: nat, n: nat)
    requires Inv(s, {}, n)
    ensures
      var queue := if rep.viatcp then s.queues.tcpw else s.queues.udpw;
      && (forall x :: x in queue ==> x in s.qs)
      && (i < |queue| ==> (Target(s, rep, n) == Some(queue[i]) <==>
           rep.readable && Meant(s.qs[queue[i]], rep) && forall j :: 0 <= j < i ==> !Meant(s.qs[queue[j]], rep)))
      && (Target(s, rep, n) == None <==> rep.readable ==> forall x :: x in queue ==> !Meant(s.qs[x], rep))
  {
    var st := if rep.viatcp then TcpWait else ToSend;
    var queue := Of(s.queues, st);
    assert Queued(s.qs, {}, queue, st);
    if i < |queue| {
      FirstIs(s.qs, queue, rep, i);
    }
  }

  lemma {:induction false} FirstIs(qs: Net, queue: seq<Qid>, rep: Reply, i: nat)
    requires (forall x :: x in queue ==> x in qs) && NoDup(queue) && i < |queue|
    ensures FirstMatch(qs, queue, rep) == Some(queue[i]) <==>
      Meant(qs[queue[i]], rep) && forall j :: 0 <= j < i ==> !Meant(qs[queue[j]], rep)
  {
    if i > 0 {
      assert queue[1..][i - 1] == queue[i];
      FirstIs(qs, queue[1..], rep, i - 1);
      assert forall j :: 0 <= j < i - 1 ==> queue[1..][j] == queue[j + 1];
      assert forall j :: 1 <= j < i ==> queue[j] == queue[1..][j - 1];
    }
  }

  /** The query is on the output, with this record. */
  ghost predicate Ended(s: Sys, q: Qid, r: Query) { q in s.queues.output && q in s.qs && s.qs[q] == r }

  /** The query is on the queue of its transport, with this record. */
  ghost predicate Asking(s: Sys, q: Qid, r: Query) {
    q in s.qs && s.qs[q] == r && q in if r.state == TcpWait then s.queues.tcpw else s.queues.udpw
  }

  /**
   What a whole answer does: without children its query ends, or leaves if it is a child itself; with children it waits
   for exactly these, in their order, each new and sent once.
   */
  ghost predicate Answers(s: Sys, s': Sys, q: Qid, confirms: bool, sps: seq<Spawn>, now: int, n: nat)
    requires q in s.qs
  {
    var r := s.qs[q].(confirms := confirms);
    if sps != [] then
      && q in s'.queues.childw && q in s'.qs
      && s'.qs[q] == r.(state := ChildWait, children := Numbers(s.next, |sps|))
      && forall c :: s.next <= c < s.next + |sps| ==> c in s'.qs && s'.qs[c] == FirstSent(sps[c - s.next], q, now, n)
    else if r.parent.Some? then q !in s'.qs
    else Ended(s', q, r.(id := -1, state := Done))
  }

  /** A failing reply ends its query with that status, whatever children it asked for. */
  lemma ReplyFails(s: Sys, q: Qid, rep: Reply, now: int, n: nat)
    requires Inv(s, {}, n) && n > 0 && Target(s, rep, n) == Some(q) && rep.ending.FailWith?
    requires q in s.qs && s.qs[q].parent.None?
    ensures Ended(Replied(s, rep, now, n), q,
                  s.qs[q].(status := rep.ending.st, id := -1, state := Done, children := []))
  {
    var s1 := Spawning(s, q, rep, now, n);
    FailedIs(s1, q, rep.ending.st, n);
  }

  /** The query that a reply is for, off its queue and with the children that the reply asks for. */
  lemma Spawning(s: Sys, q: Qid, rep: Reply, now: int, n: nat) returns (s1: Sys)
    requires Inv(s, {}, n) && n > 0 && Target(s, rep, n) == Some(q)
    ensures q in s.qs && s.qs[q].state in {ToSend, TcpWait} && s.qs[q].children == [] && s.qs[q].id >= 0
    ensures Inv(s1, {q}, n) && q < s.next && Bred(Unlinked(s, q), s1, q, rep.spawned, now, n)
    ensures Replied(s, rep, now, n) == Concluded(s1, q, rep.ending, now, n)
  {
    TargetOff(s, q, rep, now, n);
    WorkedIs(Unlinked(s, q), q, rep, now, n);
    AllSpawnedIs(Unlinked(s, q), q, rep.spawned, now, n);
    s1 := AllSpawned(Unlinked(s, q), q, rep.spawned, now, n);
  }

  lemma TargetOff(s: Sys, q: Qid, rep: Reply, now: int, n: nat)
    requires Inv(s, {}, n) && n > 0 && Target(s, rep, n) == Some(q)
    ensures q in s.qs && s.qs[q].state in {ToSend, TcpWait} && s.qs[q].children == [] && s.qs[q].id >= 0
    ensures q < s.next && Inv(Unlinked(s, q), {q}, n)
    ensures Replied(s, rep, now, n) == Worked(Unlinked(s, q), q, rep, now, n)
  {
    var st := if rep.viatcp then TcpWait else ToSend;
    assert Queued(s.qs, {}, Of(s.queues, st), st);
    assert Fit(s.qs[q]);
    UnlinkedKeeps(s, q, {}, n);
    assert {} + {q} == {q};
  }

  lemma WorkedIs(s: Sys, q: Qid, rep: Reply, now: int, n: nat)
    requires Inv(s, {q}, n) && n > 0 && s.qs[q].id >= 0 && s.qs[q].children == []
    ensures Worked(s, q, rep, now, n) == Concluded(AllSpawned(s, q, rep.spawned, now, n), q, rep.ending, now, n)
  {
  }

  lemma ReplyAnswers(s: Sys, q: Qid, rep: Reply, now: int, n: nat)
    requires Inv(s, {}, n) && n > 0 && Target(s, rep, n) == Some(q) && rep.ending.Answered? && q in s.qs
    ensures Answers(s, Replied(s, rep, now, n), q, rep.ending.confirms, rep.spawned, now, n)
  {
    var s1 := Spawning(s, q, rep, now, n);
    var s' := ConcludedAnswer(s1, q, rep.ending, now, n);
    AnswersOn(s, Unlinked(s, q), s1, s', q, rep.ending.confirms, rep.spawned, now, n);
  }

  lemma ConcludedAnswer(s: Sys, q: Qid, ending: Ending, now: int, n: nat) returns (s': Sys)
    requires Inv(s, {q}, n) && n > 0 && s.qs[q].id >= 0 && ending.Answered?
    ensures s' == Concluded(s, q, ending, now, n) && Concludes(s, s', q, ending.confirms)
  {
    s' := WholeAnswer(s, q, ending.confirms, n);
    WholeAnswerIs(s, q, ending.confirms, n);
  }

  ghost predicate Concludes(s: Sys, s': Sys, q: Qid, confirms: bool)
    requires q in s.qs
  {
    var r := s.qs[q].(confirms := confirms);
    if r.children != [] then s' == Linked(s, q, r.(state := ChildWait))
    else if r.parent.Some? then q !in s'.qs
    else Ended(s', q, r.(id := -1, state := Done))
  }

  lemma AnswersOn(s: Sys, u: Sys, s1: Sys, s': Sys, q: Qid, confirms: bool, sps: seq<Spawn>, now: int, n: nat)
    requires q in s.qs && s.qs[q].children == [] && q in s1.qs && q < s.next && u.qs == s.qs && u.next == s.next
    requires Bred(u, s1, q, sps, now, n)
    requires Concludes(s1, s', q, confirms)
    ensures Answers(s, s', q, confirms, sps, now, n)
  {
    assert [] + Numbers(s.next, |sps|) == Numbers(s.next, |sps|);
    assert |s1.qs[q].children| == |sps|;
  }

  lemma WholeAnswerIs(s: Sys, q: Qid, confirms: bool, n: nat)
    requires Inv(s, {q}, n) && s.qs[q].id >= 0
    ensures Concludes(s, WholeAnswer(s, q, confirms, n), q, confirms)
  {
    var r := s.qs[q].(confirms := confirms);
    if r.children == [] {
      NotedOnward(s, q, r, n);
      FinishIs(s.(qs := s.qs[q := r]), q, n);
    }
  }

  /** A query to be asked again: perhaps under its canonical name, with no children, and with no tries yet. */
  function Anew(r: Query, renamed: Option<(nat, seq<byte>)>): Query {
    r.(id := if renamed.Some? then renamed.value.0 else r.id,
       question := if renamed.Some? then renamed.value.1 else r.question, state := ToSend, retries := 0, children := [])
  }

  lemma ReplyRestarts(s: Sys, q: Qid, rep: Reply, now: int, n: nat)
    requires Inv(s, {}, n) && n > 0 && Target(s, rep, n) == Some(q) && rep.ending.Restart? && q in s.qs
    ensures Asking(Replied(s, rep, now, n), q,
                   Transmitted(Anew(s.qs[q], rep.ending.renamed), now, rep.ending.net, n))
  {
    var s1 := Spawning(s, q, rep, now, n);
    var s' := ConcludedAgain(s1, q, rep.ending, now, n);
    SameAnew(s.qs[q], s1.qs[q], rep.ending.renamed);
  }

  lemma ConcludedAgain(s: Sys, q: Qid, ending: Ending, now: int, n: nat) returns (s': Sys)
    requires Inv(s, {q}, n) && n > 0 && s.qs[q].id >= 0 && ending.Restart?
    ensures s' == Concluded(s, q, ending, now, n)
    ensures Asking(s', q, Transmitted(Anew(s.qs[q], ending.renamed), now, ending.net, n))
  {
    s' := AskedAgain(s, q, ending.renamed, now, ending.net, n);
    AskedAgainIs(s, q, ending.renamed, now, ending.net, n);
  }

  lemma SameAnew(r: Query, r': Query, renamed: Option<(nat, seq<byte>)>)
    requires r' == r.(children := r'.children)
    ensures Anew(r', renamed) == Anew(r, renamed)
  {
  }

  lemma AskedAgainIs(s: Sys, q: Qid, renamed: Option<(nat, seq<byte>)>, now: int, net: Network, n: nat)
    requires Inv(s, {q}, n) && n > 0 && s.qs[q].id >= 0
    ensures Asking(AskedAgain(s, q, renamed, now, net, n), q, Transmitted(Anew(s.qs[q], renamed), now, net, n))
  {
    RenewedIs(s, q, renamed, n);
    SendIs(Renewed(s, q, renamed, n), q, now, net, n);
  }

  lemma RenewedIs(s: Sys, q: Qid, renamed: Option<(nat, seq<byte>)>, n: nat)
    requires Inv(s, {q}, n) && s.qs[q].id >= 0
    ensures Renewed(s, q, renamed, n).qs[q] == Anew(s.qs[q], renamed)
  {
    PrunedKeeps(s, q, {q}, n);
  }

  // ---------- what the user asks, and time-outs ----------

  /** A question is sent at once, and an owner that makes none fails at once. */
  lemma SubmittedIs(s: Sys, asked: Option<(nat, seq<byte>)>, now: int, net: Network, n: nat)
    requires Inv(s, {}, n) && n > 0
    ensures
      var s', q := Submitted(s, asked, now, net, n), s.next;
      match asked
      case None => Ended(s', q, Query(-1, [], Done, 0, 0, {}, 0, None, [], External, Other(0), false))
      case Some(w) =>
        Asking(s', q, Transmitted(Query(w.0, w.1, ToSend, 0, 0, {}, 0, None, [], External, Ok, false), now, net, n))
  {
    var s1 := Added(s, NewQuery(asked));
    AddedKeeps(s, NewQuery(asked), {}, n);
    assert {} + {s.next} == {s.next};
    if asked.None? {
      FailedIs(s1, s.next, Other(0), n);
    } else {
      SendIs(s1, s.next, now, net, n);
    }
  }

  /** A late query over TCP fails; one over UDP is sent on, or fails after its last try. */
  lemma ExpiredIs(s: Sys, q: Qid, now: int, net: Network, n: nat)
    requires Inv(s, {}, n) && n > 0 && q in s.qs && s.qs[q].state in {ToSend, TcpWait} && s.qs[q].parent.None?
    ensures
      var s', r := Expired(s, q, now, net, n), s.qs[q];
      if r.state == TcpWait || r.retries >= 15 then
        Ended(s', q, r.(status := TimedOut, id := -1, state := Done, children := []))
      else Asking(s', q, Transmitted(r, now, net, n))
  {
    UnlinkedKeeps(s, q, {}, n);
    assert {} + {q} == {q} && Fit(s.qs[q]);
    if s.qs[q].state != ToSend {
      FailedIs(Unlinked(s, q), q, TimedOut, n);
    } else {
      SendIs(Unlinked(s, q), q, now, net, n);
    }
  }

  // ---------- the answer handed out ----------

  /**
   Asked for any answer, the resolver gives the one that has waited longest, says there is none to come exactly if it
   holds no query, and otherwise to ask again; asked for one of the user's queries it gives it exactly if it is done.
   */
  lemma CheckIs(s: Sys, q: Qid, n: nat)
    requires Inv(s, {}, n)
    ensures s.queues.output != [] ==> CheckFor(s, None) == Answer(s.queues.output[0])
    ensures CheckFor(s, None) == NoSuch <==> s.qs == map[]
    ensures CheckFor(s, None) == Again <==> s.qs != map[] && forall x :: x in s.qs ==> s.qs[x].state != Done
    ensures Owned(s, q) ==> CheckFor(s, Some(q)) == if s.qs[q].state == Done then Answer(q) else Again
  {
    NoSuchMeansNone(s, n);
    assert Queued(s.qs, {}, Of(s.queues, Done), Done);
    if s.queues.output != [] {
      assert s.queues.output[0] in Of(s.queues, Done);
    }
    if Owned(s, q) {
      assert Fit(s.qs[q]);
    }
  }
}
