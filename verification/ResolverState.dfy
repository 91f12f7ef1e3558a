/**
 The resolver's queries and queues as values (adns/query.c, adns/reply.c, adns/event.c,
 adns/types.c): what each step makes of them, and the invariant every step keeps (adns/check.c).
 */
module ResolverState {
  import opened Wrappers
  import opened Bytes

  const UDPMAXRETRIES := 15
  const UDPRETRYMS := 1500
  const TCPWAITMS := 30000

  /** A query's identity; a later query has a larger one. */
  type Qid = nat

  datatype State = ToSend | TcpWait | ChildWait | Done

  datatype Status = Ok | TimedOut | NxDomain | NoData | Inconsistent | Other(code: nat)

  /** What a finished child does to its parent. */
  datatype Callback = External | HostAddr | PtrCheck

  datatype Query = Query(id: int, question: seq<byte>, state: State, retries: nat, nextserver: nat, sent: set<nat>,
                         timeout: int,
                         parent: Option<Qid>, children: seq<Qid>, callback: Callback, status: Status, confirms: bool)

  type Net = map<Qid, Query>

  datatype Queues = Queues(udpw: seq<Qid>, tcpw: seq<Qid>, childw: seq<Qid>, output: seq<Qid>)

  /** All queries, their queues, those that reached the output so far, and the next identity. */
  datatype Sys = Sys(qs: Net, queues: Queues, finished: seq<Qid>, next: Qid)

  function Of(queues: Queues, st: State): seq<Qid> {
    match st
    case ToSend => queues.udpw
    case TcpWait => queues.tcpw
    case ChildWait => queues.childw
    case Done => queues.output
  }

  function With(queues: Queues, st: State, queue: seq<Qid>): Queues {
    match st
    case ToSend => queues.(udpw := queue)
    case TcpWait => queues.(tcpw := queue)
    case ChildWait => queues.(childw := queue)
    case Done => queues.(output := queue)
  }

  predicate NoDup(s: seq<Qid>) { forall i, j :: 0 <= i < j < |s| ==> s[i] != s[j] }

  /** `s` without what is in `bad`, in the same order. */
  function Keep(s: seq<Qid>, bad: set<Qid>): seq<Qid> {
    if s == [] then []
    else if s[0] in bad then Keep(s[1..], bad)
    else [s[0]] + Keep(s[1..], bad)
  }

  lemma {:induction false} KeepIs(s: seq<Qid>, bad: set<Qid>)
    ensures forall x :: x in Keep(s, bad) <==> x in s && x !in bad
    ensures NoDup(s) ==> NoDup(Keep(s, bad))
    ensures |Keep(s, bad)| <= |s|
  {
    if s != [] {
      KeepIs(s[1..], bad);
      assert s == [s[0]] + s[1..];
      if NoDup(s) {
        assert forall i :: 0 <= i < |s| - 1 ==> s[1..][i] == s[i + 1];
        if s[0] !in bad {
          NoDupCons(s[0], Keep(s[1..], bad));
        }
      }
    }
  }

  lemma NoDupCons(x: Qid, s: seq<Qid>)
    requires NoDup(s) && x !in s
    ensures NoDup([x] + s)
  {
  }

  lemma NoDupSnoc(x: Qid, s: seq<Qid>)
    ensures NoDup(s + [x]) <==> NoDup(s) && x !in s
  {
    var t := s + [x];
    if NoDup(t) {
      assert forall i :: 0 <= i < |s| ==> t[i] == s[i] && t[|s|] == x;
    }
  }

  lemma {:induction false} KeepKeep(s: seq<Qid>, a: set<Qid>, b: set<Qid>)
    ensures Keep(Keep(s, a), b) == Keep(s, a + b)
  {
    if s != [] {
      KeepKeep(s[1..], a, b);
      if s[0] !in a {
        assert ([s[0]] + Keep(s[1..], a))[1..] == Keep(s[1..], a);
      }
    }
  }

  lemma {:induction false} KeepAllOf(s: seq<Qid>, bad: set<Qid>)
    requires forall x :: x in s ==> x !in bad
    ensures Keep(s, bad) == s
  {
    if s != [] {
      KeepAllOf(s[1..], bad);
    }
  }

  lemma {:induction false} KeepNone(s: seq<Qid>, bad: set<Qid>)
    requires forall x :: x in s ==> x in bad
    ensures Keep(s, bad) == []
  {
    if s != [] {
      KeepNone(s[1..], bad);
    }
  }

  function KeepIn(queues: Queues, bad: set<Qid>): Queues {
    Queues(Keep(queues.udpw, bad), Keep(queues.tcpw, bad), Keep(queues.childw, bad), Keep(queues.output, bad))
  }

  /** A queue holds exactly the queries of its state that are not being worked on, each once. */
  ghost predicate Queued(qs: Net, loose: set<Qid>, queue: seq<Qid>, st: State) {
    NoDup(queue) && forall q :: q in queue <==> q in qs && q !in loose && qs[q].state == st
  }

  ghost predicate AllQueued(qs: Net, loose: set<Qid>, queues: Queues) {
    forall st :: Queued(qs, loose, Of(queues, st), st)
  }

  /** Parent pointers and children lists mirror each other, and parents are older. */
  ghost predicate Kin(qs: Net) {
    && (forall q :: q in qs && qs[q].parent.Some? ==>
          qs[q].parent.value < q && qs[q].parent.value in qs && q in qs[qs[q].parent.value].children)
    && (forall q :: q in qs ==> NoDup(qs[q].children))
    && (forall q, c :: q in qs && c in qs[q].children ==> c in qs && qs[c].parent == Some(q))
  }

  predicate Servers(r: Query, n: nat) { r.nextserver < n && forall i :: i in r.sent ==> i < n }

  /** A query that waits on a queue is as that queue demands. */
  predicate Fit(r: Query) {
    match r.state
    case ToSend => r.children == [] && r.id >= 0 && r.retries <= UDPMAXRETRIES && r.sent != {}
    case TcpWait => r.children == [] && r.id >= 0
    case ChildWait => r.children != [] && r.id >= 0
    case Done => r.children == [] && r.parent.None? && r.id == -1
  }

  /** What has reached the output did so once, and is done. */
  ghost predicate Logged(s: Sys, loose: set<Qid>) {
    && NoDup(s.finished)
       && (forall q :: q in s.finished ==> q < s.next && (q in s.qs ==> s.qs[q].state == Done && q !in loose))
    && (forall q :: q in s.qs && s.qs[q].state == Done ==> q in s.finished)
  }

  /** The invariant, while the queries of `loose` are off their queues. */
  ghost predicate Inv(s: Sys, loose: set<Qid>, n: nat) {
    && loose <= s.qs.Keys && AllQueued(s.qs, loose, s.queues) && Kin(s.qs) && Logged(s, loose)
    && (forall q :: q in s.qs ==> q < s.next && Servers(s.qs[q], n) && (q !in loose ==> Fit(s.qs[q])))
    && (forall q :: q in loose ==> s.qs[q].state != Done)
  }

  /** `x` is `q` or descends from it. */
  predicate Under(qs: Net, x: Qid, q: Qid)
    decreases x
  {
    x == q || (x in qs && qs[x].parent.Some? && qs[x].parent.value < x && Under(qs, qs[x].parent.value, q))
  }

  function Descendants(qs: Net, q: Qid): set<Qid> { set x | x in qs && x != q && Under(qs, x, q) }

  /** A query off its queue. */
  function Unlinked(s: Sys, q: Qid): Sys
    requires q in s.qs
  {
    s.(queues := With(s.queues, s.qs[q].state, Keep(Of(s.queues, s.qs[q].state), {q})))
  }

  /** A query at the tail of the queue of its new state. */
  function Linked(s: Sys, q: Qid, r: Query): Sys {
    s.(qs := s.qs[q := r], queues := With(s.queues, r.state, Of(s.queues, r.state) + [q]))
  }

  lemma UnlinkedKeeps(s: Sys, q: Qid, loose: set<Qid>, n: nat)
    requires Inv(s, loose, n) && q in s.qs && q !in loose && s.qs[q].state != Done
    ensures Inv(Unlinked(s, q), loose + {q}, n)
  {
    KeepIs(Of(s.queues, s.qs[q].state), {q});
    forall st
      ensures Queued(s.qs, loose + {q}, Of(Unlinked(s, q).queues, st), st)
    {
      assert Queued(s.qs, loose, Of(s.queues, st), st);
    }
  }

  /** Only a query's own affairs change: all but its kin. */
  predicate SameKin(r: Query, r': Query) { r'.parent == r.parent && r'.children == r.children }

  lemma KinSame(qs: Net, q: Qid, r: Query)
    requires Kin(qs) && q in qs && SameKin(qs[q], r)
    ensures Kin(qs[q := r])
  {
  }

  lemma ChangedKeeps(s: Sys, q: Qid, r: Query, loose: set<Qid>, n: nat)
    requires Inv(s, loose, n) && q in loose && SameKin(s.qs[q], r) && Servers(r, n) && r.state != Done
    ensures Inv(s.(qs := s.qs[q := r]), loose, n)
  {
    KinSame(s.qs, q, r);
    forall st
      ensures Queued(s.qs[q := r], loose, Of(s.queues, st), st)
    {
      assert Queued(s.qs, loose, Of(s.queues, st), st);
    }
  }

  lemma QueuedLinked(s: Sys, q: Qid, r: Query, loose: set<Qid>)
    requires AllQueued(s.qs, loose, s.queues) && q in loose
    ensures AllQueued(Linked(s, q, r).qs, loose - {q}, Linked(s, q, r).queues)
  {
    var s' := Linked(s, q, r);
    NoDupSnoc(q, Of(s.queues, r.state));
    forall st
      ensures Queued(s'.qs, loose - {q}, Of(s'.queues, st), st)
    {
      assert Queued(s.qs, loose, Of(s.queues, st), st);
    }
  }

  lemma LinkedKeeps(s: Sys, q: Qid, r: Query, loose: set<Qid>, n: nat)
    requires Inv(s, loose, n) && q in loose && SameKin(s.qs[q], r) && Servers(r, n) && Fit(r)
    requires r.state != Done
    ensures Inv(Linked(s, q, r), loose - {q}, n)
  {
    QueuedLinked(s, q, r, loose);
    KinSame(s.qs, q, r);
  }

  /** The queries of `gone` freed, and struck from the children lists of those that stay. */
  ghost function Cut(s: Sys, gone: set<Qid>): Sys {
    s.(qs := map q | q in s.qs && q !in gone :: s.qs[q].(children := Keep(s.qs[q].children, gone)),
       queues := KeepIn(s.queues, gone))
  }

  /** With a query go its children, and only queries off their queues lose a child. */
  ghost predicate CanCut(qs: Net, gone: set<Qid>, loose: set<Qid>) {
    && (forall q, c :: q in qs && c in qs[q].children && q in gone ==> c in gone)
    && (forall q, c :: q in qs && c in qs[q].children && c in gone ==> q in gone || q in loose)
  }

  lemma CutQueued(s: Sys, gone: set<Qid>, loose: set<Qid>)
    requires AllQueued(s.qs, loose, s.queues)
    ensures AllQueued(Cut(s, gone).qs, loose - gone, Cut(s, gone).queues)
  {
    var s' := Cut(s, gone);
    forall st
      ensures Queued(s'.qs, loose - gone, Of(s'.queues, st), st)
    {
      assert Queued(s.qs, loose, Of(s.queues, st), st);
      KeepIs(Of(s.queues, st), gone);
    }
  }

  lemma CutKin(s: Sys, gone: set<Qid>, loose: set<Qid>)
    requires Kin(s.qs) && CanCut(s.qs, gone, loose)
    ensures Kin(Cut(s, gone).qs)
  {
    forall q | q in Cut(s, gone).qs
      ensures KinAt(Cut(s, gone).qs, q)
    {
      CutParent(s, gone, loose, q);
      CutChildren(s, gone, loose, q);
    }
    KinHolds(Cut(s, gone).qs);
  }

  /** What `Kin` says of one query. */
  ghost predicate KinAt(qs: Net, q: Qid)
    requires q in qs
  {
    && (qs[q].parent.Some? ==>
       qs[q].parent.value < q && qs[q].parent.value in qs && q in qs[qs[q].parent.value].children)
    && NoDup(qs[q].children) && forall c :: c in qs[q].children ==> c in qs && qs[c].parent == Some(q)
  }

  lemma KinHolds(qs: Net)
    requires forall q :: q in qs ==> KinAt(qs, q)
    ensures Kin(qs)
  {
  }

  lemma CutChildren(s: Sys, gone: set<Qid>, loose: set<Qid>, q: Qid)
    requires Kin(s.qs) && CanCut(s.qs, gone, loose) && q in s.qs && q !in gone
    ensures
      var qs' := Cut(s, gone).qs;
      NoDup(qs'[q].children) && forall c :: c in qs'[q].children ==> c in qs' && qs'[c].parent == Some(q)
  {
    KeepIs(s.qs[q].children, gone);
  }

  lemma CutParent(s: Sys, gone: set<Qid>, loose: set<Qid>, q: Qid)
    requires Kin(s.qs) && CanCut(s.qs, gone, loose) && q in s.qs && q !in gone
    ensures
      var qs' := Cut(s, gone).qs;
      qs'[q].parent.Some? ==>
        qs'[q].parent.value < q && qs'[q].parent.value in qs' && q in qs'[qs'[q].parent.value].children
  {
    if s.qs[q].parent.Some? {
      KeepIs(s.qs[s.qs[q].parent.value].children, gone);
    }
  }

  lemma CutKeeps(s: Sys, gone: set<Qid>, loose: set<Qid>, n: nat)
    requires Inv(s, loose, n) && CanCut(s.qs, gone, loose)
    ensures Inv(Cut(s, gone), loose - gone, n)
  {
    CutQueued(s, gone, loose);
    CutKin(s, gone, loose);
    var s' := Cut(s, gone);
    forall q | q in s'.qs
      ensures q !in loose ==> s'.qs[q] == s.qs[q]
    {
      if q !in loose {
        KeepAllOf(s.qs[q].children, gone);
      }
    }
  }

  lemma {:induction false} UnderIsLater(qs: Net, x: Qid, q: Qid)
    requires Under(qs, x, q)
    ensures q <= x
    decreases x
  {
    if x != q {
      UnderIsLater(qs, qs[x].parent.value, q);
    }
  }

  lemma DescendantsCut(qs: Net, q: Qid, loose: set<Qid>)
    requires Kin(qs) && q in loose
    ensures CanCut(qs, Descendants(qs, q), loose)
    ensures forall x :: x in Descendants(qs, q) ==> q < x
  {
    forall x | x in Descendants(qs, q)
      ensures q < x
    {
      UnderIsLater(qs, x, q);
    }
  }

  lemma ChildrenDescend(qs: Net, q: Qid)
    requires Kin(qs) && q in qs
    ensures forall c :: c in qs[q].children ==> c in Descendants(qs, q)
  {
    forall c | c in qs[q].children
      ensures c in Descendants(qs, q)
    {
      assert qs[c].parent == Some(q) && q < c;
      assert Under(qs, q, q);
      assert Under(qs, c, q);
    }
  }

  /** A query without its children, which are cancelled with all that is below them. */
  ghost function Pruned(s: Sys, q: Qid): Sys { Cut(s, Descendants(s.qs, q)) }

  lemma PrunedKeeps(s: Sys, q: Qid, loose: set<Qid>, n: nat)
    requires Inv(s, loose, n) && q in loose && Descendants(s.qs, q) !! loose
    ensures Shrinks(s, Pruned(s, q))
    ensures Inv(Pruned(s, q), loose, n) && q in Pruned(s, q).qs && Pruned(s, q).qs[q] == s.qs[q].(children := [])
  {
    var gone := Descendants(s.qs, q);
    DescendantsCut(s.qs, q, loose);
    CutKeeps(s, gone, loose, n);
    CutShrinks(s, gone, loose, n);
    assert loose - gone == loose;
    ChildrenDescend(s.qs, q);
    KeepNone(s.qs[q].children, gone);
  }

  /** What a finished child makes of its parent: a status to fail with, or nothing. */
  function Verdict(child: Query): Option<Status> {
    match child.callback
    case External => None
    case HostAddr => None
    case PtrCheck =>
      if child.status == NxDomain || child.status == NoData then Some(Inconsistent)
      else if child.status != Ok then Some(child.status)
      else if child.confirms then None
      else Some(Inconsistent)
  }

  /** A finished child leaves its parent, which comes off its queue. */
  ghost function HandedUp(s: Sys, q: Qid, p: Qid): Sys
    requires p in s.qs
  {
    Cut(Unlinked(s, p), {q})
  }

  lemma HandedUpKeeps(s: Sys, q: Qid, p: Qid, n: nat)
    requires Inv(s, {q}, n) && s.qs[q].parent == Some(p) && s.qs[q].children == []
    ensures p in s.qs && p != q && s.qs[p].state == ChildWait && s.qs[p].id >= 0
    ensures Inv(HandedUp(s, q, p), {p}, n)
  {
    assert Fit(s.qs[p]);
    UnlinkedKeeps(s, p, {q}, n);
    CanHandUp(s.qs, q, p);
    CutKeeps(Unlinked(s, p), {q}, {q} + {p}, n);
    assert {q} + {p} - {q} == {p};
  }

  lemma CanHandUp(qs: Net, q: Qid, p: Qid)
    requires Kin(qs) && q in qs && qs[q].parent == Some(p) && qs[q].children == []
    ensures CanCut(qs, {q}, {q} + {p})
  {
  }

  lemma HandedUpParent(s: Sys, q: Qid, p: Qid, n: nat)
    requires Inv(s, {q}, n) && s.qs[q].parent == Some(p) && s.qs[q].children == []
    ensures p in s.qs && p != q && s.qs[p].state == ChildWait && s.qs[p].id >= 0
    ensures HandedUp(s, q, p).qs.Keys == s.qs.Keys - {q}
    ensures HandedUp(s, q, p).qs[p] == s.qs[p].(children := Keep(s.qs[p].children, {q}))
  {
    assert Fit(s.qs[p]);
  }

  lemma HandedUpShrinks(s: Sys, q: Qid, p: Qid, n: nat)
    requires Inv(s, {q}, n) && s.qs[q].parent == Some(p) && s.qs[q].children == []
    ensures p in s.qs && Shrinks(s, HandedUp(s, q, p))
  {
    assert Fit(s.qs[p]);
    var s1 := Unlinked(s, p);
    UnlinkedKeeps(s, p, {q}, n);
    AsideShrinks(s, s1, {q}, n);
    CanHandUp(s.qs, q, p);
    CutShrinks(s1, {q}, {q} + {p}, n);
    ShrinksOn(s, s1, HandedUp(s, q, p));
  }

  /**
     Queries only go; what is left waiting for a reply is as it was, in the same order; no query that the
     user holds goes; and what reached the output stays on record and stays as it is.
   */
  ghost predicate Shrinks(s: Sys, s': Sys) {
    && s'.qs.Keys <= s.qs.Keys && s.finished <= s'.finished && s'.next == s.next
    && Thinned(s, s', ToSend) && Thinned(s, s', TcpWait) && TopsStay(s.qs, s'.qs)
  }

  ghost predicate Thinned(s: Sys, s': Sys, st: State) {
    && Of(s'.queues, st) == Keep(Of(s.queues, st), s.qs.Keys - s'.qs.Keys)
    && forall x :: x in Of(s'.queues, st) ==> x in s.qs && x in s'.qs && s'.qs[x] == s.qs[x]
  }

  ghost predicate TopsStay(qs: Net, qs': Net) {
    && (forall x :: x in qs && qs[x].parent.None? ==> x in qs')
    && (forall x :: x in qs' && x in qs ==> qs'[x].parent == qs[x].parent)
    && (forall x :: x in qs && qs[x].state == Done ==> x in qs' && qs'[x] == qs[x])
  }

  lemma ThinnedOn(s: Sys, s1: Sys, s2: Sys, st: State)
    requires s2.qs.Keys <= s1.qs.Keys <= s.qs.Keys && Thinned(s, s1, st) && Thinned(s1, s2, st)
    ensures Thinned(s, s2, st)
  {
    var a, b := s.qs.Keys - s1.qs.Keys, s1.qs.Keys - s2.qs.Keys;
    assert a + b == s.qs.Keys - s2.qs.Keys;
    KeepKeep(Of(s.queues, st), a, b);
    KeepIs(Of(s1.queues, st), b);
  }

  lemma ShrinksOn(s: Sys, s1: Sys, s2: Sys)
    requires Shrinks(s, s1) && Shrinks(s1, s2)
    ensures Shrinks(s, s2)
  {
    ThinnedOn(s, s1, s2, ToSend);
    ThinnedOn(s, s1, s2, TcpWait);
  }

  lemma CutThins(s: Sys, gone: set<Qid>, loose: set<Qid>, st: State)
    requires Queued(s.qs, loose, Of(s.queues, st), st) && CanCut(s.qs, gone, loose) && gone <= s.qs.Keys
    ensures Thinned(s, Cut(s, gone), st)
  {
    var s' := Cut(s, gone);
    assert s.qs.Keys - s'.qs.Keys == gone;
    KeepIs(Of(s.queues, st), gone);
    forall x | x in Of(s'.queues, st)
      ensures x in s'.qs && s'.qs[x] == s.qs[x]
    {
      KeepAllOf(s.qs[x].children, gone);
    }
  }

  lemma CutShrinks(s: Sys, gone: set<Qid>, loose: set<Qid>, n: nat)
    requires Inv(s, loose, n) && CanCut(s.qs, gone, loose) && gone <= s.qs.Keys
    requires forall x :: x in gone ==> s.qs[x].parent.Some?
    ensures Shrinks(s, Cut(s, gone))
  {
    CutThins(s, gone, loose, ToSend);
    CutThins(s, gone, loose, TcpWait);
  }

  /** Nothing that waits for a reply is touched: queries change state outside those two queues. */
  lemma AsideShrinks(s: Sys, s': Sys, loose: set<Qid>, n: nat)
    requires Inv(s, loose, n) && s'.qs.Keys == s.qs.Keys && s.finished <= s'.finished && s'.next == s.next
    requires s'.queues.udpw == s.queues.udpw && s'.queues.tcpw == s.queues.tcpw
    requires forall x :: x in s.qs ==>
      s'.qs[x].parent == s.qs[x].parent && (x !in loose && s.qs[x].state != ChildWait ==> s'.qs[x] == s.qs[x])
    ensures Shrinks(s, s')
  {
    assert s.qs.Keys - s'.qs.Keys == {};
    KeepAllOf(s.queues.udpw, {});
    KeepAllOf(s.queues.tcpw, {});
    assert Queued(s.qs, loose, Of(s.queues, ToSend), ToSend) && Queued(s.qs, loose, Of(s.queues, TcpWait), TcpWait);
  }

  /** `adns__query_done`, for a query off its queue; its children go, and its parents may be done with it. */
  ghost function Finish(s: Sys, q: Qid, n: nat): (s': Sys)
    requires Inv(s, {q}, n)
    ensures Inv(s', {}, n) && Shrinks(s, s')
    decreases q, 1
  {
    PrunedKeeps(s, q, {q}, n);
    var s1 := Pruned(s, q);
    var s' := FinishAlone(s1, q, n);
    ShrinksOn(s, s1, s');
    s'
  }

  /** The rest of it, for a query that has no children any more. */
  ghost function FinishAlone(s: Sys, q: Qid, n: nat): (s': Sys)
    requires Inv(s, {q}, n) && s.qs[q].children == []
    ensures Inv(s', {}, n) && Shrinks(s, s')
    decreases q, 0
  {
    match s.qs[q].parent
    case None =>
      DoneKeeps(s, q, n);
      Output(s, q)
    case Some(p) =>
      HandedUpKeeps(s, q, p, n);
      HandedUpParent(s, q, p, n);
      HandedUpShrinks(s, q, p, n);
      var s1 := HandedUp(s, q, p);
      var s' := FinishParent(s1, p, Verdict(s.qs[q]), n);
      ShrinksOn(s, s1, s');
      s'
  }

  /** The callback: a parent fails, waits on for its other children, or is done. */
  ghost function FinishParent(s: Sys, p: Qid, verdict: Option<Status>, n: nat): (s': Sys)
    requires Inv(s, {p}, n) && s.qs[p].state == ChildWait && s.qs[p].id >= 0
    ensures Inv(s', {}, n) && Shrinks(s, s')
    decreases p, 2
  {
    match verdict
    case Some(st) =>
      FailedKeeps(s, p, st, n);
      var s' := Finish(Marked(s, p, st), p, n);
      ShrinksOn(s, Marked(s, p, st), s');
      s'
    case None =>
      if s.qs[p].children == [] then Finish(s, p, n)
      else
        var s' := Linked(s, p, s.qs[p]);
        LinkedKeeps(s, p, s.qs[p], {p}, n);
        assert {p} - {p} == {};
        AsideShrinks(s, s', {p}, n);
        s'
  }

  function Marked(s: Sys, q: Qid, st: Status): Sys
    requires q in s.qs
  {
    s.(qs := s.qs[q := s.qs[q].(status := st)])
  }

  lemma FailedKeeps(s: Sys, q: Qid, st: Status, n: nat)
    requires Inv(s, {q}, n)
    ensures Inv(Marked(s, q, st), {q}, n) && Shrinks(s, Marked(s, q, st))
  {
    ChangedKeeps(s, q, s.qs[q].(status := st), {q}, n);
    AsideShrinks(s, Marked(s, q, st), {q}, n);
  }

  /** A top-level query is done and goes to the output. */
  function Output(s: Sys, q: Qid): Sys
    requires q in s.qs
  {
    Linked(s, q, s.qs[q].(id := -1, state := Done)).(finished := s.finished + [q])
  }

  lemma DoneKeeps(s: Sys, q: Qid, n: nat)
    requires Inv(s, {q}, n) && s.qs[q].parent.None? && s.qs[q].children == []
    ensures Inv(Output(s, q), {}, n) && Shrinks(s, Output(s, q))
  {
    var r := s.qs[q].(id := -1, state := Done);
    QueuedLinked(s, q, r, {q});
    assert {q} - {q} == {};
    KinSame(s.qs, q, r);
    OutputLogged(s, q);
    AsideShrinks(s, Output(s, q), {q}, n);
  }

  lemma OutputLogged(s: Sys, q: Qid)
    requires Logged(s, {q}) && q in s.qs && q < s.next
    ensures Logged(Output(s, q), {})
  {
    NoDupSnoc(q, s.finished);
  }

  /** `adns__query_fail` */
  ghost function Failed(s: Sys, q: Qid, st: Status, n: nat): (s': Sys)
    requires Inv(s, {q}, n)
    ensures Inv(s', {}, n) && Shrinks(s, s')
  {
    FailedKeeps(s, q, st, n);
    var s' := Finish(Marked(s, q, st), q, n);
    ShrinksOn(s, Marked(s, q, st), s');
    s'
  }

  /**
     What is finished stays on record and as it is, no query that the user holds goes, one that is gone does not come
     back, and new ones are children.
   */
  ghost predicate Onward(s: Sys, s': Sys) {
    && s.finished <= s'.finished && s.next <= s'.next && TopsStay(s.qs, s'.qs)
    && forall q :: q in s'.qs && q !in s.qs ==> q >= s.next && s'.qs[q].parent.Some?
  }

  lemma OnwardOn(s: Sys, s1: Sys, s2: Sys)
    requires Onward(s, s1) && Onward(s1, s2) && forall q :: q in s.qs ==> q < s.next
    ensures Onward(s, s2)
  {
  }

  /** What the network makes of a send: the message is too big for UDP, and whether TCP is up. */
  datatype Network = Network(toobig: bool, tcpup: bool)

  function SentRecord(r: Query, now: int, n: nat): Query
    requires n > 0
  {
    r.(timeout := now + UDPRETRYMS, sent := r.sent + {r.nextserver}, nextserver := (r.nextserver + 1) % n,
       retries := r.retries + 1)
  }

  /** Over TCP the count of tries starts anew, and a try counts if the connection is up. */
  function TcpRecord(r: Query, now: int, net: Network): Query {
    r.(state := TcpWait, timeout := now + TCPWAITMS, retries := if net.tcpup then 1 else 0)
  }

  predicate Sendable(r: Query) { r.state == ToSend && r.children == [] && r.id >= 0 }

  /** `adns__query_send` with tries left. */
  ghost function Sent(s: Sys, q: Qid, now: int, net: Network, loose: set<Qid>, n: nat): (s': Sys)
    requires Inv(s, loose, n) && n > 0 && q in loose && Sendable(s.qs[q]) && s.qs[q].retries < UDPMAXRETRIES
    ensures Inv(s', loose - {q}, n) && Onward(s, s')
  {
    var r := s.qs[q];
    var r' := if net.toobig then TcpRecord(r, now, net) else SentRecord(r, now, n);
    LinkedKeeps(s, q, r', loose, n);
    Linked(s, q, r')
  }

  /** `adns__query_send` */
  ghost function Send(s: Sys, q: Qid, now: int, net: Network, n: nat): (s': Sys)
    requires Inv(s, {q}, n) && n > 0 && Sendable(s.qs[q])
    ensures Inv(s', {}, n) && Onward(s, s')
  {
    assert {q} - {q} == {};
    if s.qs[q].retries >= UDPMAXRETRIES then Failed(s, q, TimedOut, n)
    else Sent(s, q, now, net, {q}, n)
  }

  function Fresh(id: int, question: seq<byte>, parent: Option<Qid>, callback: Callback): Query {
    Query(id, question, ToSend, 0, 0, {}, 0, parent, [], callback, Ok, false)
  }

  /** A new query, on no queue yet; a child goes to the end of its parent's list. */
  function Added(s: Sys, r: Query): Sys
    requires r.parent.Some? ==> r.parent.value in s.qs
  {
    var qs := if r.parent.None? then s.qs
      else s.qs[r.parent.value := s.qs[r.parent.value].(children := s.qs[r.parent.value].children + [s.next])];
    s.(qs := qs[s.next := r], next := s.next + 1)
  }

  lemma AddedKeeps(s: Sys, r: Query, loose: set<Qid>, n: nat)
    requires Inv(s, loose, n) && Servers(r, n) && r.children == [] && r.state == ToSend
    requires r.parent.Some? ==> r.parent.value in loose
    ensures Inv(Added(s, r), loose + {s.next}, n)
  {
    AddedQueued(s, r, loose);
    AddedKin(s, r);
  }

  lemma AddedQueued(s: Sys, r: Query, loose: set<Qid>)
    requires AllQueued(s.qs, loose, s.queues) && s.next !in s.qs
    requires r.parent.Some? ==> r.parent.value in loose && r.parent.value in s.qs
    ensures AllQueued(Added(s, r).qs, loose + {s.next}, Added(s, r).queues)
  {
    var s' := Added(s, r);
    forall st
      ensures Queued(s'.qs, loose + {s.next}, Of(s'.queues, st), st)
    {
      assert Queued(s.qs, loose, Of(s.queues, st), st);
    }
  }

  lemma AddedRecord(s: Sys, r: Query, q: Qid)
    requires Kin(s.qs) && s.next !in s.qs && q in s.qs && (r.parent.Some? ==> r.parent.value in s.qs)
    ensures
      var r' := Added(s, r).qs[q];
      && r'.parent == s.qs[q].parent && NoDup(r'.children)
      && forall c :: c in r'.children <==> c in s.qs[q].children || (r.parent == Some(q) && c == s.next)
  {
    assert NoDup(s.qs[q].children) && s.next !in s.qs[q].children;
    NoDupSnoc(s.next, s.qs[q].children);
  }

  lemma AddedKin(s: Sys, r: Query)
    requires Kin(s.qs) && (forall q :: q in s.qs ==> q < s.next) && r.children == []
    requires r.parent.Some? ==> r.parent.value in s.qs
    ensures Kin(Added(s, r).qs)
  {
    var qs' := Added(s, r).qs;
    assert s.next !in s.qs;
    forall q | q in qs'
      ensures NoDup(qs'[q].children)
      ensures qs'[q].parent.Some? ==>
        qs'[q].parent.value < q && qs'[q].parent.value in qs' && q in qs'[qs'[q].parent.value].children
      ensures forall c :: c in qs'[q].children ==> c in qs' && qs'[c].parent == Some(q)
    {
      AddedMember(s, r, q);
    }
  }

  lemma AddedMember(s: Sys, r: Query, q: Qid)
    requires Kin(s.qs) && (forall q :: q in s.qs ==> q < s.next) && r.children == []
    requires r.parent.Some? ==> r.parent.value in s.qs
    requires q in Added(s, r).qs
    ensures
      var qs' := Added(s, r).qs;
      && NoDup(qs'[q].children)
      && (qs'[q].parent.Some? ==>
         qs'[q].parent.value < q && qs'[q].parent.value in qs' && q in qs'[qs'[q].parent.value].children)
      && forall c :: c in qs'[q].children ==> c in qs' && qs'[c].parent == Some(q)
  {
    assert s.next !in s.qs;
    var p := if q == s.next then r.parent else s.qs[q].parent;
    if p.Some? {
      AddedRecord(s, r, p.value);
    }
    if q != s.next {
      AddedRecord(s, r, q);
    }
  }

  /** A child query that an answer asks for, and what its first send meets. */
  datatype Spawn = Spawn(id: nat, question: seq<byte>, callback: Callback, net: Network)

  /** `adns__internal_submit` and the linking behind it: a child of `q`, sent. */
  ghost function Spawned(s: Sys, q: Qid, sp: Spawn, now: int, n: nat): (s': Sys)
    requires Inv(s, {q}, n) && n > 0
    ensures Inv(s', {q}, n) && q in s'.qs && s'.qs[q] == s.qs[q].(children := s.qs[q].children + [s.next])
    ensures Onward(s, s')
  {
    var r := Fresh(sp.id, sp.question, Some(q), sp.callback);
    AddedKeeps(s, r, {q}, n);
    AddedOnward(s, r, q, n);
    assert {q} + {s.next} - {s.next} == {q};
    var s1 := Added(s, r);
    var s' := Sent(s1, s.next, now, sp.net, {q} + {s.next}, n);
    OnwardOn(s, s1, s');
    s'
  }

  lemma AddedOnward(s: Sys, r: Query, q: Qid, n: nat)
    requires Inv(s, {q}, n) && r.parent == Some(q)
    ensures Onward(s, Added(s, r)) && s.next !in s.qs
  {
  }

  ghost function AllSpawned(s: Sys, q: Qid, sps: seq<Spawn>, now: int, n: nat): (s': Sys)
    requires Inv(s, {q}, n) && n > 0
    ensures Inv(s', {q}, n) && q in s'.qs && s'.qs[q] == s.qs[q].(children := s'.qs[q].children) && Onward(s, s')
    ensures sps == [] ==> s' == s
    ensures |s'.qs[q].children| == |s.qs[q].children| + |sps|
    decreases |sps|
  {
    if sps == [] then s
    else
      var s1 := Spawned(s, q, sps[0], now, n);
      var s' := AllSpawned(s1, q, sps[1..], now, n);
      OnwardOn(s, s1, s');
      s'
  }

  /** How a reply's answer section leaves the query it is for. */
  datatype Ending = FailWith(st: Status) | Restart(renamed: Option<(nat, seq<byte>)>, net: Network)
    | Answered(confirms: bool)

  /** A datagram: `body` is what is behind the header; one that is no response to one question is not readable. */
  datatype Reply = Reply(readable: bool, id: int, body: seq<byte>, serv: nat, viatcp: bool, spawned: seq<Spawn>,
                         ending: Ending)

  /** The reply has the query's number and question and comes from a server it was sent to. */
  predicate Matches(r: Query, rep: Reply) {
    r.id == rep.id && |rep.body| >= |r.question| && rep.body[..|r.question|] == r.question
      && (rep.viatcp || rep.serv in r.sent)
  }

  function FirstMatch(qs: Net, queue: seq<Qid>, rep: Reply): (q: Option<Qid>)
    requires forall x :: x in queue ==> x in qs
    ensures q.Some? ==> q.value in queue && Matches(qs[q.value], rep)
    ensures q.None? ==> forall x :: x in queue ==> !Matches(qs[x], rep)
  {
    if queue == [] then None
    else if Matches(qs[queue[0]], rep) then Some(queue[0])
    else FirstMatch(qs, queue[1..], rep)
  }

  /** The query as it is asked again: perhaps under its canonical name, with a new number. */
  function Restarted(r: Query, renamed: Option<(nat, seq<byte>)>): Query {
    var r' := if renamed.Some? then r.(id := renamed.value.0, question := renamed.value.1) else r;
    r'.(state := ToSend, retries := 0)
  }

  /** The rest of `adns__procdgram`, for the query the reply is for. */
  ghost function Worked(s: Sys, q: Qid, rep: Reply, now: int, n: nat): (s': Sys)
    requires Inv(s, {q}, n) && n > 0 && s.qs[q].id >= 0 && s.qs[q].children == []
    ensures Inv(s', {}, n) && Onward(s, s')
  {
    var s1 := AllSpawned(s, q, rep.spawned, now, n);
    var s' := Concluded(s1, q, rep.ending, now, n);
    OnwardOn(s, s1, s');
    s'
  }

  ghost function Concluded(s: Sys, q: Qid, ending: Ending, now: int, n: nat): (s': Sys)
    requires Inv(s, {q}, n) && n > 0 && s.qs[q].id >= 0
    ensures Inv(s', {}, n) && Onward(s, s')
  {
    match ending
    case FailWith(st) => Failed(s, q, st, n)
    case Restart(renamed, net) => AskedAgain(s, q, renamed, now, net, n)
    case Answered(confirms) => WholeAnswer(s, q, confirms, n)
  }

  /** The answer's children are dropped and the query is sent again. */
  ghost function AskedAgain(s: Sys, q: Qid, renamed: Option<(nat, seq<byte>)>, now: int, net: Network,
                            n: nat): (s': Sys)
    requires Inv(s, {q}, n) && n > 0 && s.qs[q].id >= 0
    ensures Inv(s', {}, n) && Onward(s, s')
  {
    var s1 := Renewed(s, q, renamed, n);
    var s' := Send(s1, q, now, net, n);
    OnwardOn(s, s1, s');
    s'
  }

  ghost function Renewed(s: Sys, q: Qid, renamed: Option<(nat, seq<byte>)>, n: nat): (s': Sys)
    requires Inv(s, {q}, n) && s.qs[q].id >= 0
    ensures Inv(s', {q}, n) && Onward(s, s') && Sendable(s'.qs[q])
  {
    PrunedKeeps(s, q, {q}, n);
    var s1 := Pruned(s, q);
    var r := Restarted(s1.qs[q], renamed);
    ChangedKeeps(s1, q, r, {q}, n);
    RenewedOnward(s, s1, q, r);
    s1.(qs := s1.qs[q := r])
  }

  lemma RenewedOnward(s: Sys, s1: Sys, q: Qid, r: Query)
    requires Shrinks(s, s1) && q in s1.qs && r.parent == s1.qs[q].parent && s1.qs[q].state != Done
    ensures Onward(s, s1.(qs := s1.qs[q := r]))
  {
  }

  /** The answer is whole: the query waits for the children it has, or is done. */
  ghost function WholeAnswer(s: Sys, q: Qid, confirms: bool, n: nat): (s': Sys)
    requires Inv(s, {q}, n) && s.qs[q].id >= 0
    ensures Inv(s', {}, n) && Onward(s, s')
  {
    var r := s.qs[q].(confirms := confirms);
    if r.children != [] then
      LinkedKeeps(s, q, r.(state := ChildWait), {q}, n);
      assert {q} - {q} == {};
      Linked(s, q, r.(state := ChildWait))
    else
      NotedOnward(s, q, r, n);
      var s1 := s.(qs := s.qs[q := r]);
      var s' := Finish(s1, q, n);
      OnwardOn(s, s1, s');
      s'
  }

  lemma NotedOnward(s: Sys, q: Qid, r: Query, n: nat)
    requires Inv(s, {q}, n) && SameKin(s.qs[q], r) && Servers(r, n) && r.state != Done
    ensures Inv(s.(qs := s.qs[q := r]), {q}, n) && Onward(s, s.(qs := s.qs[q := r]))
  {
    ChangedKeeps(s, q, r, {q}, n);
  }

  /** The query a datagram is for: the first on the queue of its transport that it matches. */
  ghost function Target(s: Sys, rep: Reply, n: nat): (found: Option<Qid>)
    requires Inv(s, {}, n)
  {
    var st := if rep.viatcp then TcpWait else ToSend;
    assert Queued(s.qs, {}, Of(s.queues, st), st);
    if rep.readable then FirstMatch(s.qs, Of(s.queues, st), rep) else None
  }

  /** `adns__procdgram` */
  ghost function Replied(s: Sys, rep: Reply, now: int, n: nat): (s': Sys)
    requires Inv(s, {}, n) && n > 0
    ensures Inv(s', {}, n) && Onward(s, s')
  {
    var st := if rep.viatcp then TcpWait else ToSend;
    assert Queued(s.qs, {}, Of(s.queues, st), st);
    var found := Target(s, rep, n);
    if found.None? then s
    else
      UnlinkedKeeps(s, found.value, {}, n);
      assert {} + {found.value} == {found.value};
      Worked(Unlinked(s, found.value), found.value, rep, now, n)
  }

  /** Everything below a query and itself. */
  ghost function Subtree(qs: Net, q: Qid): set<Qid> { set x | x in qs && Under(qs, x, q) }

  /** `adns_cancel`: a query on its queue goes, with all below it; `loose` holds its parent if it has one. */
  ghost function Cancelled(s: Sys, q: Qid): Sys { Cut(s, Subtree(s.qs, q)) }

  lemma CancelledKeeps(s: Sys, q: Qid, loose: set<Qid>, n: nat)
    requires Inv(s, loose, n) && q in s.qs && (s.qs[q].parent.Some? ==> s.qs[q].parent.value in loose)
    ensures Inv(Cancelled(s, q), loose - Subtree(s.qs, q), n)
  {
    SubtreeCut(s.qs, q, loose);
    CutKeeps(s, Subtree(s.qs, q), loose, n);
  }

  lemma SubtreeCut(qs: Net, q: Qid, loose: set<Qid>)
    requires Kin(qs) && q in qs && (qs[q].parent.Some? ==> qs[q].parent.value in loose)
    ensures CanCut(qs, Subtree(qs, q), loose)
  {
  }

  /** `query_submit` from outside: a refused owner fails at once. */
  ghost function Submitted(s: Sys, asked: Option<(nat, seq<byte>)>, now: int, net: Network, n: nat): (s': Sys)
    requires Inv(s, {}, n) && n > 0
    ensures Inv(s', {}, n) && Onward(Added(s, NewQuery(asked)), s')
  {
    var s1 := Added(s, NewQuery(asked));
    AddedKeeps(s, NewQuery(asked), {}, n);
    assert {} + {s.next} == {s.next};
    if asked.None? then Failed(s1, s.next, Other(0), n) else Send(s1, s.next, now, net, n)
  }

  function NewQuery(asked: Option<(nat, seq<byte>)>): Query {
    if asked.Some? then Fresh(asked.value.0, asked.value.1, None, External) else Fresh(-2, [], None, External)
  }

  predicate Late(r: Query, now: int) { now > r.timeout }

  /** One round of `timeouts_queue` for a query whose time is up. */
  ghost function Expired(s: Sys, q: Qid, now: int, net: Network, n: nat): (s': Sys)
    requires Inv(s, {}, n) && n > 0 && q in s.qs && s.qs[q].state in {ToSend, TcpWait}
    ensures Inv(s', {}, n) && Onward(s, s')
  {
    UnlinkedKeeps(s, q, {}, n);
    assert {} + {q} == {q} && Fit(s.qs[q]);
    if s.qs[q].state != ToSend then Failed(Unlinked(s, q), q, TimedOut, n) else Send(Unlinked(s, q), q, now, net, n)
  }

  function CountLate(qs: Net, queue: seq<Qid>, now: int): nat {
    if queue == [] then 0
    else CountLate(qs, queue[1..], now) + if queue[0] in qs && Late(qs[queue[0]], now) then 1 else 0
  }

  lemma {:induction false} CountSnoc(qs: Net, queue: seq<Qid>, q: Qid, now: int)
    ensures CountLate(qs, queue + [q], now) == CountLate(qs, queue, now) + if q in qs && Late(qs[q], now) then 1 else 0
  {
    if queue == [] {
      assert queue + [q] == [q];
    } else {
      CountSnoc(qs, queue[1..], q, now);
      assert (queue + [q])[1..] == queue[1..] + [q];
    }
  }

  lemma {:induction false} CountSame(qs: Net, qs': Net, queue: seq<Qid>, now: int)
    requires forall x :: x in queue ==> x in qs && x in qs' && qs'[x].timeout == qs[x].timeout
    ensures CountLate(qs', queue, now) == CountLate(qs, queue, now)
  {
    if queue != [] {
      CountSame(qs, qs', queue[1..], now);
    }
  }

  /** Taking queries out does not add late ones, and taking a late one out leaves fewer. */
  lemma {:induction false} CountKeep(qs: Net, queue: seq<Qid>, bad: set<Qid>, now: int)
    ensures CountLate(qs, Keep(queue, bad), now) <= CountLate(qs, queue, now)
    ensures (exists q :: q in queue && q in bad && q in qs && Late(qs[q], now)) ==>
      CountLate(qs, Keep(queue, bad), now) < CountLate(qs, queue, now)
  {
    if queue != [] {
      CountKeep(qs, queue[1..], bad, now);
      if queue[0] !in bad {
        assert ([queue[0]] + Keep(queue[1..], bad))[1..] == Keep(queue[1..], bad);
      }
      forall q | q in queue && q in bad && q in qs && Late(qs[q], now)
        ensures CountLate(qs, Keep(queue, bad), now) < CountLate(qs, queue, now)
      {
        assert q == queue[0] || q in queue[1..];
      }
    }
  }

  /** Handling a late query leaves fewer late ones on its queue: it goes, or its time is set anew. */
  lemma ExpiredCounts(s: Sys, q: Qid, now: int, net: Network, n: nat)
    requires Inv(s, {}, n) && n > 0 && q in s.qs && s.qs[q].state in {ToSend, TcpWait} && Late(s.qs[q], now)
    ensures
      var st, s' := s.qs[q].state, Expired(s, q, now, net, n);
      CountLate(s'.qs, Of(s'.queues, st), now) < CountLate(s.qs, Of(s.queues, st), now)
  {
    var st := s.qs[q].state;
    var s1 := Unlinked(s, q);
    var queue := Of(s.queues, st);
    UnlinkedKeeps(s, q, {}, n);
    assert {} + {q} == {q};
    assert Queued(s.qs, {}, queue, st) && Of(s1.queues, st) == Keep(queue, {q});
    CountKeep(s.qs, queue, {q}, now);
    if st != ToSend || s.qs[q].retries >= UDPMAXRETRIES {
      ShrinkingCounts(s1, Failed(s1, q, TimedOut, n), st, now);
    } else {
      SentCounts(s1, q, now, net, n);
    }
  }

  /** Shrinking a queue of waiting queries adds no late one. */
  lemma ShrinkingCounts(s: Sys, s': Sys, st: State, now: int)
    requires Shrinks(s, s') && st in {ToSend, TcpWait}
    ensures CountLate(s'.qs, Of(s'.queues, st), now) <= CountLate(s.qs, Of(s.queues, st), now)
  {
    CountKeep(s.qs, Of(s.queues, st), s.qs.Keys - s'.qs.Keys, now);
    CountSame(s.qs, s'.qs, Of(s'.queues, st), now);
  }

  /** Nor does sending a query that is off its queue. */
  lemma SentCounts(s: Sys, q: Qid, now: int, net: Network, n: nat)
    requires Inv(s, {q}, n) && n > 0 && Sendable(s.qs[q]) && s.qs[q].retries < UDPMAXRETRIES
    ensures
      var s' := Send(s, q, now, net, n);
      CountLate(s'.qs, s'.queues.udpw, now) == CountLate(s.qs, s.queues.udpw, now)
  {
    var s' := Send(s, q, now, net, n);
    assert Queued(s.qs, {q}, Of(s.queues, ToSend), ToSend);
    CountSame(s.qs, s'.qs, s.queues.udpw, now);
    CountSnoc(s'.qs, s.queues.udpw, q, now);
  }

  function FirstLate(qs: Net, queue: seq<Qid>, now: int): (q: Option<Qid>)
    requires forall x :: x in queue ==> x in qs
    ensures q.Some? ==> q.value in queue && Late(qs[q.value], now)
    ensures q.None? ==> forall x :: x in queue ==> !Late(qs[x], now)
  {
    if queue == [] then None
    else if Late(qs[queue[0]], now) then Some(queue[0])
    else FirstLate(qs, queue[1..], now)
  }

  /** `timeouts_queue` on the UDP or TCP queue: the first late query is handled until there is none. */
  ghost function Timeouts(s: Sys, st: State, now: int, nets: Qid -> Network, n: nat): (s': Sys)
    requires Inv(s, {}, n) && n > 0 && st in {ToSend, TcpWait}
    ensures Inv(s', {}, n) && Onward(s, s')
    ensures forall q :: q in s'.qs && s'.qs[q].state == st ==> !Late(s'.qs[q], now)
    decreases CountLate(s.qs, Of(s.queues, st), now)
  {
    assert Queued(s.qs, {}, Of(s.queues, st), st);
    match FirstLate(s.qs, Of(s.queues, st), now)
    case None => s
    case Some(q) =>
      ExpiredCounts(s, q, now, nets(q), n);
      var s1 := Expired(s, q, now, nets(q), n);
      var s' := Timeouts(s1, st, now, nets, n);
      OnwardOn(s, s1, s');
      s'
  }
}
