/**
 The vote on a G-line (src/m_gline.c, as if GLINES were defined): three operators on three servers must
 ask for the same user@host, each soon enough after the one before.
 */
module GlineVote {
  import opened Wrappers
  import opened Fields

  const GLINE_PENDING_EXPIRE := 600

  /** An operator's request to ban `user`@`host`. */
  datatype Vote = Vote(nick: string, operUser: string, operHost: string, server: string, user: string, host: string,
                       reason: string, time: int)

  /** What is kept of an operator's request: names are cut to the size of their fields, and the server's is as
      `find_or_add` keeps it. */
  datatype Oper = Oper(nick: string, user: string, host: string, server: string, reason: string, time: int)

  /** A vote in progress; without a second request the second operator's user name is empty. */
  datatype Pending = Pending(first: Oper, second: Oper, last: int, user: string, host: string)

  const NOBODY := Oper("", "", "", "", "", 0)

  /** `irccmp`: equal up to case; `fold` maps a character to its upper case. */
  predicate Same(fold: char -> char, a: string, b: string) {
    |a| == |b| && forall i :: 0 <= i < |a| ==> fold(a[i]) == fold(b[i])
  }

  function Kept(v: Vote): Oper {
    Oper(Clip(v.nick, NICKLEN), Clip(v.operUser, USERLEN), Clip(v.operHost, HOSTLEN), Clip(v.server, HOSTLEN),
         v.reason, v.time)
  }

  /** `add_new_majority_gline` */
  function Opened(v: Vote): Pending {
    Pending(Kept(v), NOBODY, v.time, Clip(v.user, USERLEN), Clip(v.host, HOSTLEN))
  }

  predicate Expired(p: Pending, now: int) { p.last + GLINE_PENDING_EXPIRE <= now }

  predicate Names(fold: char -> char, p: Pending, v: Vote) { Same(fold, p.user, v.user) && Same(fold, p.host, v.host) }

  /** This operator or server is the one that asked before. */
  predicate Asked(fold: char -> char, o: Oper, v: Vote) { NamesOper(fold, o, v) || NamesServer(fold, o, v) }

  predicate NamesOper(fold: char -> char, o: Oper, v: Vote) {
    Same(fold, o.user, v.operUser) && Same(fold, o.host, v.operHost)
  }

  predicate NamesServer(fold: char -> char, o: Oper, v: Vote) { Same(fold, o.server, v.server) }

  /** A pending ban with the requests behind it. */
  datatype Entry = Entry(p: Pending, backers: seq<Vote>)

  /** `expire_pending_glines` */
  function Unexpired(box: seq<Entry>, now: int): (r: seq<Entry>)
    ensures forall e :: e in r ==> e in box && now < e.p.last + 600
  {
    if box == [] then []
    else if Expired(box[0].p, now) then Unexpired(box[1..], now)
    else [box[0]] + Unexpired(box[1..], now)
  }

  /** What was asked for in the last ten minutes stays. */
  lemma {:induction false} LiveStays(box: seq<Entry>, now: int)
    ensures forall e :: e in box && now < e.p.last + 600 ==> e in Unexpired(box, now)
  {
    if box != [] {
      LiveStays(box[1..], now);
      assert box == [box[0]] + box[1..];
    }
  }

  /** The newest pending ban that names the victim. */
  function FirstNamed(fold: char -> char, box: seq<Entry>, v: Vote): (i: nat)
    ensures i <= |box| && (i < |box| ==> Names(fold, box[i].p, v))
    ensures forall j :: 0 <= j < i ==> !Names(fold, box[j].p, v)
  {
    if box == [] || Names(fold, box[0].p, v) then 0 else 1 + FirstNamed(fold, box[1..], v)
  }

  function WithNew(box: seq<Entry>, v: Vote): seq<Entry> { [Entry(Opened(v), [v])] + box }

  function Seconded(e: Entry, v: Vote): Entry { Entry(e.p.(second := Kept(v), last := v.time), e.backers + [v]) }

  /** What a request makes of the ban it names: refused, noted as the second, or the third, which decides. */
  datatype Outcome = Refused | Noted | Decided

  function Judge(fold: char -> char, p: Pending, v: Vote): Outcome {
    if Asked(fold, p.first, v) then Refused
    else if p.second.user == "" then Noted
    else if Asked(fold, p.second, v) then Refused
    else Decided
  }

  /**
   `majority_gline`: the pending bans afterwards and whether the ban is decided; `glined` says that it is in force
   already.
   */
  function Cast(fold: char -> char, box: seq<Entry>, v: Vote, glined: bool): (seq<Entry>, bool) {
    var live := Unexpired(box, v.time);
    var i := FirstNamed(fold, live, v);
    if i == |live| then (WithNew(live, v), false)
    else
      match Judge(fold, live[i].p, v)
      case Refused => (live, false)
      case Noted => (live[i := Seconded(live[i], v)], false)
      case Decided => (live, !glined)
  }

  /** The requests are from different servers and from different operators as far as the kept names tell. */
  predicate Apart(fold: char -> char, a: Vote, b: Vote) { !Asked(fold, Kept(a), b) }

  /** `b` names what was kept of the victim of `a`. */
  predicate Agree(fold: char -> char, a: Vote, b: Vote) {
    Same(fold, Clip(a.user, USERLEN), b.user) && Same(fold, Clip(a.host, HOSTLEN), b.host)
  }

  /** The requests behind a pending ban are on record, agree, and are apart in origin and close in time. */
  predicate Backed(fold: char -> char, e: Entry) {
    && 1 <= |e.backers| <= 2 && e.p.first == Kept(e.backers[0]) && e.p.user == Clip(e.backers[0].user, USERLEN)
       && e.p.host == Clip(e.backers[0].host, HOSTLEN)
    && e.p.last == e.backers[|e.backers| - 1].time
    && if |e.backers| == 1 then e.p.second == NOBODY
       else
         && e.p.second == Kept(e.backers[1]) && e.backers[1].operUser != ""
         && Pair(fold, e.backers[0], e.backers[1])
  }

  predicate Pair(fold: char -> char, a: Vote, b: Vote) {
    Apart(fold, a, b) && Agree(fold, a, b) && b.time < a.time + GLINE_PENDING_EXPIRE
  }

  ghost predicate Sound(fold: char -> char, box: seq<Entry>) { forall e :: e in box ==> Backed(fold, e) }

  /** Three requests that carry a ban. */
  predicate Carries(fold: char -> char, a: Vote, b: Vote, c: Vote) {
    Pair(fold, a, b) && Apart(fold, a, c) && Agree(fold, a, c) && Apart(fold, b, c)
      && c.time < b.time + GLINE_PENDING_EXPIRE
  }

  /**
     Every request keeps the records sound, and a YES is carried by three: this one and the two on record
     for the ban.
   */
  lemma {:induction false} CastIsSound(fold: char -> char, box: seq<Entry>, v: Vote, glined: bool)
    requires Sound(fold, box) && v.operUser != ""
    ensures Sound(fold, Cast(fold, box, v, glined).0)
    ensures Cast(fold, box, v, glined).1 ==>
      exists e :: e in box && |e.backers| == 2 && Carries(fold, e.backers[0], e.backers[1], v)
  {
    var live := Unexpired(box, v.time);
    var i := FirstNamed(fold, live, v);
    if i < |live| {
      var e := live[i];
      assert e in live && Backed(fold, e) && !Expired(e.p, v.time);
      assert Judge(fold, e.p, v).Noted? ==> Backed(fold, Seconded(e, v));
    } else {
      assert Backed(fold, Entry(Opened(v), [v]));
    }
  }

  /** A run of requests from an empty list; each with whether the ban was in force. */
  function Box(fold: char -> char, votes: seq<(Vote, bool)>): seq<Entry> {
    if votes == [] then []
    else Cast(fold, Box(fold, votes[..|votes| - 1]), votes[|votes| - 1].0, votes[|votes| - 1].1).0
  }

  /** The requests on record are among those made. */
  ghost predicate FromRun(box: seq<Entry>, votes: seq<(Vote, bool)>) {
    forall e, u :: e in box && u in e.backers ==> exists i :: 0 <= i < |votes| && votes[i].0 == u
  }

  /** In every run, whatever is decided was asked for by three requests made in it. */
  lemma {:induction false} RunIsSound(fold: char -> char, votes: seq<(Vote, bool)>)
    requires forall i :: 0 <= i < |votes| ==> votes[i].0.operUser != ""
    ensures Sound(fold, Box(fold, votes)) && FromRun(Box(fold, votes), votes)
  {
    if votes != [] {
      var n := |votes| - 1;
      var front, v := votes[..n], votes[n];
      RunIsSound(fold, front);
      CastIsSound(fold, Box(fold, front), v.0, v.1);
      CastFromRun(fold, Box(fold, front), front, v);
      assert front + [v] == votes;
    }
  }

  lemma {:induction false} CastFromRun(fold: char -> char, box: seq<Entry>, votes: seq<(Vote, bool)>, v: (Vote, bool))
    requires FromRun(box, votes)
    ensures FromRun(Cast(fold, box, v.0, v.1).0, votes + [v])
  {
    var all := votes + [v];
    assert all[|votes|] == v;
    forall e, u | e in Cast(fold, box, v.0, v.1).0 && u in e.backers
      ensures exists i :: 0 <= i < |all| && all[i].0 == u
    {
      if u != v.0 {
        var old' :| old' in box && u in old'.backers;
        var i :| 0 <= i < |votes| && votes[i].0 == u;
        assert all[i].0 == u;
      }
    }
  }

  /** The run's next request, decided, has its three requests. */
  lemma {:induction false} DecisionIsCarried(fold: char -> char, votes: seq<(Vote, bool)>, v: (Vote, bool))
    requires (forall i :: 0 <= i < |votes| ==> votes[i].0.operUser != "") && v.0.operUser != ""
    requires Cast(fold, Box(fold, votes), v.0, v.1).1
    ensures exists i, j :: 0 <= i < |votes| && 0 <= j < |votes| && Carries(fold, votes[i].0, votes[j].0, v.0)
  {
    RunIsSound(fold, votes);
    CastIsSound(fold, Box(fold, votes), v.0, v.1);
    var e :| e in Box(fold, votes) && |e.backers| == 2 && Carries(fold, e.backers[0], e.backers[1], v.0);
    assert e.backers[0] in e.backers && e.backers[1] in e.backers;
    var i :| 0 <= i < |votes| && votes[i].0 == e.backers[0];
    var j :| 0 <= j < |votes| && votes[j].0 == e.backers[1];
  }

  /** An operator's names fit their fields. */
  predicate OperFits(v: Vote) { |v.operUser| <= USERLEN && |v.operHost| <= HOSTLEN }

  predicate ServerFits(v: Vote) { |v.server| <= HOSTLEN }

  predicate SameOper(fold: char -> char, a: Vote, b: Vote) {
    Same(fold, a.operUser, b.operUser) && Same(fold, a.operHost, b.operHost)
  }

  predicate SameServer(fold: char -> char, a: Vote, b: Vote) { Same(fold, a.server, b.server) }

  /** If the names on record fit, apart means another server and another operator. */
  lemma {:induction false} ApartMeansDifferent(fold: char -> char, a: Vote, b: Vote)
    requires OperFits(a) && ServerFits(a)
    ensures Apart(fold, a, b) <==> !SameServer(fold, a, b) && !SameOper(fold, a, b)
  {
  }

  /** An operator's names are told from themselves exactly if they do not fit. */
  lemma {:induction false} SameOperApartIff(fold: char -> char, a: Vote, b: Vote)
    requires SameOper(fold, a, b)
    ensures NamesOper(fold, Kept(a), b) <==> OperFits(a)
    ensures Apart(fold, a, b) <==> !NamesServer(fold, Kept(a), b) && !OperFits(a)
  {
    assert !OperFits(a) ==>
      |Clip(a.operUser, USERLEN)| != |b.operUser| || |Clip(a.operHost, HOSTLEN)| != |b.operHost|;
  }

  /** A server's name is told from itself exactly if it does not fit. */
  lemma {:induction false} SameServerApartIff(fold: char -> char, a: Vote, b: Vote)
    requires SameServer(fold, a, b)
    ensures NamesServer(fold, Kept(a), b) <==> ServerFits(a)
    ensures Apart(fold, a, b) <==> !NamesOper(fold, Kept(a), b) && !ServerFits(a)
  {
    assert !ServerFits(a) ==> |Clip(a.server, HOSTLEN)| != |b.server|;
  }

  /** An operator "abcdefghijk"@"h" on servers "1" and "2" is taken for two. */
  lemma {:induction false} LongNameCountsTwice(fold: char -> char, a: Vote, b: Vote)
    requires a.operUser == b.operUser == "abcdefghijk" && a.operHost == b.operHost == "h"
    requires a.server == "1" && b.server == "2" && fold('1') != fold('2')
    ensures Apart(fold, a, b) && SameOper(fold, a, b)
  {
    assert fold(a.server[0]) != fold(b.server[0]);
    SameOperApartIff(fold, a, b);
  }

  predicate ThreeOpers(fold: char -> char, a: Vote, b: Vote, c: Vote) {
    !SameOper(fold, a, b) && !SameOper(fold, a, c) && !SameOper(fold, b, c)
  }

  predicate ThreeServers(fold: char -> char, a: Vote, b: Vote, c: Vote) {
    !SameServer(fold, a, b) && !SameServer(fold, a, c) && !SameServer(fold, b, c)
  }

  /** Three requests behind a decision: three operators if the names on record fit, and three servers if those fit. */
  lemma {:induction false} CarriersDiffer(fold: char -> char, a: Vote, b: Vote, c: Vote)
    requires Carries(fold, a, b, c)
    ensures OperFits(a) && OperFits(b) ==> ThreeOpers(fold, a, b, c)
    ensures ServerFits(a) && ServerFits(b) ==> ThreeServers(fold, a, b, c)
  {
  }

  /**
     In every run a decision is carried by two earlier requests with this one: of three different operators if
     the names of all operators fit, and from three different servers if the names of all servers fit.
   */
  lemma {:induction false} DecidedByThree(fold: char -> char, votes: seq<(Vote, bool)>, v: (Vote, bool))
    returns (i: nat, j: nat)
    requires (forall i :: 0 <= i < |votes| ==> votes[i].0.operUser != "") && v.0.operUser != ""
    requires Cast(fold, Box(fold, votes), v.0, v.1).1
    ensures i < |votes| && j < |votes| && Carries(fold, votes[i].0, votes[j].0, v.0)
    ensures (forall k :: 0 <= k < |votes| ==> OperFits(votes[k].0)) ==>
      ThreeOpers(fold, votes[i].0, votes[j].0, v.0)
    ensures (forall k :: 0 <= k < |votes| ==> ServerFits(votes[k].0)) ==>
      ThreeServers(fold, votes[i].0, votes[j].0, v.0)
  {
    DecisionIsCarried(fold, votes, v);
    i, j :| 0 <= i < |votes| && 0 <= j < |votes| && Carries(fold, votes[i].0, votes[j].0, v.0);
    CarriersDiffer(fold, votes[i].0, votes[j].0, v.0);
  }

  /** All requests of the run come from the operator of `a`. */
  predicate Alone(fold: char -> char, votes: seq<(Vote, bool)>, v: (Vote, bool), a: Vote) {
    && (forall i :: 0 <= i < |votes| ==> SameOper(fold, a, votes[i].0) && votes[i].0.operUser != "")
    && SameOper(fold, a, v.0) && v.0.operUser != ""
  }

  /** All requests of the run come from the server of `a`. */
  predicate FromOne(fold: char -> char, votes: seq<(Vote, bool)>, v: (Vote, bool), a: Vote) {
    && (forall i :: 0 <= i < |votes| ==> SameServer(fold, a, votes[i].0) && votes[i].0.operUser != "")
    && SameServer(fold, a, v.0) && v.0.operUser != ""
  }

  ghost predicate DecidesAlone(fold: char -> char, a: Vote) {
    exists votes: seq<(Vote, bool)>, v: (Vote, bool) ::
      Alone(fold, votes, v, a) && Cast(fold, Box(fold, votes), v.0, v.1).1
  }

  ghost predicate DecidesFromOne(fold: char -> char, a: Vote) {
    exists votes: seq<(Vote, bool)>, v: (Vote, bool) ::
      FromOne(fold, votes, v, a) && Cast(fold, Box(fold, votes), v.0, v.1).1
  }

  ghost predicate DecidesAloneFromOne(fold: char -> char, a: Vote) {
    exists votes: seq<(Vote, bool)>, v: (Vote, bool) ::
      Alone(fold, votes, v, a) && FromOne(fold, votes, v, a) && Cast(fold, Box(fold, votes), v.0, v.1).1
  }

  /** One operator can decide a ban alone, from several servers, exactly if the operator's names do not fit. */
  lemma {:induction false} DecidesAloneIff(fold: char -> char, a: Vote)
    requires a.operUser != ""
    ensures DecidesAlone(fold, a) <==> !OperFits(a)
  {
    if !OperFits(a) {
      var p, q, r := At(a, ""), At(a, "x"), At(a, "xx");
      LongNameDecides(fold, a);
      assert Alone(fold, [(p, false), (q, false)], (r, false), a);
    } else if DecidesAlone(fold, a) {
      var votes: seq<(Vote, bool)>, v: (Vote, bool) :|
        Alone(fold, votes, v, a) && Cast(fold, Box(fold, votes), v.0, v.1).1;
      NotAlone(fold, votes, v, a);
    }
  }

  /** An operator whose names do not fit, on three servers, comes to a decision. */
  lemma {:induction false} LongNameDecides(fold: char -> char, a: Vote)
    requires a.operUser != "" && !OperFits(a)
    ensures Cast(fold, Box(fold, [(At(a, ""), false), (At(a, "x"), false)]), At(a, "xx"), false).1
  {
    var p, q, r := At(a, ""), At(a, "x"), At(a, "xx");
    SameOperApartIff(fold, p, q);
    SameOperApartIff(fold, p, r);
    SameOperApartIff(fold, q, r);
    ThirdDecides(fold, p, q, r);
  }

  lemma {:induction false} NotAlone(fold: char -> char, votes: seq<(Vote, bool)>, v: (Vote, bool), a: Vote)
    requires OperFits(a) && Alone(fold, votes, v, a)
    ensures !Cast(fold, Box(fold, votes), v.0, v.1).1
  {
    forall i, j | 0 <= i < |votes| && 0 <= j < |votes|
      ensures !Carries(fold, votes[i].0, votes[j].0, v.0)
    {
      SameOperApartIff(fold, votes[i].0, votes[j].0);
    }
    if Cast(fold, Box(fold, votes), v.0, v.1).1 {
      DecisionIsCarried(fold, votes, v);
      assert false;
    }
  }

  /** Requests from one server alone can decide a ban exactly if the server's name does not fit. */
  lemma {:induction false} DecidesFromOneIff(fold: char -> char, a: Vote)
    ensures DecidesFromOne(fold, a) <==> !ServerFits(a)
  {
    if !ServerFits(a) {
      var p, q, r := By(a, "a"), By(a, "bb"), By(a, "ccc");
      LongServerDecides(fold, a);
      assert FromOne(fold, [(p, false), (q, false)], (r, false), a);
    } else if DecidesFromOne(fold, a) {
      var votes: seq<(Vote, bool)>, v: (Vote, bool) :|
        FromOne(fold, votes, v, a) && Cast(fold, Box(fold, votes), v.0, v.1).1;
      NotFromOne(fold, votes, v, a);
    }
  }

  lemma {:induction false} NotFromOne(fold: char -> char, votes: seq<(Vote, bool)>, v: (Vote, bool), a: Vote)
    requires ServerFits(a) && FromOne(fold, votes, v, a)
    ensures !Cast(fold, Box(fold, votes), v.0, v.1).1
  {
    forall i, j | 0 <= i < |votes| && 0 <= j < |votes|
      ensures !Carries(fold, votes[i].0, votes[j].0, v.0)
    {
      SameServerApartIff(fold, votes[i].0, votes[j].0);
    }
    if Cast(fold, Box(fold, votes), v.0, v.1).1 {
      DecisionIsCarried(fold, votes, v);
      assert false;
    }
  }

  /** One operator on one server can decide a ban alone exactly if neither name fits. */
  lemma {:induction false} DecidesAloneFromOneIff(fold: char -> char, a: Vote)
    requires a.operUser != ""
    ensures DecidesAloneFromOne(fold, a) <==> !OperFits(a) && !ServerFits(a)
  {
    if !OperFits(a) && !ServerFits(a) {
      FromOneAlone(fold, a);
    } else if DecidesAloneFromOne(fold, a) {
      var votes: seq<(Vote, bool)>, v: (Vote, bool) :|
        Alone(fold, votes, v, a) && FromOne(fold, votes, v, a) && Cast(fold, Box(fold, votes), v.0, v.1).1;
      if OperFits(a) {
        NotAlone(fold, votes, v, a);
      } else {
        NotFromOne(fold, votes, v, a);
      }
    }
  }

  lemma {:induction false} FromOneAlone(fold: char -> char, a: Vote)
    requires a.operUser != "" && !OperFits(a) && !ServerFits(a)
    ensures DecidesAloneFromOne(fold, a)
  {
    var p := At(a, a.server);
    var votes, v := [(p, false), (p, false)], (p, false);
    SameOperApartIff(fold, p, p);
    SameServerApartIff(fold, p, p);
    ThirdDecides(fold, p, p, p);
    Thrice(fold, a, p);
  }

  lemma {:induction false} Thrice(fold: char -> char, a: Vote, p: Vote)
    requires SameOper(fold, a, p) && SameServer(fold, a, p) && p.operUser != ""
    ensures Alone(fold, [(p, false), (p, false)], (p, false), a)
    ensures FromOne(fold, [(p, false), (p, false)], (p, false), a)
  {
  }

  /**
   Operators "a", "bb" and "ccc" at "h" on one server whose name does not fit, with 64 letters say, come to a
   decision.
   */
  lemma {:induction false} LongServerDecides(fold: char -> char, a: Vote)
    requires !ServerFits(a)
    ensures Cast(fold, Box(fold, [(By(a, "a"), false), (By(a, "bb"), false)]), By(a, "ccc"), false).1
  {
    var p, q, r := By(a, "a"), By(a, "bb"), By(a, "ccc");
    SameServerApartIff(fold, p, q);
    SameServerApartIff(fold, p, r);
    SameServerApartIff(fold, q, r);
    ThirdDecides(fold, p, q, r);
  }

  /** The operator's request for the same victim, from another server. */
  function At(a: Vote, server: string): Vote { a.(server := server, user := "u", host := "h", time := 0) }

  /** Another operator's request for the same victim, from the same server. */
  function By(a: Vote, oper: string): Vote {
    a.(operUser := oper, operHost := "h", user := "u", host := "h", time := 0)
  }

  /** Three requests at one time for one victim that fits, each apart from those before, come to a decision. */
  lemma {:induction false} ThirdDecides(fold: char -> char, a: Vote, b: Vote, c: Vote)
    requires a.time == b.time == c.time == 0 && a.user == b.user == c.user == "u" && a.host == b.host == c.host == "h"
    requires b.operUser != "" && Apart(fold, a, b) && Apart(fold, a, c) && Apart(fold, b, c)
    ensures Cast(fold, Box(fold, [(a, false), (b, false)]), c, false).1
  {
    var first := Entry(Opened(a), [a]);
    assert [(a, false), (b, false)][..1] == [(a, false)] && [(a, false)][..0] == [];
    assert Box(fold, [(a, false)]) == [first];
    OnlyEntry(fold, first, b);
    assert Judge(fold, first.p, b).Noted? && [first][0 := Seconded(first, b)] == [Seconded(first, b)];
    assert Box(fold, [(a, false), (b, false)]) == [Seconded(first, b)];
    SecondIsSomebody(b);
    OnlyEntry(fold, Seconded(first, b), c);
  }

  lemma {:induction false} SecondIsSomebody(b: Vote)
    requires b.operUser != ""
    ensures Kept(b).user != ""
  {
  }

  lemma {:induction false} OnlyEntry(fold: char -> char, e: Entry, v: Vote)
    requires !Expired(e.p, v.time) && Names(fold, e.p, v)
    ensures Unexpired([e], v.time) == [e] && FirstNamed(fold, [e], v) == 0
  {
  }

  predicate VictimFits(v: Vote) { |v.user| <= USERLEN && |v.host| <= HOSTLEN }

  /** Two pending bans name the same victim. */
  predicate SameVictim(fold: char -> char, p: Pending, q: Pending) {
    Same(fold, p.user, q.user) && Same(fold, p.host, q.host)
  }

  predicate NoTwins(fold: char -> char, box: seq<Entry>) {
    forall i, j :: 0 <= i < j < |box| ==> !SameVictim(fold, box[i].p, box[j].p)
  }

  /** Fields hold what fits them. */
  predicate FieldsFit(box: seq<Entry>) {
    forall i :: 0 <= i < |box| ==> |box[i].p.user| <= USERLEN && |box[i].p.host| <= HOSTLEN
  }

  lemma {:induction false} UnexpiredNoTwins(fold: char -> char, box: seq<Entry>, now: int)
    requires NoTwins(fold, box) && FieldsFit(box)
    ensures NoTwins(fold, Unexpired(box, now)) && FieldsFit(Unexpired(box, now))
  {
    if box != [] {
      var rest := box[1..];
      assert forall i :: 0 <= i < |rest| ==> rest[i] == box[i + 1];
      UnexpiredNoTwins(fold, rest, now);
      var left := Unexpired(rest, now);
      forall i | 0 <= i < |left|
        ensures !SameVictim(fold, box[0].p, left[i].p)
      {
        assert left[i] in rest;
      }
    }
  }

  /** The victim of `v`, as it would be kept, is pending. */
  predicate KeptPending(fold: char -> char, box: seq<Entry>, v: Vote) {
    exists i :: 0 <= i < |box| && SameVictim(fold, Opened(v), box[i].p)
  }

  /**
     A request keeps all pending bans for different victims exactly if the victim's names fit their fields,
     or what fits of them is not pending already: names that are too long are never found again.
   */
  lemma {:induction false} NoTwinsIff(fold: char -> char, box: seq<Entry>, v: Vote, glined: bool)
    requires NoTwins(fold, box) && FieldsFit(box)
    ensures FieldsFit(Cast(fold, box, v, glined).0)
    ensures NoTwins(fold, Cast(fold, box, v, glined).0) <==>
      VictimFits(v) || !KeptPending(fold, Unexpired(box, v.time), v)
  {
    var live := Unexpired(box, v.time);
    UnexpiredNoTwins(fold, box, v.time);
    var i := FirstNamed(fold, live, v);
    if i == |live| {
      NewTwinIff(fold, live, v);
    } else {
      assert Names(fold, live[i].p, v) && VictimFits(v);
      SameNamesNoTwins(fold, live, Cast(fold, box, v, glined).0);
    }
  }

  lemma {:induction false} NewTwinIff(fold: char -> char, live: seq<Entry>, v: Vote)
    requires NoTwins(fold, live) && FieldsFit(live) && FirstNamed(fold, live, v) == |live|
    ensures FieldsFit(WithNew(live, v))
    ensures NoTwins(fold, WithNew(live, v)) <==> VictimFits(v) || !KeptPending(fold, live, v)
  {
    NewTwins(fold, live, v);
    if VictimFits(v) {
      forall j | 0 <= j < |live|
        ensures !SameVictim(fold, Opened(v), live[j].p)
      {
        TurnedAround(fold, v, live[j].p);
      }
    }
  }

  /** A victim that fits is named by an entry exactly if a new entry would be its twin. */
  lemma {:induction false} TurnedAround(fold: char -> char, v: Vote, p: Pending)
    requires VictimFits(v) && !Names(fold, p, v)
    ensures !SameVictim(fold, Opened(v), p)
  {
  }

  lemma {:induction false} NewTwins(fold: char -> char, live: seq<Entry>, v: Vote)
    requires NoTwins(fold, live) && FieldsFit(live)
    ensures FieldsFit(WithNew(live, v)) && (NoTwins(fold, WithNew(live, v)) <==> !KeptPending(fold, live, v))
  {
    var after := WithNew(live, v);
    assert forall j :: 0 <= j < |live| ==> after[j + 1] == live[j];
    if KeptPending(fold, live, v) {
      var j :| 0 <= j < |live| && SameVictim(fold, Opened(v), live[j].p);
      assert SameVictim(fold, after[0].p, after[j + 1].p);
    } else {
      forall i, j | 0 <= i < j < |after|
        ensures !SameVictim(fold, after[i].p, after[j].p)
      {
        assert after[j] == live[j - 1] && (i > 0 ==> after[i] == live[i - 1]);
      }
    }
  }

  lemma {:induction false} SameNamesNoTwins(fold: char -> char, live: seq<Entry>, after: seq<Entry>)
    requires NoTwins(fold, live) && FieldsFit(live) && |after| == |live|
    requires forall j :: 0 <= j < |live| ==> after[j].p.user == live[j].p.user && after[j].p.host == live[j].p.host
    ensures NoTwins(fold, after) && FieldsFit(after)
  {
    forall i, j | 0 <= i < j < |after|
      ensures !SameVictim(fold, after[i].p, after[j].p)
    {
      assert !SameVictim(fold, live[i].p, live[j].p);
    }
  }

  /** The list of pending bans. */
  class Votes {
    const fold: char -> char
    var pending: seq<Pending>
    /** The same, with the requests behind each. */
    ghost var box: seq<Entry>

    constructor (fold: char -> char)
      ensures Valid() && box == [] && this.fold == fold
    {
      this.fold, pending, box := fold, [], [];
    }

    ghost predicate Valid()
      reads this
    {
      pending == Bare(box) && Sound(fold, box)
    }

    /** `expire_pending_glines` */
    method ExpirePending(now: int)
      requires pending == Bare(box)
      modifies this
      ensures pending == Bare(box) && box == Unexpired(old(box), now)
      ensures forall e :: e in box <==> e in old(box) && now < e.p.last + 600
    {
      ghost var was := box;
      var i := 0;
      assert was[0..] == was;
      LiveStays(was, now);
      while i < |pending|
        invariant 0 <= i <= |pending| && pending == Bare(box)
        invariant box[..i] + Unexpired(box[i..], now) == Unexpired(was, now)
        decreases |pending| - i
      {
        UnexpiredOn(box, i, now);
        if pending[i].last + GLINE_PENDING_EXPIRE <= now {
          DropAt(i);
        } else {
          i := i + 1;
        }
      }
      assert box[..i] == box && box[i..] == [];
    }

    method DropAt(i: nat)
      requires pending == Bare(box) && i < |box|
      modifies this
      ensures pending == Bare(box) && box == old(box[..i] + box[i + 1..])
    {
      pending, box := pending[..i] + pending[i + 1..], box[..i] + box[i + 1..];
    }

    /** `majority_gline`; `glined` is what `find_is_glined` says of the victim. */
    method MajorityGline(v: Vote, glined: bool) returns (yes: bool)
      requires Valid() && v.operUser != ""
      modifies this
      ensures Valid() && (box, yes) == Cast(fold, old(box), v, glined)
      ensures yes ==> exists e :: e in old(box) && |e.backers| == 2 && Carries(fold, e.backers[0], e.backers[1], v)
    {
      CastIsSound(fold, box, v, glined);
      if pending == [] {
        AddNew(v);
        return false;
      }
      ExpirePending(v.time);
      var i := FindNamed(v);
      if i < |pending| {
        yes := VoteOn(i, v, glined);
      } else {
        AddNew(v);
        yes := false;
      }
    }

    /** The search loop of `majority_gline`. */
    method FindNamed(v: Vote) returns (i: nat)
      requires pending == Bare(box)
      ensures i == FirstNamed(fold, box, v)
    {
      i := 0;
      while i < |pending| && !Names(fold, pending[i], v)
        invariant 0 <= i <= |pending| && FirstNamed(fold, box, v) == i + FirstNamed(fold, box[i..], v)
      {
        assert box[i..][1..] == box[i + 1..];
        i := i + 1;
      }
    }

    /** What a request makes of the pending ban that names its victim. */
    method VoteOn(i: nat, v: Vote, glined: bool) returns (yes: bool)
      requires pending == Bare(box) && i < |pending|
      modifies this
      ensures pending == Bare(box) && yes == (Judge(fold, old(pending)[i], v).Decided? && !glined)
      ensures box ==
        if Judge(fold, old(pending)[i], v).Noted? then old(box)[i := Seconded(old(box)[i], v)] else old(box)
    {
      var p := pending[i];
      if Asked(fold, p.first, v) {
        return false;
      }
      if p.second.user != "" {
        return !Asked(fold, p.second, v) && !glined;
      }
      pending := pending[i := p.(second := Kept(v), last := v.time)];
      box := box[i := Seconded(box[i], v)];
      yes := false;
    }

    /** `add_new_majority_gline` */
    method AddNew(v: Vote)
      requires pending == Bare(box)
      modifies this
      ensures pending == Bare(box) && box == WithNew(old(box), v)
    {
      pending, box := [Opened(v)] + pending, WithNew(box, v);
    }
  }

  lemma {:induction false} UnexpiredOn(box: seq<Entry>, i: nat, now: int)
    requires i < |box|
    ensures Expired(box[i].p, now) ==>
      var left := box[..i] + box[i + 1..];
      left[..i] + Unexpired(left[i..], now) == box[..i] + Unexpired(box[i..], now)
    ensures !Expired(box[i].p, now) ==>
      box[..i + 1] + Unexpired(box[i + 1..], now) == box[..i] + Unexpired(box[i..], now)
  {
    assert box[i..][1..] == box[i + 1..];
    if Expired(box[i].p, now) {
      var left := box[..i] + box[i + 1..];
      assert left[..i] == box[..i] && left[i..] == box[i + 1..];
    } else {
      assert box[..i + 1] == box[..i] + [box[i]];
    }
  }

  function Bare(box: seq<Entry>): (r: seq<Pending>)
    ensures |r| == |box| && forall i :: 0 <= i < |r| ==> r[i] == box[i].p
  {
    seq(|box|, i requires 0 <= i < |box| => box[i].p)
  }
}
