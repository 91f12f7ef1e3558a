/**
 Watching over connections (src/client.c, src/class.c): when `check_pings` sends a PING, when it gives a
 connection up, and when it wants to be called again.
 */
module Pings {
  import opened Wrappers

  const PINGFREQUENCY := 120
  const UNKNOWN_TIME := 20

  type Interval = x: int | x > 0 witness 1

  /** A connection as `check_pings` sees it; `ping` is its interval. */
  datatype Conn = Conn(ping: Interval, lasttime: int, pingsent: bool, timedout: bool, dead: bool, unknown: bool,
                       firsttime: int)

  /** The last interval of zero, or -1. */
  predicate LastZero(pings: seq<Option<int>>, z: int) {
    -1 <= z < |pings| && (z >= 0 ==> pings[z] == Some(0)) && forall i :: z < i < |pings| ==> pings[i] != Some(0)
  }

  /**
   `get_client_ping`: the shortest of the usable intervals, or the default; always positive. An interval of zero makes
   the search start over behind it, and a negative one leaves the default.
   */
  method GetClientPing(pings: seq<Option<int>>) returns (ping: int)
    ensures ping > 0
    ensures ping == PINGFREQUENCY || Some(ping) in pings
    ensures (exists i :: 0 <= i < |pings| && pings[i].Some? && pings[i].value < 0) ==> ping == PINGFREQUENCY
    ensures forall z ::
      LastZero(pings, z) && (forall i :: 0 <= i < |pings| && pings[i].Some? ==> pings[i].value >= 0) ==>
      if exists i :: z < i < |pings| && pings[i].Some? then
        (exists i :: z < i < |pings| && pings[i] == Some(ping))
        && forall i :: z < i < |pings| && pings[i].Some? ==> ping <= pings[i].value
      else ping == PINGFREQUENCY
  {
    ping := 0;
    ghost var z := -1;
    var i := 0;
    while i < |pings|
      invariant 0 <= i <= |pings|
      invariant ping == 0 || Some(ping) in pings[..i]
      invariant ping < 0 <==> exists j :: 0 <= j < i && pings[j].Some? && pings[j].value < 0
      invariant -1 <= z < i && (z >= 0 ==> pings[z] == Some(0)) && forall j :: z < j < i ==> pings[j] != Some(0)
      invariant ping >= 0 ==> forall j :: z < j < i && pings[j].Some? ==> 0 < ping <= pings[j].value
      invariant ping > 0 ==> exists j :: z < j < i && pings[j] == Some(ping)
    {
      if pings[i].Some? && (ping > pings[i].value || ping == 0) {
        ping := pings[i].value;
      }
      z := if pings[i] == Some(0) then i else z;
      i := i + 1;
    }
    if ping <= 0 {
      ping := PINGFREQUENCY;
    }
  }

  predicate Overdue(c: Conn, now: int) { c.ping < now - c.lasttime }

  predicate GivesUp(c: Conn, now: int) { Overdue(c, now) && now - c.lasttime >= 2 * c.ping && c.pingsent }

  predicate NeedsPing(c: Conn, now: int) { Overdue(c, now) && !GivesUp(c, now) && !c.pingsent }

  /** The first of `from`, `from + ping`, ... that lies in the future. */
  function After(from: int, ping: Interval, now: int): (t: int)
    ensures t > now && (from <= now ==> t <= now + ping) && (from > now ==> t == from)
    decreases now - from
  {
    if from > now then from else After(from + ping, ping, now)
  }

  /** A visit: the connection afterwards, whether it is to go, and when it wants to be seen again. */
  datatype Visit = Visit(conn: Conn, dies: bool, again: Option<int>)

  function Visited(c: Conn, now: int): Visit {
    if c.dead then Visit(c, true, None)
    else if GivesUp(c, now) then Visit(c.(timedout := true), true, None)
    else
      var c' := if NeedsPing(c, now) then c.(pingsent := true, lasttime := now - c.ping) else c;
      Visit(c', c.unknown && c.firsttime != 0 && now - c.firsttime > UNKNOWN_TIME,
            Some(After(c'.lasttime + c.ping, c.ping, now)))
  }

  /**
   A visit by the clock: a client goes if its socket is dead, if it let two intervals pass after a PING, or if it is
   still unknown after twenty seconds; it is sent a PING when it was silent for more than an interval; and it is to be
   seen again at the first time in the future that lies a number of intervals after it was heard of, or deemed to be.
   */
  lemma VisitIs(c: Conn, now: int) returns (k: nat)
    ensures
      var v, silent := Visited(c, now), now - c.lasttime;
      var timeout := !c.dead && c.pingsent && silent >= 2 * c.ping;
      var pinged := !c.dead && !c.pingsent && silent > c.ping;
      && (v.dies <==> c.dead || timeout || (c.unknown && c.firsttime != 0 && now > c.firsttime + 20))
      && v.conn == c.(timedout := c.timedout || timeout, pingsent := c.pingsent || pinged,
                      lasttime := if pinged then now - c.ping else c.lasttime)
      && (v.again.None? <==> c.dead || timeout)
      && (v.again.Some? ==>
            var t := v.conn.lasttime + (k + 1) * c.ping;
            v.again == Some(t) && t > now && (k > 0 ==> t - c.ping <= now))
  {
    k := 0;
    var v := Visited(c, now);
    if v.again.Some? {
      k := Steps(v.conn.lasttime + c.ping, c.ping, now);
    }
  }

  lemma {:induction false} Steps(from: int, ping: Interval, now: int) returns (k: nat)
    ensures After(from, ping, now) == from + k * ping && (k > 0 ==> After(from, ping, now) - ping <= now)
    decreases now - from
  {
    k := 0;
    if from <= now {
      var j := Steps(from + ping, ping, now);
      k := j + 1;
      assert k * ping == j * ping + ping;
    }
  }

  /** A local client: the fields that `check_pings` reads and sets. */
  class Client {
    const ping: Interval
    const firsttime: int
    var lasttime: int
    var pingsent: bool
    var timedout: bool
    var dead: bool
    var unknown: bool

    constructor (ping: Interval, now: int)
      ensures View() == Conn(ping, now, false, false, false, true, now)
    {
      this.ping, firsttime, lasttime := ping, now, now;
      pingsent, timedout, dead, unknown := false, false, false, true;
    }

    ghost function View(): Conn
      reads this
    {
      Conn(ping, lasttime, pingsent, timedout, dead, unknown, firsttime)
    }

    /** Something came in (src/s_bsd.c). */
    method Heard(now: int)
      modifies this
      ensures View() == old(View()).(lasttime := now, pingsent := false)
    {
      lasttime, pingsent := now, false;
    }

    /** The body of the loop of `check_pings`, up to the time at which the client is to be seen again. */
    method LookAfter(now: int) returns (dies: bool, again: Option<int>)
      modifies this`lasttime, this`pingsent, this`timedout
      ensures Visit(View(), dies, again) == Visited(old(View()), now)
    {
      if dead {
        return true, None;
      }
      if ping < now - lasttime {
        if now - lasttime >= 2 * ping && pingsent {
          timedout := true;
          return true, None;
        } else if !pingsent {
          pingsent := true;
          lasttime := now - ping;
        }
      }
      var timeout := lasttime + ping;
      while timeout <= now
        invariant After(timeout, ping, now) == After(lasttime + ping, ping, now)
        decreases now - timeout
      {
        timeout := timeout + ping;
      }
      return unknown && firsttime != 0 && now - firsttime > UNKNOWN_TIME, Some(timeout);
    }
  }

  /** The earliest of the times wanted, if any. */
  function Earliest(visits: seq<Visit>): Option<int> {
    if visits == [] then None
    else
      var i := |visits| - 1;
      var t := Earliest(visits[..i]);
      if visits[i].again.Some? && (t.None? || visits[i].again.value < t.value) then visits[i].again else t
  }

  lemma {:induction false} EarliestIs(visits: seq<Visit>)
    ensures Earliest(visits).Some? ==> exists i :: 0 <= i < |visits| && visits[i].again == Earliest(visits)
    ensures forall i :: 0 <= i < |visits| && visits[i].again.Some? ==>
      Earliest(visits).Some? && Earliest(visits).value <= visits[i].again.value
  {
    if visits != [] {
      var front := visits[..|visits| - 1];
      EarliestIs(front);
      assert forall i :: 0 <= i < |front| ==> front[i] == visits[i];
    }
  }

  /** The clients that are to go, in order. */
  function Dying(visits: seq<Visit>): seq<nat> {
    if visits == [] then []
    else Dying(visits[..|visits| - 1]) + if visits[|visits| - 1].dies then [|visits| - 1] else []
  }

  lemma {:induction false} DyingIs(visits: seq<Visit>)
    ensures forall i :: i in Dying(visits) <==> 0 <= i < |visits| && visits[i].dies
    ensures forall i, j :: 0 <= i < j < |Dying(visits)| ==> Dying(visits)[i] < Dying(visits)[j]
  {
    if visits != [] {
      var front := visits[..|visits| - 1];
      DyingIs(front);
      assert forall i :: 0 <= i < |front| ==> front[i] == visits[i];
      assert forall i :: 0 <= i < |Dying(front)| ==> Dying(front)[i] in Dying(front);
    }
  }

  ghost function Noted(visits: seq<Visit>, v: Visit): (r: seq<Visit>)
    ensures |r| == |visits| + 1 && r[|visits|] == v && forall i :: 0 <= i < |visits| ==> r[i] == visits[i]
    ensures Dying(r) == Dying(visits) + if v.dies then [|visits|] else []
    ensures Earliest(r) ==
      if v.again.Some? && (Earliest(visits).None? || v.again.value < Earliest(visits).value) then v.again
      else Earliest(visits)
  {
    assert (visits + [v])[..|visits|] == visits;
    visits + [v]
  }

  /**
     `check_pings`: every client is visited once, those that are to go are marked in order, and the next
     call is due at the earliest time a client wants, which is in the future.
   */
  method CheckPings(local: seq<Client>, now: int) returns (oldest: int, dying: seq<nat>, ghost visits: seq<Visit>)
    requires now >= 0 && Distinct(local)
    modifies local
    ensures |visits| == |local| && forall i :: 0 <= i < |local| ==>
      visits[i] == Visited(old(local[i].View()), now) && local[i].View() == visits[i].conn
    ensures dying == Dying(visits)
    ensures oldest == (if Earliest(visits).None? then now + PINGFREQUENCY else Earliest(visits).value) && oldest > now
    ensures forall i :: 0 <= i < |visits| && visits[i].again.Some? ==> oldest <= visits[i].again.value
  {
    oldest, dying, visits := 0, [], [];
    ghost var before := Views(local);
    var i := 0;
    while i < |local|
      invariant 0 <= i <= |local| && |visits| == i && Part(local, before, visits, now)
      invariant dying == Dying(visits)
      invariant oldest == if Earliest(visits).None? then 0 else Earliest(visits).value
      invariant Earliest(visits).Some? ==> oldest > now
    {
      var dies, again;
      dies, again, visits := VisitNext(local, i, now, before, visits);
      if again.Some? && (again.value < oldest || oldest == 0) {
        oldest := again.value;
      }
      if dies {
        dying := dying + [i];
      }
      i := i + 1;
    }
    EarliestIs(visits);
    if oldest == 0 || oldest < now {
      oldest := now + PINGFREQUENCY;
    }
  }

  /** The next client is visited; the others stay as they are. */
  method VisitNext(local: seq<Client>, i: nat, now: int, ghost before: seq<Conn>, ghost visits: seq<Visit>)
    returns (dies: bool, again: Option<int>, ghost noted: seq<Visit>)
    requires Distinct(local) && i == |visits| < |local| && Part(local, before, visits, now)
    modifies local[i]
    ensures Part(local, before, noted, now) && |noted| == i + 1
    ensures noted == Noted(visits, Visit(noted[i].conn, dies, again))
  {
    dies, again := local[i].LookAfter(now);
    noted := Noted(visits, Visit(local[i].View(), dies, again));
    forall j | 0 <= j < |local| && j != i
      ensures local[j].View() == old(local[j].View())
    {
      assert local[j] != local[i];
    }
  }

  ghost function Views(local: seq<Client>): (r: seq<Conn>)
    reads local
    ensures |r| == |local| && forall i :: 0 <= i < |r| ==> r[i] == local[i].View()
  {
    seq(|local|, i reads local requires 0 <= i < |local| => local[i].View())
  }

  predicate Distinct(local: seq<Client>) { forall i, j :: 0 <= i < j < |local| ==> local[i] != local[j] }

  /** The first clients have been visited, the others are as they were. */
  ghost predicate Part(local: seq<Client>, before: seq<Conn>, visits: seq<Visit>, now: int)
    reads local
  {
    && |before| == |local| && |visits| <= |local|
    && (forall i :: 0 <= i < |visits| ==> visits[i] == Visited(before[i], now) && local[i].View() == visits[i].conn)
    && forall i :: |visits| <= i < |local| ==> local[i].View() == before[i]
  }

  /** What happens to a connection: it is heard of, or it is checked. */
  datatype Event = Heard(now: int) | Checked(now: int)

  /** A connection, the time of the last PING it has not answered, and whether it is being given up for that. */
  datatype Life = Life(conn: Conn, pinged: Option<int>, reaped: bool)

  function Step(l: Life, e: Event): Life {
    if l.reaped then l
    else
      match e
      case Heard(now) => Life(l.conn.(lasttime := now, pingsent := false), None, false)
      case Checked(now) =>
        Life(Visited(l.conn, now).conn, if !l.conn.dead && NeedsPing(l.conn, now) then Some(now) else l.pinged,
             !l.conn.dead && GivesUp(l.conn, now))
  }

  /** The PING not answered was sent an interval after the time that is noted. */
  predicate PingNoted(l: Life) {
    l.conn.pingsent == l.pinged.Some? && (l.pinged.Some? ==> l.conn.lasttime == l.pinged.value - l.conn.ping)
  }

  /** No client is given up less than its interval after its PING. */
  lemma NeverTooSoon(l: Life, e: Event)
    requires PingNoted(l) && !l.reaped
    ensures PingNoted(Step(l, e)) && Step(l, e).conn.ping == l.conn.ping
    ensures Step(l, e).reaped ==> e.Checked? && l.pinged.Some? && e.now - l.pinged.value >= l.conn.ping
  {
  }

  /** A run, event by event. */
  function Run(l: Life, events: seq<Event>): Life
    decreases |events|
  {
    if events == [] then l else Run(Step(l, events[0]), events[1..])
  }

  /** Whenever a run ends with a client given up, a PING went unanswered for its whole interval. */
  lemma {:induction false} ReapedOnlyAfterPing(l: Life, events: seq<Event>, e: Event)
    requires PingNoted(l) && !l.reaped && !Run(l, events).reaped && Run(l, events + [e]).reaped
    ensures e.Checked? && Run(l, events).pinged.Some? && e.now - Run(l, events).pinged.value >= l.conn.ping
    decreases |events|
  {
    if events == [] {
      assert (events + [e])[1..] == [];
      NeverTooSoon(l, e);
    } else {
      NeverTooSoon(l, events[0]);
      assert (events + [e])[1..] == events[1..] + [e];
      if Step(l, events[0]).reaped {
        ReapedStays(Step(l, events[0]), events[1..]);
        assert false;
      }
      ReapedOnlyAfterPing(Step(l, events[0]), events[1..], e);
    }
  }

  lemma {:induction false} ReapedStays(l: Life, events: seq<Event>)
    requires l.reaped
    ensures Run(l, events).reaped
    decreases |events|
  {
    if events != [] {
      ReapedStays(l, events[1..]);
    }
  }

  /** A check asks for the next within an interval. */
  lemma WantedWithinInterval(c: Conn, now: int)
    requires c.lasttime <= now
    ensures Visited(c, now).again.Some? ==> now < Visited(c, now).again.value <= now + c.ping
  {
    var c' := Visited(c, now).conn;
    assert c'.lasttime + c.ping > now || After(c'.lasttime + c.ping, c.ping, now) <= now + c.ping;
  }

  /**
   A client falls silent as `states[0]`; it is checked at `times`, after the first no later than it wanted at the
   check before.
   */
  predicate Silence(states: seq<Conn>, times: seq<int>) {
    && |states| == |times| > 0 && !states[0].pingsent && !states[0].timedout && !states[0].dead
    && states[0].lasttime <= times[0]
    && forall i :: 0 < i < |states| ==> Follows(states[i - 1], times[i - 1], states[i], times[i])
  }

  predicate Follows(s: Conn, t: int, s': Conn, t': int) {
    var v := Visited(s, t);
    !v.dies && s' == v.conn && v.again.Some? && t <= t' <= v.again.value
  }

  /** The time by which a client that falls silent as `c` and is checked first at `first` is given up. */
  function Deadline(c: Conn, first: int): int {
    if first <= c.lasttime + c.ping then c.lasttime + 3 * c.ping else first + c.ping
  }

  /** What a silent client looks like after a check: not yet due, or pinged at least an interval before the deadline. */
  predicate Looks(c: Conn, deadline: int, s: Conn, t: int, again: int) {
    && s.ping == c.ping && !s.dead && !s.timedout && t < again
    && if s.pingsent then t < s.lasttime + 2 * c.ping <= deadline && again <= s.lasttime + 2 * c.ping
       else
         && s.lasttime == c.lasttime && t <= c.lasttime + c.ping && again <= c.lasttime + 2 * c.ping
         && deadline == c.lasttime + 3 * c.ping
  }

  lemma AfterIs(from: int, ping: Interval, now: int, limit: int)
    requires now < limit && (limit == from || limit == from + ping || limit == from + 2 * ping)
    ensures After(from, ping, now) <= limit
  {
  }

  lemma LooksOn(c: Conn, deadline: int, s: Conn, t: int, again: int, t': int)
    requires Looks(c, deadline, s, t, again) && t <= t' <= again
    ensures t' <= deadline
    ensures !GivesUp(s, t') ==>
      Visited(s, t').again.Some? && Looks(c, deadline, Visited(s, t').conn, t', Visited(s, t').again.value)
  {
    if !GivesUp(s, t') {
      var s' := Visited(s, t').conn;
      if NeedsPing(s, t') {
        AfterIs(s'.lasttime + c.ping, c.ping, t', s'.lasttime + 2 * c.ping);
      } else if s.pingsent {
        AfterIs(s.lasttime + c.ping, c.ping, t', s.lasttime + 2 * c.ping);
      } else {
        AfterIs(s.lasttime + c.ping, c.ping, t', c.lasttime + 2 * c.ping);
      }
    }
  }

  lemma LooksFirst(c: Conn, t: int)
    requires !c.pingsent && !c.timedout && !c.dead && c.lasttime <= t
    ensures !GivesUp(c, t) && Visited(c, t).again.Some? && t <= Deadline(c, t)
    ensures Looks(c, Deadline(c, t), Visited(c, t).conn, t, Visited(c, t).again.value)
  {
    var c' := Visited(c, t).conn;
    if t <= c.lasttime + c.ping {
      AfterIs(c.lasttime + c.ping, c.ping, t, c.lasttime + 2 * c.ping);
    } else {
      AfterIs(c'.lasttime + c.ping, c.ping, t, c'.lasttime + 2 * c.ping);
    }
  }

  lemma {:induction false} LooksAll(states: seq<Conn>, times: seq<int>, i: nat)
    requires Silence(states, times) && i < |states|
    ensures times[i] <= Deadline(states[0], times[0])
    ensures
      var v := Visited(states[i], times[i]);
      !GivesUp(states[i], times[i]) ==>
        v.again.Some? && Looks(states[0], Deadline(states[0], times[0]), v.conn, times[i], v.again.value)
  {
    if i == 0 {
      LooksFirst(states[0], times[0]);
    } else {
      LooksAll(states, times, i - 1);
      assert Follows(states[i - 1], times[i - 1], states[i], times[i]);
      LooksOn(states[0], Deadline(states[0], times[0]), states[i], times[i - 1],
              Visited(states[i - 1], times[i - 1]).again.value, times[i]);
    }
  }

  /** The check comes by `limit`, and gives the client up or asks for a later one that does. */
  predicate InTime(s: Conn, t: int, limit: int) {
    var v := Visited(s, t);
    t <= limit && (!GivesUp(s, t) ==> v.again.Some? && t < v.again.value <= limit)
  }

  /**
     A silent client is given up by its deadline: no check comes later than that, and after each that does
     not give it up the next is due by then, later than this one.
   */
  lemma SilentIsReaped(states: seq<Conn>, times: seq<int>, i: nat)
    requires Silence(states, times) && i < |states|
    ensures InTime(states[i], times[i], Deadline(states[0], times[0]))
  {
    LooksAll(states, times, i);
  }

  /**
   Every history of checks that starts at `first` gives the client up by three intervals after it was last heard of.
   */
  ghost predicate ReapedInTime(c: Conn, first: int) {
    forall states: seq<Conn>, times: seq<int>, i: nat ::
      Silence(states, times) && states[0] == c && times[0] == first && i < |states| ==>
        InTime(states[i], times[i], c.lasttime + 3 * c.ping)
  }

  /** That is so exactly if the first check comes within two intervals. */
  lemma ReapedInTimeIff(c: Conn, first: int)
    requires !c.pingsent && !c.timedout && !c.dead && c.lasttime <= first
    ensures ReapedInTime(c, first) <==> first <= c.lasttime + 2 * c.ping
  {
    if first <= c.lasttime + 2 * c.ping {
      forall states: seq<Conn>, times: seq<int>, i: nat
        | Silence(states, times) && states[0] == c && times[0] == first && i < |states|
        ensures InTime(states[i], times[i], c.lasttime + 3 * c.ping)
      {
        SilentIsReaped(states, times, i);
      }
    } else {
      var states, times := [c], [first];
      assert Silence(states, times);
      assert Visited(c, first).again == Some(first + c.ping) by {
        assert After(first, c.ping, first) == After(first + c.ping, c.ping, first);
      }
      assert !InTime(states[0], times[0], c.lasttime + 3 * c.ping);
    }
  }

  /** It is so for a client that was checked before it fell silent and is checked again no later than it wanted then. */
  lemma CheckedBefore(before: Conn, seen: int, c: Conn, first: int)
    requires before.lasttime <= seen <= c.lasttime <= first && c.ping == before.ping && !c.pingsent
    requires !c.timedout && !c.dead
    requires Visited(before, seen).again.Some? && first <= Visited(before, seen).again.value
    ensures ReapedInTime(c, first)
  {
    WantedWithinInterval(before, seen);
    ReapedInTimeIff(c, first);
  }

  /**
   A client that came and registered right after a check may be seen first `PINGFREQUENCY` later: not in time with an
   interval of 30.
   */
  lemma NewClientOutlives()
    ensures
      var c := Conn(30, 10, false, false, false, false, 10);
      && Visited(c, 120).again == Some(150) && c.lasttime + 3 * c.ping == 100 && !ReapedInTime(c, 120)
  {
    var c := Conn(30, 10, false, false, false, false, 10);
    assert After(120, 30, 120) == After(150, 30, 120) == 150;
    ReapedInTimeIff(c, 120);
  }
}
