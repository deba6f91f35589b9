/** One-shot timers: an ordered set, and the two halves of processExpired. */
module Timers {
  import opened Text
  import opened Tally

  /** A timer is known by its address. */
  type Id = nat

  const NANOS_PER_MILLI := 1_000_000
  const FOREVER: nat := 0xFFFF_FFFF_FFFF_FFFF

  /** Times are in nanoseconds, the period in milliseconds; armed while a callback or a
      handle is in place. */
  datatype Timer = Timer(expire: int, ms: nat, armed: bool)

  type Table = map<Id, Timer>

  /** Comparator: by expiry, then by address. */
  predicate Before(table: Table, a: Id, b: Id)
    requires a in table && b in table
  {
    if table[a].expire == table[b].expire then a < b else table[a].expire < table[b].expire
  }

  ghost predicate Ordered(table: Table, s: seq<Id>) {
    && (forall i :: 0 <= i < |s| ==> s[i] in table)
    && (forall i, j :: 0 <= i < j < |s| ==> Before(table, s[i], s[j]))
  }

  lemma BeforeTotal(table: Table, a: Id, b: Id, c: Id)
    requires a in table && b in table && c in table
    ensures a == b || Before(table, a, b) || Before(table, b, a)
    ensures Before(table, a, b) && Before(table, b, c) ==> Before(table, a, c)
    ensures !(Before(table, a, b) && Before(table, b, a))
  {
  }

  /** Along the set deadlines never fall, and timers with one deadline come by address. */
  lemma SetOrder(table: Table, s: seq<Id>, i: nat, j: nat)
    requires Ordered(table, s) && i < j < |s|
    ensures table[s[i]].expire <= table[s[j]].expire && (table[s[i]].expire == table[s[j]].expire ==> s[i] < s[j])
  {
  }

  /** std::set::insert of a timer that is not in the set. */
  method InsertTimer(table: Table, s: seq<Id>, id: Id) returns (r: seq<Id>, at: nat)
    requires Ordered(table, s) && id in table && id !in s
    ensures Ordered(table, r) && at <= |s| && r == s[..at] + [id] + s[at..]
  {
    hide Before;
    at := 0;
    while at < |s| && Before(table, s[at], id)
      invariant 0 <= at <= |s|
      invariant forall i :: 0 <= i < at ==> Before(table, s[i], id)
    {
      at := at + 1;
    }
    r := s[..at] + [id] + s[at..];
    forall i | at <= i < |s|
      ensures Before(table, id, s[i])
    {
      BeforeTotal(table, id, s[at], s[i]);
    }
  }

  /** Where the timer is, by std::set::find: a comparison search finds it exactly when it is there. */
  method FindTimer(table: Table, s: seq<Id>, id: Id) returns (at: Option<nat>)
    requires Ordered(table, s) && id in table
    ensures at.Some? ==> at.value < |s| && s[at.value] == id
    ensures at.None? ==> id !in s
  {
    hide Before;
    var i := 0;
    while i < |s| && Before(table, s[i], id)
      invariant 0 <= i <= |s| && id !in s[..i]
    {
      BeforeTotal(table, s[i], id, id);
      i := i + 1;
    }
    if i < |s| {
      BeforeTotal(table, s[i], id, id);
      if s[i] == id {
        return Some(i);
      }
      forall j | i <= j < |s|
        ensures s[j] != id
      {
        BeforeTotal(table, id, s[i], s[j]);
        BeforeTotal(table, id, id, id);
      }
    }
    return None;
  }

  function Without(s: seq<Id>, at: nat): seq<Id>
    requires at < |s|
  {
    s[..at] + s[at + 1..]
  }

  lemma OrderedWithout(table: Table, s: seq<Id>, at: nat)
    requires Ordered(table, s) && at < |s|
    ensures Ordered(table, Without(s, at))
    ensures forall x :: x in Without(s, at) <==> x in s && x != s[at]
  {
    hide Before;
    var r := Without(s, at);
    forall i | 0 <= i < |s| && i != at
      ensures s[i] != s[at]
    {
      BeforeTotal(table, s[at], s[at], s[at]);
    }
    assert s == s[..at] + [s[at]] + s[at + 1..];
    assert forall i :: 0 <= i < |r| ==> r[i] == s[if i < at then i else i + 1];
  }

  lemma OrderedKept(table: Table, after: Table, s: seq<Id>)
    requires Ordered(table, s)
    requires forall x :: x in s && x in table ==> x in after && after[x].expire == table[x].expire
    ensures Ordered(after, s)
  {
    forall i | 0 <= i < |s|
      ensures s[i] in after && after[s[i]].expire == table[s[i]].expire
    {
      assert s[i] in s;
    }
  }

  /** Out of the set, a new expiry, and in again. */
  method MoveTimer(table: Table, s: seq<Id>, id: Id, at: nat, target: int, period: nat) returns (t: Table, r: seq<Id>)
    requires Ordered(table, s) && id in table && at < |s| && s[at] == id
    ensures t == table[id := Timer(target, period, table[id].armed)]
    ensures Ordered(t, r) && forall x :: x in r <==> x in s
  {
    hide Before, Ordered;
    OrderedWithout(table, s, at);
    var rest := Without(s, at);
    t := table[id := Timer(target, period, table[id].armed)];
    OrderedKept(table, t, rest);
    var k;
    r, k := InsertTimer(t, rest, id);
    assert forall x :: x in r <==> x in rest || x == id;
  }

  function Taken(lists: seq<seq<Id>>, id: Id): (n: nat) {
    if lists == [] then 0 else Occurs(lists[0], id) + Taken(lists[1..], id)
  }

  lemma {:induction false} TakenUpdate(lists: seq<seq<Id>>, c: nat, list: seq<Id>, id: Id)
    requires c < |lists|
    ensures Taken(lists[c := list], id) == Taken(lists, id) - Occurs(lists[c], id) + Occurs(list, id)
    ensures Occurs(lists[c], id) <= Taken(lists, id)
  {
    if c > 0 {
      TakenUpdate(lists[1..], c - 1, list, id);
      assert lists[c := list][1..] == lists[1..][c - 1 := list];
    } else {
      assert lists[0 := list][1..] == lists[1..];
    }
  }

  lemma {:induction false} NothingTaken(lists: seq<seq<Id>>, id: Id)
    requires forall c :: 0 <= c < |lists| ==> lists[c] == []
    ensures Taken(lists, id) == 0
  {
    if lists != [] {
      NothingTaken(lists[1..], id);
    }
  }

  /** A timer leaves the set once, after its time, and for one caller. */
  ghost predicate LeftOnce(table: Table, timers: seq<Id>, expired: seq<seq<Id>>, fired: seq<Id>, seen: int, id: Id) {
    && Taken(expired, id) + Occurs(fired, id) <= 1
    && (Taken(expired, id) + Occurs(fired, id) > 0 ==> id in table && id !in timers && table[id].expire <= seen)
  }

  ghost predicate AllLeftOnce(table: Table, timers: seq<Id>, expired: seq<seq<Id>>, fired: seq<Id>, seen: int) {
    forall id: Id :: LeftOnce(table, timers, expired, fired, seen, id)
  }

  /** What has left the set is not touched. */
  lemma StillOnce(table: Table, timers: seq<Id>, t: Table, r: seq<Id>, expired: seq<seq<Id>>, fired: seq<Id>, seen: int)
    requires AllLeftOnce(table, timers, expired, fired, seen)
    requires forall x :: x in table && x !in timers ==> x in t && x !in r && t[x].expire == table[x].expire
    ensures AllLeftOnce(t, r, expired, fired, seen)
  {
    hide Occurs, Taken;
    forall id: Id
      ensures LeftOnce(t, r, expired, fired, seen, id)
    {
      assert LeftOnce(table, timers, expired, fired, seen, id);
    }
  }

  lemma {:induction false} DistinctOccurs(s: seq<Id>, id: Id)
    requires Distinct(s)
    ensures Occurs(s, id) == if id in s then 1 else 0
  {
    if s != [] {
      DistinctOccurs(s[1..], id);
    }
  }

  class TimerManager {
    var table: Table
    var timers: seq<Id>
    /** to_process of every thread that may run processExpired: taken out of the set, not
        dispatched yet. */
    var expired: seq<seq<Id>>
    /** Handed to the scheduler so far. */
    var fired: seq<Id>
    /** The latest time at which processExpired has read the clock. */
    ghost var seen: int

    ghost predicate Valid()
      reads this
    {
      Ordered(table, timers) && AllLeftOnce(table, timers, expired, fired, seen)
    }

    constructor (threads: nat, now: int)
      ensures Valid() && timers == [] && |expired| == threads && fired == [] && table == map[] && seen == now
      ensures forall c :: 0 <= c < threads ==> expired[c] == []
    {
      table, timers, expired, fired, seen := map[], [], seq(threads, _ => []), [], now;
      new;
      forall id: Id
        ensures Taken(expired, id) == 0
      {
        NothingTaken(expired, id);
      }
    }

    /** The new timer is due ms after now; nothing else changes. */
    method AddTimer(id: Id, ms: nat, now: int) returns (atFront: bool)
      requires Valid() && id !in table
      modifies this`table, this`timers
      ensures Valid()
      ensures table == old(table)[id := Timer(now + ms * 1_000_000, ms, true)]
      ensures forall x :: x in timers <==> x in old(timers) || x == id
      ensures timers != [] && (atFront <==> timers[0] == id)
    {
      hide Before, AllLeftOnce;
      var t := table[id := Timer(now + ms * NANOS_PER_MILLI, ms, true)];
      OrderedKept(table, t, timers);
      var r, at := InsertTimer(t, timers, id);
      StillOnce(table, timers, t, r, expired, fired, seen);
      table, timers := t, r;
      atFront := at == 0;
    }

    /** A cancelled timer has no callback and is out of the set. */
    method Cancel(id: Id)
      requires Valid() && id in table
      modifies this`table, this`timers
      ensures Valid()
      ensures table == old(table)[id := old(table)[id].(armed := false)]
      ensures forall x :: x in timers <==> x in old(timers) && x != id
    {
      hide Before, AllLeftOnce;
      var at := FindTimer(table, timers, id);
      var t, r := table[id := table[id].(armed := false)], timers;
      if at.Some? {
        OrderedWithout(table, timers, at.value);
        r := Without(timers, at.value);
      }
      OrderedKept(table, t, r);
      StillOnce(table, timers, t, r, expired, fired, seen);
      table, timers := t, r;
    }

    /** Reset from now moves a timer that is still waiting. Reset from its start time never
        moves it: the start is computed from the new period. */
    method Reset(id: Id, ms: nat, fromNow: bool, now: int) returns (ok: bool)
      requires Valid() && id in table
      modifies this`table, this`timers
      ensures Valid()
      ensures var period := if ms == FOREVER then old(table)[id].ms else ms;
        var target := if fromNow then now + period * 1_000_000 else old(table)[id].expire;
        && ok == (target == old(table)[id].expire || id in old(timers))
        && table == old(table)[id := Timer(if ok then target else old(table)[id].expire, period, old(table)[id].armed)]
      ensures forall x :: x in timers <==> x in old(timers)
    {
      hide Before, Ordered, AllLeftOnce;
      var period := if ms == FOREVER then table[id].ms else ms;
      var start := if fromNow then now else table[id].expire - period * NANOS_PER_MILLI;
      var target := start + period * NANOS_PER_MILLI;
      var at := FindTimer(table, timers, id);
      if target == table[id].expire || at.None? {
        ok := target == table[id].expire;
        var t := table[id := table[id].(ms := period)];
        OrderedKept(table, t, timers);
        StillOnce(table, timers, t, timers, expired, fired, seen);
        table := t;
      } else {
        ok := true;
        var t, r := MoveTimer(table, timers, id, at.value, target, period);
        StillOnce(table, timers, t, r, expired, fired, seen);
        table, timers := t, r;
      }
    }

    /** The wait in milliseconds never passes the first deadline, and is less than one
        millisecond short of it. */
    method GetNextTime(now: int) returns (ms: nat)
      requires Valid()
      ensures timers == [] ==> ms == FOREVER
      ensures timers != [] && table[timers[0]].expire <= now ==> ms == 0
      ensures timers != [] && table[timers[0]].expire > now ==>
        now + ms * 1_000_000 <= table[timers[0]].expire < now + (ms + 1) * 1_000_000
      ensures forall x :: x in timers && table[x].expire > now && ms != FOREVER ==>
        now + ms * 1_000_000 <= table[x].expire
    {
      if timers == [] {
        return FOREVER;
      }
      var first := table[timers[0]].expire;
      if now >= first {
        return 0;
      }
      ms := (first - now) / NANOS_PER_MILLI;
      forall x | x in timers
        ensures first <= table[x].expire
      {
        var i :| 0 <= i < |timers| && timers[i] == x;
      }
    }

    /** First half of processExpired: exactly the timers that are due leave the set. The clock
        is read before the lock is taken, so another caller may have read it later. */
    method Collect(c: nat, now: int)
      requires Valid() && c < |expired| && expired[c] == []
      modifies this`timers, this`expired, this`seen
      ensures Valid() && seen == (if old(seen) < now then now else old(seen))
      ensures |expired| == |old(expired)| && expired == old(expired)[c := expired[c]] && old(timers) == expired[c] + timers
      ensures forall x :: x in expired[c] ==> x in table && table[x].expire <= now
      ensures forall x :: x in timers ==> x in table && table[x].expire > now
    {
      hide Before;
      ghost var before := timers;
      ghost var n := 0;
      var todo, rest := [], timers;
      while rest != [] && table[rest[0]].expire <= now
        invariant 0 <= n <= |before| && todo == before[..n] && rest == before[n..]
        invariant forall i :: 0 <= i < n ==> before[i] in table && table[before[i]].expire <= now
        invariant forall i :: 0 <= i < |rest| ==> rest[i] in table
        decreases |rest|
      {
        assert before[..n + 1] == before[..n] + [rest[0]];
        todo, rest, n := todo + [rest[0]], rest[1..], n + 1;
      }
      DueSplit(table, before, n, now);
      assert before == todo + rest;
      ghost var later := if seen < now then now else seen;
      CollectedOnce(table, timers, expired, fired, seen, c, todo, rest, later);
      timers, expired, seen := rest, expired[c := todo], later;
    }

    /** One turn of the second half: scheduled unless it was cancelled in the meantime. */
    method DispatchOne(c: nat)
      requires Valid() && c < |expired| && expired[c] != []
      modifies this`expired, this`fired
      ensures Valid() && expired == old(expired)[c := old(expired)[c][1..]]
      ensures old(expired)[c][0] in table
      ensures fired == old(fired) + if table[old(expired)[c][0]].armed then [old(expired)[c][0]] else []
      ensures fired != old(fired) ==> table[old(expired)[c][0]].expire <= seen && old(expired)[c][0] !in old(fired)
    {
      hide Before, Ordered;
      var id := expired[c][0];
      OccursThere(expired[c], 0);
      TakenUpdate(expired, c, [], id);
      assert LeftOnce(table, timers, expired, fired, seen, id);
      OccursMember(fired, id);
      var more := if table[id].armed then fired + [id] else fired;
      DispatchedOnce(table, timers, expired, fired, seen, c, more);
      expired, fired := expired[c := expired[c][1..]], more;
    }
  }

  lemma CollectedOnce(table: Table, timers: seq<Id>, expired: seq<seq<Id>>, fired: seq<Id>, seen: int,
                      c: nat, todo: seq<Id>, rest: seq<Id>, later: int)
    requires AllLeftOnce(table, timers, expired, fired, seen) && c < |expired| && expired[c] == []
    requires timers == todo + rest && Distinct(todo) && seen <= later
    requires forall x :: x in todo ==> x in table && x !in rest && table[x].expire <= later
    ensures AllLeftOnce(table, rest, expired[c := todo], fired, later)
  {
    hide Occurs, Taken, Distinct;
    var lists := expired[c := todo];
    forall id: Id
      ensures LeftOnce(table, rest, lists, fired, later, id)
    {
      assert LeftOnce(table, timers, expired, fired, seen, id);
      TakenUpdate(expired, c, todo, id);
      DistinctOccurs(todo, id);
      OccursOne(0, id);
    }
  }

  lemma DispatchedOnce(table: Table, timers: seq<Id>, expired: seq<seq<Id>>, fired: seq<Id>, seen: int,
                       c: nat, more: seq<Id>)
    requires AllLeftOnce(table, timers, expired, fired, seen) && c < |expired| && expired[c] != []
    requires more == fired || more == fired + [expired[c][0]]
    ensures AllLeftOnce(table, timers, expired[c := expired[c][1..]], more, seen)
  {
    hide Occurs, Taken;
    var left := expired[c := expired[c][1..]];
    forall x: Id
      ensures LeftOnce(table, timers, left, more, seen, x)
    {
      assert LeftOnce(table, timers, expired, fired, seen, x);
      TakenUpdate(expired, c, expired[c][1..], x);
      OccursHead(expired[c], x);
      OccursSnoc(fired, expired[c][0], x);
    }
  }

  /** The set is ordered, so the timers that are due are its front. */
  lemma DueSplit(table: Table, s: seq<Id>, n: nat, now: int)
    requires Ordered(table, s) && n <= |s| && (n < |s| ==> table[s[n]].expire > now)
    ensures Ordered(table, s[n..]) && Distinct(s[..n])
    ensures forall x :: x in s[n..] ==> x in table && table[x].expire > now
    ensures forall x :: x in s[..n] ==> x in table && x !in s[n..]
  {
    forall i, j | 0 <= i < j < |s|
      ensures s[i] != s[j]
    {
      BeforeTotal(table, s[i], s[j], s[j]);
    }
    forall i | n <= i < |s|
      ensures table[s[i]].expire > now
    {
      assert i > n ==> Before(table, s[n], s[i]);
    }
  }
}
