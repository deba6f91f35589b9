/** WaitGroup: coroutines suspended until a counter returns to zero. */
module WaitGroup {
  import opened Text
  import opened Tally

  type Id = nat

  /** Who will resume the coroutine behind a ticket. Refused: nobody, because a stopping
      scheduler did not take the callback. */
  datatype Loc = WithWaiter(t: nat) | Queued | WithWaker(t: nat) | Scheduled | Spent | Refused

  /** `sawZero` tells whether the counter was zero at some time from the making of the ticket
      to its resumption. */
  datatype Ticket = Ticket(armed: bool, resumed: nat, loc: Loc, sawZero: bool)

  /** Inline: a coroutine runs inside await_suspend, which still holds the lock. Blocked: that
      coroutine waits for the lock its own thread holds. */
  datatype Thread =
    | Idle
    | Suspending
    | Holding(id: Id)
    | Locked(id: Id)
    | Firing(id: Id)
    | Inline
    | Pushing(id: Id)
    | Swapping
    | Blocked
    | Waking(ids: seq<Id>)

  datatype State = State(
    count: int, stopping: bool, lock: Option<nat>, waiters: seq<Id>, callbacks: seq<Id>,
    tickets: seq<Ticket>, threads: seq<Thread>)

  // ---------- the steps ----------

  /** direct: the waker has no scheduler and resumes by itself. */
  datatype Action =
    | Add(n: nat)
    | Stop
    | Ready(t: nat)
    | Create(t: nat)
    | LockWait(t: nat)
    | Look(t: nat)
    | Fire(t: nat)
    | Unlock(t: nat)
    | PushBack(t: nat)
    | Dec(t: nat)
    | Swap(t: nat)
    | Wake(t: nat, direct: bool)
    | RunCallback(i: nat)

  predicate At(st: State, t: nat, th: Thread) {
    t < |st.threads| && st.threads[t] == th
  }

  /** Done is called no more often than Add allows, so never at zero. */
  predicate Enabled(st: State, a: Action) {
    match a
    case Add(_) => true
    case Stop => true
    case RunCallback(i) => i < |st.callbacks| && st.callbacks[i] < |st.tickets|
    case Ready(t) => At(st, t, Idle)
    case Create(t) => At(st, t, Suspending)
    case LockWait(t) => t < |st.threads| && st.threads[t].Holding? && st.lock == None
    case Look(t) => t < |st.threads| && st.threads[t].Locked?
    case Fire(t) => t < |st.threads| && st.threads[t].Firing? && st.threads[t].id < |st.tickets|
    case Unlock(t) => At(st, t, Inline)
    case PushBack(t) => t < |st.threads| && st.threads[t].Pushing? && st.threads[t].id < |st.tickets|
    case Dec(t) => (At(st, t, Idle) || At(st, t, Inline)) && st.count > 0
    case Swap(t) => At(st, t, Swapping) && st.lock == None
    case Wake(t, _) =>
      t < |st.threads| && st.threads[t].Waking? && (st.threads[t].ids != [] ==> st.threads[t].ids[0] < |st.tickets|)
  }

  function Become(st: State, t: nat, th: Thread): State
    requires t < |st.threads|
  {
    st.(threads := st.threads[t := th])
  }

  function Move(st: State, id: Id, loc: Loc): State
    requires id < |st.tickets|
  {
    st.(tickets := st.tickets[id := st.tickets[id].(loc := loc)])
  }

  /** try_resume: only the exchange that finds the ticket armed resumes. */
  function TryResume(st: State, id: Id): State
    requires id < |st.tickets|
  {
    var k := st.tickets[id];
    st.(tickets := st.tickets[id := k.(armed := false, resumed := k.resumed + (if k.armed then 1 else 0), loc := Spent)])
  }

  function Moved(tickets: seq<Ticket>, ids: seq<Id>, loc: Loc): (r: seq<Ticket>)
    ensures |r| == |tickets|
  {
    seq(|tickets|, i requires 0 <= i < |tickets| =>
      if i in ids then tickets[i].(loc := loc) else tickets[i])
  }

  /** The counter is zero: every ticket still to be resumed has seen it. */
  function Seen(tickets: seq<Ticket>): (r: seq<Ticket>)
    ensures |r| == |tickets|
  {
    seq(|tickets|, i requires 0 <= i < |tickets| =>
      if tickets[i].armed then tickets[i].(sawZero := true) else tickets[i])
  }

  function Next(st: State, a: Action): (r: State)
    requires Enabled(st, a)
    ensures |r.threads| == |st.threads| && |r.tickets| >= |st.tickets|
  {
    match a
    case Add(n) => st.(count := st.count + n)
    case Stop => st.(stopping := true)
    case Ready(t) => if st.count == 0 then st else Become(st, t, Suspending)
    case Create(t) =>
      Become(st.(tickets := st.tickets + [Ticket(true, 0, WithWaiter(t), st.count == 0)]), t, Holding(|st.tickets|))
    case LockWait(t) => Become(st.(lock := Some(t)), t, Locked(st.threads[t].id))
    case Look(t) => Become(st, t, if st.count == 0 then Firing(st.threads[t].id) else Pushing(st.threads[t].id))
    case Fire(t) => Become(TryResume(st, st.threads[t].id), t, Inline)
    case Unlock(t) => Become(st.(lock := None), t, Idle)
    case PushBack(t) =>
      var id := st.threads[t].id;
      Become(Move(st, id, Queued).(waiters := st.waiters + [id], lock := None), t, Idle)
    case Dec(t) =>
      if st.count == 1
      then Become(st.(count := 0, tickets := Seen(st.tickets)), t, if st.threads[t] == Idle then Swapping else Blocked)
      else st.(count := st.count - 1)
    case Swap(t) =>
      Become(st.(waiters := [], tickets := Moved(st.tickets, st.waiters, WithWaker(t))), t, Waking(st.waiters))
    case Wake(t, direct) =>
      var ids := st.threads[t].ids;
      if ids == [] then Become(st, t, Idle)
      else if direct then Become(TryResume(st, ids[0]), t, Waking(ids[1..]))
      else if st.stopping then Become(Move(st, ids[0], Refused), t, Waking(ids[1..]))
      else Become(Move(st, ids[0], Scheduled).(callbacks := st.callbacks + [ids[0]]), t, Waking(ids[1..]))
    case RunCallback(i) =>
      TryResume(st, st.callbacks[i]).(callbacks := st.callbacks[..i] + st.callbacks[i + 1..])
  }

  function Start(count: nat, threads: nat): State {
    State(count, false, None, [], [], [], seq(threads, _ => Idle))
  }

  ghost predicate Reaches(st: State, run: seq<Action>, end: State)
    decreases |run|
  {
    if run == [] then st == end else Enabled(st, run[0]) && Reaches(Next(st, run[0]), run[1..], end)
  }

  // ---------- the invariant ----------

  /** ids lists each ticket at `loc` once and no other. */
  ghost predicate Lists(st: State, ids: seq<Id>, loc: Loc) {
    Distinct(ids) && forall id :: id in ids <==> 0 <= id < |st.tickets| && st.tickets[id].loc == loc
  }

  predicate Holder(th: Thread) {
    th.Holding? || th.Locked? || th.Firing? || th.Pushing?
  }

  predicate HasLock(th: Thread) {
    th.Locked? || th.Firing? || th.Inline? || th.Pushing? || th.Blocked?
  }

  /** Over and done with: resumed, or never to be. */
  predicate Settled(loc: Loc) {
    loc == Spent || loc == Refused
  }

  /** The tickets that the state keeps at a place. */
  function Place(st: State, loc: Loc): seq<Id> {
    match loc
    case Queued => st.waiters
    case Scheduled => st.callbacks
    case WithWaiter(t) => if t < |st.threads| && Holder(st.threads[t]) then [st.threads[t].id] else []
    case WithWaker(t) => if t < |st.threads| && st.threads[t].Waking? then st.threads[t].ids else []
    case _ => []
  }

  /** Every ticket that is not settled is kept at exactly one place, once. */
  ghost predicate PlacesOk(st: State) {
    forall loc :: !Settled(loc) ==> Lists(st, Place(st, loc), loc)
  }

  predicate TicketOk(k: Ticket) {
    (k.armed <==> k.loc != Spent) && k.resumed == (if k.armed then 0 else 1)
  }

  ghost predicate TicketsOk(st: State) {
    forall id :: 0 <= id < |st.tickets| ==> TicketOk(st.tickets[id]) && (st.tickets[id].loc == Refused ==> st.stopping)
  }

  ghost predicate LockOk(st: State) {
    && (forall t :: 0 <= t < |st.threads| ==> (HasLock(st.threads[t]) <==> st.lock == Some(t)))
    && (st.lock.Some? ==> st.lock.value < |st.threads|)
  }

  predicate InDone(th: Thread) {
    th == Swapping || th == Blocked
  }

  /** A Done has brought the counter to zero and has not swapped yet. */
  ghost predicate ZeroPending(st: State) {
    exists t :: 0 <= t < |st.threads| && InDone(st.threads[t])
  }

  ghost predicate Entering(st: State) {
    st.waiters != [] || exists t :: 0 <= t < |st.threads| && st.threads[t].Pushing?
  }

  /** Whoever is queued, or about to be, will be found: the counter is up, or the Done that
      brought it down has not swapped yet. */
  ghost predicate Awaited(st: State) {
    0 <= st.count && (Entering(st) ==> st.count > 0 || ZeroPending(st))
  }

  ghost predicate Inv(st: State) {
    PlacesOk(st) && TicketsOk(st) && LockOk(st) && Awaited(st)
  }

  // ---------- every step keeps the tickets in their places ----------

  /** All tickets but `id` are where they were. */
  ghost predicate SameLocs(st: State, next: State, id: Id) {
    && |next.tickets| == |st.tickets|
    && forall i :: 0 <= i < |st.tickets| && i != id ==> next.tickets[i].loc == st.tickets[i].loc
  }

  lemma ListsAdd(st: State, next: State, ids: seq<Id>, id: Id, loc: Loc)
    requires Lists(st, ids, loc) && id < |st.tickets| && st.tickets[id].loc != loc
    requires SameLocs(st, next, id) && next.tickets[id].loc == loc
    ensures Lists(next, ids + [id], loc)
  {
    assert id !in ids;
  }

  lemma ListsDrop(st: State, next: State, ids: seq<Id>, at: nat, loc: Loc)
    requires Lists(st, ids, loc) && at < |ids| && ids[at] < |st.tickets|
    requires SameLocs(st, next, ids[at]) && next.tickets[ids[at]].loc != loc
    ensures Lists(next, ids[..at] + ids[at + 1..], loc)
  {
    var id, left := ids[at], ids[..at] + ids[at + 1..];
    assert ids == ids[..at] + [id] + ids[at + 1..];
    assert id !in left;
    assert forall i :: i in left <==> i in ids && i != id;
  }

  lemma ListsSame(st: State, next: State, ids: seq<Id>, id: Id, loc: Loc)
    requires Lists(st, ids, loc) && id < |st.tickets| && st.tickets[id].loc != loc
    requires SameLocs(st, next, id) && next.tickets[id].loc != loc
    ensures Lists(next, ids, loc)
  {
  }

  /** One ticket goes from one place to another, or is settled. */
  lemma MoveOne(st: State, next: State, from: Loc, at: nat, to: Loc)
    requires PlacesOk(st) && !Settled(from) && from != to && at < |Place(st, from)|
    requires Place(st, from)[at] < |st.tickets|
    requires SameLocs(st, next, Place(st, from)[at]) && next.tickets[Place(st, from)[at]].loc == to
    requires Place(next, from) == Place(st, from)[..at] + Place(st, from)[at + 1..]
    requires !Settled(to) ==> Place(next, to) == Place(st, to) + [Place(st, from)[at]]
    requires forall loc :: loc != from && loc != to && !Settled(loc) ==> Place(next, loc) == Place(st, loc)
    ensures PlacesOk(next)
  {
    hide Place, Lists, SameLocs;
    var ids := Place(st, from);
    var id := ids[at];
    AtPlace(st, from, at);
    forall loc | !Settled(loc)
      ensures Lists(next, Place(next, loc), loc)
    {
      assert Lists(st, Place(st, loc), loc);
      if loc == from {
        ListsDrop(st, next, ids, at, from);
      } else if loc == to {
        ListsAdd(st, next, Place(st, to), id, to);
      } else {
        ListsSame(st, next, Place(st, loc), id, loc);
      }
    }
  }

  lemma AtPlace(st: State, loc: Loc, at: nat)
    requires PlacesOk(st) && !Settled(loc) && at < |Place(st, loc)|
    ensures Place(st, loc)[at] < |st.tickets| && st.tickets[Place(st, loc)[at]].loc == loc
  {
    hide Place;
    assert Lists(st, Place(st, loc), loc);
    assert Place(st, loc)[at] in Place(st, loc);
  }

  lemma MoveNone(st: State, next: State)
    requires PlacesOk(st) && |next.tickets| == |st.tickets|
    requires forall i :: 0 <= i < |st.tickets| ==> next.tickets[i].loc == st.tickets[i].loc
    requires forall loc :: !Settled(loc) ==> Place(next, loc) == Place(st, loc)
    ensures PlacesOk(next)
  {
    hide Place;
    forall loc | !Settled(loc)
      ensures Lists(next, Place(next, loc), loc)
    {
      assert Lists(st, Place(st, loc), loc);
    }
  }

  lemma CreatePlaces(st: State, t: nat)
    requires PlacesOk(st) && Enabled(st, Create(t))
    ensures PlacesOk(Next(st, Create(t)))
  {
    var next := Next(st, Create(t));
    forall loc | !Settled(loc)
      ensures Lists(next, Place(next, loc), loc)
    {
      assert Lists(st, Place(st, loc), loc);
    }
  }

  lemma SwapPlaces(st: State, t: nat)
    requires PlacesOk(st) && Enabled(st, Swap(t))
    ensures PlacesOk(Next(st, Swap(t)))
  {
    var next := Next(st, Swap(t));
    assert Lists(st, st.waiters, Queued) by {
      assert Lists(st, Place(st, Queued), Queued);
    }
    forall loc | !Settled(loc)
      ensures Lists(next, Place(next, loc), loc)
    {
      assert Lists(st, Place(st, loc), loc);
    }
  }

  predicate Moves(a: Action) {
    a.Fire? || a.PushBack? || a.Wake? || a.RunCallback?
  }

  lemma WakePlaces(st: State, t: nat, direct: bool)
    requires PlacesOk(st) && Enabled(st, Wake(t, direct))
    ensures PlacesOk(Next(st, Wake(t, direct)))
  {
    hide PlacesOk;
    var next := Next(st, Wake(t, direct));
    if st.threads[t].ids == [] {
      MoveNone(st, next);
    } else {
      MoveOne(st, next, WithWaker(t), 0, if direct then Spent else if st.stopping then Refused else Scheduled);
    }
  }

  lemma MovePlaces(st: State, a: Action)
    requires PlacesOk(st) && Enabled(st, a) && Moves(a)
    ensures PlacesOk(Next(st, a))
  {
    hide PlacesOk;
    match a
    case Fire(t) => MoveOne(st, Next(st, a), WithWaiter(t), 0, Spent);
    case PushBack(t) => MoveOne(st, Next(st, a), WithWaiter(t), 0, Queued);
    case Wake(t, direct) => WakePlaces(st, t, direct);
    case RunCallback(i) => MoveOne(st, Next(st, a), Scheduled, i, Spent);
  }

  lemma PlacesStep(st: State, a: Action)
    requires PlacesOk(st) && Enabled(st, a)
    ensures PlacesOk(Next(st, a))
  {
    hide PlacesOk;
    if Moves(a) {
      MovePlaces(st, a);
    } else if a.Create? {
      CreatePlaces(st, a.t);
    } else if a.Swap? {
      SwapPlaces(st, a.t);
    } else {
      MoveNone(st, Next(st, a));
    }
  }

  lemma ListedAt(st: State, loc: Loc)
    requires PlacesOk(st) && !Settled(loc)
    ensures Lists(st, Place(st, loc), loc)
  {
  }

  lemma TicketsStep(st: State, a: Action)
    requires TicketsOk(st) && PlacesOk(st) && Enabled(st, a)
    ensures TicketsOk(Next(st, a))
  {
    hide PlacesOk;
    match a
    case PushBack(t) => AtPlace(st, WithWaiter(t), 0);
    case Wake(t, _) =>
      if st.threads[t].ids != [] {
        AtPlace(st, WithWaker(t), 0);
      }
    case Swap(t) => ListedAt(st, Queued);
    case _ =>
  }

  lemma LockStep(st: State, a: Action)
    requires LockOk(st) && Enabled(st, a)
    ensures LockOk(Next(st, a))
  {
  }

  lemma AwaitedStep(st: State, a: Action)
    requires Awaited(st) && LockOk(st) && Enabled(st, a)
    ensures Awaited(Next(st, a))
  {
    var next := Next(st, a);
    if a.Swap? {
      assert !Entering(next);
    } else if a.Dec? && st.count == 1 {
      assert InDone(next.threads[a.t]);
    } else if next.count == 0 {
      if ZeroPending(st) {
        var w :| 0 <= w < |st.threads| && InDone(st.threads[w]);
        assert InDone(next.threads[w]);
      } else {
        assert !Entering(st);
        assert !Entering(next) by {
          forall t | 0 <= t < |next.threads|
            ensures !next.threads[t].Pushing?
          {
            assert !st.threads[t].Pushing?;
          }
        }
      }
    }
  }

  lemma InvStep(st: State, a: Action)
    requires Inv(st) && Enabled(st, a)
    ensures Inv(Next(st, a))
  {
    hide PlacesOk, TicketsOk, LockOk, Awaited, Enabled, Next;
    PlacesStep(st, a);
    TicketsStep(st, a);
    LockStep(st, a);
    AwaitedStep(st, a);
  }

  lemma {:induction false} InvRun(st: State, run: seq<Action>, end: State)
    requires Inv(st) && Reaches(st, run, end)
    ensures Inv(end)
    decreases |run|
  {
    hide Inv, Enabled, Next;
    if run != [] {
      InvStep(st, run[0]);
      InvRun(Next(st, run[0]), run[1..], end);
    }
  }

  lemma StartInv(count: nat, threads: nat)
    ensures Inv(Start(count, threads))
  {
    var st := Start(count, threads);
    forall loc | !Settled(loc)
      ensures Lists(st, Place(st, loc), loc)
    {
    }
  }

  // ---------- what every run promises ----------

  /** No wake-up is lost: at zero, with no Done between its decrement and its swap, nobody
      is queued; and no ticket is ever resumed twice. */
  lemma NoLostWakeUp(count: nat, threads: nat, run: seq<Action>, end: State)
    requires Reaches(Start(count, threads), run, end)
    ensures end.count == 0 && !ZeroPending(end) ==> end.waiters == []
    ensures forall id :: 0 <= id < |end.tickets| ==> end.tickets[id].resumed <= 1
  {
    StartInv(count, threads);
    InvRun(Start(count, threads), run, end);
    hide PlacesOk, Reaches;
    assert forall id :: 0 <= id < |end.tickets| ==> TicketOk(end.tickets[id]);
  }

  /** Once everything has come to rest at zero, a ticket was resumed exactly once if and only
      if its callback was not refused, and refusals come from a stopping scheduler only. */
  lemma AllResumedIff(count: nat, threads: nat, run: seq<Action>, end: State, id: Id)
    requires Reaches(Start(count, threads), run, end) && id < |end.tickets|
    requires end.count == 0 && end.callbacks == []
    requires forall t :: 0 <= t < |end.threads| ==> end.threads[t] == Idle
    ensures end.tickets[id].resumed == 1 <==> end.tickets[id].loc != Refused
    ensures end.tickets[id].loc == Refused ==> end.stopping
  {
    StartInv(count, threads);
    InvRun(Start(count, threads), run, end);
    NoLostWakeUp(count, threads, run, end);
    hide Reaches, PlacesOk;
    assert TicketOk(end.tickets[id]);
    var loc := end.tickets[id].loc;
    assert id !in Place(end, loc);
    if !Settled(loc) {
      ListedAt(end, loc);
    }
  }

  // ---------- the lock held during an inline resumption ----------

  /** A coroutine resumed inside await_suspend that brings the counter to zero waits for the
      lock of its own thread, for ever. */
  lemma {:induction false} BlockedForEver(st: State, t: nat, run: seq<Action>, end: State)
    requires LockOk(st) && At(st, t, Blocked) && Reaches(st, run, end)
    ensures At(end, t, Blocked) && end.lock == Some(t)
    decreases |run|
  {
    if run != [] {
      LockStep(st, run[0]);
      StaysBlocked(st, t, run[0]);
      hide LockOk, Enabled, Next;
      BlockedForEver(Next(st, run[0]), t, run[1..], end);
    }
  }

  lemma StaysBlocked(st: State, t: nat, a: Action)
    requires At(st, t, Blocked) && Enabled(st, a)
    ensures At(Next(st, a), t, Blocked)
  {
  }

  // ---------- refused callbacks ----------

  lemma StaysRefused(st: State, a: Action, id: Id)
    requires Inv(st) && Enabled(st, a) && id < |st.tickets| && st.tickets[id].loc == Refused
    ensures Next(st, a).tickets[id].loc == Refused
  {
    hide PlacesOk, Awaited, LockOk;
    match a
    case Fire(t) => AtPlace(st, WithWaiter(t), 0);
    case PushBack(t) => AtPlace(st, WithWaiter(t), 0);
    case Wake(t, _) =>
      if st.threads[t].ids != [] {
        AtPlace(st, WithWaker(t), 0);
      }
    case RunCallback(i) => AtPlace(st, Scheduled, i);
    case Swap(t) => ListedAt(st, Queued);
    case _ =>
  }

  /** A refused waiter is never resumed. */
  lemma {:induction false} RefusedForEver(st: State, run: seq<Action>, end: State, id: Id)
    requires Inv(st) && Reaches(st, run, end) && id < |st.tickets| && st.tickets[id].loc == Refused
    ensures id < |end.tickets| && end.tickets[id].loc == Refused && end.tickets[id].resumed == 0
    decreases |run|
  {
    if run == [] {
      assert TicketOk(st.tickets[id]);
    } else {
      hide Inv, Enabled, Next;
      InvStep(st, run[0]);
      StaysRefused(st, run[0], id);
      RefusedForEver(Next(st, run[0]), run[1..], end, id);
    }
  }

  // ---------- waits that find the counter at zero ----------

  ghost predicate AtZero(st: State, run: seq<Action>)
    decreases |run|
  {
    run != [] && Enabled(st, run[0]) ==> (run[0].Ready? ==> st.count == 0) && AtZero(Next(st, run[0]), run[1..])
  }

  predicate OnItsWay(th: Thread) {
    th == Suspending
  }

  /** A wait that finds the counter at zero makes no ticket and does not suspend. */
  lemma {:induction false} FreeWaits(st: State, run: seq<Action>, end: State)
    requires Reaches(st, run, end) && AtZero(st, run) && forall t :: 0 <= t < |st.threads| ==> !OnItsWay(st.threads[t])
    ensures |end.tickets| == |st.tickets| && forall t :: 0 <= t < |end.threads| ==> !OnItsWay(end.threads[t])
    decreases |run|
  {
    if run != [] {
      FreeStep(st, run[0]);
      hide Enabled, Next, OnItsWay;
      FreeWaits(Next(st, run[0]), run[1..], end);
    }
  }

  lemma FreeStep(st: State, a: Action)
    requires Enabled(st, a) && (a.Ready? ==> st.count == 0) && forall t :: 0 <= t < |st.threads| ==> !OnItsWay(st.threads[t])
    ensures var next := Next(st, a);
      |next.tickets| == |st.tickets| && forall t :: 0 <= t < |next.threads| ==> !OnItsWay(next.threads[t])
  {
  }

  // ---------- the group used again ----------

  /** No new round begins while a Done of the last one is still to swap. */
  ghost predicate SafeAdd(st: State, a: Action) {
    a.Add? && a.n > 0 && st.count == 0 ==> !ZeroPending(st)
  }

  ghost predicate SafeRun(st: State, run: seq<Action>)
    decreases |run|
  {
    run != [] && Enabled(st, run[0]) ==> SafeAdd(st, run[0]) && SafeRun(Next(st, run[0]), run[1..])
  }

  /** On the way to being resumed, or past it. */
  predicate Leaving(k: Ticket) {
    k.loc.WithWaker? || k.loc == Scheduled || k.loc == Spent || k.loc == Refused
  }

  predicate TicketInTime(k: Ticket, count: int) {
    Leaving(k) || (k.armed && count == 0) ==> k.sawZero
  }

  ghost predicate InTime(st: State) {
    && (st.count > 0 ==> !ZeroPending(st))
    && (forall id :: 0 <= id < |st.tickets| ==> TicketInTime(st.tickets[id], st.count))
    && (forall t :: 0 <= t < |st.threads| && st.threads[t].Firing? ==>
          st.threads[t].id < |st.tickets| && st.tickets[st.threads[t].id].sawZero)
  }

  lemma PendingStep(st: State, a: Action)
    requires Enabled(st, a) && SafeAdd(st, a) && 0 <= st.count && (st.count > 0 ==> !ZeroPending(st))
    ensures Next(st, a).count > 0 ==> !ZeroPending(Next(st, a))
  {
    var next := Next(st, a);
    if next.count > 0 {
      assert !ZeroPending(st);
      forall t | 0 <= t < |next.threads|
        ensures !InDone(next.threads[t])
      {
        assert !InDone(st.threads[t]);
      }
    }
  }

  lemma FiringStep(st: State, a: Action)
    requires Inv(st) && InTime(st) && Enabled(st, a)
    ensures var next := Next(st, a);
      forall t :: 0 <= t < |next.threads| && next.threads[t].Firing? ==>
        next.threads[t].id < |next.tickets| && next.tickets[next.threads[t].id].sawZero
  {
    hide PlacesOk, Awaited, LockOk;
    if a.Look? {
      AtPlace(st, WithWaiter(a.t), 0);
    }
  }

  lemma TimesStep(st: State, a: Action)
    requires Inv(st) && InTime(st) && Enabled(st, a)
    ensures var next := Next(st, a);
      forall id :: 0 <= id < |next.tickets| ==> TicketInTime(next.tickets[id], next.count)
  {
    hide PlacesOk, LockOk;
    match a
    case Fire(t) => AtPlace(st, WithWaiter(t), 0);
    case PushBack(t) => AtPlace(st, WithWaiter(t), 0);
    case Wake(t, _) =>
      if st.threads[t].ids != [] {
        AtPlace(st, WithWaker(t), 0);
      }
    case RunCallback(i) => AtPlace(st, Scheduled, i);
    case Swap(t) =>
      ListedAt(st, Queued);
      assert InDone(st.threads[t]);
    case _ =>
  }

  lemma {:induction false} InTimeRun(st: State, run: seq<Action>, end: State)
    requires Inv(st) && InTime(st) && Reaches(st, run, end) && SafeRun(st, run)
    ensures InTime(end)
    decreases |run|
  {
    if run != [] {
      InvStep(st, run[0]);
      PendingStep(st, run[0]);
      FiringStep(st, run[0]);
      TimesStep(st, run[0]);
      hide Inv, Enabled, Next, SafeAdd, ZeroPending, TicketInTime;
      InTimeRun(Next(st, run[0]), run[1..], end);
    }
  }

  /** Over any number of rounds: as long as no round begins while a Done of the last one is
      still to swap, nobody is resumed whose wait did not see the counter at zero. */
  lemma ResumedAfterZero(count: nat, threads: nat, run: seq<Action>, end: State, id: Id)
    requires Reaches(Start(count, threads), run, end) && SafeRun(Start(count, threads), run)
    requires id < |end.tickets| && end.tickets[id].resumed > 0
    ensures end.tickets[id].sawZero
  {
    StartInv(count, threads);
    InvRun(Start(count, threads), run, end);
    InTimeRun(Start(count, threads), run, end);
    hide Reaches, SafeRun, PlacesOk;
    assert TicketOk(end.tickets[id]) && TicketInTime(end.tickets[id], end.count);
  }

  // ---------- and what happens otherwise ----------

  lemma ReachesCons(st: State, a: Action, run: seq<Action>, end: State)
    requires Enabled(st, a) && Reaches(Next(st, a), run, end)
    ensures Reaches(st, [a] + run, end)
  {
    assert ([a] + run)[1..] == run;
    hide Enabled, Next;
  }

  lemma {:induction false} ReachesConcat(st: State, a: seq<Action>, mid: State, b: seq<Action>, end: State)
    requires Reaches(st, a, mid) && Reaches(mid, b, end)
    ensures Reaches(st, a + b, end)
    decreases |a|
  {
    hide Enabled, Next;
    if a == [] {
      assert a + b == b;
    } else {
      assert (a + b)[1..] == a[1..] + b;
      ReachesConcat(Next(st, a[0]), a[1..], mid, b, end);
    }
  }

  /** Thread u has waited and is queued; everything else is as before. */
  function Entered(st: State): State {
    st.(tickets := st.tickets + [Ticket(true, 0, Queued, false)], waiters := st.waiters + [|st.tickets|])
  }

  lemma EnterRun(st: State, u: nat) returns (run: seq<Action>)
    requires At(st, u, Idle) && st.count > 0 && st.lock == None
    ensures Reaches(st, run, Entered(st))
  {
    var n := |st.tickets|;
    var s1 := Become(st, u, Suspending);
    var s2 := Become(st.(tickets := st.tickets + [Ticket(true, 0, WithWaiter(u), false)]), u, Holding(n));
    var s3 := Become(s2.(lock := Some(u)), u, Locked(n));
    var s4 := Become(s3, u, Pushing(n));
    EnterFirst(st, u, s1, s2);
    EnterSecond(st, u, s2, s3, s4);
    hide Next, Enabled;
    assert Reaches(Entered(st), [], Entered(st));
    ReachesCons(s4, PushBack(u), [], Entered(st));
    ReachesCons(s3, Look(u), [PushBack(u)] + [], Entered(st));
    run := [Look(u)] + ([PushBack(u)] + []);
    ReachesCons(s2, LockWait(u), run, Entered(st));
    ReachesCons(s1, Create(u), [LockWait(u)] + run, Entered(st));
    ReachesCons(st, Ready(u), [Create(u)] + ([LockWait(u)] + run), Entered(st));
    run := [Ready(u)] + ([Create(u)] + ([LockWait(u)] + run));
  }

  lemma EnterFirst(st: State, u: nat, s1: State, s2: State)
    requires At(st, u, Idle) && st.count > 0
    requires s1 == Become(st, u, Suspending)
    requires s2 == Become(st.(tickets := st.tickets + [Ticket(true, 0, WithWaiter(u), false)]), u, Holding(|st.tickets|))
    ensures Enabled(st, Ready(u)) && Next(st, Ready(u)) == s1
    ensures Enabled(s1, Create(u)) && Next(s1, Create(u)) == s2
  {
  }

  lemma EnterSecond(st: State, u: nat, s2: State, s3: State, s4: State)
    requires At(st, u, Idle) && st.count > 0 && st.lock == None
    requires s2 == Become(st.(tickets := st.tickets + [Ticket(true, 0, WithWaiter(u), false)]), u, Holding(|st.tickets|))
    requires s3 == Become(s2.(lock := Some(u)), u, Locked(|st.tickets|)) && s4 == Become(s3, u, Pushing(|st.tickets|))
    ensures Enabled(s2, LockWait(u)) && Next(s2, LockWait(u)) == s3
    ensures Enabled(s3, Look(u)) && Next(s3, Look(u)) == s4
    ensures Enabled(s4, PushBack(u)) && Next(s4, PushBack(u)) == Entered(st)
  {
    var n := |st.tickets|;
    assert s4.threads[u := Idle] == st.threads;
    assert s4.tickets[n := s4.tickets[n].(loc := Queued)] == Entered(st).tickets;
  }

  /** Waking by itself, the waker comes to every ticket it has taken. */
  lemma {:induction false} WakeThrough(st: State, s: nat, id: Id) returns (run: seq<Action>, end: State)
    requires Inv(st) && s < |st.threads| && st.threads[s].Waking? && id in st.threads[s].ids
    ensures Reaches(st, run, end) && id < |end.tickets| && |end.tickets| == |st.tickets|
    ensures end.tickets[id].resumed == 1 && end.tickets[id].sawZero == st.tickets[id].sawZero
    decreases |st.threads[s].ids|
  {
    var ids := st.threads[s].ids;
    AtPlace(st, WithWaker(s), 0);
    var next := Next(st, Wake(s, true));
    InvStep(st, Wake(s, true));
    assert TicketOk(st.tickets[ids[0]]);
    hide Inv;
    if ids[0] == id {
      run, end := [Wake(s, true)], next;
      assert run[1..] == [];
      assert Reaches(next, [], next);
    } else {
      assert ids == [ids[0]] + ids[1..];
      run, end := WakeThrough(next, s, id);
      ReachesCons(st, Wake(s, true), run, end);
      run := [Wake(s, true)] + run;
    }
  }

  ghost predicate ResumedEarly(end: State, id: Id) {
    id < |end.tickets| && end.tickets[id].resumed == 1 && !end.tickets[id].sawZero
  }

  /** Whenever a Done is still to swap, a new round begun there can have its waiter resumed
      although the counter has been up all the time it waited. */
  lemma ReuseWakesEarly(st: State, s: nat, u: nat) returns (run: seq<Action>, end: State)
    requires Inv(st) && st.count == 0 && st.lock == None && At(st, s, Swapping) && At(st, u, Idle)
    ensures Reaches(st, [Add(1)] + run, end) && !SafeAdd(st, Add(1)) && ResumedEarly(end, |st.tickets|)
  {
    var id := |st.tickets|;
    assert InDone(st.threads[s]);
    var s1 := Next(st, Add(1));
    InvStep(st, Add(1));
    var enter := EnterRun(s1, u);
    var s2 := Entered(s1);
    InvRun(s1, enter, s2);
    var s3 := Next(s2, Swap(s));
    InvStep(s2, Swap(s));
    hide Inv;
    assert s3.threads[s] == Waking(s2.waiters) && id in s2.waiters;
    var wake;
    wake, end := WakeThrough(s3, s, id);
    ReachesCons(s2, Swap(s), wake, end);
    ReachesConcat(s1, enter, s2, [Swap(s)] + wake, end);
    ReachesCons(st, Add(1), enter + ([Swap(s)] + wake), end);
    run := enter + ([Swap(s)] + wake);
  }

  /** Such a state is reached by a single Done. */
  lemma WakesNextRound()
    ensures exists run, end :: Reaches(Start(1, 2), run, end) && ResumedEarly(end, 0)
  {
    var st := Start(1, 2);
    StartInv(1, 2);
    var mid := Next(st, Dec(0));
    InvStep(st, Dec(0));
    assert mid.tickets == [] && mid.count == 0 && At(mid, 0, Swapping) && At(mid, 1, Idle);
    hide Inv, Next;
    var run, end := ReuseWakesEarly(mid, 0, 1);
    ReachesCons(st, Dec(0), [Add(1)] + run, end);
  }

  lemma LastDone(st: State, t: nat)
    requires st.count == 1 && st.lock == None && At(st, t, Idle)
    ensures Enabled(st, Dec(t)) && Enabled(Next(st, Dec(t)), Swap(t))
    ensures var s2 := Next(Next(st, Dec(t)), Swap(t));
      At(s2, t, Waking(st.waiters)) && s2.stopping == st.stopping
  {
  }

  lemma RefuseStep(st: State, t: nat)
    requires Enabled(st, Wake(t, false)) && st.threads[t].ids != [] && st.stopping
    ensures Next(st, Wake(t, false)).tickets[st.threads[t].ids[0]].loc == Refused
  {
  }

  /** Whoever is queued first is refused when the last Done comes while the scheduler is stopping. */
  lemma StoppingRefuses(st: State, t: nat) returns (run: seq<Action>, end: State)
    requires Inv(st) && st.count == 1 && st.stopping && st.lock == None && At(st, t, Idle) && st.waiters != []
    ensures Reaches(st, run, end) && Inv(end)
    ensures st.waiters[0] < |end.tickets| && end.tickets[st.waiters[0]].loc == Refused
  {
    LastDone(st, t);
    var s1 := Next(st, Dec(t));
    InvStep(st, Dec(t));
    var s2 := Next(s1, Swap(t));
    InvStep(s1, Swap(t));
    AtPlace(s2, WithWaker(t), 0);
    assert Enabled(s2, Wake(t, false));
    hide Inv, Enabled, Next;
    RefuseStep(s2, t);
    end := Next(s2, Wake(t, false));
    InvStep(s2, Wake(t, false));
    assert Reaches(end, [], end);
    ReachesCons(s2, Wake(t, false), [], end);
    ReachesCons(s1, Swap(t), [Wake(t, false)] + [], end);
    run := [Dec(t)] + ([Swap(t)] + ([Wake(t, false)] + []));
    ReachesCons(st, Dec(t), [Swap(t)] + ([Wake(t, false)] + []), end);
  }

  ghost predicate NeverResumed(end: State) {
    |end.tickets| > 0 && end.tickets[0].loc == Refused && end.tickets[0].resumed == 0
  }

  lemma RefusedRun()
    ensures exists run, end :: Reaches(Start(1, 2), run, end) && NeverResumed(end)
  {
    var st := Start(1, 2);
    StartInv(1, 2);
    var enter := EnterRun(st, 1);
    var mid := Entered(st);
    InvRun(st, enter, mid);
    var stopped := Next(mid, Stop);
    InvStep(mid, Stop);
    assert stopped.waiters == [0] && At(stopped, 0, Idle);
    hide Inv;
    var run, end := StoppingRefuses(stopped, 0);
    ReachesCons(mid, Stop, run, end);
    ReachesConcat(st, enter, mid, [Stop] + run, end);
    RefusedForEver(end, [], end, 0);
  }

  // ---------- who can come to wait for the lock of its own thread ----------

  function Way(th: Thread): (n: int)
    ensures 0 <= n
  {
    match th
    case Suspending => 5
    case Holding(_) => 4
    case Locked(_) => 3
    case Firing(_) => 2
    case Pushing(_) => 2
    case Swapping => 2
    case Inline => 1
    case Waking(ids) => 1 + |ids|
    case Blocked => 0
    case Idle => 0
  }

  ghost function WayLeft(st: State): nat {
    SumBounds(st.threads, Way);
    Sum(st.threads, Way) + |st.waiters|
  }

  ghost predicate NoneBlocked(st: State) {
    forall t :: 0 <= t < |st.threads| ==> st.threads[t] != Blocked
  }

  /** What thread t does next on its way back to Idle. */
  function Onward(st: State, t: nat): Action
    requires t < |st.threads|
  {
    match st.threads[t]
    case Suspending => Create(t)
    case Holding(_) => LockWait(t)
    case Locked(_) => Look(t)
    case Firing(_) => Fire(t)
    case Pushing(_) => PushBack(t)
    case Swapping => Swap(t)
    case Inline => Unlock(t)
    case Waking(_) => Wake(t, true)
    case _ => Stop
  }

  predicate CanMove(st: State, t: nat) {
    && t < |st.threads| && st.threads[t] != Idle && st.threads[t] != Blocked
    && (st.threads[t].Holding? || st.threads[t] == Swapping ==> st.lock == None)
  }

  lemma OnwardEnabled(st: State, t: nat)
    requires Inv(st) && CanMove(st, t)
    ensures Enabled(st, Onward(st, t))
  {
    hide PlacesOk, TicketsOk, LockOk, Awaited;
    match st.threads[t]
    case Firing(_) => AtPlace(st, WithWaiter(t), 0);
    case Pushing(_) => AtPlace(st, WithWaiter(t), 0);
    case Waking(ids) =>
      if ids != [] {
        AtPlace(st, WithWaker(t), 0);
      }
    case _ =>
  }

  lemma OnwardThread(st: State, t: nat)
    requires CanMove(st, t) && Enabled(st, Onward(st, t))
    ensures var next := Next(st, Onward(st, t));
      && next.count == st.count && |next.threads| == |st.threads|
      && next.threads == st.threads[t := next.threads[t]] && next.threads[t] != Blocked
      && Way(next.threads[t]) + |next.waiters| < Way(st.threads[t]) + |st.waiters|
  {
  }

  lemma OnwardStep(st: State, t: nat)
    requires Inv(st) && NoneBlocked(st) && t < |st.threads| && CanMove(st, t)
    ensures Enabled(st, Onward(st, t))
    ensures var next := Next(st, Onward(st, t));
      && Inv(next) && NoneBlocked(next) && WayLeft(next) < WayLeft(st)
      && next.count == st.count && |next.threads| == |st.threads|
  {
    hide Inv, Next, Enabled, Way, Onward, CanMove, Sum;
    OnwardEnabled(st, t);
    OnwardThread(st, t);
    InvStep(st, Onward(st, t));
    SumUpdate(st.threads, t, Next(st, Onward(st, t)).threads[t], Way);
  }

  /** Whoever has the lock can move, and with the lock free everybody can. */
  lemma SomeoneMoves(st: State, t: nat) returns (u: nat)
    requires LockOk(st) && NoneBlocked(st) && t < |st.threads| && st.threads[t] != Idle
    ensures u < |st.threads| && CanMove(st, u)
  {
    u := if st.lock.Some? then st.lock.value else t;
  }

  ghost predicate AllIdle(st: State) {
    forall t :: 0 <= t < |st.threads| ==> st.threads[t] == Idle
  }

  lemma OneStep(st: State, a: Action)
    requires Enabled(st, a)
    ensures Reaches(st, [a], Next(st, a))
  {
    assert [a][1..] == [];
    assert Reaches(Next(st, a), [], Next(st, a));
    hide Enabled, Next;
  }

  /** As long as nobody is blocked, everybody can come to rest. */
  lemma {:induction false} Settles(st: State) returns (run: seq<Action>, end: State)
    requires Inv(st) && NoneBlocked(st)
    ensures Reaches(st, run, end) && Inv(end) && AllIdle(end)
    ensures end.count == st.count && |end.threads| == |st.threads| && end.lock == None
    decreases WayLeft(st)
  {
    hide PlacesOk, TicketsOk, Awaited, WayLeft, CanMove, Enabled, Next, Onward;
    if t: nat :| t < |st.threads| && st.threads[t] != Idle {
      var u := SomeoneMoves(st, t);
      OnwardStep(st, u);
      var next := Next(st, Onward(st, u));
      run, end := Settles(next);
      ReachesCons(st, Onward(st, u), run, end);
      run := [Onward(st, u)] + run;
    } else {
      run, end := [], st;
    }
  }

  lemma DecStep(st: State, t: nat)
    requires (At(st, t, Idle) || At(st, t, Inline)) && st.count > 0
    ensures Enabled(st, Dec(t))
    ensures var next := Next(st, Dec(t));
      && next.count == st.count - 1 && next.lock == st.lock
      && (st.count > 1 ==> next.threads == st.threads)
      && (st.count == 1 ==> next.threads == st.threads[t := if st.threads[t] == Idle then Swapping else Blocked])
  {
  }

  /** One thread can bring the counter to zero by itself. */
  lemma {:induction false} CountDown(st: State, t: nat) returns (run: seq<Action>, end: State)
    requires Inv(st) && (At(st, t, Idle) || At(st, t, Inline)) && st.count > 0
    ensures Reaches(st, run, end) && Inv(end) && end.count == 0 && end.lock == st.lock
    ensures end.threads == st.threads[t := if st.threads[t] == Idle then Swapping else Blocked]
    decreases st.count
  {
    DecStep(st, t);
    InvStep(st, Dec(t));
    var next := Next(st, Dec(t));
    hide Inv, Enabled, Next;
    if st.count == 1 {
      OneStep(st, Dec(t));
      run, end := [Dec(t)], next;
    } else {
      run, end := CountDown(next, t);
      ReachesCons(st, Dec(t), run, end);
      run := [Dec(t)] + run;
    }
  }

  lemma AddStep(st: State)
    requires Inv(st)
    ensures Enabled(st, Add(1)) && Inv(Next(st, Add(1)))
    ensures Next(st, Add(1)) == st.(count := st.count + 1) && st.count >= 0
  {
    InvStep(st, Add(1));
    hide PlacesOk, TicketsOk, LockOk;
  }

  /** A coroutine that runs inside await_suspend can always come to block its own thread: its
      own Done has only to be the last of a new round. */
  lemma InlineBlocks(st: State, t: nat) returns (run: seq<Action>, end: State)
    requires Inv(st) && At(st, t, Inline)
    ensures Reaches(st, run, end) && At(end, t, Blocked)
  {
    AddStep(st);
    var raised := Next(st, Add(1));
    hide Inv, Next, Enabled;
    run, end := CountDown(raised, t);
    ReachesCons(st, Add(1), run, end);
    run := [Add(1)] + run;
  }

  lemma FireStep(st: State, t: nat)
    requires Inv(st) && t < |st.threads| && st.threads[t].Firing?
    ensures Enabled(st, Fire(t)) && Inv(Next(st, Fire(t))) && At(Next(st, Fire(t)), t, Inline)
  {
    AtPlace(st, WithWaiter(t), 0);
    InvStep(st, Fire(t));
    hide Inv;
  }

  lemma FiringBlocks(st: State, t: nat) returns (run: seq<Action>, end: State)
    requires Inv(st) && t < |st.threads| && st.threads[t].Firing?
    ensures Reaches(st, run, end) && At(end, t, Blocked)
  {
    FireStep(st, t);
    hide Inv, Next, Enabled;
    run, end := InlineBlocks(Next(st, Fire(t)), t);
    ReachesCons(st, Fire(t), run, end);
    run := [Fire(t)] + run;
  }

  /** Between its first look at the counter and the one under the lock. */
  predicate InBetween(th: Thread) {
    th == Suspending || th.Holding? || th.Locked?
  }

  lemma BetweenStep(st: State, t: nat)
    requires t < |st.threads| && InBetween(st.threads[t]) && st.count == 0
    requires LockOk(st) && (st.lock == None || st.lock == Some(t))
    ensures Enabled(st, Onward(st, t))
    ensures var next := Next(st, Onward(st, t));
      && t < |next.threads| && next.count == 0 && (next.lock == None || next.lock == Some(t))
      && (st.threads[t].Locked? ==> next.threads[t].Firing?)
      && (!st.threads[t].Locked? ==> InBetween(next.threads[t]) && Way(next.threads[t]) < Way(st.threads[t]))
  {
  }

  lemma {:induction false} BetweenBlocks(st: State, t: nat) returns (run: seq<Action>, end: State)
    requires Inv(st) && t < |st.threads| && InBetween(st.threads[t]) && st.count == 0
    requires st.lock == None || st.lock == Some(t)
    ensures Reaches(st, run, end) && At(end, t, Blocked)
    decreases Way(st.threads[t])
  {
    hide PlacesOk, TicketsOk, Awaited, LockOk, Next, Enabled, Onward, Way;
    BetweenStep(st, t);
    InvStep(st, Onward(st, t));
    var next := Next(st, Onward(st, t));
    if st.threads[t].Locked? {
      run, end := FiringBlocks(next, t);
    } else {
      run, end := BetweenBlocks(next, t);
    }
    ReachesCons(st, Onward(st, t), run, end);
    run := [Onward(st, t)] + run;
  }

  lemma ReadyStep(st: State, t: nat)
    requires At(st, t, Idle) && st.count > 0
    ensures Enabled(st, Ready(t)) && Next(st, Ready(t)) == Become(st, t, Suspending)
  {
  }

  /** With everybody at rest, one waits, another brings the counter to zero meanwhile. */
  lemma RestingBlocks(st: State, t: nat, u: nat) returns (run: seq<Action>, end: State)
    requires Inv(st) && At(st, t, Idle) && At(st, u, Idle) && t != u && st.lock == None
    ensures Reaches(st, run, end) && At(end, t, Blocked)
  {
    AddStep(st);
    var raised := Next(st, Add(1));
    ReadyStep(raised, t);
    InvStep(raised, Ready(t));
    var waiting := Next(raised, Ready(t));
    hide Inv, Next, Enabled;
    var down, zero := CountDown(waiting, u);
    run, end := BetweenBlocks(zero, t);
    ReachesConcat(waiting, down, zero, run, end);
    ReachesCons(raised, Ready(t), down + run, end);
    ReachesCons(st, Add(1), [Ready(t)] + (down + run), end);
    run := [Add(1)] + ([Ready(t)] + (down + run));
  }

  /** t is inside the call that resumes it, or nobody is blocked yet and another thread can
      bring the counter to zero, or has done so while t was on its way into the queue. */
  ghost predicate MayBlock(st: State, t: nat) {
    && t < |st.threads|
    && (st.threads[t] == Blocked || st.threads[t] == Inline || st.threads[t].Firing?
        || (NoneBlocked(st) && (|st.threads| > 1 || (st.count == 0 && InBetween(st.threads[t])))))
  }

  ghost predicate CanBlock(st: State, t: nat) {
    exists run, end :: Reaches(st, run, end) && At(end, t, Blocked)
  }

  lemma OtherThread(st: State, t: nat) returns (u: nat)
    requires |st.threads| > 1 && t < |st.threads|
    ensures u < |st.threads| && u != t
  {
    u := if t == 0 then 1 else 0;
  }

  lemma MayBlockCan(st: State, t: nat) returns (run: seq<Action>, end: State)
    requires Inv(st) && MayBlock(st, t)
    ensures Reaches(st, run, end) && At(end, t, Blocked)
  {
    hide PlacesOk, TicketsOk, Awaited, Reaches;
    if st.threads[t] == Blocked {
      run, end := [], st;
      NoSteps(st);
    } else if st.threads[t] == Inline {
      run, end := InlineBlocks(st, t);
    } else if st.threads[t].Firing? {
      run, end := FiringBlocks(st, t);
    } else if |st.threads| > 1 {
      var u := OtherThread(st, t);
      var rest, mid := Settles(st);
      run, end := RestingBlocks(mid, t, u);
      ReachesConcat(st, rest, mid, run, end);
      run := rest + run;
    } else {
      run, end := BetweenBlocks(st, t);
    }
  }

  lemma NoSteps(st: State)
    ensures Reaches(st, [], st)
  {
  }

  /** A thread on its own finds the counter up whenever it has to look at it twice. */
  ghost predicate Alone(st: State) {
    && |st.threads| == 1 && 0 <= st.count
    && st.threads[0] != Blocked && st.threads[0] != Inline && !st.threads[0].Firing?
    && (InBetween(st.threads[0]) ==> st.count > 0)
  }

  lemma {:induction false} AloneRun(st: State, run: seq<Action>, end: State)
    requires Alone(st) && Reaches(st, run, end)
    ensures Alone(end)
    decreases |run|
  {
    if run != [] {
      AloneStep(st, run[0]);
      hide Alone, Enabled, Next;
      AloneRun(Next(st, run[0]), run[1..], end);
    }
  }

  lemma AloneStep(st: State, a: Action)
    requires Alone(st) && Enabled(st, a)
    ensures Alone(Next(st, a))
  {
  }

  lemma {:induction false} LockRun(st: State, run: seq<Action>, end: State)
    requires LockOk(st) && Reaches(st, run, end)
    ensures LockOk(end) && |end.threads| == |st.threads|
    decreases |run|
  {
    if run != [] {
      LockStep(st, run[0]);
      hide LockOk, Enabled;
      LockRun(Next(st, run[0]), run[1..], end);
    }
  }

  lemma OthersCannot(st: State, t: nat, run: seq<Action>, end: State)
    requires Inv(st) && !MayBlock(st, t) && Reaches(st, run, end)
    ensures !At(end, t, Blocked)
  {
    hide PlacesOk, TicketsOk, Reaches;
    LockRun(st, run, end);
    if t < |st.threads| {
      if u: nat :| u < |st.threads| && st.threads[u] == Blocked {
        BlockedForEver(st, u, run, end);
      } else {
        AloneRun(st, run, end);
      }
    }
  }

  /** In every reachable state: some continuation makes t wait for ever for the lock its own
      thread holds, exactly under that condition. */
  lemma CanBlockIff(count: nat, threads: nat, run: seq<Action>, st: State, t: nat)
    requires Reaches(Start(count, threads), run, st)
    ensures CanBlock(st, t) <==> MayBlock(st, t)
  {
    hide Inv, Reaches, MayBlock, At;
    StartInv(count, threads);
    InvRun(Start(count, threads), run, st);
    if MayBlock(st, t) {
      var more, end := MayBlockCan(st, t);
    } else {
      forall more, end | Reaches(st, more, end)
        ensures !At(end, t, Blocked)
      {
        OthersCannot(st, t, more, end);
      }
    }
  }

  /** Two threads and one Done to come are enough. */
  lemma BlockedRun() returns (run: seq<Action>, end: State)
    ensures Reaches(Start(1, 2), run, end) && At(end, 0, Blocked) && end.lock == Some(0)
  {
    StartInv(1, 2);
    var start := Start(1, 2);
    assert MayBlock(start, 0);
    run, end := MayBlockCan(start, 0);
    LockRun(start, run, end);
  }
}
