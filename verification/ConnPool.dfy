/** The HTTP connection pool: callers take and return connections concurrently. */
module ConnPool {
  import opened Text
  import opened Tally

  type Id = nat

  datatype Loc =
    | InPool
    | Borrowed
    | Held(t: nat)
    | Created(t: nat)
    | Removed

  /** `handed` counts how often the connection has been given out. */
  datatype Conn = Conn(loc: Loc, busy: bool, requests: int, handed: int)

  /** Where a caller of getConnnection or ReleasePtr stands. */
  datatype Thread =
    | Idle
    | Scanning(invalid: seq<Id>)
    | Checking(invalid: seq<Id>, ptr: Option<Id>)
    | Subtracting(invalid: seq<Id>, ptr: Option<Id>)
    | Connecting
    | Adding(id: Id)
    | Releasing(id: Id)
    | Judging(id: Id)
    | Resetting(id: Id)
    | Parking(id: Id)
    | Deleting(id: Id)
    | Uncounting
    | Failed

  datatype State = State(conns: seq<Conn>, pool: seq<Id>, total: int, lock: Option<nat>, threads: seq<Thread>)

  datatype Limits = Limits(maxSize: int, maxRequest: int)

  // ---------- the steps ----------

  /** usable: still connected and young enough. keep: the same at the time of return. */
  datatype Action =
    | Lock(t: nat)
    | Scan(t: nat, usable: bool)
    | ScanEnd(t: nat)
    | Check(t: nat)
    | Subtract(t: nat)
    | Connect(t: nat, ok: bool)
    | Add(t: nat)
    | Release(t: nat, id: Id)
    | CountRequest(t: nat)
    | Judge(t: nat, keep: bool)
    | Reset(t: nat)
    | Park(t: nat)
    | Delete(t: nat)
    | Uncount(t: nat)

  predicate Enabled(st: State, a: Action) {
    a.t < |st.threads| &&
    var th := st.threads[a.t];
    match a
    case Lock(t) => th == Idle && st.lock == None
    case Scan(t, _) => th.Scanning? && st.pool != [] && st.pool[0] < |st.conns|
    case ScanEnd(t) => th.Scanning? && st.pool == []
    case Check(t) => th.Checking?
    case Subtract(t) => th.Subtracting?
    case Connect(t, _) => th.Connecting?
    case Add(t) => th.Adding? && th.id < |st.conns|
    case Release(t, id) => th == Idle && id < |st.conns| && st.conns[id].loc == Borrowed
    case CountRequest(t) => th.Releasing? && th.id < |st.conns|
    case Judge(t, _) => th.Judging? && th.id < |st.conns|
    case Reset(t) => th.Resetting? && th.id < |st.conns|
    case Park(t) => th.Parking? && th.id < |st.conns| && st.lock == None
    case Delete(t) => th.Deleting? && th.id < |st.conns|
    case Uncount(t) => th.Uncounting?
  }

  function Become(st: State, t: nat, th: Thread): State
    requires t < |st.threads|
  {
    st.(threads := st.threads[t := th])
  }

  function Put(st: State, id: Id, c: Conn): State
    requires id < |st.conns|
  {
    st.(conns := st.conns[id := c])
  }

  function Next(lim: Limits, st: State, a: Action): (r: State)
    requires Enabled(st, a)
    ensures |r.threads| == |st.threads|
  {
    var th := st.threads[a.t];
    match a
    case Lock(t) => Become(st.(lock := Some(t)), t, Scanning([]))
    case Scan(t, usable) =>
      var id := st.pool[0];
      var c := st.conns[id];
      var st' := st.(pool := st.pool[1..]);
      if !usable || c.busy then Become(Put(st', id, c.(loc := Removed)), t, Scanning(th.invalid + [id]))
      else
        Become(Put(st', id, c.(loc := Held(t), busy := true, handed := c.handed + 1)).(lock := None), t,
               Checking(th.invalid, Some(id)))
    case ScanEnd(t) => Become(st.(lock := None), t, Checking(th.invalid, None))
    case Check(t) => Become(st, t, if |th.invalid| > st.total then Failed else Subtracting(th.invalid, th.ptr))
    case Subtract(t) =>
      var st' := st.(total := st.total - |th.invalid|);
      if th.ptr.None? then Become(st', t, Connecting)
      else if th.ptr.value < |st.conns| then
        Become(Put(st', th.ptr.value, st.conns[th.ptr.value].(loc := Borrowed)), t, Idle)
      else Become(st', t, Failed)
    case Connect(t, ok) =>
      if !ok then Become(st, t, Idle)
      else Become(st.(conns := st.conns + [Conn(Loc.Created(t), false, 0, 1)]), t, Adding(|st.conns|))
    case Add(t) => Become(Put(st.(total := st.total + 1), th.id, st.conns[th.id].(loc := Borrowed)), t, Idle)
    case Release(t, id) => Become(Put(st, id, st.conns[id].(loc := Held(t))), t, Releasing(id))
    case CountRequest(t) =>
      var c := st.conns[th.id];
      Become(Put(st, th.id, c.(requests := c.requests + 1)), t, Judging(th.id))
    case Judge(t, keep) =>
      Become(st, t, if !keep || st.conns[th.id].requests >= lim.maxRequest then Deleting(th.id) else Resetting(th.id))
    case Reset(t) => Become(Put(st, th.id, st.conns[th.id].(busy := false)), t, Parking(th.id))
    case Park(t) =>
      if |st.pool| < lim.maxSize
      then Become(Put(st.(pool := st.pool + [th.id]), th.id, st.conns[th.id].(loc := InPool)), t, Idle)
      else Become(st, t, Deleting(th.id))
    case Delete(t) => Become(Put(st, th.id, st.conns[th.id].(loc := Removed)), t, Uncounting)
    case Uncount(t) => Become(st.(total := st.total - 1), t, Idle)
  }

  function Start(callers: nat): State {
    State([], [], 0, None, seq(callers, _ => Idle))
  }

  ghost predicate Reaches(lim: Limits, st: State, run: seq<Action>, end: State)
    decreases |run|
  {
    if run == [] then st == end
    else Enabled(st, run[0]) && Reaches(lim, Next(lim, st, run[0]), run[1..], end)
  }

  // ---------- the invariant ----------

  /** Connections that are in the pool or in somebody's hands. */
  function Counted(c: Conn): int {
    if c.loc.InPool? || c.loc.Borrowed? || c.loc.Held? then 1 else 0
  }

  /** Removed connections the caller has not subtracted yet. */
  function Pending(th: Thread): int {
    match th
    case Scanning(invalid) => |invalid|
    case Checking(invalid, _) => |invalid|
    case Subtracting(invalid, _) => |invalid|
    case Uncounting => 1
    case _ => 0
  }

  ghost predicate TotalOk(st: State) {
    st.total == Sum(st.conns, Counted) + Sum(st.threads, Pending)
  }

  ghost predicate PoolOk(lim: Limits, st: State) {
    && (forall id :: id in st.pool <==> 0 <= id < |st.conns| && st.conns[id].loc == InPool)
    && (forall i, j :: 0 <= i < j < |st.pool| ==> st.pool[i] != st.pool[j])
    && (st.pool != [] ==> |st.pool| <= lim.maxSize)
  }

  predicate ConnOk(lim: Limits, c: Conn) {
    && 0 <= c.requests && (c.handed <= 1 || c.handed <= lim.maxRequest)
    && (c.loc == InPool ==> !c.busy && c.handed == c.requests < lim.maxRequest)
    && (c.loc == Borrowed ==> c.handed == c.requests + 1)
  }

  ghost predicate ConnsOk(lim: Limits, st: State) {
    forall id :: 0 <= id < |st.conns| ==> ConnOk(lim, st.conns[id])
  }

  predicate Holds(st: State, id: Id, t: nat) {
    id < |st.conns| && st.conns[id].loc == Held(t)
  }

  /** What a caller knows of the connection it works on. */
  predicate ThreadOk(lim: Limits, st: State, t: nat, th: Thread) {
    match th
    case Scanning(_) => st.lock == Some(t)
    case Checking(_, ptr) => ptr.Some? ==> Holds(st, ptr.value, t) && Out(st, ptr.value)
    case Subtracting(_, ptr) => ptr.Some? ==> Holds(st, ptr.value, t) && Out(st, ptr.value)
    case Adding(id) => id < |st.conns| && st.conns[id].loc == Loc.Created(t) && Out(st, id)
    case Releasing(id) => Holds(st, id, t) && Out(st, id)
    case Judging(id) => Holds(st, id, t) && Back(st, id)
    case Resetting(id) => Holds(st, id, t) && Back(st, id) && st.conns[id].requests < lim.maxRequest
    case Parking(id) => Holds(st, id, t) && Back(st, id) && st.conns[id].requests < lim.maxRequest && !st.conns[id].busy
    case Deleting(id) => Holds(st, id, t)
    case Failed => false
    case _ => true
  }

  predicate Out(st: State, id: Id)
    requires id < |st.conns|
  {
    st.conns[id].handed == st.conns[id].requests + 1
  }

  predicate Back(st: State, id: Id)
    requires id < |st.conns|
  {
    st.conns[id].handed == st.conns[id].requests
  }

  ghost predicate ThreadsOk(lim: Limits, st: State) {
    && (forall t :: 0 <= t < |st.threads| ==> ThreadOk(lim, st, t, st.threads[t]))
    && (st.lock.Some? ==> st.lock.value < |st.threads| && st.threads[st.lock.value].Scanning?)
  }

  ghost predicate Inv(lim: Limits, st: State) {
    TotalOk(st) && PoolOk(lim, st) && ConnsOk(lim, st) && ThreadsOk(lim, st)
  }

  /** One connection and one caller change. */
  lemma TotalChange(st: State, next: State, id: Id, c: Conn, t: nat, th: Thread)
    requires TotalOk(st) && id < |st.conns| && t < |st.threads|
    requires next.conns == st.conns[id := c] && next.threads == st.threads[t := th]
    requires next.total - st.total == Counted(c) - Counted(st.conns[id]) + Pending(th) - Pending(st.threads[t])
    ensures TotalOk(next)
  {
    hide Sum;
    SumUpdate(st.threads, t, th, Pending);
    SumUpdate(st.conns, id, c, Counted);
  }

  lemma TotalThread(st: State, next: State, t: nat, th: Thread)
    requires TotalOk(st) && t < |st.threads| && next.conns == st.conns && next.threads == st.threads[t := th]
    requires next.total - st.total == Pending(th) - Pending(st.threads[t])
    ensures TotalOk(next)
  {
    hide Sum;
    SumUpdate(st.threads, t, th, Pending);
  }

  predicate IsGet(a: Action) {
    a.Lock? || a.Scan? || a.ScanEnd? || a.Check? || a.Subtract? || a.Connect? || a.Add?
  }

  lemma TotalGet(lim: Limits, st: State, a: Action)
    requires Enabled(st, a) && Inv(lim, st) && IsGet(a)
    ensures TotalOk(Next(lim, st, a))
  {
    hide TotalOk, PoolOk, ConnsOk;
    var next := Next(lim, st, a);
    var th := st.threads[a.t];
    assert ThreadOk(lim, st, a.t, th);
    match a
    case Lock(t) => TotalThread(st, next, t, next.threads[t]);
    case Scan(t, usable) =>
      PooledFirst(lim, st);
      TotalChange(st, next, st.pool[0], next.conns[st.pool[0]], t, next.threads[t]);
    case ScanEnd(t) => TotalThread(st, next, t, next.threads[t]);
    case Check(t) =>
      InvalidWithinTotal(lim, st, t);
      TotalThread(st, next, t, next.threads[t]);
    case Subtract(t) =>
      if th.ptr.Some? {
        TotalChange(st, next, th.ptr.value, next.conns[th.ptr.value], t, Idle);
      } else {
        TotalThread(st, next, t, Connecting);
      }
    case Connect(t, ok) =>
      if ok {
        TotalCreated(st, next, next.conns[|st.conns|], t, next.threads[t]);
      } else {
        TotalThread(st, next, t, Idle);
      }
    case Add(t) => TotalChange(st, next, th.id, next.conns[th.id], t, Idle);
  }

  lemma TotalRelease(lim: Limits, st: State, a: Action)
    requires Enabled(st, a) && Inv(lim, st) && !IsGet(a)
    ensures TotalOk(Next(lim, st, a))
  {
    hide TotalOk, PoolOk, ConnsOk;
    var next := Next(lim, st, a);
    var th := st.threads[a.t];
    assert ThreadOk(lim, st, a.t, th);
    match a
    case Release(t, id) => TotalChange(st, next, id, next.conns[id], t, next.threads[t]);
    case CountRequest(t) => TotalChange(st, next, th.id, next.conns[th.id], t, next.threads[t]);
    case Judge(t, _) => TotalThread(st, next, t, next.threads[t]);
    case Reset(t) => TotalChange(st, next, th.id, next.conns[th.id], t, next.threads[t]);
    case Park(t) =>
      if |st.pool| < lim.maxSize {
        TotalChange(st, next, th.id, next.conns[th.id], t, Idle);
      } else {
        TotalThread(st, next, t, Deleting(th.id));
      }
    case Delete(t) => TotalChange(st, next, th.id, next.conns[th.id], t, Uncounting);
    case Uncount(t) => TotalThread(st, next, t, Idle);
  }

  lemma TotalCreated(st: State, next: State, c: Conn, t: nat, th: Thread)
    requires TotalOk(st) && t < |st.threads| && Counted(c) == 0 && next.total == st.total
    requires next.conns == st.conns + [c] && next.threads == st.threads[t := th] && Pending(th) == Pending(st.threads[t])
    ensures TotalOk(next)
  {
    hide Sum;
    SumUpdate(st.threads, t, th, Pending);
    SumSnoc(st.conns, c, Counted);
  }

  lemma PooledFirst(lim: Limits, st: State)
    requires PoolOk(lim, st) && st.pool != [] && st.pool[0] < |st.conns|
    ensures st.conns[st.pool[0]].loc == InPool
  {
    assert st.pool[0] in st.pool;
  }

  /** The error branch of getConnnection cannot be taken. */
  lemma InvalidWithinTotal(lim: Limits, st: State, t: nat)
    requires Inv(lim, st) && t < |st.threads|
    ensures Pending(st.threads[t]) <= st.total
  {
    hide Sum;
    SumBounds(st.threads, Pending);
    SumBounds(st.conns, Counted);
  }

  lemma PoolStep(lim: Limits, st: State, a: Action)
    requires Enabled(st, a) && Inv(lim, st)
    ensures PoolOk(lim, Next(lim, st, a))
  {
    hide TotalOk, ConnsOk, PoolOk;
    var next := Next(lim, st, a);
    assert ThreadOk(lim, st, a.t, st.threads[a.t]);
    if a.Scan? {
      PopPool(lim, st, next.conns[st.pool[0]]);
      SamePool(lim, Put(st.(pool := st.pool[1..]), st.pool[0], next.conns[st.pool[0]]), next);
    } else if a.Park? && |st.pool| < lim.maxSize {
      PushPool(lim, st, st.threads[a.t].id);
      SamePool(lim, PushedPool(st, st.threads[a.t].id), next);
    } else {
      SamePool(lim, st, next);
    }
  }

  lemma PopPool(lim: Limits, st: State, c: Conn)
    requires PoolOk(lim, st) && st.pool != [] && st.pool[0] < |st.conns| && c.loc != InPool
    ensures PoolOk(lim, Put(st.(pool := st.pool[1..]), st.pool[0], c))
  {
    TailMembers(st.pool);
  }

  lemma TailMembers(pool: seq<Id>)
    requires pool != [] && forall i, j :: 0 <= i < j < |pool| ==> pool[i] != pool[j]
    ensures forall x :: x in pool[1..] <==> x in pool && x != pool[0]
  {
    assert pool == [pool[0]] + pool[1..];
  }

  function PushedPool(st: State, id: Id): State
    requires id < |st.conns|
  {
    Put(st.(pool := st.pool + [id]), id, st.conns[id].(loc := InPool))
  }

  lemma PushPool(lim: Limits, st: State, id: Id)
    requires PoolOk(lim, st) && id < |st.conns| && st.conns[id].loc != InPool && |st.pool| < lim.maxSize
    ensures PoolOk(lim, PushedPool(st, id))
  {
    assert id !in st.pool;
  }

  /** The pool only depends on which connections are in it. */
  lemma SamePool(lim: Limits, st: State, next: State)
    requires PoolOk(lim, st) && next.pool == st.pool && |st.conns| <= |next.conns|
    requires forall id :: 0 <= id < |st.conns| ==> (next.conns[id].loc == InPool <==> st.conns[id].loc == InPool)
    requires forall id :: |st.conns| <= id < |next.conns| ==> next.conns[id].loc != InPool
    ensures PoolOk(lim, next)
  {
    forall id
      ensures id in next.pool <==> 0 <= id < |next.conns| && next.conns[id].loc == InPool
    {
      assert id in st.pool <==> 0 <= id < |st.conns| && st.conns[id].loc == InPool;
    }
  }

  lemma ConnsStep(lim: Limits, st: State, a: Action)
    requires Enabled(st, a) && Inv(lim, st)
    ensures ConnsOk(lim, Next(lim, st, a))
  {
    hide TotalOk;
    assert ThreadOk(lim, st, a.t, st.threads[a.t]);
    if a.Scan? {
      assert st.pool[0] in st.pool;
    }
  }

  /** A connection in the hands of another caller is left alone. */
  ghost predicate Frame(st: State, next: State, t: nat) {
    && |st.conns| <= |next.conns|
    && (forall id :: 0 <= id < |st.conns| && next.conns[id] != st.conns[id] ==>
          (st.conns[id].loc.Held? || st.conns[id].loc.Created? ==> st.conns[id].loc.t == t))
    && (st.lock.Some? && st.lock.value != t ==> next.lock == st.lock)
  }

  lemma StepFrame(lim: Limits, st: State, a: Action)
    requires Enabled(st, a) && Inv(lim, st)
    ensures Frame(st, Next(lim, st, a), a.t)
  {
    hide TotalOk, ConnsOk;
    assert ThreadOk(lim, st, a.t, st.threads[a.t]);
    if a.Scan? {
      assert st.pool[0] in st.pool;
    }
  }

  lemma OtherOk(lim: Limits, st: State, next: State, t: nat, other: nat, th: Thread)
    requires Frame(st, next, t) && other != t && ThreadOk(lim, st, other, th)
    ensures ThreadOk(lim, next, other, th)
  {
  }

  lemma ActorOk(lim: Limits, st: State, a: Action)
    requires Enabled(st, a) && Inv(lim, st)
    ensures var next := Next(lim, st, a);
      && ThreadOk(lim, next, a.t, next.threads[a.t])
      && (next.lock.Some? ==> next.lock.value < |next.threads| && next.threads[next.lock.value].Scanning?)
  {
    hide Sum;
    assert ThreadOk(lim, st, a.t, st.threads[a.t]);
    if a.Scan? {
      assert st.pool[0] in st.pool;
    }
    if a.Check? {
      InvalidWithinTotal(lim, st, a.t);
    }
  }

  lemma OnlyActor(lim: Limits, st: State, a: Action)
    requires Enabled(st, a)
    ensures forall t :: 0 <= t < |st.threads| && t != a.t ==> Next(lim, st, a).threads[t] == st.threads[t]
  {
  }

  lemma ThreadsStep(lim: Limits, st: State, a: Action)
    requires Enabled(st, a) && Inv(lim, st)
    ensures ThreadsOk(lim, Next(lim, st, a))
  {
    hide Next, ThreadOk, Frame, TotalOk, PoolOk, ConnsOk;
    var next := Next(lim, st, a);
    StepFrame(lim, st, a);
    ActorOk(lim, st, a);
    OnlyActor(lim, st, a);
    forall t | 0 <= t < |next.threads|
      ensures ThreadOk(lim, next, t, next.threads[t])
    {
      if t != a.t {
        OtherOk(lim, st, next, a.t, t, st.threads[t]);
      }
    }
  }

  lemma {:induction false} InvRun(lim: Limits, st: State, run: seq<Action>, end: State)
    requires Inv(lim, st) && Reaches(lim, st, run, end)
    ensures Inv(lim, end)
    decreases |run|
  {
    if run != [] {
      if IsGet(run[0]) {
        TotalGet(lim, st, run[0]);
      } else {
        TotalRelease(lim, st, run[0]);
      }
      PoolStep(lim, st, run[0]);
      ConnsStep(lim, st, run[0]);
      ThreadsStep(lim, st, run[0]);
      hide TotalOk, PoolOk, ConnsOk, ThreadsOk, Enabled, Next;
      InvRun(lim, Next(lim, st, run[0]), run[1..], end);
    }
  }

  lemma StartInv(lim: Limits, callers: nat)
    ensures Inv(lim, Start(callers))
  {
    SumZero(Start(callers).threads, Pending);
  }

  // ---------- what every run of the pool promises ----------

  function Pooled(c: Conn): int {
    if c.loc.InPool? then 1 else 0
  }

  function InUse(c: Conn): int {
    if c.loc.Borrowed? || c.loc.Held? then 1 else 0
  }

  lemma {:induction false} CountedSplits(conns: seq<Conn>)
    ensures Sum(conns, Counted) == Sum(conns, Pooled) + Sum(conns, InUse)
  {
    if conns != [] {
      CountedSplits(conns[1..]);
    }
  }

  /** The pool holds each pooled connection once, so its length is their number. */
  lemma {:induction false} PoolLength(conns: seq<Conn>, pool: seq<Id>)
    requires forall id :: id in pool <==> 0 <= id < |conns| && conns[id].loc == InPool
    requires forall i, j :: 0 <= i < j < |pool| ==> pool[i] != pool[j]
    ensures |pool| == Sum(conns, Pooled)
    decreases |pool|
  {
    if pool == [] {
      forall i | 0 <= i < |conns|
        ensures Pooled(conns[i]) == 0
      {
        assert i !in pool;
      }
      SumZero(conns, Pooled);
    } else {
      var id := pool[0];
      assert id in pool;
      var without := conns[id := conns[id].(loc := Removed)];
      TailMembers(pool);
      PoolLength(without, pool[1..]);
      SumUpdate(conns, id, without[id], Pooled);
    }
  }

  /** In every interleaving: the counter is the pooled connections, those in use and those
      removed but not yet subtracted; the pool respects its limit; pooled connections are
      idle and in nobody's hands; each is given out at most max(1, maxRequest) times; and
      the error branch is never taken. */
  lemma Accounting(lim: Limits, callers: nat, run: seq<Action>, end: State)
    requires Reaches(lim, Start(callers), run, end)
    ensures end.total == |end.pool| + Sum(end.conns, InUse) + Sum(end.threads, Pending)
    ensures end.pool != [] ==> |end.pool| <= lim.maxSize
    ensures forall id :: id in end.pool ==> id < |end.conns| && end.conns[id].loc == InPool && !end.conns[id].busy
    ensures forall i, j :: 0 <= i < j < |end.pool| ==> end.pool[i] != end.pool[j]
    ensures forall id :: 0 <= id < |end.conns| ==> end.conns[id].handed <= 1 || end.conns[id].handed <= lim.maxRequest
    ensures forall t :: 0 <= t < |end.threads| ==> end.threads[t] != Failed
  {
    StartInv(lim, callers);
    InvRun(lim, Start(callers), run, end);
    CountedSplits(end.conns);
    PoolLength(end.conns, end.pool);
    hide Reaches, Sum;
    forall t | 0 <= t < |end.threads|
      ensures end.threads[t] != Failed
    {
      assert ThreadOk(lim, end, t, end.threads[t]);
    }
  }

  // ---------- which connection a caller gets ----------

  /** What the scans of caller t found of the connections they looked at, in order. */
  function Answers(run: seq<Action>, t: nat): seq<bool> {
    if run == [] then []
    else (if run[0].Scan? && run[0].t == t then [run[0].usable] else []) + Answers(run[1..], t)
  }

  /** Caller t is looking through the pool as it was when it took the lock, and has been past
      the first n connections. */
  ghost predicate LookingAt(st: State, t: nat, pool: seq<Id>, n: nat) {
    && t < |st.threads| && n <= |pool| && st.pool == pool[n..] && st.threads[t] == Scanning(pool[..n])
  }

  /** It has found connection n of that pool usable and has taken it off with those before it,
      or has been through all of them. */
  ghost predicate LookedAt(st: State, t: nat, pool: seq<Id>, n: nat) {
    && t < |st.threads| && n <= |pool|
    && st.threads[t] == Checking(pool[..n], if n < |pool| then Some(pool[n]) else None)
  }

  lemma LookingStep(lim: Limits, st: State, a: Action, t: nat, pool: seq<Id>, n: nat)
    requires Inv(lim, st) && Enabled(st, a) && LookingAt(st, t, pool, n)
    ensures var next := Next(lim, st, a);
      if a.t != t then LookingAt(next, t, pool, n)
      else if a.ScanEnd? then n == |pool| && LookedAt(next, t, pool, n)
      else a.Scan? && n < |pool| && (if a.usable then LookedAt(next, t, pool, n) else LookingAt(next, t, pool, n + 1))
  {
    hide TotalOk;
    assert ThreadOk(lim, st, t, st.threads[t]);
    assert ThreadOk(lim, st, a.t, st.threads[a.t]);
    if a.Scan? {
      assert st.pool[0] in st.pool;
      assert pool[..n] + [pool[n]] == pool[..n + 1] && pool[n..][1..] == pool[n + 1..];
    }
  }

  /** The other callers leave the place of t as it is. */
  lemma LookedStep(lim: Limits, st: State, a: Action, t: nat, pool: seq<Id>, n: nat)
    requires Enabled(st, a) && LookedAt(st, t, pool, n) && a.t != t
    ensures LookedAt(Next(lim, st, a), t, pool, n)
  {
  }

  lemma {:induction false} LookedRun(lim: Limits, st: State, run: seq<Action>, end: State, t: nat, pool: seq<Id>, n: nat)
    requires Reaches(lim, st, run, end) && LookedAt(st, t, pool, n)
    requires forall i :: 0 <= i < |run| && run[i].t == t ==> run[i].Scan? || run[i].ScanEnd?
    ensures LookedAt(end, t, pool, n) && Answers(run, t) == []
    decreases |run|
  {
    if run != [] {
      LookedStep(lim, st, run[0], t, pool, n);
      hide Next, Enabled, LookedAt;
      LookedRun(lim, Next(lim, st, run[0]), run[1..], end, t, pool, n);
    }
  }

  /** With these answers from connection n on: the first one found usable, and none of those
      before it; or none at all. */
  ghost predicate FoundFirst(pool: seq<Id>, n: nat, seen: seq<bool>, th: Thread) {
    && n + |seen| <= |pool|
    && (true in seen ==>
          && seen[|seen| - 1] && (forall i :: 0 <= i < |seen| - 1 ==> !seen[i])
          && th == Checking(pool[..n + |seen| - 1], Some(pool[n + |seen| - 1])))
    && (true !in seen ==> n + |seen| == |pool| && th == Checking(pool, None))
  }

  lemma FoundLater(pool: seq<Id>, n: nat, seen: seq<bool>, th: Thread)
    requires FoundFirst(pool, n + 1, seen, th)
    ensures FoundFirst(pool, n, [false] + seen, th)
  {
    if true in [false] + seen {
      assert true in seen;
    }
  }

  lemma FoundHere(pool: seq<Id>, n: nat, th: Thread)
    requires n < |pool| && th == Checking(pool[..n], Some(pool[n]))
    ensures FoundFirst(pool, n, [true], th)
  {
  }

  lemma FoundNone(pool: seq<Id>, th: Thread)
    requires th == Checking(pool[..|pool|], None)
    ensures FoundFirst(pool, |pool|, [], th)
  {
    assert pool[..|pool|] == pool;
  }

  lemma LookedIs(st: State, t: nat, pool: seq<Id>, n: nat)
    requires LookedAt(st, t, pool, n)
    ensures t < |st.threads| && n <= |pool|
    ensures st.threads[t] == Checking(pool[..n], if n < |pool| then Some(pool[n]) else None)
  {
  }

  lemma NotYet(st: State, t: nat, pool: seq<Id>, n: nat)
    requires LookingAt(st, t, pool, n)
    ensures t < |st.threads| && !st.threads[t].Checking? && n <= |pool|
  {
  }

  /** Whatever the others do meanwhile: a caller gets the first pooled connection found usable,
      and those before it are taken off; if there is none, all are taken off and it has to
      connect. */
  lemma {:induction false} FirstUsable(lim: Limits, st: State, run: seq<Action>, end: State, t: nat, pool: seq<Id>, n: nat)
    requires Inv(lim, st) && Reaches(lim, st, run, end) && LookingAt(st, t, pool, n)
    requires forall i :: 0 <= i < |run| && run[i].t == t ==> run[i].Scan? || run[i].ScanEnd?
    requires t < |end.threads| && end.threads[t].Checking?
    ensures FoundFirst(pool, n, Answers(run, t), end.threads[t])
    decreases |run|
  {
    hide Inv, Next, Enabled, LookingAt, LookedAt, FoundFirst;
    NotYet(st, t, pool, n);
    if run != [] {
      var a, next := run[0], Next(lim, st, run[0]);
      LookingStep(lim, st, a, t, pool, n);
      InvOne(lim, st, a);
      if a.t != t {
        FirstUsable(lim, next, run[1..], end, t, pool, n);
        assert [] + Answers(run[1..], t) == Answers(run[1..], t);
      } else if a.Scan? && !a.usable {
        FirstUsable(lim, next, run[1..], end, t, pool, n + 1);
        FoundLater(pool, n, Answers(run[1..], t), end.threads[t]);
      } else {
        LookedRun(lim, next, run[1..], end, t, pool, n);
        LookedIs(end, t, pool, n);
        if a.Scan? {
          FoundHere(pool, n, end.threads[t]);
          assert [true] + Answers(run[1..], t) == [true];
        } else {
          FoundNone(pool, end.threads[t]);
        }
      }
    }
  }

  lemma InvOne(lim: Limits, st: State, a: Action)
    requires Inv(lim, st) && Enabled(st, a)
    ensures Inv(lim, Next(lim, st, a))
  {
    hide TotalOk, PoolOk, ConnsOk, ThreadsOk, Next, Enabled;
    if IsGet(a) {
      TotalGet(lim, st, a);
    } else {
      TotalRelease(lim, st, a);
    }
    PoolStep(lim, st, a);
    ConnsStep(lim, st, a);
    ThreadsStep(lim, st, a);
  }

  lemma ReachesOne(lim: Limits, st: State, a: Action, run: seq<Action>, end: State)
    requires Enabled(st, a) && Reaches(lim, Next(lim, st, a), run, end)
    ensures Reaches(lim, st, [a] + run, end)
  {
    assert ([a] + run)[1..] == run;
    hide Enabled, Next;
  }

  /** A caller that has found a connection borrows it; one that has not borrows a new one, if it
      can connect. What it has taken off the pool is no longer counted. */
  lemma Obtained(lim: Limits, st: State, t: nat, connects: bool) returns (run: seq<Action>, end: State)
    requires Inv(lim, st) && t < |st.threads| && st.threads[t].Checking?
    ensures Reaches(lim, st, run, end) && end.pool == st.pool && end.threads == st.threads[t := Idle]
    ensures var off, ptr := |st.threads[t].invalid|, st.threads[t].ptr;
      if ptr.Some? then
        && ptr.value < |st.conns| && end.total == st.total - off
        && end.conns == st.conns[ptr.value := st.conns[ptr.value].(loc := Borrowed)]
      else if connects then
        && end.total == st.total - off + 1 && end.conns == st.conns + [Conn(Borrowed, false, 0, 1)]
      else end.total == st.total - off && end.conns == st.conns
  {
    InvalidWithinTotal(lim, st, t);
    assert ThreadOk(lim, st, t, st.threads[t]);
    hide Inv;
    var ptr := st.threads[t].ptr;
    var s1 := Next(lim, st, Check(t));
    var s2 := Next(lim, s1, Subtract(t));
    if ptr.Some? {
      run, end := [], s2;
      assert Reaches(lim, end, [], end);
    } else {
      run, end := Connected(lim, s2, t, connects);
    }
    ReachesOne(lim, s1, Subtract(t), run, end);
    ReachesOne(lim, st, Check(t), [Subtract(t)] + run, end);
    run := [Check(t)] + ([Subtract(t)] + run);
  }

  lemma Connected(lim: Limits, st: State, t: nat, connects: bool) returns (run: seq<Action>, end: State)
    requires t < |st.threads| && st.threads[t] == Connecting
    ensures Reaches(lim, st, run, end)
    ensures end == if connects
      then st.(conns := st.conns + [Conn(Borrowed, false, 0, 1)], total := st.total + 1, threads := st.threads[t := Idle])
      else st.(threads := st.threads[t := Idle])
  {
    var s1 := Next(lim, st, Connect(t, connects));
    if connects {
      end := Next(lim, s1, Add(t));
      assert Reaches(lim, end, [], end);
      ReachesOne(lim, s1, Add(t), [], end);
      run := [Add(t)] + [];
    } else {
      run, end := [], s1;
      assert Reaches(lim, end, [], end);
    }
    ReachesOne(lim, st, Connect(t, connects), run, end);
    run := [Connect(t, connects)] + run;
  }

  // ---------- what becomes of a connection that comes back ----------

  /** A caller that returns a connection and is not disturbed: it goes to the end of the pool if
      it is still good, has not served maxRequest requests and there is room; otherwise it is
      deleted and no longer counted. */
  lemma Returned(lim: Limits, st: State, t: nat, id: Id, keep: bool) returns (run: seq<Action>, end: State)
    requires st.lock == None && Enabled(st, Release(t, id))
    ensures Reaches(lim, st, run, end) && end.threads == st.threads && id < |end.conns| == |st.conns|
    ensures end.conns[id].requests == st.conns[id].requests + 1
    ensures if keep && st.conns[id].requests + 1 < lim.maxRequest && |st.pool| < lim.maxSize
      then end.pool == st.pool + [id] && end.total == st.total && end.conns[id].loc == InPool && !end.conns[id].busy
      else end.pool == st.pool && end.total == st.total - 1 && end.conns[id].loc == Removed
    ensures forall other :: 0 <= other < |st.conns| && other != id ==> end.conns[other] == st.conns[other]
  {
    var s1, s2, s3 := Judged(lim, st, t, id, keep);
    hide Next, Enabled;
    var c := st.conns[id];
    if keep && c.requests + 1 < lim.maxRequest {
      run, end := BackInPool(lim, s3, t, id);
    } else {
      run, end := Gone(lim, s3, t, id);
    }
    ReachesOne(lim, s2, Judge(t, keep), run, end);
    ReachesOne(lim, s1, CountRequest(t), [Judge(t, keep)] + run, end);
    ReachesOne(lim, st, Release(t, id), [CountRequest(t)] + ([Judge(t, keep)] + run), end);
    run := [Release(t, id)] + ([CountRequest(t)] + ([Judge(t, keep)] + run));
  }

  lemma Judged(lim: Limits, st: State, t: nat, id: Id, keep: bool) returns (s1: State, s2: State, s3: State)
    requires Enabled(st, Release(t, id))
    ensures s1 == Next(lim, st, Release(t, id)) && Enabled(s1, CountRequest(t)) && s2 == Next(lim, s1, CountRequest(t))
    ensures Enabled(s2, Judge(t, keep)) && s3 == Next(lim, s2, Judge(t, keep))
    ensures t < |st.threads| && st.threads[t] == Idle && id < |st.conns| && s3.threads[t := Idle] == st.threads
    ensures |s3.threads| == |st.threads| && s3.pool == st.pool && s3.total == st.total && s3.lock == st.lock
    ensures s3.conns == st.conns[id := st.conns[id].(loc := Held(t), requests := st.conns[id].requests + 1)]
    ensures s3.threads[t] == if keep && st.conns[id].requests + 1 < lim.maxRequest then Resetting(id) else Deleting(id)
  {
    s1 := Next(lim, st, Release(t, id));
    s2 := Next(lim, s1, CountRequest(t));
    s3 := Next(lim, s2, Judge(t, keep));
  }

  lemma BackInPool(lim: Limits, st: State, t: nat, id: Id) returns (run: seq<Action>, end: State)
    requires st.lock == None && t < |st.threads| && st.threads[t] == Resetting(id) && id < |st.conns|
    ensures Reaches(lim, st, run, end)
    ensures end == if |st.pool| < lim.maxSize
      then st.(conns := st.conns[id := st.conns[id].(busy := false, loc := InPool)], threads := st.threads[t := Idle],
               pool := st.pool + [id])
      else st.(conns := st.conns[id := st.conns[id].(busy := false, loc := Removed)], threads := st.threads[t := Idle],
               total := st.total - 1)
  {
    var s1 := Next(lim, st, Reset(t));
    var s2 := Next(lim, s1, Park(t));
    if |st.pool| < lim.maxSize {
      run, end := [], s2;
      assert Reaches(lim, end, [], end);
    } else {
      run, end := Gone(lim, s2, t, id);
    }
    ReachesOne(lim, s1, Park(t), run, end);
    ReachesOne(lim, st, Reset(t), [Park(t)] + run, end);
    run := [Reset(t)] + ([Park(t)] + run);
  }

  lemma Gone(lim: Limits, st: State, t: nat, id: Id) returns (run: seq<Action>, end: State)
    requires t < |st.threads| && st.threads[t] == Deleting(id) && id < |st.conns|
    ensures Reaches(lim, st, run, end)
    ensures end == st.(conns := st.conns[id := st.conns[id].(loc := Removed)], threads := st.threads[t := Idle], total := st.total - 1)
  {
    var s1 := Next(lim, st, Delete(t));
    end := Next(lim, s1, Uncount(t));
    assert Reaches(lim, end, [], end);
    ReachesOne(lim, s1, Uncount(t), [], end);
    ReachesOne(lim, st, Delete(t), [Uncount(t)] + [], end);
    run := [Delete(t)] + ([Uncount(t)] + []);
  }
}
