/** Shard locks: single-shard commands beside commands that lock two shards. */
module Locks {
  import opened Keyspace
  import opened Tally

  /** A shard's lock is numbered by database and shard. */
  datatype Request = Request(lock: nat, write: bool)

  datatype Command =
    | OneShard(db: nat, key: string, write: bool)
    | TwoShards(db: nat, source: string, target: string)

  function LockOf(hash: string -> nat, db: nat, key: string): nat {
    db * SHARD_COUNT + ShardIndex(hash, key)
  }

  /** What SMOVE, RENAME, RENAMENX, RPOPLPUSH and LPOPRPUSH lock: nothing for equal names,
      one shard once, two shards from the lower to the higher. */
  function Plan(hash: string -> nat, c: Command): seq<Request> {
    match c
    case OneShard(db, key, write) => [Request(LockOf(hash, db, key), write)]
    case TwoShards(db, source, target) =>
      if source == target then []
      else
        var a, b := ShardIndex(hash, source), ShardIndex(hash, target);
        var first, second := if a > b then b else a, if a > b then a else b;
        [Request(db * SHARD_COUNT + first, true)]
        + (if a != b then [Request(db * SHARD_COUNT + second, true)] else [])
  }

  /** Two names are under the same lock exactly when they share database and shard. */
  lemma SameLockIff(hash: string -> nat, db: nat, key: string, db': nat, key': string)
    ensures LockOf(hash, db, key) == LockOf(hash, db', key')
       <==> db == db' && ShardIndex(hash, key) == ShardIndex(hash, key')
  {
    hide ShardIndex;
    var a: int, b: int := ShardIndex(hash, key), ShardIndex(hash, key');
    var d: int, d': int := db, db';
    assert (d * SHARD_COUNT + a) - (d' * SHARD_COUNT + b) == (d - d') * SHARD_COUNT + (a - b);
  }

  predicate Increasing(s: seq<Request>) {
    forall i, j :: 0 <= i < j < |s| ==> s[i].lock < s[j].lock
  }

  /** Every plan covers the shards of all its names, in increasing order. */
  lemma PlanOrdered(hash: string -> nat, c: Command)
    ensures Increasing(Plan(hash, c))
    ensures c.OneShard? ==> Request(LockOf(hash, c.db, c.key), c.write) in Plan(hash, c)
    ensures c.TwoShards? && c.source != c.target ==>
      && Request(LockOf(hash, c.db, c.source), true) in Plan(hash, c)
      && Request(LockOf(hash, c.db, c.target), true) in Plan(hash, c)
    ensures forall r :: r in Plan(hash, c) ==>
      if c.OneShard? then r == Request(LockOf(hash, c.db, c.key), c.write)
      else r.write && c.source != c.target && (r.lock == LockOf(hash, c.db, c.source) || r.lock == LockOf(hash, c.db, c.target))
  {
    hide ShardIndex;
  }

  // ---------- threads ----------

  datatype Thread = Thread(held: seq<Request>, todo: seq<Request>)

  const IDLE := Thread([], [])

  type State = seq<Thread>

  datatype Action = Begin(t: nat, c: Command) | Acquire(t: nat) | Release(t: nat)

  predicate Conflict(a: Request, b: Request) {
    a.lock == b.lock && (a.write || b.write)
  }

  /** A lock is granted when no other holder is in the way, and to a reader only when no
      writer is waiting for it; a shared_mutex may be more generous to readers. */
  predicate Free(st: State, t: nat, r: Request) {
    && (forall u, i :: 0 <= u < |st| && u != t && 0 <= i < |st[u].held| ==> !Conflict(st[u].held[i], r))
    && (!r.write ==> forall u :: 0 <= u < |st| && st[u].todo != [] ==> st[u].todo[0] != Request(r.lock, true))
  }

  predicate Enabled(st: State, a: Action) {
    a.t < |st| &&
    match a
    case Begin(t, _) => st[t] == IDLE
    case Acquire(t) => st[t].todo != [] && Free(st, t, st[t].todo[0])
    case Release(t) => st[t].todo == [] && st[t].held != []
  }

  /** Locks are given back one at a time, the last one first. */
  function Next(hash: string -> nat, st: State, a: Action): State
    requires Enabled(st, a)
  {
    var th := st[a.t];
    match a
    case Begin(t, c) => st[t := Thread([], Plan(hash, c))]
    case Acquire(t) => st[t := Thread(th.held + [th.todo[0]], th.todo[1..])]
    case Release(t) => st[t := Thread(th.held[..|th.held| - 1], [])]
  }

  ghost predicate Reaches(hash: string -> nat, st: State, run: seq<Action>, end: State)
    decreases |run|
  {
    if run == [] then st == end else Enabled(st, run[0]) && Reaches(hash, Next(hash, st, run[0]), run[1..], end)
  }

  ghost predicate Exclusive(st: State) {
    forall t, u, i, j :: 0 <= t < u < |st| && 0 <= i < |st[t].held| && 0 <= j < |st[u].held| ==>
      !Conflict(st[t].held[i], st[u].held[j])
  }

  ghost predicate Inv(st: State) {
    Exclusive(st) && forall t :: 0 <= t < |st| ==> Increasing(st[t].held + st[t].todo)
  }

  lemma OrderStep(hash: string -> nat, st: State, a: Action)
    requires Enabled(st, a) && Inv(st)
    ensures forall t :: 0 <= t < |st| ==> Increasing(Next(hash, st, a)[t].held + Next(hash, st, a)[t].todo)
  {
    hide Plan, Free, Exclusive;
    var th := st[a.t];
    assert Increasing(th.held + th.todo);
    match a
    case Begin(t, c) =>
      PlanOrdered(hash, c);
      assert [] + Plan(hash, c) == Plan(hash, c);
    case Acquire(t) => assert th.held + [th.todo[0]] + th.todo[1..] == th.held + th.todo;
    case Release(t) =>
      var n := |th.held| - 1;
      assert th.held[..n] + [] == (th.held + th.todo)[..n];
  }

  lemma ExclusiveStep(hash: string -> nat, st: State, a: Action)
    requires Enabled(st, a) && Exclusive(st)
    ensures Exclusive(Next(hash, st, a))
  {
    hide Plan;
  }

  lemma {:induction false} InvRun(hash: string -> nat, st: State, run: seq<Action>, end: State)
    requires Inv(st) && Reaches(hash, st, run, end)
    ensures Inv(end) && |end| == |st|
    decreases |run|
  {
    if run != [] {
      OrderStep(hash, st, run[0]);
      ExclusiveStep(hash, st, run[0]);
      hide Exclusive, Increasing, Enabled;
      InvRun(hash, Next(hash, st, run[0]), run[1..], end);
    }
  }

  // ---------- no deadlock ----------

  ghost predicate Waiting(st: State, t: nat) {
    t < |st| && st[t].todo != []
  }

  /** A waiting thread whose lock has the highest number of all that are waited for. */
  ghost predicate Highest(st: State, t: nat) {
    Waiting(st, t) && forall u: nat :: Waiting(st, u) ==> st[u].todo[0].lock <= st[t].todo[0].lock
  }

  lemma {:induction false} FindHighest(st: State, n: nat, t: nat) returns (top: nat)
    requires n <= |st| && Waiting(st, t)
    ensures Waiting(st, top) && st[top].todo[0].lock >= st[t].todo[0].lock
    ensures forall u :: 0 <= u < n && Waiting(st, u) ==> st[u].todo[0].lock <= st[top].todo[0].lock
  {
    if n == 0 {
      top := t;
    } else {
      top := FindHighest(st, n - 1, t);
      if Waiting(st, n - 1) && st[n - 1].todo[0].lock > st[top].todo[0].lock {
        top := n - 1;
      }
    }
  }

  /** Nobody holds the highest lock waited for: its holder would be waiting for a higher one. */
  lemma HighestUnheld(st: State, t: nat, u: nat, i: nat)
    requires Inv(st) && Highest(st, t) && Waiting(st, u) && i < |st[u].held|
    ensures st[u].held[i].lock < st[t].todo[0].lock
  {
    hide Exclusive;
    var s := st[u].held + st[u].todo;
    assert Increasing(s);
    assert s[i] == st[u].held[i] && s[|st[u].held|] == st[u].todo[0];
  }

  /** In every state in which some thread is not idle, some thread can take a lock or give
      one back. */
  lemma SomeoneSteps(st: State, t: nat) returns (a: Action)
    requires Inv(st) && t < |st| && st[t] != IDLE
    ensures Enabled(st, a) && !a.Begin?
  {
    if u :| 0 <= u < |st| && st[u].todo == [] && st[u].held != [] {
      a := Release(u);
    } else {
      hide Exclusive, Conflict;
      assert Waiting(st, t);
      var top := FindHighest(st, |st|, t);
      var m := st[top].todo[0].lock;
      forall u, i | 0 <= u < |st| && 0 <= i < |st[u].held|
        ensures st[u].held[i].lock < m
      {
        assert Waiting(st, u);
        HighestUnheld(st, top, u, i);
      }
      var w := TopOrWriter(st, top, m);
      a := Acquire(w);
    }
  }

  /** With nobody holding lock m, a waiting writer gets it, and otherwise any waiting reader. */
  lemma TopOrWriter(st: State, top: nat, m: nat) returns (w: nat)
    requires Waiting(st, top) && st[top].todo[0].lock == m
    requires forall u, i :: 0 <= u < |st| && 0 <= i < |st[u].held| ==> st[u].held[i].lock < m
    ensures Waiting(st, w) && Free(st, w, st[w].todo[0])
  {
    if u :| 0 <= u < |st| && st[u].todo != [] && st[u].todo[0] == Request(m, true) {
      w := u;
    } else {
      w := top;
    }
  }

  /** Any mix of these commands, in any interleaving, cannot deadlock, and conflicting locks
      are never held together. */
  lemma NoDeadlock(hash: string -> nat, threads: nat, run: seq<Action>, end: State)
    requires Reaches(hash, seq(threads, _ => IDLE), run, end)
    ensures Exclusive(end)
    ensures (exists t :: 0 <= t < |end| && end[t] != IDLE) ==> exists a :: Enabled(end, a) && !a.Begin?
  {
    var start := seq(threads, _ => IDLE);
    assert Inv(start);
    InvRun(hash, start, run, end);
    hide Reaches;
    if t :| 0 <= t < |end| && end[t] != IDLE {
      var a := SomeoneSteps(end, t);
    }
  }

  // ---------- what a command holds while it works ----------

  /** Thread t goes on with its command: it takes locks, and the others do what they do. */
  ghost predicate GoesOn(run: seq<Action>, t: nat) {
    forall i :: 0 <= i < |run| && run[i].t == t ==> run[i].Acquire?
  }

  lemma {:induction false} PlanKept(hash: string -> nat, st: State, run: seq<Action>, end: State, t: nat, plan: seq<Request>)
    requires Reaches(hash, st, run, end) && GoesOn(run, t) && t < |st| && st[t].held + st[t].todo == plan
    ensures t < |end| && end[t].held + end[t].todo == plan
    decreases |run|
  {
    if run != [] {
      var next := Next(hash, st, run[0]);
      if run[0].t == t {
        assert st[t].held + [st[t].todo[0]] + st[t].todo[1..] == st[t].held + st[t].todo;
      }
      hide Next, Enabled;
      PlanKept(hash, next, run[1..], end, t, plan);
    }
  }

  /** From its beginning until it gives back the first lock, a command has taken a front part of
      its locks and waits for the next; when it waits for none, it holds them all. */
  lemma HoldsPlan(hash: string -> nat, st: State, t: nat, c: Command, run: seq<Action>, end: State)
    requires Enabled(st, Begin(t, c)) && Reaches(hash, Next(hash, st, Begin(t, c)), run, end) && GoesOn(run, t)
    ensures t < |end| && end[t].held + end[t].todo == Plan(hash, c)
    ensures end[t].todo == [] ==> end[t].held == Plan(hash, c)
  {
    hide Plan;
    assert [] + Plan(hash, c) == Plan(hash, c);
    PlanKept(hash, Next(hash, st, Begin(t, c)), run, end, t, Plan(hash, c));
  }

  /** So two commands never work at once on a shard that one of them writes. */
  lemma NeverTogether(hash: string -> nat, st: State, t: nat, u: nat, c: Command, d: Command)
    requires Exclusive(st) && t < |st| && u < |st| && t != u
    requires st[t].held == Plan(hash, c) && st[u].held == Plan(hash, d)
    ensures forall a, b :: a in Plan(hash, c) && b in Plan(hash, d) ==> !Conflict(a, b)
  {
    hide Plan;
    forall a, b | a in Plan(hash, c) && b in Plan(hash, d)
      ensures !Conflict(a, b)
    {
      var i :| 0 <= i < |st[t].held| && st[t].held[i] == a;
      var j :| 0 <= j < |st[u].held| && st[u].held[j] == b;
      assert !Conflict(if t < u then st[t].held[i] else st[u].held[j], if t < u then st[u].held[j] else st[t].held[i]);
    }
  }

  // ---------- every command comes to its end ----------

  function Ahead(th: Thread): int {
    2 * |th.todo| + |th.held|
  }

  ghost function Left(st: State): nat {
    SumBounds(st, Ahead);
    Sum(st, Ahead)
  }

  lemma FinishStep(hash: string -> nat, st: State, a: Action)
    requires Inv(st) && Enabled(st, a) && !a.Begin?
    ensures Inv(Next(hash, st, a)) && |Next(hash, st, a)| == |st|
    ensures Left(Next(hash, st, a)) < Left(st)
  {
    OrderStep(hash, st, a);
    ExclusiveStep(hash, st, a);
    hide Exclusive, Increasing, Sum, Free;
    SumUpdate(st, a.t, Next(hash, st, a)[a.t], Ahead);
  }

  /** From every reachable state, if no new command begins, every command can come to its end. */
  lemma {:induction false} AllFinish(hash: string -> nat, st: State) returns (run: seq<Action>, end: State)
    requires Inv(st)
    ensures Reaches(hash, st, run, end) && |end| == |st| && forall t :: 0 <= t < |end| ==> end[t] == IDLE
    ensures forall i :: 0 <= i < |run| ==> !run[i].Begin?
    decreases Left(st)
  {
    hide Inv, Enabled, Next, Left;
    if t: nat :| t < |st| && st[t] != IDLE {
      var a := SomeoneSteps(st, t);
      FinishStep(hash, st, a);
      run, end := AllFinish(hash, Next(hash, st, a));
      assert ([a] + run)[1..] == run;
      run := [a] + run;
    } else {
      run, end := [], st;
    }
  }
}
