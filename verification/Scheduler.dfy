/** The work-stealing scheduler: local deques, a global deque, and workers that take from
    both and steal from each other. */
module Scheduler {
  import opened Text
  import opened Tally

  /** Callbacks are numbered in the order they are accepted. */
  type Id = nat

  const MAX_ATTEMPTS := 3

  datatype Worker =
    | TryLocal
    | TryGlobal
    | Stealing(attempts: nat)
    | Got(id: Id)
    | Executing(id: Id)
    | NoTask
    | Exited

  datatype State = State(
    local: seq<seq<Id>>, localPending: seq<int>,
    shared: seq<Id>, pending: int,
    running: int, stopping: bool, accepted: nat,
    workers: seq<Worker>,
    /** What drainLocalQueue has taken out and not put back yet. */
    drained: seq<seq<Id>>,
    executed: seq<Id>)

  // ---------- the steps ----------

  /** owns: the attempt to lock the victim's deque succeeded. */
  datatype Action =
    | Submit(target: Option<nat>)
    | Stop
    | TakeLocal(w: nat)
    | TakeShared(w: nat)
    | Steal(w: nat, victim: nat, owns: bool)
    | Begin(w: nat)
    | End(w: nat)
    | Rest(w: nat)
    | DrainOut(i: nat)
    | DrainIn(k: nat)

  predicate Enabled(st: State, a: Action) {
    && |st.local| == |st.localPending| == |st.workers|
    && match a
      case Submit(target) => target.Some? ==> target.value < |st.local|
      case Stop => true
      case TakeLocal(w) => w < |st.workers| && st.workers[w] == TryLocal
      case TakeShared(w) => w < |st.workers| && st.workers[w] == TryGlobal
      case Steal(w, victim, _) => w < |st.workers| && st.workers[w].Stealing? && victim < |st.local|
      case Begin(w) => w < |st.workers| && st.workers[w].Got?
      case End(w) => w < |st.workers| && st.workers[w].Executing?
      case Rest(w) => w < |st.workers| && st.workers[w] == NoTask
      case DrainOut(i) => i < |st.local|
      case DrainIn(k) => k < |st.drained|
  }

  function Become(st: State, w: nat, worker: Worker): State
    requires w < |st.workers|
  {
    st.(workers := st.workers[w := worker])
  }

  function SetLocal(st: State, i: nat, q: seq<Id>, change: int): State
    requires i < |st.local| && i < |st.localPending|
  {
    st.(local := st.local[i := q], localPending := st.localPending[i := st.localPending[i] + change])
  }

  function Next(st: State, a: Action): State
    requires Enabled(st, a)
  {
    match a
    case Submit(target) =>
      if st.stopping then st
      else
        var st' := st.(accepted := st.accepted + 1);
        if target.Some? then SetLocal(st', target.value, st.local[target.value] + [st.accepted], 1)
        else st'.(shared := st.shared + [st.accepted], pending := st.pending + 1)
    case Stop => st.(stopping := true)
    case TakeLocal(w) =>
      var q := st.local[w];
      if q == [] then Become(st, w, TryGlobal)
      else Become(SetLocal(st, w, q[1..], -1), w, Got(q[0]))
    case TakeShared(w) =>
      if st.shared == [] then Become(st, w, if |st.workers| <= 1 then NoTask else Stealing(0))
      else Become(st.(shared := st.shared[1..], pending := st.pending - 1), w, Got(st.shared[0]))
    case Steal(w, victim, owns) =>
      var q := st.local[victim];
      if victim != w && owns && q != []
      then Become(SetLocal(st, victim, q[..|q| - 1], -1), w, Got(q[|q| - 1]))
      else
        var n := st.workers[w].attempts + 1;
        Become(st, w, if n < MAX_ATTEMPTS then Stealing(n) else NoTask)
    case Begin(w) => Become(st.(running := st.running + 1), w, Executing(st.workers[w].id))
    case End(w) =>
      Become(st.(running := st.running - 1, executed := st.executed + [st.workers[w].id]), w, TryLocal)
    case Rest(w) => Become(st, w, if st.stopping then Exited else TryLocal)
    case DrainOut(i) => SetLocal(st, i, [], -|st.local[i]|).(drained := st.drained + [st.local[i]])
    case DrainIn(k) =>
      st.(shared := st.shared + st.drained[k], pending := st.pending + |st.drained[k]|, drained := st.drained[k := []])
  }

  function Start(threads: nat): State {
    State(seq(threads, _ => []), seq(threads, _ => 0), [], 0, 0, false, 0, seq(threads, _ => TryLocal), [], [])
  }

  ghost predicate Reaches(st: State, run: seq<Action>, end: State)
    decreases |run|
  {
    if run == [] then st == end else Enabled(st, run[0]) && Reaches(Next(st, run[0]), run[1..], end)
  }

  // ---------- where a callback is ----------

  function OccursIn(id: Id): seq<Id> -> int {
    (s: seq<Id>) => Occurs(s, id)
  }

  function InHand(id: Id): Worker -> int {
    (w: Worker) => if (w.Got? || w.Executing?) && w.id == id then 1 else 0
  }

  /** How often the callback is found anywhere. */
  function Places(st: State, id: Id): int {
    Sum(st.local, OccursIn(id)) + Occurs(st.shared, id) + Sum(st.workers, InHand(id))
    + Sum(st.drained, OccursIn(id)) + Occurs(st.executed, id)
  }

  ghost predicate Conserved(st: State) {
    forall id: Id :: Places(st, id) == if id < st.accepted then 1 else 0
  }

  function IsExecuting(w: Worker): int {
    if w.Executing? then 1 else 0
  }

  ghost predicate CountersOk(st: State) {
    && |st.local| == |st.localPending| == |st.workers|
    && st.pending == |st.shared|
    && (forall i :: 0 <= i < |st.local| ==> st.localPending[i] == |st.local[i]|)
    && st.running == Sum(st.workers, IsExecuting)
  }

  lemma CountersStep(st: State, a: Action)
    requires Enabled(st, a) && CountersOk(st)
    ensures CountersOk(Next(st, a))
  {
    hide Sum;
    var next := Next(st, a);
    if a.TakeLocal? || a.TakeShared? || a.Steal? || a.Begin? || a.End? || a.Rest? {
      SumUpdate(st.workers, a.w, next.workers[a.w], IsExecuting);
    }
  }

  /** A deque of some worker and a worker's hands change. */
  lemma LocalChange(st: State, i: nat, q: seq<Id>, w: nat, worker: Worker, id: Id)
    requires i < |st.local| && w < |st.workers|
    ensures Sum(st.local[i := q], OccursIn(id)) == Sum(st.local, OccursIn(id)) - Occurs(st.local[i], id) + Occurs(q, id)
    ensures Sum(st.workers[w := worker], InHand(id))
         == Sum(st.workers, InHand(id)) - InHand(id)(st.workers[w]) + InHand(id)(worker)
  {
    SumUpdate(st.local, i, q, OccursIn(id));
    SumUpdate(st.workers, w, worker, InHand(id));
  }

  lemma TakeKeeps(st: State, a: Action, id: Id)
    requires Enabled(st, a) && (a.TakeLocal? || a.TakeShared? || a.Steal?)
    ensures Places(Next(st, a), id) == Places(st, id)
  {
    hide Sum, Occurs;
    var next := Next(st, a);
    match a
    case TakeLocal(w) =>
      var q := st.local[w];
      LocalChange(st, w, next.local[w], w, next.workers[w], id);
      if q != [] {
        assert q == [q[0]] + q[1..];
        OccursConcat([q[0]], q[1..], id);
        OccursOne(q[0], id);
      } else {
        assert st.local[w := q] == st.local;
      }
    case TakeShared(w) =>
      SumUpdate(st.workers, w, next.workers[w], InHand(id));
      var q := st.shared;
      if q != [] {
        assert q == [q[0]] + q[1..];
        OccursConcat([q[0]], q[1..], id);
        OccursOne(q[0], id);
      }
    case Steal(w, victim, owns) =>
      var q := st.local[victim];
      LocalChange(st, victim, next.local[victim], w, next.workers[w], id);
      if q != [] {
        var n := |q| - 1;
        assert q == q[..n] + [q[n]];
        OccursConcat(q[..n], [q[n]], id);
        OccursOne(q[n], id);
      }
      assert st.local[victim := q] == st.local;
  }

  lemma RunKeeps(st: State, a: Action, id: Id)
    requires Enabled(st, a) && (a.Begin? || a.End? || a.Rest? || a.Stop?)
    ensures Places(Next(st, a), id) == Places(st, id)
  {
    hide Sum, Occurs;
    var next := Next(st, a);
    if !a.Stop? {
      SumUpdate(st.workers, a.w, next.workers[a.w], InHand(id));
    }
    if a.End? {
      OccursConcat(st.executed, [st.workers[a.w].id], id);
      OccursOne(st.workers[a.w].id, id);
    }
  }

  lemma DrainKeeps(st: State, a: Action, id: Id)
    requires Enabled(st, a) && (a.DrainOut? || a.DrainIn?)
    ensures Places(Next(st, a), id) == Places(st, id)
  {
    hide Sum, Occurs;
    OccursOne(0, id);
    if a.DrainOut? {
      SumUpdate(st.local, a.i, [], OccursIn(id));
      SumSnoc(st.drained, st.local[a.i], OccursIn(id));
    } else {
      SumUpdate(st.drained, a.k, [], OccursIn(id));
      OccursConcat(st.shared, st.drained[a.k], id);
    }
  }

  lemma SubmitAdds(st: State, target: Option<nat>, id: Id)
    requires Enabled(st, Submit(target)) && !st.stopping
    ensures Places(Next(st, Submit(target)), id) == Places(st, id) + (if id == st.accepted then 1 else 0)
    ensures target.Some? ==> st.accepted in Next(st, Submit(target)).local[target.value]
    ensures target.None? ==> st.accepted in Next(st, Submit(target)).shared
  {
    hide Sum, Occurs;
    OccursOne(st.accepted, id);
    if target.Some? {
      var q := st.local[target.value];
      SumUpdate(st.local, target.value, q + [st.accepted], OccursIn(id));
      OccursConcat(q, [st.accepted], id);
    } else {
      OccursConcat(st.shared, [st.accepted], id);
    }
  }

  lemma ConservedStep(st: State, a: Action)
    requires Enabled(st, a) && Conserved(st)
    ensures Conserved(Next(st, a))
  {
    hide Places;
    var next := Next(st, a);
    forall id: Id
      ensures Places(next, id) == if id < next.accepted then 1 else 0
    {
      assert Places(st, id) == if id < st.accepted then 1 else 0;
      if a.Submit? {
        if !st.stopping {
          SubmitAdds(st, a.target, id);
        }
      } else if a.DrainOut? || a.DrainIn? {
        DrainKeeps(st, a, id);
      } else if a.TakeLocal? || a.TakeShared? || a.Steal? {
        TakeKeeps(st, a, id);
      } else {
        RunKeeps(st, a, id);
      }
    }
  }

  lemma StartOk(threads: nat)
    ensures Conserved(Start(threads)) && CountersOk(Start(threads))
  {
    var st := Start(threads);
    forall id: Id
      ensures Places(st, id) == 0
    {
      SumZero(st.local, OccursIn(id));
      SumZero(st.workers, InHand(id));
    }
    SumZero(st.workers, IsExecuting);
  }

  lemma {:induction false} KeptInRun(st: State, run: seq<Action>, end: State)
    requires Conserved(st) && CountersOk(st) && Reaches(st, run, end)
    ensures Conserved(end) && CountersOk(end)
    decreases |run|
  {
    hide Conserved, CountersOk, Enabled, Next;
    if run != [] {
      ConservedStep(st, run[0]);
      CountersStep(st, run[0]);
      KeptInRun(Next(st, run[0]), run[1..], end);
    }
  }

  // ---------- what every run promises ----------

  /** In every interleaving each accepted callback is at exactly one place, so none runs
      twice and none is lost, and the counters are the lengths. */
  lemma EachExactlyOnce(threads: nat, run: seq<Action>, end: State)
    requires Reaches(Start(threads), run, end)
    ensures forall id: Id :: Places(end, id) == if id < end.accepted then 1 else 0
    ensures forall i, j :: 0 <= i < j < |end.executed| ==> end.executed[i] != end.executed[j]
    ensures forall i :: 0 <= i < |end.executed| ==> end.executed[i] < end.accepted
    ensures CountersOk(end)
  {
    StartOk(threads);
    KeptInRun(Start(threads), run, end);
    hide Reaches, CountersOk;
    forall i | 0 <= i < |end.executed|
      ensures end.executed[i] < end.accepted
      ensures forall j :: i < j < |end.executed| ==> end.executed[i] != end.executed[j]
    {
      ExecutedOnce(end, end.executed[i]);
      forall j | i < j < |end.executed|
        ensures end.executed[i] != end.executed[j]
      {
        OccursTwice(end.executed, i, j);
      }
      OccursThere(end.executed, i);
    }
  }

  lemma ExecutedOnce(st: State, id: Id)
    requires Conserved(st)
    ensures Occurs(st.executed, id) <= (if id < st.accepted then 1 else 0)
  {
    hide Sum, Occurs;
    assert Places(st, id) <= (if id < st.accepted then 1 else 0);
    SumBounds(st.local, OccursIn(id));
    SumBounds(st.workers, InHand(id));
    SumBounds(st.drained, OccursIn(id));
  }

  /** When nothing is queued, drained or in hand, everything accepted has run. */
  lemma AllExecuted(threads: nat, run: seq<Action>, end: State, id: Id)
    requires Reaches(Start(threads), run, end) && id < end.accepted
    requires end.pending == 0 && (forall i :: 0 <= i < |end.localPending| ==> end.localPending[i] == 0)
    requires forall k :: 0 <= k < |end.drained| ==> end.drained[k] == []
    requires forall w :: 0 <= w < |end.workers| ==> !end.workers[w].Got? && !end.workers[w].Executing?
    ensures Occurs(end.executed, id) == 1
  {
    EachExactlyOnce(threads, run, end);
    hide Reaches, Sum, Occurs;
    OccursOne(0, id);
    assert end.shared == [];
    assert forall i :: 0 <= i < |end.local| ==> end.local[i] == [];
    assert Places(end, id) == 1;
    SumZero(end.local, OccursIn(id));
    SumZero(end.workers, InHand(id));
    SumZero(end.drained, OccursIn(id));
  }

  // ---------- what a worker takes next ----------

  lemma ReachesCons(st: State, a: Action, run: seq<Action>, end: State)
    requires Enabled(st, a) && Reaches(Next(st, a), run, end)
    ensures Reaches(st, [a] + run, end)
  {
    assert ([a] + run)[1..] == run;
    hide Enabled, Next;
  }

  /** A worker that ends a callback and is not disturbed: the front of its own deque comes first,
      then the front of the global one, then the back of another worker's. */
  lemma TakesNext(st: State, w: nat, victim: nat) returns (run: seq<Action>, end: State)
    requires Enabled(st, End(w)) && victim < |st.local| && victim != w
    ensures Reaches(st, run, end)
    ensures if st.local[w] != [] then
        end.workers == st.workers[w := Got(st.local[w][0])] && end.local == st.local[w := st.local[w][1..]] && end.shared == st.shared
      else if st.shared != [] then
        end.workers == st.workers[w := Got(st.shared[0])] && end.local == st.local && end.shared == st.shared[1..]
      else if st.local[victim] != [] then
        var n := |st.local[victim]| - 1;
        end.workers == st.workers[w := Got(st.local[victim][n])] && end.local == st.local[victim := st.local[victim][..n]] && end.shared == []
      else end.workers == st.workers[w := Stealing(1)] && end.local == st.local && end.shared == []
  {
    var s1 := Next(st, End(w));
    var s2 := Next(s1, TakeLocal(w));
    if st.local[w] != [] {
      run, end := [], s2;
      assert Reaches(end, [], end);
    } else {
      run, end := PastLocal(s2, w, victim);
    }
    ReachesCons(s1, TakeLocal(w), run, end);
    ReachesCons(st, End(w), [TakeLocal(w)] + run, end);
    run := [End(w)] + ([TakeLocal(w)] + run);
  }

  lemma PastLocal(st: State, w: nat, victim: nat) returns (run: seq<Action>, end: State)
    requires Enabled(st, TakeShared(w)) && victim < |st.local| && victim != w
    ensures Reaches(st, run, end)
    ensures if st.shared != [] then
        end.workers == st.workers[w := Got(st.shared[0])] && end.local == st.local && end.shared == st.shared[1..]
      else if st.local[victim] != [] then
        var n := |st.local[victim]| - 1;
        end.workers == st.workers[w := Got(st.local[victim][n])] && end.local == st.local[victim := st.local[victim][..n]] && end.shared == []
      else end.workers == st.workers[w := Stealing(1)] && end.local == st.local && end.shared == []
  {
    var s1 := Next(st, TakeShared(w));
    if st.shared != [] {
      run, end := [], s1;
      assert Reaches(end, [], end);
    } else {
      end := Next(s1, Steal(w, victim, true));
      assert Reaches(end, [], end);
      ReachesCons(s1, Steal(w, victim, true), [], end);
      run := [Steal(w, victim, true)] + [];
    }
    ReachesCons(st, TakeShared(w), run, end);
    run := [TakeShared(w)] + run;
  }

  /** A thief that finds nothing three times gives up. */
  lemma ThreeAttempts(st: State, w: nat, n: nat, victim: nat)
    requires Enabled(st, Steal(w, victim, true)) && st.workers[w] == Stealing(n) && st.local[victim] == []
    ensures Next(st, Steal(w, victim, true)) == Become(st, w, if n < 2 then Stealing(n + 1) else NoTask)
  {
  }

  /** Callbacks are numbered as they are accepted. A worker's deque is in that order. */
  ghost predicate Ascending(q: seq<Id>, accepted: nat) {
    && (forall i, j :: 0 <= i < j < |q| ==> q[i] < q[j])
    && (forall i :: 0 <= i < |q| ==> q[i] < accepted)
  }

  ghost predicate InOrder(st: State) {
    forall w :: 0 <= w < |st.local| ==> Ascending(st.local[w], st.accepted)
  }

  lemma InOrderStep(st: State, a: Action)
    requires Enabled(st, a) && InOrder(st)
    ensures InOrder(Next(st, a))
  {
  }

  lemma {:induction false} InOrderRun(st: State, run: seq<Action>, end: State)
    requires InOrder(st) && Reaches(st, run, end)
    ensures InOrder(end)
    decreases |run|
  {
    if run != [] {
      InOrderStep(st, run[0]);
      hide InOrder, Enabled, Next;
      InOrderRun(Next(st, run[0]), run[1..], end);
    }
  }

  /** In every reachable state a worker takes the oldest callback of its own deque, and a thief
      the newest. */
  lemma OldestFirst(threads: nat, run: seq<Action>, st: State, a: Action, id: Id)
    requires Reaches(Start(threads), run, st) && Enabled(st, a) && (a.TakeLocal? || a.Steal?)
    requires Next(st, a).workers[a.w].Got?
    ensures var got := Next(st, a).workers[a.w].id;
      && (a.TakeLocal? ==> got in st.local[a.w] && (id in st.local[a.w] ==> got <= id))
      && (a.Steal? ==> a.victim != a.w && got in st.local[a.victim] && (id in st.local[a.victim] ==> id <= got))
  {
    InOrderRun(Start(threads), run, st);
    hide Reaches;
  }

  /** What the workers take from the global deque in a run. */
  ghost function TakenShared(st: State, run: seq<Action>): seq<Id>
    decreases |run|
  {
    if run == [] || !Enabled(st, run[0]) then []
    else
      (if run[0].TakeShared? && st.shared != [] then [Next(st, run[0]).workers[run[0].w].id] else [])
      + TakenShared(Next(st, run[0]), run[1..])
  }

  /** The global deque is served in the order in which it was filled. */
  lemma {:induction false} SharedInOrder(st: State, run: seq<Action>, end: State)
    requires Reaches(st, run, end)
    ensures st.shared <= TakenShared(st, run) + end.shared
    decreases |run|
  {
    if run != [] {
      var next := Next(st, run[0]);
      var taken := if run[0].TakeShared? && st.shared != [] then [next.workers[run[0].w].id] else [];
      SharedStep(st, run[0]);
      hide Enabled, Next;
      SharedInOrder(next, run[1..], end);
      assert taken + (TakenShared(next, run[1..]) + end.shared) == taken + TakenShared(next, run[1..]) + end.shared;
    } else {
      assert [] + end.shared == end.shared;
    }
  }

  lemma SharedStep(st: State, a: Action)
    requires Enabled(st, a)
    ensures a.TakeShared? && st.shared != [] ==>
      a.w < |Next(st, a).workers| && Next(st, a).workers[a.w].Got? && st.shared == [Next(st, a).workers[a.w].id] + Next(st, a).shared
    ensures !(a.TakeShared? && st.shared != []) ==> st.shared <= Next(st, a).shared
  {
  }

  // ---------- everything accepted can still be executed ----------

  /** What a worker does next when it fails to steal. */
  function Onward(st: State, w: nat): Action
    requires w < |st.workers|
  {
    match st.workers[w]
    case TryLocal => TakeLocal(w)
    case TryGlobal => TakeShared(w)
    case Stealing(_) => Steal(w, w, false)
    case Got(_) => Begin(w)
    case Executing(_) => End(w)
    case NoTask => Rest(w)
    case Exited => Stop
  }

  /** How far a worker is from its next take, when there is something to take. */
  function Rank(st: State, w: nat): int
    requires w < |st.workers|
  {
    match st.workers[w]
    case TryGlobal => if st.shared != [] then 1 else 10
    case TryLocal => 2
    case NoTask => 3
    case Stealing(n) => 4 + (if n < MAX_ATTEMPTS then MAX_ATTEMPTS - n else 0)
    case Executing(_) => 11
    case Got(_) => 12
    case Exited => 0
  }

  ghost predicate WithinReach(st: State, w: nat, id: Id) {
    && w < |st.workers| == |st.local| == |st.localPending| && !st.stopping && st.workers[w] != Exited
    && (id in st.local[w] || id in st.shared || InHand(id)(st.workers[w]) == 1)
  }

  lemma OnwardStep(st: State, w: nat, id: Id)
    requires WithinReach(st, w, id)
    ensures Enabled(st, Onward(st, w))
    ensures var next := Next(st, Onward(st, w));
      if st.workers[w] == Executing(id) then id in next.executed
      else
        && WithinReach(next, w, id) && |next.local[w]| + |next.shared| <= |st.local[w]| + |st.shared|
        && (InHand(id)(st.workers[w]) == 1 ==> InHand(id)(next.workers[w]) == 1)
        && (InHand(id)(st.workers[w]) != 1 && InHand(id)(next.workers[w]) != 1 ==>
              |next.local[w]| + |next.shared| < |st.local[w]| + |st.shared| || Rank(next, w) < Rank(st, w))
        && (InHand(id)(st.workers[w]) == 1 ==> Rank(next, w) < Rank(st, w))
  {
    if st.workers[w] == TryLocal && st.local[w] != [] {
      assert st.local[w] == [st.local[w][0]] + st.local[w][1..];
    } else if st.workers[w] == TryGlobal && st.shared != [] {
      assert st.shared == [st.shared[0]] + st.shared[1..];
    }
  }

  lemma RankBound(st: State, w: nat)
    requires w < |st.workers|
    ensures 0 <= Rank(st, w)
  {
  }

  /** One worker alone comes to any callback in its deque or the global one. */
  lemma {:induction false} Drive(st: State, w: nat, id: Id) returns (run: seq<Action>, end: State)
    requires WithinReach(st, w, id)
    ensures Reaches(st, run, end) && id in end.executed
    decreases if InHand(id)(st.workers[w]) == 1 then 0 else 1, |st.local[w]| + |st.shared|, Rank(st, w)
  {
    OnwardStep(st, w, id);
    var next := Next(st, Onward(st, w));
    if st.workers[w] == Executing(id) {
      run, end := [], next;
      assert Reaches(end, [], end);
    } else {
      RankBound(next, w);
      RankBound(st, w);
      hide Next, Enabled, Onward, Rank, InHand;
      run, end := Drive(next, w, id);
    }
    ReachesCons(st, Onward(st, w), run, end);
    run := [Onward(st, w)] + run;
  }

  lemma {:induction false} SumSome<W>(ws: seq<W>, f: W -> int) returns (i: nat)
    requires Sum(ws, f) > 0
    ensures i < |ws| && f(ws[i]) > 0
  {
    if f(ws[0]) > 0 {
      i := 0;
    } else {
      i := SumSome(ws[1..], f);
      i := i + 1;
    }
  }

  ghost predicate Working(st: State) {
    && |st.workers| == |st.local| == |st.localPending| && (!st.stopping ==> forall w :: 0 <= w < |st.workers| ==> st.workers[w] != Exited)
  }

  lemma {:induction false} WorkingRun(st: State, run: seq<Action>, end: State)
    requires Working(st) && Reaches(st, run, end)
    ensures Working(end) && |end.workers| == |st.workers|
    decreases |run|
  {
    if run != [] {
      WorkingStep(st, run[0]);
      hide Working, Enabled, Next;
      WorkingRun(Next(st, run[0]), run[1..], end);
    }
  }

  lemma WorkingStep(st: State, a: Action)
    requires Working(st) && Enabled(st, a)
    ensures Working(Next(st, a)) && |Next(st, a).workers| == |st.workers|
  {
  }

  /** From every reachable state in which the scheduler is not stopping, each accepted callback
      has been executed or comes to be in some continuation. */
  lemma CanBeExecuted(threads: nat, run: seq<Action>, st: State, id: Id) returns (more: seq<Action>, end: State)
    requires threads > 0 && Reaches(Start(threads), run, st) && !st.stopping && id < st.accepted
    ensures Reaches(st, more, end) && id in end.executed
  {
    StartOk(threads);
    KeptInRun(Start(threads), run, st);
    WorkingRun(Start(threads), run, st);
    assert Places(st, id) == 1;
    hide Reaches, Sum, Occurs, Conserved, CountersOk;
    OccursMember(st.executed, id);
    OccursMember(st.shared, id);
    if id in st.executed {
      more, end := [], st;
      NoSteps(st);
    } else if id in st.shared {
      more, end := Drive(st, 0, id);
    } else if Sum(st.workers, InHand(id)) > 0 {
      var w := SumSome(st.workers, InHand(id));
      more, end := Drive(st, w, id);
    } else if Sum(st.local, OccursIn(id)) > 0 {
      var w := SumSome(st.local, OccursIn(id));
      OccursMember(st.local[w], id);
      more, end := Drive(st, w, id);
    } else {
      var k := SumSome(st.drained, OccursIn(id));
      OccursMember(st.drained[k], id);
      more, end := Drive(Next(st, DrainIn(k)), 0, id);
      ReachesCons(st, DrainIn(k), more, end);
      more := [DrainIn(k)] + more;
    }
  }

  lemma NoSteps(st: State)
    ensures Reaches(st, [], st)
  {
  }

  // ---------- after the stop ----------

  /** Nothing is accepted after the stop. */
  lemma {:induction false} AcceptedBeforeStop(st: State, run: seq<Action>, end: State)
    requires Reaches(st, run, end) && (st.stopping || (run != [] && run[0] == Stop))
    ensures end.accepted == st.accepted && (run != [] ==> end.stopping)
    decreases |run|
  {
    if run != [] {
      var next := Next(st, run[0]);
      assert next.stopping && next.accepted == st.accepted;
      hide Next, Enabled;
      AcceptedBeforeStop(next, run[1..], end);
    }
  }

  /** How far a worker that fails to steal is from its exit, between two takes. */
  function ToExit(worker: Worker): int {
    match worker
    case Exited => 0
    case NoTask => 1
    case Stealing(n) => 2 + (if n < MAX_ATTEMPTS then MAX_ATTEMPTS - n else 0)
    case TryGlobal => 6
    case TryLocal => 7
    case Executing(_) => 8
    case Got(_) => 9
  }

  lemma ExitStep(st: State, w: nat)
    requires w < |st.workers| == |st.local| == |st.localPending| && st.stopping && st.workers[w] != Exited
    ensures Enabled(st, Onward(st, w)) && 0 <= ToExit(st.workers[w])
    ensures var next := Next(st, Onward(st, w));
      && w < |next.workers| == |next.local| == |next.localPending| && next.stopping
      && (|next.local[w]| + |next.shared| < |st.local[w]| + |st.shared|
          || (|next.local[w]| + |next.shared| == |st.local[w]| + |st.shared| && ToExit(next.workers[w]) < ToExit(st.workers[w])))
  {
  }

  /** A worker comes to its exit once the scheduler is stopping. */
  lemma {:induction false} CanExit(st: State, w: nat) returns (run: seq<Action>, end: State)
    requires w < |st.workers| == |st.local| == |st.localPending| && st.stopping
    ensures Reaches(st, run, end) && w < |end.workers| && end.workers[w] == Exited
    decreases |st.local[w]| + |st.shared|, ToExit(st.workers[w])
  {
    if st.workers[w] == Exited {
      run, end := [], st;
      NoSteps(st);
    } else {
      ExitStep(st, w);
      hide Next, Enabled, Onward, ToExit;
      run, end := CanExit(Next(st, Onward(st, w)), w);
      ReachesCons(st, Onward(st, w), run, end);
      run := [Onward(st, w)] + run;
    }
  }
}
