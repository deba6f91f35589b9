/** The life of a top-level task: listed as running, completed, finished, destroyed. */
module TaskLife {
  import opened Text
  import opened Tally

  type Id = nat

  /** How far the coroutine has come. Queued: a callback that resumes it has been accepted.
      Dropped: such a callback has been refused. Suspended: it awaits something whose waker is
      a thread without a scheduler (direct) or goes through this one. Released: the flag is
      down again but final_suspend has not returned. */
  datatype Phase =
    | Listed
    | Armed
    | Queued
    | Dropped
    | Active
    | Suspended(direct: bool)
    | Finalizing
    | Completed
    | Released
    | Returned

  datatype Loc = InRunning | InFinished | InBuffer(k: nat) | Gone

  /** foreign: it runs on a thread that is no worker. */
  datatype Task = Task(phase: Phase, loc: Loc, destroyed: nat, foreign: bool)

  datatype Cleaner = Idle | Scanning(pos: nat) | Clearing

  /** `submitting` callers have passed the first test of schedule. Of the workers that execute
      nothing, `looking` are at the top of their loop and `resting` have found nothing to do.
      One cleaner per thread that may call drainFinished, with its to_destroy list. */
  datatype State = State(
    tasks: seq<Task>, running: seq<Id>, finished: seq<Id>, lock: Option<nat>, stopping: bool,
    submitting: nat, looking: nat, resting: nat,
    cleaners: seq<Cleaner>, buffers: seq<seq<Id>>)

  /** The atomic flag the cleaner looks at. */
  predicate FlagSet(phase: Phase) {
    phase == Finalizing || phase == Completed
  }

  // ---------- the steps ----------

  datatype Action =
    | Check
    | Submit
    | Arm(id: Id)
    | Enqueue(id: Id)
    | Stop
    | Resume(id: Id)
    | Suspend(id: Id, direct: bool)
    | Wake(id: Id)
    | RaiseFlag(id: Id)
    | Complete(id: Id)
    | LowerFlag(id: Id)
    | Return(id: Id)
    | FindNone
    | Again
    | Exit
    | Lock(k: nat)
    | Scan(k: nat)
    | Destroy(k: nat)
    | LeaveWait

  predicate In(st: State, id: Id, phase: Phase) {
    id < |st.tasks| && st.tasks[id].phase == phase
  }

  predicate Enabled(st: State, a: Action) {
    && |st.cleaners| == |st.buffers|
    && match a
      case Check => !st.stopping
      case Submit => st.submitting > 0 && st.lock == None
      case Arm(id) => In(st, id, Listed)
      case Enqueue(id) => In(st, id, Armed)
      case Stop => true
      case Resume(id) => In(st, id, Queued) && st.looking > 0
      case Suspend(id, _) => In(st, id, Active)
      case Wake(id) => id < |st.tasks| && st.tasks[id].phase.Suspended?
      case RaiseFlag(id) => In(st, id, Active)
      case Complete(id) => In(st, id, Finalizing) && st.lock == None
      case LowerFlag(id) => In(st, id, Completed)
      case Return(id) => In(st, id, Released)
      case FindNone => st.looking > 0
      case Again => st.resting > 0 && !st.stopping
      case Exit => st.resting > 0 && st.stopping
      case Lock(k) => k < |st.cleaners| && st.cleaners[k] == Idle && st.lock == None
      case Scan(k) =>
        && k < |st.cleaners| && st.cleaners[k].Scanning? && st.lock == Some(k)
        && (st.cleaners[k].pos < |st.finished| ==> st.finished[st.cleaners[k].pos] < |st.tasks|)
      case Destroy(k) =>
        k < |st.cleaners| && st.cleaners[k] == Clearing && (st.buffers[k] != [] ==> st.buffers[k][0] < |st.tasks|)
      case LeaveWait => st.lock == None && st.running == []
  }

  function ToPhase(st: State, id: Id, phase: Phase): State
    requires id < |st.tasks|
  {
    st.(tasks := st.tasks[id := st.tasks[id].(phase := phase)])
  }

  function ToLoc(st: State, id: Id, loc: Loc): State
    requires id < |st.tasks|
  {
    st.(tasks := st.tasks[id := st.tasks[id].(loc := loc)])
  }

  /** The callback finds its task through a weak pointer and does nothing if it is gone. */
  function CompleteTask(st: State, id: Id): State
    requires id < |st.tasks|
  {
    if st.tasks[id].loc == Gone then ToPhase(st, id, Completed)
    else
      st.(tasks := st.tasks[id := st.tasks[id].(phase := Completed, loc := InFinished)],
          finished := st.finished + [id], running := Removed(st.running, id))
  }

  /** The coroutine leaves its thread; a worker goes back to the top of its loop. */
  function Vacate(st: State, id: Id, phase: Phase): State
    requires id < |st.tasks|
  {
    st.(tasks := st.tasks[id := st.tasks[id].(phase := phase, foreign := false)],
        looking := st.looking + (if st.tasks[id].foreign then 0 else 1))
  }

  /** The wake-up runs the coroutine where the waker is, or is a callback like any other. */
  function WakeTask(st: State, id: Id): State
    requires id < |st.tasks| && st.tasks[id].phase.Suspended?
  {
    if st.tasks[id].phase.direct then st.(tasks := st.tasks[id := st.tasks[id].(phase := Active, foreign := true)])
    else ToPhase(st, id, if st.stopping then Dropped else Queued)
  }

  /** One turn of the loop over the finished list: past a task whose flag is up, else off the list. */
  function ScanOne(st: State, k: nat): State
    requires Enabled(st, Scan(k))
  {
    var pos := st.cleaners[k].pos;
    if pos >= |st.finished| then st.(lock := None, cleaners := st.cleaners[k := Clearing])
    else
      var id := st.finished[pos];
      if FlagSet(st.tasks[id].phase) then st.(cleaners := st.cleaners[k := Scanning(pos + 1)])
      else
        ToLoc(st, id, InBuffer(k)).(finished := st.finished[..pos] + st.finished[pos + 1..],
                                    buffers := st.buffers[k := st.buffers[k] + [id]])
  }

  function DestroyOne(st: State, k: nat): State
    requires Enabled(st, Destroy(k))
  {
    if st.buffers[k] == [] then st.(cleaners := st.cleaners[k := Idle])
    else
      var id := st.buffers[k][0];
      st.(tasks := st.tasks[id := st.tasks[id].(loc := Gone, destroyed := st.tasks[id].destroyed + 1)],
          buffers := st.buffers[k := st.buffers[k][1..]])
  }

  function Next(st: State, a: Action): State
    requires Enabled(st, a)
  {
    match a
    case Check => st.(submitting := st.submitting + 1)
    case Submit =>
      st.(tasks := st.tasks + [Task(Listed, InRunning, 0, false)], running := st.running + [|st.tasks|],
          submitting := st.submitting - 1)
    case Arm(id) => ToPhase(st, id, Armed)
    case Enqueue(id) => ToPhase(st, id, if st.stopping then Dropped else Queued)
    case Stop => st.(stopping := true)
    case Resume(id) => ToPhase(st, id, Active).(looking := st.looking - 1)
    case Suspend(id, direct) => Vacate(st, id, Suspended(direct))
    case Wake(id) => WakeTask(st, id)
    case RaiseFlag(id) => ToPhase(st, id, Finalizing)
    case Complete(id) => CompleteTask(st, id)
    case LowerFlag(id) => ToPhase(st, id, Released)
    case Return(id) => Vacate(st, id, Returned)
    case FindNone => st.(looking := st.looking - 1, resting := st.resting + 1)
    case Again => st.(looking := st.looking + 1, resting := st.resting - 1)
    case Exit => st.(resting := st.resting - 1)
    case Lock(k) => st.(lock := Some(k), cleaners := st.cleaners[k := Scanning(0)])
    case Scan(k) => ScanOne(st, k)
    case Destroy(k) => DestroyOne(st, k)
    case LeaveWait => st
  }

  function Start(workers: nat, cleaners: nat): State {
    State([], [], [], None, false, 0, workers, 0, seq(cleaners, _ => Idle), seq(cleaners, _ => []))
  }

  ghost predicate Reaches(st: State, run: seq<Action>, end: State)
    decreases |run|
  {
    if run == [] then st == end else Enabled(st, run[0]) && Reaches(Next(st, run[0]), run[1..], end)
  }

  // ---------- the invariant ----------

  function At(st: State, id: Id, loc: Loc): int {
    if id < |st.tasks| && st.tasks[id].loc == loc then 1 else 0
  }

  /** Each list holds exactly the tasks that belong on it, once. */
  ghost predicate ListsOk(st: State, id: Id) {
    && Occurs(st.running, id) == At(st, id, InRunning)
    && Occurs(st.finished, id) == At(st, id, InFinished)
    && forall k :: 0 <= k < |st.buffers| ==> Occurs(st.buffers[k], id) == At(st, id, InBuffer(k))
  }

  predicate IsComplete(phase: Phase) {
    phase == Completed || phase == Released || phase == Returned
  }

  predicate TaskOk(task: Task, buffers: nat) {
    && (task.loc == InRunning <==> !IsComplete(task.phase))
    && ((task.loc.InBuffer? || task.loc == Gone) ==> !FlagSet(task.phase))
    && (task.loc.InBuffer? ==> task.loc.k < buffers)
    && task.destroyed == (if task.loc == Gone then 1 else 0)
  }

  ghost predicate Inv(st: State) {
    && (forall id: Id :: ListsOk(st, id))
    && (forall id :: 0 <= id < |st.tasks| ==> TaskOk(st.tasks[id], |st.buffers|))
  }

  function Touched(st: State, a: Action): Id
    requires Enabled(st, a)
  {
    match a
    case Arm(id) => id
    case Enqueue(id) => id
    case Resume(id) => id
    case Suspend(id, _) => id
    case Wake(id) => id
    case RaiseFlag(id) => id
    case Complete(id) => id
    case LowerFlag(id) => id
    case Return(id) => id
    case Scan(k) => if st.cleaners[k].pos < |st.finished| then st.finished[st.cleaners[k].pos] else |st.tasks|
    case Destroy(k) => if st.buffers[k] != [] then st.buffers[k][0] else |st.tasks|
    case _ => |st.tasks|
  }

  /** One step changes at most one task, or lists a new one. */
  lemma OthersStay(st: State, a: Action)
    requires Enabled(st, a)
    ensures var next := Next(st, a);
      && (a.Submit? ==> next.tasks == st.tasks + [Task(Listed, InRunning, 0, false)])
      && (!a.Submit? && Touched(st, a) >= |st.tasks| ==> next.tasks == st.tasks)
      && (!a.Submit? && Touched(st, a) < |st.tasks| ==>
            |next.tasks| == |st.tasks| && next.tasks == st.tasks[Touched(st, a) := next.tasks[Touched(st, a)]])
  {
  }

  lemma BuffersStay(st: State, a: Action)
    requires Enabled(st, a)
    ensures |Next(st, a).buffers| == |st.buffers|
  {
  }

  lemma TakenOk(st: State, a: Action)
    requires Enabled(st, a) && Inv(st) && (a.Scan? || a.Destroy?) && Touched(st, a) < |Next(st, a).tasks|
    ensures TaskOk(Next(st, a).tasks[Touched(st, a)], |st.buffers|)
  {
    hide Occurs, ListsOk;
    if a.Scan? && st.cleaners[a.k].pos < |st.finished| {
      OnFinished(st, st.cleaners[a.k].pos);
    } else if a.Destroy? && st.buffers[a.k] != [] {
      OnBuffer(st, a.k);
    }
  }

  lemma TouchedOk(st: State, a: Action)
    requires Enabled(st, a) && Inv(st) && !a.Scan? && !a.Destroy? && Touched(st, a) < |st.tasks|
    ensures Touched(st, a) < |Next(st, a).tasks| && TaskOk(Next(st, a).tasks[Touched(st, a)], |st.buffers|)
  {
    hide Occurs, ListsOk, Removed;
    assert TaskOk(st.tasks[Touched(st, a)], |st.buffers|);
    hide Inv;
  }

  lemma TaskStep(st: State, a: Action, id: Id)
    requires Enabled(st, a) && Inv(st) && id < |Next(st, a).tasks|
    ensures TaskOk(Next(st, a).tasks[id], |Next(st, a).buffers|)
  {
    hide Occurs, ListsOk, Next, Enabled, Touched;
    OthersStay(st, a);
    BuffersStay(st, a);
    if id == Touched(st, a) && !a.Submit? {
      if a.Scan? || a.Destroy? {
        TakenOk(st, a);
      } else {
        TouchedOk(st, a);
      }
    }
  }

  lemma OnRunning(st: State, pos: nat)
    requires Inv(st) && pos < |st.running|
    ensures st.running[pos] < |st.tasks| && !IsComplete(st.tasks[st.running[pos]].phase)
  {
    hide Occurs;
    OccursThere(st.running, pos);
    assert ListsOk(st, st.running[pos]);
    assert TaskOk(st.tasks[st.running[pos]], |st.buffers|);
  }

  lemma OnFinished(st: State, pos: nat)
    requires Inv(st) && pos < |st.finished|
    ensures st.finished[pos] < |st.tasks| && st.tasks[st.finished[pos]].loc == InFinished
  {
    hide Occurs;
    OccursThere(st.finished, pos);
    assert ListsOk(st, st.finished[pos]);
  }

  lemma OnBuffer(st: State, k: nat)
    requires Inv(st) && k < |st.buffers| && st.buffers[k] != []
    ensures st.buffers[k][0] < |st.tasks| && st.tasks[st.buffers[k][0]].loc == InBuffer(k)
  {
    hide Occurs;
    OccursThere(st.buffers[k], 0);
    assert ListsOk(st, st.buffers[k][0]);
  }

  /** Two lists exchange task x, which goes from one place to another. */
  lemma ListsScan(st: State, k: nat, id: Id)
    requires Enabled(st, Scan(k)) && Inv(st)
    ensures ListsOk(Next(st, Scan(k)), id)
  {
    hide Occurs, TaskOk;
    assert ListsOk(st, id);
    var pos := st.cleaners[k].pos;
    if pos < |st.finished| {
      var x := st.finished[pos];
      OccursThere(st.finished, pos);
      assert ListsOk(st, x);
      OccursCut(st.finished, pos, id);
      OccursSnoc(st.buffers[k], x, id);
      hide Inv;
    }
  }

  lemma ListsDestroy(st: State, k: nat, id: Id)
    requires Enabled(st, Destroy(k)) && Inv(st)
    ensures ListsOk(Next(st, Destroy(k)), id)
  {
    hide Occurs, TaskOk;
    assert ListsOk(st, id);
    if st.buffers[k] != [] {
      OccursThere(st.buffers[k], 0);
      assert ListsOk(st, st.buffers[k][0]);
      OccursHead(st.buffers[k], id);
      hide Inv;
    }
  }

  lemma ListsComplete(st: State, x: Id, id: Id)
    requires Enabled(st, Complete(x)) && Inv(st)
    ensures ListsOk(Next(st, Complete(x)), id)
  {
    hide Occurs;
    assert ListsOk(st, id) && TaskOk(st.tasks[x], |st.buffers|);
    OccursSnoc(st.finished, x, id);
    OccursRemoved(st.running, x, id);
    hide Inv;
  }

  lemma ListsStay(st: State, a: Action, id: Id)
    requires Enabled(st, a) && ListsOk(st, id) && !a.Scan? && !a.Destroy? && !a.Complete? && !a.Submit?
    ensures ListsOk(Next(st, a), id)
  {
    hide Occurs, ScanOne, DestroyOne, CompleteTask;
  }

  lemma ListsSubmit(st: State, id: Id)
    requires Enabled(st, Submit) && ListsOk(st, id)
    ensures ListsOk(Next(st, Submit), id)
  {
    hide Occurs;
    OccursSnoc(st.running, |st.tasks|, id);
  }

  lemma ListsStep(st: State, a: Action, id: Id)
    requires Enabled(st, a) && Inv(st)
    ensures ListsOk(Next(st, a), id)
  {
    hide Next, Enabled, TaskOk, ListsOk;
    if a.Scan? {
      ListsScan(st, a.k, id);
    } else if a.Destroy? {
      ListsDestroy(st, a.k, id);
    } else if a.Complete? {
      ListsComplete(st, a.id, id);
    } else if a.Submit? {
      ListsSubmit(st, id);
    } else {
      ListsStay(st, a, id);
    }
  }

  lemma InvStep(st: State, a: Action)
    requires Inv(st) && Enabled(st, a)
    ensures Inv(Next(st, a))
  {
    hide TaskOk, Next, Enabled, ListsOk;
    forall id | 0 <= id < |Next(st, a).tasks|
      ensures TaskOk(Next(st, a).tasks[id], |Next(st, a).buffers|)
    {
      TaskStep(st, a, id);
    }
    forall id: Id
      ensures ListsOk(Next(st, a), id)
    {
      ListsStep(st, a, id);
    }
  }

  lemma {:induction false} InvRun(st: State, run: seq<Action>, end: State)
    requires Inv(st) && Reaches(st, run, end)
    ensures Inv(end)
    decreases |run|
  {
    hide Inv, Enabled, Next;
    if run != [] {
      InvStep(st, run[0]);
      InvRun(Next(st, run[0]), run[1..], end);
    }
  }

  lemma StartInv(workers: nat, cleaners: nat)
    ensures Inv(Start(workers, cleaners))
  {
  }

  // ---------- what every run promises ----------

  /** A task is listed as running until its completion callback has run, finished from then
      until it is collected, and destroyed at most once. */
  lemma Life(workers: nat, cleaners: nat, run: seq<Action>, end: State, id: Id)
    requires Reaches(Start(workers, cleaners), run, end) && id < |end.tasks|
    ensures var task := end.tasks[id];
      && Occurs(end.running, id) == (if IsComplete(task.phase) then 0 else 1)
      && Occurs(end.finished, id) == At(end, id, InFinished)
      && (forall k :: 0 <= k < |end.buffers| ==> Occurs(end.buffers[k], id) == At(end, id, InBuffer(k)))
      && task.destroyed == At(end, id, Gone) <= 1
      && (task.loc.InBuffer? || task.loc == Gone ==> task.phase == Released || task.phase == Returned)
  {
    StartInv(workers, cleaners);
    InvRun(Start(workers, cleaners), run, end);
    assert ListsOk(end, id) && TaskOk(end.tasks[id], |end.buffers|);
    hide Inv, Reaches;
  }

  /** No frame is destroyed while its flag is up. */
  lemma NotWhileFinalizing(workers: nat, cleaners: nat, run: seq<Action>, end: State, k: nat)
    requires Reaches(Start(workers, cleaners), run, end) && Enabled(end, Destroy(k)) && end.buffers[k] != []
    ensures !FlagSet(end.tasks[end.buffers[k][0]].phase)
  {
    hide Reaches, Occurs;
    StartInv(workers, cleaners);
    InvRun(Start(workers, cleaners), run, end);
    OccursThere(end.buffers[k], 0);
    assert ListsOk(end, end.buffers[k][0]);
  }

  /** The completion callback always finds its task alive. */
  lemma CallbackFindsTask(workers: nat, cleaners: nat, run: seq<Action>, end: State, id: Id)
    requires Reaches(Start(workers, cleaners), run, end) && Enabled(end, Complete(id))
    ensures end.tasks[id].loc == InRunning
  {
    hide Reaches, Occurs;
    StartInv(workers, cleaners);
    InvRun(Start(workers, cleaners), run, end);
    assert TaskOk(end.tasks[id], |end.buffers|);
  }

  /** When wait_all leaves its loop, every task submitted so far has completed. */
  lemma WaitAll(workers: nat, cleaners: nat, run: seq<Action>, end: State, id: Id)
    requires Reaches(Start(workers, cleaners), run, end) && Enabled(end, LeaveWait) && id < |end.tasks|
    ensures IsComplete(end.tasks[id].phase)
  {
    Life(workers, cleaners, run, end, id);
  }

  // ---------- runs put together ----------

  lemma ReachesCons(st: State, a: Action, run: seq<Action>, end: State)
    requires Enabled(st, a) && Reaches(Next(st, a), run, end)
    ensures Reaches(st, [a] + run, end)
  {
    assert ([a] + run)[1..] == run;
    hide Enabled, Next;
  }

  lemma {:induction false} ReachesConcat(st: State, a: seq<Action>, mid: State, b: seq<Action>, end: State)
    requires Reaches(st, a, mid) && Reaches(mid, b, end)
    ensures Reaches(st, a + b, end)
    decreases |a|
  {
    hide Enabled, Next;
    if a == [] {
      assert a + b == b;
    } else {
      assert (a + b)[1..] == a[1..] + b;
      ReachesConcat(Next(st, a[0]), a[1..], mid, b, end);
    }
  }

  /** The lock is held by the cleaner that scans. */
  ghost predicate CleanersOk(st: State) {
    && |st.cleaners| == |st.buffers|
    && (forall k :: 0 <= k < |st.cleaners| ==> (st.cleaners[k].Scanning? <==> st.lock == Some(k)))
    && (st.lock.Some? ==> st.lock.value < |st.cleaners|)
  }

  lemma CleanersStep(st: State, a: Action)
    requires CleanersOk(st) && Enabled(st, a)
    ensures CleanersOk(Next(st, a)) && |Next(st, a).cleaners| == |st.cleaners|
  {
  }

  ghost predicate Sound(st: State) {
    Inv(st) && CleanersOk(st)
  }

  lemma SoundStep(st: State, a: Action)
    requires Sound(st) && Enabled(st, a)
    ensures Sound(Next(st, a)) && |Next(st, a).cleaners| == |st.cleaners|
  {
    hide Inv, CleanersOk, Next, Enabled, Reaches;
    CleanersStep(st, a);
    InvStep(st, a);
  }

  lemma {:induction false} SoundRun(st: State, run: seq<Action>, end: State)
    requires Sound(st) && Reaches(st, run, end)
    ensures Sound(end) && |end.cleaners| == |st.cleaners|
    decreases |run|
  {
    hide Sound, Enabled, Next;
    if run != [] {
      SoundStep(st, run[0]);
      SoundRun(Next(st, run[0]), run[1..], end);
    }
  }

  lemma StartSound(workers: nat, cleaners: nat)
    ensures Sound(Start(workers, cleaners)) && |Start(workers, cleaners).cleaners| == cleaners
  {
    StartInv(workers, cleaners);
    hide Inv;
  }

  // ---------- what cleaners can do ----------

  /** Only cleaning happened. */
  ghost predicate OnlyCleaned(st: State, end: State) {
    && |end.tasks| == |st.tasks| && end.running == st.running && end.stopping == st.stopping
    && end.looking == st.looking && end.resting == st.resting
    && forall i :: 0 <= i < |st.tasks| ==>
         end.tasks[i].phase == st.tasks[i].phase && end.tasks[i].foreign == st.tasks[i].foreign
  }

  /** A finished task ahead of the scan whose flag is down, or one already taken. */
  ghost predicate WillTake(st: State, k: nat, id: Id) {
    && id < |st.tasks| && k < |st.cleaners| && st.cleaners[k].Scanning?
    && (st.tasks[id].loc == InBuffer(k)
        || (!FlagSet(st.tasks[id].phase) && exists i :: st.cleaners[k].pos <= i < |st.finished| && st.finished[i] == id))
  }

  /** A finished task behind the scan. */
  ghost predicate PassedBy(st: State, k: nat, id: Id) {
    && id < |st.tasks| && k < |st.cleaners| && st.cleaners[k].Scanning? && st.tasks[id].loc == InFinished
    && forall i :: st.cleaners[k].pos <= i < |st.finished| ==> st.finished[i] != id
  }

  lemma ScanFrame(st: State, k: nat)
    requires Enabled(st, Scan(k))
    ensures var next := Next(st, Scan(k));
      && OnlyCleaned(st, next)
      && (st.cleaners[k].pos < |st.finished| ==>
            && next.cleaners[k].Scanning? && next.lock == Some(k)
            && |next.finished| - next.cleaners[k].pos < |st.finished| - st.cleaners[k].pos)
      && (st.cleaners[k].pos >= |st.finished| ==> next.tasks == st.tasks)
  {
  }

  lemma ScanKeepsTake(st: State, k: nat, id: Id)
    requires Enabled(st, Scan(k)) && st.cleaners[k].pos < |st.finished| && WillTake(st, k, id)
    ensures WillTake(Next(st, Scan(k)), k, id)
  {
    var next := Next(st, Scan(k));
    var pos := st.cleaners[k].pos;
    if st.tasks[id].loc != InBuffer(k) {
      var i :| pos <= i < |st.finished| && st.finished[i] == id;
      if FlagSet(st.tasks[st.finished[pos]].phase) {
        assert next.finished[i] == id;
      } else if i > pos {
        assert next.finished[i - 1] == id;
      }
    }
  }

  lemma ScanKeepsPassed(st: State, k: nat, id: Id)
    requires Enabled(st, Scan(k)) && st.cleaners[k].pos < |st.finished| && PassedBy(st, k, id)
    ensures PassedBy(Next(st, Scan(k)), k, id)
  {
    var next := Next(st, Scan(k));
    assert st.finished[st.cleaners[k].pos] != id;
    forall i | next.cleaners[k].pos <= i < |next.finished|
      ensures next.finished[i] != id
    {
      assert next.finished[i] == st.finished[i] || next.finished[i] == st.finished[i + 1];
    }
  }

  lemma ScanStep(st: State, k: nat, id: Id)
    requires Enabled(st, Scan(k))
    ensures var next := Next(st, Scan(k));
      && OnlyCleaned(st, next)
      && (st.cleaners[k].pos < |st.finished| ==>
            && next.cleaners[k].Scanning? && next.lock == Some(k)
            && |next.finished| - next.cleaners[k].pos < |st.finished| - st.cleaners[k].pos
            && (WillTake(st, k, id) ==> WillTake(next, k, id))
            && (PassedBy(st, k, id) ==> PassedBy(next, k, id)))
      && (st.cleaners[k].pos >= |st.finished| ==> next.tasks == st.tasks)
  {
    hide Next, WillTake, PassedBy, OnlyCleaned;
    ScanFrame(st, k);
    if st.cleaners[k].pos < |st.finished| {
      if WillTake(st, k, id) {
        ScanKeepsTake(st, k, id);
      }
      if PassedBy(st, k, id) {
        ScanKeepsPassed(st, k, id);
      }
    }
  }

  lemma ScanEnabled(st: State, k: nat)
    requires Sound(st) && k < |st.cleaners| && st.cleaners[k].Scanning?
    ensures Enabled(st, Scan(k))
  {
    if st.cleaners[k].pos < |st.finished| {
      OnFinished(st, st.cleaners[k].pos);
    }
    hide Inv;
  }

  /** A scan under way comes to its end and gives the lock back. */
  lemma {:induction false} FinishScan(st: State, k: nat, id: Id) returns (run: seq<Action>, end: State)
    requires Sound(st) && k < |st.cleaners| && st.cleaners[k].Scanning?
    ensures Reaches(st, run, end) && Sound(end) && |end.cleaners| == |st.cleaners|
    ensures OnlyCleaned(st, end) && end.lock == None && end.cleaners[k] == Clearing
    ensures WillTake(st, k, id) ==> id < |end.tasks| && end.tasks[id].loc == InBuffer(k)
    ensures PassedBy(st, k, id) ==> id < |end.tasks| && end.tasks[id].loc == InFinished
    decreases |st.finished| - st.cleaners[k].pos
  {
    ScanEnabled(st, k);
    ScanStep(st, k, id);
    SoundStep(st, Scan(k));
    var next := Next(st, Scan(k));
    if st.cleaners[k].pos >= |st.finished| {
      run, end := [Scan(k)], next;
      assert run[1..] == [];
      assert Reaches(end, [], end);
    } else {
      hide Sound, Next, Enabled, WillTake, PassedBy;
      run, end := FinishScan(next, k, id);
      ReachesCons(st, Scan(k), run, end);
      run := [Scan(k)] + run;
    }
  }

  lemma DestroyStep(st: State, k: nat, id: Id)
    requires Sound(st) && k < |st.cleaners| && st.cleaners[k] == Clearing && id < |st.tasks|
    ensures Enabled(st, Destroy(k))
    ensures var next := Next(st, Destroy(k));
      && OnlyCleaned(st, next) && next.lock == st.lock && next.finished == st.finished
      && (st.tasks[id].loc == InFinished || st.tasks[id].loc == Gone ==> next.tasks[id].loc == st.tasks[id].loc)
      && (st.buffers[k] != [] ==>
            && next.cleaners[k] == Clearing && next.buffers[k] == st.buffers[k][1..]
            && (st.tasks[id].loc == InBuffer(k) ==> next.tasks[id].loc == Gone || next.tasks[id].loc == InBuffer(k)))
      && (st.buffers[k] == [] ==> next.cleaners[k] == Idle && st.tasks[id].loc != InBuffer(k))
  {
    if st.buffers[k] != [] {
      OnBuffer(st, k);
    } else {
      assert ListsOk(st, id);
      assert Occurs(st.buffers[k], id) == 0;
    }
    hide Inv, Occurs;
  }

  /** A cleaner destroys all it has taken. */
  lemma {:induction false} DestroyAll(st: State, k: nat, id: Id) returns (run: seq<Action>, end: State)
    requires Sound(st) && k < |st.cleaners| && st.cleaners[k] == Clearing && id < |st.tasks|
    ensures Reaches(st, run, end) && Sound(end) && |end.cleaners| == |st.cleaners|
    ensures OnlyCleaned(st, end) && end.lock == st.lock && end.cleaners[k] == Idle && end.finished == st.finished
    ensures st.tasks[id].loc == InBuffer(k) || st.tasks[id].loc == Gone ==> end.tasks[id].loc == Gone
    ensures st.tasks[id].loc == InFinished ==> end.tasks[id].loc == InFinished
    decreases |st.buffers[k]|
  {
    DestroyStep(st, k, id);
    SoundStep(st, Destroy(k));
    var next := Next(st, Destroy(k));
    if st.buffers[k] == [] {
      run, end := [Destroy(k)], next;
      assert run[1..] == [];
      assert Reaches(end, [], end);
    } else {
      hide Sound, Next, Enabled;
      run, end := DestroyAll(next, k, id);
      ReachesCons(st, Destroy(k), run, end);
      run := [Destroy(k)] + run;
    }
  }

  // ---------- the window between the flag and the return ----------

  /** The flag is down, so the scan takes a task whose final_suspend has not returned. */
  predicate TakesReleased(st: State, a: Action)
    requires Enabled(st, a)
  {
    a.Scan? && st.cleaners[a.k].pos < |st.finished|
    && st.tasks[st.finished[st.cleaners[a.k].pos]].phase == Released
  }

  ghost predicate CarefulRun(st: State, run: seq<Action>)
    decreases |run|
  {
    run != [] && Enabled(st, run[0]) ==> !TakesReleased(st, run[0]) && CarefulRun(Next(st, run[0]), run[1..])
  }

  ghost predicate ReturnedFirst(st: State) {
    forall id :: 0 <= id < |st.tasks| && (st.tasks[id].loc.InBuffer? || st.tasks[id].loc == Gone) ==>
      st.tasks[id].phase == Returned
  }

  lemma ReturnedStep(st: State, a: Action)
    requires Inv(st) && ReturnedFirst(st) && Enabled(st, a) && !TakesReleased(st, a)
    ensures ReturnedFirst(Next(st, a))
  {
    hide Inv, Next, Enabled, Touched, TakesReleased;
    OthersStay(st, a);
    if Touched(st, a) < |st.tasks| && !a.Submit? {
      TouchedReturned(st, a);
    }
  }

  lemma TouchedReturned(st: State, a: Action)
    requires Inv(st) && ReturnedFirst(st) && Enabled(st, a) && !TakesReleased(st, a)
    requires Touched(st, a) < |st.tasks| && !a.Submit?
    ensures var next := Next(st, a);
      Touched(st, a) < |next.tasks|
      && (next.tasks[Touched(st, a)].loc.InBuffer? || next.tasks[Touched(st, a)].loc == Gone ==>
            next.tasks[Touched(st, a)].phase == Returned)
  {
    hide ListsOk;
    if a.Scan? {
      OnFinished(st, st.cleaners[a.k].pos);
    } else if a.Destroy? {
      OnBuffer(st, a.k);
    }
    assert TaskOk(st.tasks[Touched(st, a)], |st.buffers|);
    hide Inv;
  }

  lemma {:induction false} ReturnedRun(st: State, run: seq<Action>, end: State)
    requires Inv(st) && ReturnedFirst(st) && Reaches(st, run, end) && CarefulRun(st, run)
    ensures ReturnedFirst(end)
    decreases |run|
  {
    hide Inv, ReturnedFirst, Enabled, Next, TakesReleased;
    if run != [] {
      ReturnedStep(st, run[0]);
      InvStep(st, run[0]);
      ReturnedRun(Next(st, run[0]), run[1..], end);
    }
  }

  /** As long as no scan takes a task between the lowering of its flag and the return of its
      final_suspend, no frame is destroyed before that return. */
  lemma DestroyedAfterReturn(workers: nat, cleaners: nat, run: seq<Action>, end: State, id: Id)
    requires Reaches(Start(workers, cleaners), run, end) && CarefulRun(Start(workers, cleaners), run)
    requires id < |end.tasks| && end.tasks[id].destroyed > 0
    ensures end.tasks[id].phase == Returned
  {
    StartInv(workers, cleaners);
    InvRun(Start(workers, cleaners), run, end);
    ReturnedRun(Start(workers, cleaners), run, end);
    assert TaskOk(end.tasks[id], |end.buffers|);
    hide Inv, Reaches, CarefulRun;
  }

  ghost predicate DestroyedIn(st: State, id: Id, phase: Phase) {
    id < |st.tasks| && st.tasks[id].phase == phase && st.tasks[id].destroyed == 1
  }

  ghost predicate DestroyedBeforeReturn(st: State, id: Id) {
    DestroyedIn(st, id, Released)
  }

  /** A finished task whose flag is down. */
  predicate Collectable(st: State, id: Id, phase: Phase) {
    In(st, id, phase) && st.tasks[id].loc == InFinished && !FlagSet(phase)
  }

  lemma GoneIsDestroyed(st: State, id: Id, phase: Phase)
    requires Inv(st) && In(st, id, phase) && st.tasks[id].loc == Gone
    ensures DestroyedIn(st, id, phase)
  {
    assert TaskOk(st.tasks[id], |st.buffers|);
  }

  /** An idle cleaner collects a finished task whose flag is down. */
  lemma CleanerTakes(st: State, k: nat, id: Id, phase: Phase) returns (run: seq<Action>, end: State)
    requires Sound(st) && k < |st.cleaners| && st.cleaners[k] == Idle && st.lock == None
    requires Collectable(st, id, phase)
    ensures Reaches(st, run, end) && DestroyedIn(end, id, phase)
  {
    var locked := Next(st, Lock(k));
    SoundStep(st, Lock(k));
    InFinishedList(st, id);
    var i :| 0 <= i < |st.finished| && st.finished[i] == id;
    assert locked.finished[i] == id && locked.tasks[id] == st.tasks[id];
    assert WillTake(locked, k, id);
    assert Enabled(st, Lock(k));
    hide Inv, CleanersOk, Next, Enabled, WillTake;
    var scan, mid := FinishScan(locked, k, id);
    var destroy;
    destroy, end := DestroyAll(mid, k, id);
    ReachesConcat(locked, scan, mid, destroy, end);
    ReachesCons(st, Lock(k), scan + destroy, end);
    GoneIsDestroyed(end, id, phase);
    run := [Lock(k)] + (scan + destroy);
  }

  lemma InFinishedList(st: State, id: Id)
    requires Inv(st) && id < |st.tasks| && st.tasks[id].loc == InFinished
    ensures id in st.finished
  {
    assert ListsOk(st, id);
    OccursMember(st.finished, id);
    hide Occurs;
  }

  /** With the lock free, some cleaner gets to take the task. */
  lemma FreeCleanerTakes(st: State, k: nat, id: Id, phase: Phase) returns (run: seq<Action>, end: State)
    requires Sound(st) && k < |st.cleaners| && st.lock == None
    requires Collectable(st, id, phase)
    ensures Reaches(st, run, end) && DestroyedIn(end, id, phase)
  {
    hide Inv, Enabled, Next;
    if st.cleaners[k] == Idle {
      run, end := CleanerTakes(st, k, id, phase);
    } else {
      var clear, mid := DestroyAll(st, k, id);
      var take;
      take, end := CleanerTakes(mid, k, id, phase);
      ReachesConcat(st, clear, mid, take, end);
      run := clear + take;
    }
  }

  /** From every reachable state each finished task whose flag is down can come to be destroyed
      by cleaning alone. */
  lemma CanBeCollected(st: State, id: Id, phase: Phase) returns (run: seq<Action>, end: State)
    requires Sound(st) && |st.cleaners| > 0 && Collectable(st, id, phase)
    ensures Reaches(st, run, end) && DestroyedIn(end, id, phase)
  {
    hide Inv, Enabled, Next;
    if st.lock == None {
      run, end := FreeCleanerTakes(st, 0, id, phase);
    } else {
      var k := st.lock.value;
      assert WillTake(st, k, id) || PassedBy(st, k, id);
      var scan, mid := FinishScan(st, k, id);
      var rest;
      if mid.tasks[id].loc == InFinished {
        rest, end := FreeCleanerTakes(mid, k, id, phase);
      } else {
        rest, end := DestroyAll(mid, k, id);
        GoneIsDestroyed(end, id, phase);
      }
      ReachesConcat(st, scan, mid, rest, end);
      run := scan + rest;
    }
  }

  /** So whenever a finished task is in that window, it can still be destroyed there. */
  lemma ReleasedCanBeDestroyed(st: State, id: Id) returns (run: seq<Action>, end: State)
    requires Sound(st) && |st.cleaners| > 0 && In(st, id, Released) && st.tasks[id].loc == InFinished
    ensures Reaches(st, run, end) && DestroyedBeforeReturn(end, id)
  {
    run, end := CanBeCollected(st, id, Released);
  }

  // ---------- after the stop ----------

  lemma NoneListedStep(st: State, a: Action)
    requires st.stopping && st.submitting == 0 && Enabled(st, a)
    ensures var next := Next(st, a); next.stopping && next.submitting == 0 && |next.tasks| == |st.tasks|
  {
  }

  /** Once the scheduler is stopping and the callers that had passed the first test have listed
      their tasks, no task is listed any more. */
  lemma {:induction false} NoneListed(st: State, run: seq<Action>, end: State)
    requires st.stopping && st.submitting == 0 && Reaches(st, run, end)
    ensures |end.tasks| == |st.tasks|
    decreases |run|
  {
    if run != [] {
      NoneListedStep(st, run[0]);
      hide Enabled, Next;
      NoneListed(Next(st, run[0]), run[1..], end);
    }
  }

  // ---------- when wait_all can leave ----------

  predicate Executing(phase: Phase) {
    phase == Active || phase == Finalizing || phase == Completed || phase == Released
  }

  function WorkerOf(task: Task): int {
    if Executing(task.phase) && !task.foreign then 1 else 0
  }

  /** The workers that look for work or execute some. Once the scheduler is stopping, one that
      has found nothing can only leave. */
  function Working(st: State): int {
    st.looking + Sum(st.tasks, WorkerOf)
  }

  /** Workers leave only when the scheduler is stopping; what is not executed is on no thread. */
  ghost predicate WorkersOk(st: State) {
    && (!st.stopping ==> Working(st) + st.resting > 0)
    && (forall id :: 0 <= id < |st.tasks| && st.tasks[id].foreign ==> Executing(st.tasks[id].phase))
  }

  function Gained(st: State, a: Action): int
    requires Enabled(st, a)
  {
    match a
    case Resume(_) => 1
    case Suspend(id, _) => if st.tasks[id].foreign then 0 else -1
    case Return(id) => if st.tasks[id].foreign then 0 else -1
    case _ => 0
  }

  lemma TouchedGains(st: State, a: Action)
    requires Enabled(st, a) && WorkersOk(st) && Touched(st, a) < |st.tasks|
    ensures var id := Touched(st, a);
      id < |Next(st, a).tasks| && WorkerOf(Next(st, a).tasks[id]) == WorkerOf(st.tasks[id]) + Gained(st, a)
  {
    hide Sum;
  }

  lemma UntouchedGains(st: State, a: Action)
    requires Enabled(st, a)
    ensures Touched(st, a) >= |st.tasks| || a.Submit? ==> Gained(st, a) == 0
  {
    hide Next;
  }

  lemma ExecutingStep(st: State, a: Action)
    requires Enabled(st, a) && WorkersOk(st)
    ensures Sum(Next(st, a).tasks, WorkerOf) == Sum(st.tasks, WorkerOf) + Gained(st, a)
  {
    hide Sum, Next, WorkersOk, Enabled;
    OthersStay(st, a);
    UntouchedGains(st, a);
    if a.Submit? {
      SumSnoc(st.tasks, Task(Listed, InRunning, 0, false), WorkerOf);
    } else if Touched(st, a) < |st.tasks| {
      TouchedGains(st, a);
      SumUpdate(st.tasks, Touched(st, a), Next(st, a).tasks[Touched(st, a)], WorkerOf);
    }
  }

  /** Only a worker that finds nothing stops being one that works, and only one that has not
      seen the stop comes back. */
  lemma WorkingStep(st: State, a: Action)
    requires Enabled(st, a) && WorkersOk(st)
    ensures var next := Next(st, a);
      && Working(next) == Working(st) + (if a == FindNone then -1 else if a == Again then 1 else 0)
      && next.resting == st.resting + (if a == FindNone then 1 else if a == Again || a == Exit then -1 else 0)
      && next.stopping == (st.stopping || a == Stop)
  {
    hide Sum;
    ExecutingStep(st, a);
    hide WorkersOk;
  }

  lemma ForeignStep(st: State, a: Action, id: Id)
    requires Enabled(st, a) && WorkersOk(st) && id < |Next(st, a).tasks| && Next(st, a).tasks[id].foreign
    ensures Executing(Next(st, a).tasks[id].phase)
  {
    hide Working, Sum;
    OthersStay(st, a);
  }

  lemma WorkersStep(st: State, a: Action)
    requires WorkersOk(st) && Enabled(st, a)
    ensures WorkersOk(Next(st, a))
  {
    hide Next, Working, Executing;
    WorkingStep(st, a);
    forall id | 0 <= id < |Next(st, a).tasks| && Next(st, a).tasks[id].foreign
      ensures Executing(Next(st, a).tasks[id].phase)
    {
      ForeignStep(st, a, id);
    }
  }

  ghost predicate Standing(st: State) {
    Sound(st) && WorkersOk(st)
  }

  lemma {:induction false} StandingRun(st: State, run: seq<Action>, end: State)
    requires Standing(st) && Reaches(st, run, end)
    ensures Standing(end)
    decreases |run|
  {
    hide Sound, WorkersOk, Enabled, Next;
    if run != [] {
      SoundStep(st, run[0]);
      WorkersStep(st, run[0]);
      StandingRun(Next(st, run[0]), run[1..], end);
    }
  }

  lemma StandingReachable(workers: nat, cleaners: nat, run: seq<Action>, st: State)
    requires workers > 0 && Reaches(Start(workers, cleaners), run, st)
    ensures Standing(st)
  {
    hide Sound, Reaches;
    StartSound(workers, cleaners);
    StandingRun(Start(workers, cleaners), run, st);
  }

  /** Nothing will ever complete this task: its callback has been refused or is bound to be,
      or has been accepted when nobody is left to execute it. */
  ghost predicate Doomed(st: State, id: Id) {
    id < |st.tasks|
    && match st.tasks[id].phase
       case Dropped => true
       case Listed => st.stopping
       case Armed => st.stopping
       case Suspended(direct) => st.stopping && !direct
       case Queued => st.stopping && Working(st) == 0
       case _ => false
  }

  lemma ExecutingBounds(st: State)
    ensures st.looking <= Working(st)
    ensures forall id :: 0 <= id < |st.tasks| && WorkerOf(st.tasks[id]) == 1 ==> Working(st) > 0
    ensures (forall id :: 0 <= id < |st.tasks| ==> WorkerOf(st.tasks[id]) == 0) ==> Working(st) == st.looking
  {
    SumBounds(st.tasks, WorkerOf);
    if forall id :: 0 <= id < |st.tasks| ==> WorkerOf(st.tasks[id]) == 0 {
      SumZero(st.tasks, WorkerOf);
    }
    hide Sum;
  }

  lemma DoomedStays(st: State, a: Action, id: Id)
    requires Standing(st) && Enabled(st, a) && Doomed(st, id)
    ensures Doomed(Next(st, a), id)
  {
    hide Inv, CleanersOk, Working;
    ExecutingBounds(st);
    WorkingStep(st, a);
    OthersStay(st, a);
  }

  lemma {:induction false} DoomedForEver(st: State, run: seq<Action>, end: State, id: Id)
    requires Standing(st) && Doomed(st, id) && Reaches(st, run, end)
    ensures Standing(end) && Doomed(end, id)
    decreases |run|
  {
    hide Sound, WorkersOk, Doomed, Enabled, Next;
    if run != [] {
      DoomedStays(st, run[0], id);
      SoundStep(st, run[0]);
      WorkersStep(st, run[0]);
      DoomedForEver(Next(st, run[0]), run[1..], end, id);
    }
  }

  lemma DoomedIsRunning(st: State, id: Id)
    requires Standing(st) && Doomed(st, id)
    ensures !Enabled(st, LeaveWait)
  {
    assert TaskOk(st.tasks[id], |st.buffers|) && ListsOk(st, id);
    OccursMember(st.running, id);
    hide Inv, Occurs;
  }

  ghost predicate AllReturned(st: State) {
    forall id :: 0 <= id < |st.tasks| ==> st.tasks[id].phase == Returned
  }

  lemma AllReturnedLeaves(st: State)
    requires Standing(st) && AllReturned(st) && st.lock == None
    ensures Enabled(st, LeaveWait)
  {
    if st.running != [] {
      OnRunning(st, 0);
    }
    hide Inv, Occurs;
  }

  // ---------- a run that completes every task ----------

  function Way(task: Task): int {
    match task.phase
    case Listed => 9
    case Armed => 8
    case Suspended(_) => 8
    case Queued => 7
    case Active => 4
    case Finalizing => 3
    case Completed => 2
    case Released => 1
    case Returned => 0
    case Dropped => 0
  }

  ghost predicate NoneDoomed(st: State) {
    forall id: Id :: !Doomed(st, id)
  }

  ghost predicate Ready(st: State) {
    Standing(st) && NoneDoomed(st) && st.lock == None
  }

  ghost function WayLeft(st: State): nat {
    SumBounds(st.tasks, Way);
    Sum(st.tasks, Way)
  }

  /** The step that brings a task nearer to its end. */
  function Onward(st: State, id: Id): Action
    requires id < |st.tasks|
  {
    match st.tasks[id].phase
    case Listed => Arm(id)
    case Armed => Enqueue(id)
    case Suspended(_) => Wake(id)
    case Queued => Resume(id)
    case Active => RaiseFlag(id)
    case Finalizing => Complete(id)
    case Completed => LowerFlag(id)
    case Released => Return(id)
    case _ => LeaveWait
  }

  ghost predicate CanMove(st: State, id: Id) {
    && id < |st.tasks| && st.tasks[id].phase != Returned && (st.tasks[id].phase == Queued ==> st.looking > 0)
  }

  lemma OnwardTask(st: State, id: Id)
    requires Ready(st) && CanMove(st, id)
    ensures Enabled(st, Onward(st, id)) && Touched(st, Onward(st, id)) == id
    ensures var next := Next(st, Onward(st, id));
      && next.lock == None && id < |next.tasks| && Way(next.tasks[id]) < Way(st.tasks[id])
      && (Executing(next.tasks[id].phase) || next.tasks[id].phase == Returned || !st.stopping)
      && next.tasks[id].phase != Dropped
  {
    hide Inv, Working, WorkersOk, Sum;
    assert !Doomed(st, id);
  }

  lemma OnwardNoneDoomed(st: State, id: Id, other: Id)
    requires Ready(st) && CanMove(st, id) && Enabled(st, Onward(st, id))
    ensures !Doomed(Next(st, Onward(st, id)), other)
  {
    hide Inv, CleanersOk, Working, Enabled, Next;
    assert !Doomed(st, other);
    OnwardTask(st, id);
    WorkingStep(st, Onward(st, id));
    OthersStay(st, Onward(st, id));
  }

  lemma OnwardStep(st: State, id: Id)
    requires Ready(st) && CanMove(st, id)
    ensures Enabled(st, Onward(st, id)) && Ready(Next(st, Onward(st, id)))
    ensures WayLeft(Next(st, Onward(st, id))) < WayLeft(st)
  {
    hide Sound, WorkersOk, Doomed, Working, Next, Enabled, Sum;
    var a := Onward(st, id);
    OnwardTask(st, id);
    SoundStep(st, a);
    WorkersStep(st, a);
    OthersStay(st, a);
    SumUpdate(st.tasks, id, Next(st, a).tasks[id], Way);
    forall other: Id
      ensures !Doomed(Next(st, a), other)
    {
      OnwardNoneDoomed(st, id, other);
    }
  }

  /** A worker that has found nothing looks again. */
  lemma AgainStep(st: State)
    requires Ready(st) && !st.stopping && st.resting > 0
    ensures Enabled(st, Again) && Ready(Next(st, Again))
    ensures Next(st, Again).tasks == st.tasks && Next(st, Again).looking > 0
    ensures WayLeft(Next(st, Again)) == WayLeft(st)
  {
    hide Inv, Working, WorkersOk;
    assert |st.cleaners| == |st.buffers|;
    SoundStep(st, Again);
    WorkersStep(st, Again);
    forall id: Id
      ensures !Doomed(Next(st, Again), id)
    {
      assert !Doomed(st, id);
    }
  }

  lemma SomeWorkerLooks(st: State, id: Id)
    requires Ready(st) && In(st, id, Queued)
    requires forall other :: 0 <= other < |st.tasks| ==> !Executing(st.tasks[other].phase)
    ensures st.looking > 0 || (!st.stopping && st.resting > 0)
  {
    hide Sound, Working;
    ExecutingBounds(st);
    assert !Doomed(st, id);
  }

  /** While some task has not returned, one can be brought nearer to its end. */
  lemma DriveOne(st: State, id: Id) returns (run: seq<Action>, end: State)
    requires Ready(st) && id < |st.tasks| && st.tasks[id].phase != Returned
    ensures Reaches(st, run, end) && Ready(end) && WayLeft(end) < WayLeft(st)
  {
    hide Ready, Enabled, Next, WayLeft;
    var busy := id;
    if other: Id :| other < |st.tasks| && Executing(st.tasks[other].phase) {
      busy := other;
    }
    if st.tasks[busy].phase == Queued && st.looking == 0 {
      SomeWorkerLooks(st, busy);
      AgainStep(st);
      var mid := Next(st, Again);
      OnwardStep(mid, busy);
      end := Next(mid, Onward(mid, busy));
      assert Reaches(end, [], end);
      ReachesCons(mid, Onward(mid, busy), [], end);
      run := [Onward(mid, busy)] + [];
      ReachesCons(st, Again, run, end);
      run := [Again] + run;
    } else {
      OnwardStep(st, busy);
      end := Next(st, Onward(st, busy));
      assert Reaches(end, [], end);
      ReachesCons(st, Onward(st, busy), [], end);
      run := [Onward(st, busy)] + [];
    }
  }

  lemma {:induction false} DriveAll(st: State) returns (run: seq<Action>, end: State)
    requires Ready(st)
    ensures Reaches(st, run, end) && Ready(end) && AllReturned(end)
    decreases WayLeft(st)
  {
    hide Ready, Enabled, Next, WayLeft;
    if id: Id :| id < |st.tasks| && st.tasks[id].phase != Returned {
      var first, mid := DriveOne(st, id);
      var rest;
      rest, end := DriveAll(mid);
      ReachesConcat(st, first, mid, rest, end);
      run := first + rest;
    } else {
      run, end := [], st;
    }
  }

  lemma CleanedStanding(st: State, end: State, run: seq<Action>)
    requires Standing(st) && NoneDoomed(st) && OnlyCleaned(st, end) && Reaches(st, run, end) && end.lock == None
    ensures Ready(end)
  {
    StandingRun(st, run, end);
    hide Sound, WorkersOk, Reaches;
    assert Working(end) == Working(st) by { CleanedSum(st.tasks, end.tasks); }
    hide Working;
    forall id: Id
      ensures !Doomed(end, id)
    {
      assert !Doomed(st, id);
    }
  }

  lemma FreeIsReady(st: State)
    requires Standing(st) && NoneDoomed(st) && st.lock == None
    ensures Ready(st)
  {
  }

  lemma {:induction false} CleanedSum(tasks: seq<Task>, cleaned: seq<Task>)
    requires |tasks| == |cleaned|
    requires forall i :: 0 <= i < |tasks| ==> tasks[i].phase == cleaned[i].phase && tasks[i].foreign == cleaned[i].foreign
    ensures Sum(cleaned, WorkerOf) == Sum(tasks, WorkerOf)
  {
    if tasks != [] {
      CleanedSum(tasks[1..], cleaned[1..]);
    }
  }

  lemma Settles(st: State) returns (run: seq<Action>, end: State)
    requires Standing(st) && NoneDoomed(st)
    ensures Reaches(st, run, end) && Ready(end) && AllReturned(end)
  {
    hide Inv, WorkersOk, Doomed, Enabled, Next, OnlyCleaned, WillTake, PassedBy, Ready, AllReturned;
    if st.lock == None {
      FreeIsReady(st);
      run, end := DriveAll(st);
    } else {
      var scan, mid := FinishScan(st, st.lock.value, 0);
      CleanedStanding(st, mid, scan);
      var rest;
      rest, end := DriveAll(mid);
      ReachesConcat(st, scan, mid, rest, end);
      run := scan + rest;
    }
  }

  ghost predicate CanLeave(st: State) {
    exists run, end :: Reaches(st, run, end) && Enabled(end, LeaveWait)
  }

  ghost predicate CanSettle(st: State) {
    exists run, end :: Reaches(st, run, end) && end.lock == None && AllReturned(end)
  }

  /** From every reachable state: wait_all can still come to leave, and then even with every
      task returned, exactly when no task is doomed. */
  lemma CanLeaveIff(workers: nat, cleaners: nat, run: seq<Action>, st: State)
    requires workers > 0 && Reaches(Start(workers, cleaners), run, st)
    ensures CanLeave(st) <==> NoneDoomed(st)
    ensures CanSettle(st) <==> NoneDoomed(st)
  {
    hide Reaches, Doomed, Standing, Enabled, AllReturned;
    StandingReachable(workers, cleaners, run, st);
    if NoneDoomed(st) {
      var more, end := Settles(st);
      assert Standing(end);
      AllReturnedLeaves(end);
    } else {
      var id: Id :| Doomed(st, id);
      forall more, end | Reaches(st, more, end)
        ensures !Enabled(end, LeaveWait) && !(end.lock == None && AllReturned(end))
      {
        DoomedForEver(st, more, end, id);
        DoomedIsRunning(end, id);
        if end.lock == None && AllReturned(end) {
          AllReturnedLeaves(end);
        }
      }
    }
  }

  // ---------- runs that end badly ----------

  lemma ReachesSnoc(st: State, run: seq<Action>, mid: State, a: Action)
    requires Reaches(st, run, mid) && Enabled(mid, a)
    ensures Reaches(st, run + [a], Next(mid, a))
  {
    hide Enabled, Next;
    var end := Next(mid, a);
    assert Reaches(end, [], end);
    ReachesCons(mid, a, [], end);
    assert [a] + [] == [a];
    ReachesConcat(st, run, mid, [a], end);
  }

  /** One worker, one cleaner and one task that has not completed. */
  function One(phase: Phase, stopping: bool, looking: nat, resting: nat): State {
    State([Task(phase, InRunning, 0, false)], [0], [], None, stopping, 0, looking, resting, [Idle], [[]])
  }

  lemma ListedRun() returns (run: seq<Action>)
    ensures Reaches(Start(1, 1), run, One(Listed, false, 1, 0))
  {
    var start := Start(1, 1);
    assert start.cleaners == [Idle] && start.buffers == [[]];
    assert Reaches(start, [], start);
    ReachesSnoc(start, [], start, Check);
    var checked := Next(start, Check);
    ReachesSnoc(start, [] + [Check], checked, Submit);
    assert Next(checked, Submit) == One(Listed, false, 1, 0);
    run := [] + [Check] + [Submit];
  }

  lemma OneStep(run: seq<Action>, st: State, a: Action, next: State) returns (more: seq<Action>)
    requires Reaches(Start(1, 1), run, st) && Enabled(st, a) && Next(st, a) == next
    ensures Reaches(Start(1, 1), more, next) && more == run + [a]
  {
    hide Reaches, Enabled, Next;
    ReachesSnoc(Start(1, 1), run, st, a);
    more := run + [a];
  }

  lemma QueuedRun() returns (run: seq<Action>)
    ensures Reaches(Start(1, 1), run, One(Queued, false, 1, 0))
  {
    hide Reaches;
    run := ListedRun();
    run := OneStep(run, One(Listed, false, 1, 0), Arm(0), One(Armed, false, 1, 0));
    run := OneStep(run, One(Armed, false, 1, 0), Enqueue(0), One(Queued, false, 1, 0));
  }

  /** The scheduler stops between the listing of a task and its submission. */
  lemma DroppedRun() returns (run: seq<Action>, end: State)
    ensures Reaches(Start(1, 1), run, end) && In(end, 0, Dropped) && !CanLeave(end)
  {
    hide Reaches;
    run := ListedRun();
    run := OneStep(run, One(Listed, false, 1, 0), Arm(0), One(Armed, false, 1, 0));
    run := OneStep(run, One(Armed, false, 1, 0), Stop, One(Armed, true, 1, 0));
    run := OneStep(run, One(Armed, true, 1, 0), Enqueue(0), One(Dropped, true, 1, 0));
    end := One(Dropped, true, 1, 0);
    DoomedCannotLeave(run, end, 0);
  }

  /** The scheduler stops while a coroutine awaits something, and refuses its wake-up. */
  lemma WakeRefusedRun() returns (run: seq<Action>, end: State)
    ensures Reaches(Start(1, 1), run, end) && Suspend(0, false) in run && In(end, 0, Dropped) && !CanLeave(end)
  {
    hide Reaches;
    run := QueuedRun();
    run := OneStep(run, One(Queued, false, 1, 0), Resume(0), One(Active, false, 0, 0));
    var suspended := One(Suspended(false), false, 1, 0);
    run := OneStep(run, One(Active, false, 0, 0), Suspend(0, false), suspended);
    run := OneStep(run, suspended, Stop, One(Suspended(false), true, 1, 0));
    run := OneStep(run, One(Suspended(false), true, 1, 0), Wake(0), One(Dropped, true, 1, 0));
    end := One(Dropped, true, 1, 0);
    DoomedCannotLeave(run, end, 0);
  }

  /** A callback is accepted after the last worker has found nothing, and then the scheduler stops. */
  lemma WorkersGoneRun() returns (run: seq<Action>, end: State)
    ensures Reaches(Start(1, 1), run, end) && In(end, 0, Queued) && end.looking + end.resting == 0 && !CanLeave(end)
  {
    hide Reaches;
    run := ListedRun();
    run := OneStep(run, One(Listed, false, 1, 0), FindNone, One(Listed, false, 0, 1));
    run := OneStep(run, One(Listed, false, 0, 1), Arm(0), One(Armed, false, 0, 1));
    run := OneStep(run, One(Armed, false, 0, 1), Enqueue(0), One(Queued, false, 0, 1));
    run := OneStep(run, One(Queued, false, 0, 1), Stop, One(Queued, true, 0, 1));
    run := OneStep(run, One(Queued, true, 0, 1), Exit, One(Queued, true, 0, 0));
    end := One(Queued, true, 0, 0);
    assert Sum(end.tasks, WorkerOf) == 0 by { SumZero(end.tasks, WorkerOf); }
    DoomedCannotLeave(run, end, 0);
  }

  lemma DoomedCannotLeave(run: seq<Action>, st: State, id: Id)
    requires Reaches(Start(1, 1), run, st) && Doomed(st, id)
    ensures !CanLeave(st)
  {
    hide Reaches, Doomed, CanLeave, CanSettle;
    CanLeaveIff(1, 1, run, st);
  }

  /** A frame is destroyed while its final_suspend has still to return. */
  lemma FlagTooShort() returns (run: seq<Action>, end: State)
    ensures Reaches(Start(1, 1), run, end) && DestroyedBeforeReturn(end, 0)
  {
    hide Reaches, Removed;
    run := QueuedRun();
    run := OneStep(run, One(Queued, false, 1, 0), Resume(0), One(Active, false, 0, 0));
    run := OneStep(run, One(Active, false, 0, 0), RaiseFlag(0), One(Finalizing, false, 0, 0));
    var ended := OneFinished(Completed);
    OnlyOneRemoved();
    run := OneStep(run, One(Finalizing, false, 0, 0), Complete(0), ended);
    run := OneStep(run, ended, LowerFlag(0), OneFinished(Released));
    StartSound(1, 1);
    SoundRun(Start(1, 1), run, OneFinished(Released));
    var more;
    more, end := ReleasedCanBeDestroyed(OneFinished(Released), 0);
    ReachesConcat(Start(1, 1), run, OneFinished(Released), more, end);
    run := run + more;
  }

  function OneFinished(phase: Phase): State {
    State([Task(phase, InFinished, 0, false)], [], [0], None, false, 0, 0, 0, [Idle], [[]])
  }

  lemma OnlyOneRemoved()
    ensures Removed([0], 0) == []
  {
  }
}
