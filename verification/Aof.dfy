/** The append-only file: a buffer, a flusher thread, rotating files and the final flush. */
module Aof {
  import opened Text
  import opened Resp
  import opened StreamParser

  /** Where the flusher thread stands. It holds the file lock while Opening. */
  datatype Flusher = Testing | Waiting | Writing(data: string) | Closing | Opening | Exited

  /** Where the thread that stops the module stands. */
  datatype Stopper = Serving | Joining | Taking | LastWrite(data: string) | Stopped

  datatype State = State(
    buffer: string, bufferSize: int,
    /** The files by index, and the one that is open. */
    files: map<nat, string>, index: nat, open: bool,
    running: bool, stop: bool, flusher: Flusher, stopper: Stopper,
    /** Every command appended so far, those appended after the last take, and the contents
        of every file there has been since the start, the current one last. */
    accepted: string, late: string, history: seq<string>,
    /** The files the server started with, and the index of the one it went on with. */
    found: map<nat, string>, first: nat)

  // ---------- the steps ----------

  /** Skip: the flusher finds another rotation under way. Rotate: the whole of rotateAOF on
      another thread, under the file lock. SetStop: the server's stop flag. */
  datatype Action =
    | Append(cmd: string)
    | Test
    | Take
    | Write(full: bool)
    | Skip
    | Close
    | Open
    | Rotate
    | SetStop
    | StopRequest
    | Join
    | FinalTake
    | FinalWrite

  predicate Enabled(st: State, a: Action) {
    match a
    case Append(_) => true
    case Test => st.flusher == Testing
    case Take => st.flusher == Waiting
    case Write(_) => st.flusher.Writing? && st.index in st.files && st.history != []
    case Skip => st.flusher == Closing
    case Close => st.flusher == Closing
    case Open => st.flusher == Opening
    case Rotate => st.flusher != Opening
    case SetStop => true
    case StopRequest => st.stopper == Serving
    case Join => st.stopper == Joining && st.flusher == Exited
    case FinalTake => st.stopper == Taking
    case FinalWrite => st.stopper.LastWrite? && st.index in st.files && st.history != []
  }

  /** m_aof_file << data; lost when the file is not open. */
  function Written(st: State, data: string): (r: State)
    requires st.index in st.files && st.history != []
    ensures r.found == st.found && r.first == st.first
  {
    var n := |st.history| - 1;
    if st.open then
      st.(files := st.files[st.index := st.files[st.index] + data], history := st.history[n := st.history[n] + data])
    else st
  }

  /** The next index round the ring, and an empty file there. */
  function NewFile(maxFiles: nat, st: State): (r: State)
    ensures r.found == st.found && r.first == st.first
  {
    var next := if maxFiles == 0 then st.index else st.index % maxFiles + 1;
    st.(index := next, files := st.files[next := ""], history := st.history + [""])
  }

  function Next(maxFiles: nat, st: State, a: Action): State
    requires Enabled(st, a)
  {
    match a
    case Append(cmd) =>
      st.(buffer := st.buffer + cmd, bufferSize := st.bufferSize + |cmd|, accepted := st.accepted + cmd,
          late := st.late + cmd)
    case Test => st.(flusher := if st.running && !st.stop then Waiting else Exited)
    case Take =>
      if st.bufferSize == 0 then st.(flusher := Testing)
      else st.(flusher := Writing(st.buffer), buffer := "", bufferSize := 0)
    case Write(full) =>
      Written(st, st.flusher.data).(flusher := if st.open && full then Closing else Testing)
    case Skip => st.(flusher := Testing)
    case Close => if maxFiles == 0 then st.(flusher := Testing) else st.(flusher := Opening, open := false)
    case Open => NewFile(maxFiles, st).(flusher := Testing, open := true)
    case Rotate => if maxFiles == 0 then st else NewFile(maxFiles, st)
    case SetStop => st.(stop := true)
    case StopRequest => st.(running := false, stopper := Joining)
    case Join => st.(stopper := Taking)
    case FinalTake =>
      if st.bufferSize == 0 then st.(stopper := Stopped, late := "")
      else st.(stopper := LastWrite(st.buffer), buffer := "", bufferSize := 0, late := "")
    case FinalWrite => Written(st, st.stopper.data).(stopper := Stopped)
  }

  function Contents(found: map<nat, string>, index: nat): string {
    if index in found then found[index] else ""
  }

  /** After loadAOF has chosen an index and initAOF has opened its file. */
  function Start(found: map<nat, string>, first: nat): State {
    var file := Contents(found, first);
    State("", 0, found[first := file], first, true, true, false, Testing, Serving, "", "", [file], found, first)
  }

  /** loadAOF looks at indices from 1 to maxFiles; without a file it takes 1. */
  predicate CanStart(maxFiles: nat, first: nat) {
    1 <= first && (first <= maxFiles || first == 1)
  }

  ghost predicate Reaches(maxFiles: nat, st: State, run: seq<Action>, end: State)
    decreases |run|
  {
    if run == [] then st == end else Enabled(st, run[0]) && Reaches(maxFiles, Next(maxFiles, st, run[0]), run[1..], end)
  }

  // ---------- the invariant ----------

  lemma JoinedGrow(parts: seq<string>, data: string)
    requires parts != []
    ensures Joined(parts[|parts| - 1 := parts[|parts| - 1] + data]) == Joined(parts) + data
  {
    var n := |parts| - 1;
    JoinedSnoc(parts[..n], parts[n]);
    JoinedSnoc(parts[..n], parts[n] + data);
    assert parts == parts[..n] + [parts[n]];
    assert parts[n := parts[n] + data] == parts[..n] + [parts[n] + data];
  }

  function Held(st: State): string {
    (if st.flusher.Writing? then st.flusher.data else "") + (if st.stopper.LastWrite? then st.stopper.data else "")
  }

  /** Files in order, then what is on its way, then the buffer: what the first file held and
      all that was accepted. */
  ghost predicate Complete(st: State) {
    Contents(st.found, st.first) + st.accepted == Flow(st)
  }

  function Flow(st: State): string {
    Joined(st.history) + Held(st) + st.buffer
  }

  ghost predicate StagesOk(st: State) {
    && st.bufferSize == |st.buffer|
    && st.history != []
    && (st.open <==> st.flusher != Opening)
    && (st.stopper != Serving ==> !st.running)
    && (st.stopper.Taking? || st.stopper.LastWrite? || st.stopper.Stopped? ==> st.flusher == Exited)
    && (st.flusher == Exited ==> !st.running || st.stop)
    && (st.stopper.LastWrite? || st.stopper.Stopped? ==> st.buffer == st.late)
  }

  /** The index of the g-th file since the start. */
  function IndexOf(maxFiles: nat, first: nat, g: nat): nat
    requires first > 0
  {
    if maxFiles == 0 then first else (first - 1 + g) % maxFiles + 1
  }

  /** No file since the start has had this index. */
  ghost predicate Unused(maxFiles: nat, st: State, index: nat)
    requires st.first > 0
  {
    forall g :: 0 <= g < |st.history| ==> IndexOf(maxFiles, st.first, g) != index
  }

  ghost predicate KeptFile(maxFiles: nat, st: State, g: nat)
    requires st.first > 0 && g < |st.history|
  {
    var index := IndexOf(maxFiles, st.first, g);
    index in st.files && st.files[index] == st.history[g]
  }

  ghost predicate KeptFound(st: State, index: nat) {
    index in st.found ==> index in st.files && st.files[index] == st.found[index]
  }

  /** The current file and the maxFiles - 1 before it are on disk as they were written, and
      so is what was found under an index not used since. */
  ghost predicate DiskOk(maxFiles: nat, st: State) {
    && CanStart(maxFiles, st.first) && st.history != [] && st.index in st.files
    && st.files[st.index] == st.history[|st.history| - 1]
    && (maxFiles == 0 ==> |st.history| == 1 && st.flusher != Opening)
    && st.index == IndexOf(maxFiles, st.first, |st.history| - 1)
    && (forall g :: 0 <= g < |st.history| && g > |st.history| - 1 - maxFiles ==> KeptFile(maxFiles, st, g))
    && (forall index: nat :: Unused(maxFiles, st, index) ==> KeptFound(st, index))
  }

  lemma StagesStep(maxFiles: nat, st: State, a: Action)
    requires Enabled(st, a) && StagesOk(st)
    ensures StagesOk(Next(maxFiles, st, a))
  {
  }

  lemma NewFileJoined(history: seq<string>)
    ensures Joined(history + [""]) == Joined(history)
  {
    JoinedSnoc(history, "");
    assert Joined(history) + "" == Joined(history);
  }

  /** The data written moves from hand to the file. */
  lemma FlowWritten(st: State, data: string, next: State)
    requires st.history != [] && st.index in st.files && Held(st) == data && Held(next) == "" && st.open
    requires next.history == Written(st, data).history && next.buffer == st.buffer
    ensures Flow(next) == Flow(st)
  {
    hide Joined, Held;
    JoinedGrow(st.history, data);
    assert Joined(st.history) + data + "" == Joined(st.history) + data;
  }

  lemma FlowTaken(st: State, next: State)
    requires Held(st) == "" && Held(next) == st.buffer && next.buffer == "" && next.history == st.history
    ensures Flow(next) == Flow(st)
  {
    hide Joined, Held;
    assert Joined(st.history) + st.buffer + "" == Joined(st.history) + "" + st.buffer;
  }

  lemma FlowNewFile(st: State, next: State)
    requires next.history == st.history + [""] && Held(next) == Held(st) && next.buffer == st.buffer
    ensures Flow(next) == Flow(st)
  {
    hide Joined, Held;
    NewFileJoined(st.history);
  }

  lemma FlowAppended(st: State, next: State, cmd: string)
    requires next.history == st.history && Held(next) == Held(st) && next.buffer == st.buffer + cmd
    ensures Flow(next) == Flow(st) + cmd
  {
    hide Joined, Held;
    assert Joined(st.history) + Held(st) + st.buffer + cmd == Joined(st.history) + Held(st) + (st.buffer + cmd);
  }

  lemma HeldOne(st: State)
    requires StagesOk(st)
    ensures st.flusher.Writing? ==> Held(st) == st.flusher.data
    ensures st.stopper.LastWrite? ==> Held(st) == st.stopper.data
    ensures !st.flusher.Writing? && !st.stopper.LastWrite? ==> Held(st) == ""
  {
    if st.flusher.Writing? {
      assert st.flusher.data + "" == st.flusher.data;
    } else if st.stopper.LastWrite? {
      assert "" + st.stopper.data == st.stopper.data;
    }
  }

  lemma FlowStep(maxFiles: nat, st: State, a: Action)
    requires Enabled(st, a) && StagesOk(st)
    ensures Flow(Next(maxFiles, st, a)) == Flow(st) + (if a.Append? then a.cmd else "")
  {
    StagesStep(maxFiles, st, a);
    var next := Next(maxFiles, st, a);
    HeldOne(st);
    HeldOne(next);
    hide Flow, Held, Joined;
    assert Flow(st) + "" == Flow(st);
    match a
    case Append(cmd) => FlowAppended(st, next, cmd);
    case Write(_) => FlowWritten(st, st.flusher.data, next);
    case FinalWrite => FlowWritten(st, st.stopper.data, next);
    case Take =>
      if st.bufferSize != 0 {
        FlowTaken(st, next);
      } else {
        FlowSame(st, next);
      }
    case FinalTake =>
      if st.bufferSize != 0 {
        FlowTaken(st, next);
      } else {
        FlowSame(st, next);
      }
    case Open => FlowNewFile(st, next);
    case Rotate =>
      if maxFiles > 0 {
        FlowNewFile(st, next);
      }
    case _ => FlowSame(st, next);
  }

  lemma FlowSame(st: State, next: State)
    requires next.history == st.history && Held(next) == Held(st) && next.buffer == st.buffer
    ensures Flow(next) == Flow(st)
  {
  }

  lemma CompleteStep(maxFiles: nat, st: State, a: Action)
    requires Enabled(st, a) && StagesOk(st) && Complete(st)
    ensures Complete(Next(maxFiles, st, a))
  {
    FlowStep(maxFiles, st, a);
    hide Flow;
    if a.Append? {
      assert Contents(st.found, st.first) + st.accepted + a.cmd == Contents(st.found, st.first) + (st.accepted + a.cmd);
    }
  }

  lemma MulBounds(k: int, m: int)
    requires m > 0
    ensures k >= 1 ==> k * m >= m
    ensures k >= 2 ==> k * m >= 2 * m
    ensures k <= 0 ==> k * m <= 0
    ensures k <= -1 ==> k * m <= -m
  {
  }

  /** A number and its quotient and remainder. */
  lemma Divided(n: nat, m: nat)
    requires m > 0
    ensures n == (n / m) * m + n % m && 0 <= n % m < m
  {
  }

  /** Two generations less than maxFiles apart have different indices. */
  lemma IndicesDiffer(maxFiles: nat, g: nat, h: nat)
    requires maxFiles > 0 && g < h < g + maxFiles
    ensures g % maxFiles != h % maxFiles
  {
    Divided(g, maxFiles);
    Divided(h, maxFiles);
    var a, b := h / maxFiles, g / maxFiles;
    MulBounds(a - b, maxFiles);
    assert (a - b) * maxFiles == a * maxFiles - b * maxFiles;
  }

  lemma RemainderIs(n: nat, m: nat, q: int, r: nat)
    requires m > 0 && r < m && n == q * m + r
    ensures n % m == r
  {
    Divided(n, m);
    MulBounds(q - n / m, m);
    assert (q - n / m) * m == q * m - (n / m) * m;
  }

  lemma NextIndex(maxFiles: nat, n: nat)
    requires maxFiles > 0 && n > 0
    ensures ((n - 1) % maxFiles + 1) % maxFiles == n % maxFiles
  {
    Divided(n - 1, maxFiles);
    var q, r := (n - 1) / maxFiles, (n - 1) % maxFiles;
    if r + 1 == maxFiles {
      assert (q + 1) * maxFiles == q * maxFiles + maxFiles;
      RemainderIs(n, maxFiles, q + 1, 0);
      RemainderIs(maxFiles, maxFiles, 1, 0);
    } else {
      RemainderIs(n, maxFiles, q, r + 1);
      RemainderIs(r + 1, maxFiles, 0, r + 1);
    }
  }

  lemma IndexesDiffer(maxFiles: nat, first: nat, g: nat, h: nat)
    requires first > 0 && maxFiles > 0 && g < h < g + maxFiles
    ensures IndexOf(maxFiles, first, g) != IndexOf(maxFiles, first, h)
  {
    IndicesDiffer(maxFiles, first - 1 + g, first - 1 + h);
  }

  lemma WrittenDisk(maxFiles: nat, st: State, data: string)
    requires DiskOk(maxFiles, st) && st.index in st.files && st.history != []
    ensures DiskOk(maxFiles, Written(st, data))
  {
    hide IndexOf, Unused;
    var next := Written(st, data);
    var n := |st.history| - 1;
    forall g | 0 <= g < |next.history| && g > n - maxFiles
      ensures KeptFile(maxFiles, next, g)
    {
      assert KeptFile(maxFiles, st, g);
      if g < n {
        IndexesDiffer(maxFiles, st.first, g, n);
      }
    }
    forall index: nat | Unused(maxFiles, next, index)
      ensures KeptFound(next, index)
    {
      UnusedBefore(maxFiles, st, next, index);
    }
  }

  lemma UnusedBefore(maxFiles: nat, st: State, next: State, index: nat)
    requires st.first > 0 && next.first == st.first && |st.history| <= |next.history| && Unused(maxFiles, next, index)
    ensures Unused(maxFiles, st, index)
    ensures next.history != [] ==> index != IndexOf(maxFiles, st.first, |next.history| - 1)
  {
    hide IndexOf;
    forall g | 0 <= g < |st.history|
      ensures IndexOf(maxFiles, st.first, g) != index
    {
      assert IndexOf(maxFiles, next.first, g) != index;
    }
  }

  lemma IndexAfter(maxFiles: nat, first: nat, n: nat)
    requires first > 0 && maxFiles > 0 && n > 0
    ensures IndexOf(maxFiles, first, n - 1) % maxFiles + 1 == IndexOf(maxFiles, first, n)
  {
    NextIndex(maxFiles, first - 1 + n);
  }

  lemma NewFileDisk(maxFiles: nat, st: State)
    requires DiskOk(maxFiles, st) && maxFiles > 0
    ensures DiskOk(maxFiles, NewFile(maxFiles, st))
  {
    hide IndexOf, Unused;
    var next := NewFile(maxFiles, st);
    var n := |st.history|;
    IndexAfter(maxFiles, st.first, n);
    forall g | 0 <= g < |next.history| && g > n - maxFiles
      ensures KeptFile(maxFiles, next, g)
    {
      if g < n {
        assert KeptFile(maxFiles, st, g);
        IndexesDiffer(maxFiles, st.first, g, n);
      }
    }
    forall index: nat | Unused(maxFiles, next, index)
      ensures KeptFound(next, index)
    {
      UnusedBefore(maxFiles, st, next, index);
    }
  }

  lemma DiskStep(maxFiles: nat, st: State, a: Action)
    requires Enabled(st, a) && DiskOk(maxFiles, st)
    ensures DiskOk(maxFiles, Next(maxFiles, st, a))
  {
    NoRotation(maxFiles, st);
    hide DiskOk;
    match a
    case Write(_) =>
      WrittenDisk(maxFiles, st, st.flusher.data);
      DiskSame(maxFiles, Written(st, st.flusher.data), Next(maxFiles, st, a));
    case FinalWrite =>
      WrittenDisk(maxFiles, st, st.stopper.data);
      DiskSame(maxFiles, Written(st, st.stopper.data), Next(maxFiles, st, a));
    case Open =>
      NewFileDisk(maxFiles, st);
      DiskSame(maxFiles, NewFile(maxFiles, st), Next(maxFiles, st, a));
    case Rotate =>
      if maxFiles > 0 {
        NewFileDisk(maxFiles, st);
      }
    case _ => DiskSame(maxFiles, st, Next(maxFiles, st, a));
  }

  lemma NoRotation(maxFiles: nat, st: State)
    requires DiskOk(maxFiles, st)
    ensures st.flusher == Opening ==> maxFiles > 0
  {
  }

  lemma DiskSame(maxFiles: nat, st: State, next: State)
    requires DiskOk(maxFiles, st)
    requires next.files == st.files && next.index == st.index && next.history == st.history
    requires next.found == st.found && next.first == st.first && (maxFiles == 0 ==> next.flusher != Opening)
    ensures DiskOk(maxFiles, next)
  {
    hide IndexOf, Unused;
    forall index: nat | Unused(maxFiles, next, index)
      ensures KeptFound(next, index)
    {
      UnusedBefore(maxFiles, st, next, index);
    }
    forall g | 0 <= g < |next.history| && g > |next.history| - 1 - maxFiles
      ensures KeptFile(maxFiles, next, g)
    {
      assert KeptFile(maxFiles, st, g);
    }
  }

  lemma {:induction false} KeptInRun(maxFiles: nat, st: State, run: seq<Action>, end: State)
    requires StagesOk(st) && Complete(st) && DiskOk(maxFiles, st) && Reaches(maxFiles, st, run, end)
    ensures StagesOk(end) && Complete(end) && DiskOk(maxFiles, end)
    ensures end.found == st.found && end.first == st.first
    decreases |run|
  {
    hide StagesOk, Complete, DiskOk, Enabled, Next;
    if run != [] {
      FoundStays(maxFiles, st, run[0]);
      StagesStep(maxFiles, st, run[0]);
      CompleteStep(maxFiles, st, run[0]);
      DiskStep(maxFiles, st, run[0]);
      KeptInRun(maxFiles, Next(maxFiles, st, run[0]), run[1..], end);
    }
  }

  lemma FoundStays(maxFiles: nat, st: State, a: Action)
    requires Enabled(st, a)
    ensures Next(maxFiles, st, a).found == st.found && Next(maxFiles, st, a).first == st.first
  {
    hide Written, NewFile;
  }

  lemma StartOk(maxFiles: nat, found: map<nat, string>, first: nat)
    requires CanStart(maxFiles, first)
    ensures var st := Start(found, first);
      StagesOk(st) && Complete(st) && DiskOk(maxFiles, st)
  {
    var st := Start(found, first);
    assert st.history[1..] == [];
    if maxFiles > 0 {
      RemainderIs(first - 1, maxFiles, 0, first - 1);
    }
    assert IndexOf(maxFiles, first, 0) == first;
    hide IndexOf;
    assert Joined(st.history) + "" + "" == st.history[0] && st.history[0] + "" == st.history[0];
  }

  // ---------- what every run promises ----------

  /** No byte is lost, doubled or reordered between the callers and the files, and the
      counter is the length of the buffer. */
  lemma NothingLost(maxFiles: nat, found: map<nat, string>, first: nat, run: seq<Action>, end: State)
    requires CanStart(maxFiles, first) && Reaches(maxFiles, Start(found, first), run, end)
    ensures Contents(found, first) + end.accepted == Joined(end.history) + Held(end) + end.buffer
    ensures end.bufferSize == |end.buffer|
  {
    StartOk(maxFiles, found, first);
    KeptInRun(maxFiles, Start(found, first), run, end);
  }

  /** After the final flush all that was accepted before it is in the files. */
  lemma FinalFlush(maxFiles: nat, found: map<nat, string>, first: nat, run: seq<Action>, end: State)
    requires CanStart(maxFiles, first) && Reaches(maxFiles, Start(found, first), run, end) && end.stopper == Stopped
    ensures Contents(found, first) + end.accepted == Joined(end.history) + end.late
  {
    StartOk(maxFiles, found, first);
    KeptInRun(maxFiles, Start(found, first), run, end);
    hide Reaches, Joined;
    assert Joined(end.history) + "" == Joined(end.history);
  }

  /** What a restart finds: the last maxFiles files since the start, and under an index not
      used since, what this start found. */
  lemma FilesKept(maxFiles: nat, found: map<nat, string>, first: nat, run: seq<Action>, end: State)
    requires CanStart(maxFiles, first) && Reaches(maxFiles, Start(found, first), run, end)
    ensures end.first == first && end.found == found
    ensures forall g :: 0 <= g < |end.history| && |end.history| - maxFiles <= g ==> KeptFile(maxFiles, end, g)
    ensures forall index: nat :: Unused(maxFiles, end, index) ==> KeptFound(end, index)
    ensures end.history != [] && KeptFile(maxFiles, end, |end.history| - 1)
  {
    StartOk(maxFiles, found, first);
    KeptInRun(maxFiles, Start(found, first), run, end);
    hide Reaches, IndexOf, Unused, KeptFound;
  }

  // ---------- the server can always be stopped, and files fill up ----------

  lemma ReachesCons(maxFiles: nat, st: State, a: Action, run: seq<Action>, end: State)
    requires Enabled(st, a) && Reaches(maxFiles, Next(maxFiles, st, a), run, end)
    ensures Reaches(maxFiles, st, [a] + run, end)
  {
    assert ([a] + run)[1..] == run;
    hide Enabled, Next;
  }

  /** The step that brings a stopped flusher or stopper nearer to its end. */
  function Onward(st: State): Action {
    if st.stopper == Serving then StopRequest
    else if st.stopper == Joining then
      match st.flusher
      case Testing => Test
      case Waiting => Take
      case Writing(_) => Write(false)
      case Closing => Skip
      case Opening => Open
      case Exited => Join
    else if st.stopper == Taking then FinalTake
    else FinalWrite
  }

  function Rank(st: State): nat {
    match st.stopper
    case Serving => 8
    case Joining =>
      (match st.flusher
       case Waiting => 7
       case Testing => 5
       case Exited => 4
       case _ => 6)
    case Taking => 3
    case LastWrite(_) => 2
    case Stopped => 0
  }

  lemma OnwardStep(maxFiles: nat, st: State)
    requires StagesOk(st) && DiskOk(maxFiles, st) && st.stopper != Stopped
    ensures Enabled(st, Onward(st))
    ensures var next := Next(maxFiles, st, Onward(st));
      && Rank(next) < Rank(st) && next.accepted == st.accepted
      && (st.stopper == Taking ==> next.late == "") && (st.stopper.LastWrite? ==> next.late == st.late)
      && (next.stopper.LastWrite? || next.stopper == Stopped ==> st.stopper == Taking || st.stopper.LastWrite?)
  {
    hide IndexOf, Unused, KeptFile, KeptFound;
  }

  /** From every reachable state the server can be stopped without another command, and then all
      that was accepted is in the files. */
  lemma {:induction false} CanStop(maxFiles: nat, st: State) returns (run: seq<Action>, end: State)
    requires StagesOk(st) && Complete(st) && DiskOk(maxFiles, st)
    requires st.stopper.LastWrite? || st.stopper == Stopped ==> st.late == ""
    ensures Reaches(maxFiles, st, run, end) && end.stopper == Stopped && end.accepted == st.accepted
    ensures Contents(end.found, end.first) + end.accepted == Joined(end.history)
    decreases Rank(st)
  {
    hide Joined, Contents, DiskOk, Rank, Onward, Next, Enabled, Reaches;
    if st.stopper == Stopped {
      run, end := [], st;
      NoSteps(maxFiles, st);
      assert Joined(st.history) + "" + "" == Joined(st.history);
    } else {
      OnwardStep(maxFiles, st);
      StagesStep(maxFiles, st, Onward(st));
      CompleteStep(maxFiles, st, Onward(st));
      DiskStep(maxFiles, st, Onward(st));
      run, end := CanStop(maxFiles, Next(maxFiles, st, Onward(st)));
      ReachesCons(maxFiles, st, Onward(st), run, end);
      run := [Onward(st)] + run;
    }
  }

  lemma NoSteps(maxFiles: nat, st: State)
    ensures Reaches(maxFiles, st, [], st)
  {
  }

  /** The flusher comes to its end when the module or the server is stopping. */
  lemma {:induction false} FlusherEnds(maxFiles: nat, st: State) returns (run: seq<Action>, end: State)
    requires StagesOk(st) && DiskOk(maxFiles, st) && (!st.running || st.stop)
    ensures Reaches(maxFiles, st, run, end) && end.flusher == Exited && end.stopper == st.stopper
    decreases FlusherRank(st)
  {
    hide DiskOk, Next, Enabled, Reaches, FlusherRank, FlusherOnward;
    if st.flusher == Exited {
      run, end := [], st;
      NoSteps(maxFiles, st);
    } else {
      FlusherStep(maxFiles, st);
      StagesStep(maxFiles, st, FlusherOnward(st));
      DiskStep(maxFiles, st, FlusherOnward(st));
      run, end := FlusherEnds(maxFiles, Next(maxFiles, st, FlusherOnward(st)));
      ReachesCons(maxFiles, st, FlusherOnward(st), run, end);
      run := [FlusherOnward(st)] + run;
    }
  }

  function FlusherOnward(st: State): Action {
    match st.flusher
    case Waiting => Take
    case Writing(_) => Write(false)
    case Closing => Skip
    case Opening => Open
    case _ => Test
  }

  function FlusherRank(st: State): nat {
    match st.flusher
    case Waiting => 3
    case Testing => 1
    case Exited => 0
    case _ => 2
  }

  lemma FlusherStep(maxFiles: nat, st: State)
    requires DiskOk(maxFiles, st) && st.flusher != Exited && (!st.running || st.stop)
    ensures Enabled(st, FlusherOnward(st))
    ensures var next := Next(maxFiles, st, FlusherOnward(st));
      FlusherRank(next) < FlusherRank(st) && (!next.running || next.stop) && next.stopper == st.stopper
  {
    hide IndexOf, Unused, KeptFile, KeptFound;
  }

  /** So the server's stop flag alone ends it. */
  lemma StopFlagEnds(maxFiles: nat, st: State) returns (run: seq<Action>, end: State)
    requires StagesOk(st) && DiskOk(maxFiles, st)
    ensures Reaches(maxFiles, st, [SetStop] + run, end) && end.flusher == Exited && end.stopper == st.stopper
  {
    hide IndexOf, Unused, KeptFile, KeptFound;
    StagesStep(maxFiles, st, SetStop);
    DiskStep(maxFiles, st, SetStop);
    run, end := FlusherEnds(maxFiles, Next(maxFiles, st, SetStop));
    ReachesCons(maxFiles, st, SetStop, run, end);
  }

  /** Every rotation, by whichever thread, starts one more file, and nothing else does. */
  function Rotations(run: seq<Action>): nat {
    if run == [] then 0 else (if run[0] == Open || run[0] == Rotate then 1 else 0) + Rotations(run[1..])
  }

  lemma FileStarted(maxFiles: nat, st: State, a: Action)
    requires maxFiles > 0 && Enabled(st, a)
    ensures |Next(maxFiles, st, a).history| == |st.history| + (if a == Open || a == Rotate then 1 else 0)
  {
  }

  lemma {:induction false} FilesStarted(maxFiles: nat, st: State, run: seq<Action>, end: State)
    requires maxFiles > 0 && Reaches(maxFiles, st, run, end)
    ensures |end.history| == |st.history| + Rotations(run)
    decreases |run|
  {
    if run != [] {
      hide Next, Enabled;
      FileStarted(maxFiles, st, run[0]);
      FilesStarted(maxFiles, Next(maxFiles, st, run[0]), run[1..], end);
    }
  }

  /** A flusher that is not disturbed and has filled its file starts the next one; one that has
      not goes on with the same. Either way what it wrote is in the file it wrote to. */
  lemma FullRotates(maxFiles: nat, st: State, full: bool) returns (run: seq<Action>, end: State)
    requires StagesOk(st) && DiskOk(maxFiles, st) && st.flusher.Writing? && maxFiles > 0
    ensures Reaches(maxFiles, st, run, end) && end.flusher == Testing && end.buffer == st.buffer
    ensures var n, written := |st.history| - 1, st.history[|st.history| - 1] + st.flusher.data;
      end.history == st.history[n := written] + (if full then [""] else [])
  {
    hide IndexOf, Unused, KeptFile, KeptFound;
    var s1 := Next(maxFiles, st, Write(full));
    if full {
      var s2 := Next(maxFiles, s1, Close);
      end := Next(maxFiles, s2, Open);
      NoSteps(maxFiles, end);
      ReachesCons(maxFiles, s2, Open, [], end);
      ReachesCons(maxFiles, s1, Close, [Open] + [], end);
      run := [Close] + ([Open] + []);
    } else {
      run, end := [], s1;
      NoSteps(maxFiles, end);
    }
    ReachesCons(maxFiles, st, Write(full), run, end);
    run := [Write(full)] + run;
  }

  // ---------- whole commands in every file ----------

  ghost predicate AllClean(cmds: seq<seq<string>>) {
    forall i :: 0 <= i < |cmds| ==> Sized(cmds[i]) && Clean(cmds[i])
  }

  /** The text is a number of complete commands. */
  ghost predicate Whole(text: string) {
    exists cmds :: AllClean(cmds) && text == FormatAll(cmds)
  }

  lemma WholeConcat(a: string, b: string)
    requires Whole(a) && Whole(b)
    ensures Whole(a + b)
  {
    hide FormatCommand;
    var x :| AllClean(x) && a == FormatAll(x);
    var y :| AllClean(y) && b == FormatAll(y);
    FormatAllSplit(x + y, |x|);
    assert (x + y)[..|x|] == x && (x + y)[|x|..] == y;
    assert AllClean(x + y);
  }

  lemma WholeOne(c: seq<string>)
    requires Sized(c) && Clean(c)
    ensures Whole(FormatCommand(c)) && Whole("")
  {
    hide FormatCommand;
    assert AllClean([c]) && AllClean([]);
    assert FormatAll([c]) == FormatCommand(c) + FormatAll([]);
  }

  /** What is appended is one command in the form formatCommand gives it. */
  ghost predicate Formatted(a: Action) {
    a.Append? ==> exists c :: Sized(c) && Clean(c) && a.cmd == FormatCommand(c)
  }

  ghost predicate AllWhole(st: State) {
    && Whole(st.buffer)
    && (st.flusher.Writing? ==> Whole(st.flusher.data)) && (st.stopper.LastWrite? ==> Whole(st.stopper.data))
    && (forall g :: 0 <= g < |st.history| && (g > 0 || Whole(Contents(st.found, st.first))) ==> Whole(st.history[g]))
  }

  lemma WholeStep(maxFiles: nat, st: State, a: Action)
    requires Enabled(st, a) && AllWhole(st) && Formatted(a)
    ensures AllWhole(Next(maxFiles, st, a))
  {
    hide Whole, Sized, Clean, FormatCommand;
    NoArguments();
    WholeOne([]);
    match a
    case Append(cmd) =>
      var c :| Sized(c) && Clean(c) && cmd == FormatCommand(c);
      WholeOne(c);
      WholeConcat(st.buffer, cmd);
    case Write(_) => WrittenWhole(st, st.flusher.data);
    case FinalWrite => WrittenWhole(st, st.stopper.data);
    case _ =>
  }

  lemma WrittenWhole(st: State, data: string)
    requires AllWhole(st) && st.index in st.files && st.history != [] && Whole(data)
    ensures AllWhole(Written(st, data))
  {
    hide Whole;
    if Whole(st.history[|st.history| - 1]) {
      WholeConcat(st.history[|st.history| - 1], data);
    }
  }

  lemma NoArguments()
    ensures Sized([]) && Clean([])
  {
  }

  lemma {:induction false} WholeRun(maxFiles: nat, st: State, run: seq<Action>, end: State)
    requires AllWhole(st) && Reaches(maxFiles, st, run, end)
    requires forall i :: 0 <= i < |run| ==> Formatted(run[i])
    ensures AllWhole(end)
    decreases |run|
  {
    hide AllWhole, Enabled, Next, Formatted;
    if run != [] {
      WholeStep(maxFiles, st, run[0]);
      WholeRun(maxFiles, Next(maxFiles, st, run[0]), run[1..], end);
    }
  }

  /** A rotation never cuts a command in two: each file decodes by itself, to the last byte; the
      first one if it did so at the start. */
  lemma EachFileDecodes(maxFiles: nat, found: map<nat, string>, first: nat, run: seq<Action>, end: State, g: nat)
    requires CanStart(maxFiles, first) && Reaches(maxFiles, Start(found, first), run, end) && g < |end.history|
    requires forall i :: 0 <= i < |run| ==> Formatted(run[i])
    requires g == 0 ==> Whole(Contents(found, first))
    ensures exists cmds ::
      AllClean(cmds) && end.history[g] == FormatAll(cmds) && DecodeAll(end.history[g]) == Decoded(Commands(cmds), "")
  {
    var st := Start(found, first);
    NoArguments();
    WholeOne([]);
    assert AllWhole(st);
    WholeRun(maxFiles, st, run, end);
    StartOk(maxFiles, found, first);
    KeptInRun(maxFiles, st, run, end);
    hide Reaches, DecodeAll, FormatAll, Formatted, Sized, Clean, StagesOk, Complete, DiskOk;
    assert Whole(end.history[g]);
    var cmds :| AllClean(cmds) && end.history[g] == FormatAll(cmds);
    DecodeCleanStream(cmds, "");
    NothingDecoded();
    assert FormatAll(cmds) + "" == FormatAll(cmds) && Commands(cmds) + [] == Commands(cmds);
  }
}
