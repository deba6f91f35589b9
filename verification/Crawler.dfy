/** The crawler: workers that pop URLs from a shared queue, fetch them and push new links. */
module Crawler {
  import opened Tally

  type Page = (string, int)

  /** Where a worker stands between two of its atomic steps. */
  datatype Worker =
    | Popping
    | Checked
    | Got(page: Page)
    | Fetching(page: Page)
    | Fetched(page: Page, links: seq<string>)
    | Linking(depth: int, links: seq<string>)
    | Duplicate(depth: int, links: seq<string>)
    | Marked(depth: int, link: string, links: seq<string>)
    | Counted(depth: int, link: string, links: seq<string>)
    | Returned

  datatype State = State(
    queue: seq<Page>,
    size: int,
    inflight: int,
    seen: set<string>,
    total: int,
    duplicates: int,
    unique: int,
    workers: seq<Worker>,
    /** What has been popped so far, in order. */
    popped: seq<Page>)

  // ---------- the steps ----------

  datatype Action =
    | Check(w: nat)
    | TryPop(w: nat)
    | StartFetch(w: nat)
    | EndFetch(w: nat, links: seq<string>)
    | CountPage(w: nat)
    | NextLink(w: nat)
    | CountDuplicate(w: nat)
    | CountUnique(w: nat)
    | Push(w: nat)

  predicate Enabled(st: State, a: Action) {
    a.w < |st.workers| &&
    match a
    case Check(w) => st.workers[w] == Popping
    case TryPop(w) => st.workers[w] == Checked
    case StartFetch(w) => st.workers[w].Got?
    case EndFetch(w, _) => st.workers[w].Fetching?
    case CountPage(w) => st.workers[w].Fetched?
    case NextLink(w) => st.workers[w].Linking?
    case CountDuplicate(w) => st.workers[w].Duplicate?
    case CountUnique(w) => st.workers[w].Marked?
    case Push(w) => st.workers[w].Counted?
  }

  function Become(st: State, w: nat, worker: Worker): State
    requires w < |st.workers|
  {
    st.(workers := st.workers[w := worker])
  }

  function Next(maxDepth: int, st: State, a: Action): (r: State)
    requires Enabled(st, a)
    ensures |r.workers| == |st.workers|
  {
    var worker := st.workers[a.w];
    match a
    case Check(w) => Become(st, w, if st.queue == [] && st.inflight == 0 then Returned else Checked)
    case TryPop(w) =>
      if st.queue == [] then Become(st, w, Popping)
      else
        Become(st.(queue := st.queue[1..], size := st.size - 1, popped := st.popped + [st.queue[0]]), w, Got(st.queue[0]))
    case StartFetch(w) => Become(st.(inflight := st.inflight + 1), w, Fetching(worker.page))
    case EndFetch(w, links) => Become(st.(inflight := st.inflight - 1), w, Fetched(worker.page, links))
    case CountPage(w) => Become(st.(total := st.total + 1), w, Linking(worker.page.1, worker.links))
    case NextLink(w) =>
      if worker.links == [] then Become(st, w, Popping)
      else
        var link, rest := worker.links[0], worker.links[1..];
        if worker.depth + 1 > maxDepth then Become(st, w, Linking(worker.depth, rest))
        else if link in st.seen then Become(st, w, Duplicate(worker.depth, rest))
        else Become(st.(seen := st.seen + {link}), w, Marked(worker.depth, link, rest))
    case CountDuplicate(w) => Become(st.(duplicates := st.duplicates + 1), w, Linking(worker.depth, worker.links))
    case CountUnique(w) => Become(st.(unique := st.unique + 1), w, Counted(worker.depth, worker.link, worker.links))
    case Push(w) =>
      Become(st.(queue := st.queue + [(worker.link, worker.depth + 1)], size := st.size + 1), w,
             Linking(worker.depth, worker.links))
  }

  /** crawl: the seeds are marked and queued before the first worker starts. */
  function Seeded(seeds: seq<string>): (st: State)
    ensures st.workers == [] && st.popped == [] && st.unique == 0 && st.inflight == 0 && st.total == 0
  {
    if seeds == [] then State([], 0, 0, {}, 0, 0, 0, [], [])
    else
      var st := Seeded(seeds[..|seeds| - 1]);
      var s := seeds[|seeds| - 1];
      if s in st.seen then st
      else st.(seen := st.seen + {s}, queue := st.queue + [(s, 0)], size := st.size + 1)
  }

  function Start(seeds: seq<string>, concurrency: nat): State {
    Seeded(seeds).(workers := seq(concurrency, _ => Popping))
  }

  ghost predicate Reaches(maxDepth: int, st: State, run: seq<Action>, end: State)
    decreases |run|
  {
    if run == [] then st == end
    else Enabled(st, run[0]) && Reaches(maxDepth, Next(maxDepth, st, run[0]), run[1..], end)
  }

  // ---------- the invariant ----------

  function One(page: Page): multiset<string> {
    multiset{page.0}
  }

  /** A link marked as seen that is not in the queue yet. */
  predicate Holds(w: Worker) {
    w.Marked? || w.Counted?
  }

  function Held(w: Worker): multiset<string> {
    if Holds(w) then multiset{w.link} else multiset{}
  }

  function IsFetching(w: Worker): int {
    if w.Fetching? then 1 else 0
  }

  function NotTotalled(w: Worker): int {
    if w.Got? || w.Fetching? || w.Fetched? then 1 else 0
  }

  function NotCounted(w: Worker): int {
    if w.Marked? then 1 else 0
  }

  predicate DepthOk(maxDepth: int, depth: int) {
    0 <= depth <= maxDepth
  }

  predicate WorkerOk(maxDepth: int, w: Worker) {
    match w
    case Got(page) => DepthOk(maxDepth, page.1)
    case Fetching(page) => DepthOk(maxDepth, page.1)
    case Fetched(page, _) => DepthOk(maxDepth, page.1)
    case Linking(depth, _) => DepthOk(maxDepth, depth)
    case Duplicate(depth, _) => DepthOk(maxDepth, depth)
    case Marked(depth, _, _) => DepthOk(maxDepth, depth + 1) && 0 <= depth
    case Counted(depth, _, _) => DepthOk(maxDepth, depth + 1) && 0 <= depth
    case _ => true
  }

  /** No URL is lost or doubled between being seen, queued and popped. */
  ghost predicate Conserved(st: State) {
    multiset(st.seen) == Bag(st.queue, One) + Bag(st.popped, One) + Bag(st.workers, Held)
  }

  ghost predicate CountersOk(st: State, seeds: int) {
    && st.size == |st.queue|
    && st.inflight == Sum(st.workers, IsFetching)
    && st.total + Sum(st.workers, NotTotalled) == |st.popped|
    && st.unique + Sum(st.workers, NotCounted) + seeds == |st.seen|
  }

  ghost predicate DepthsOk(maxDepth: int, st: State) {
    && (forall i :: 0 <= i < |st.queue| ==> DepthOk(maxDepth, st.queue[i].1))
    && (forall i :: 0 <= i < |st.popped| ==> DepthOk(maxDepth, st.popped[i].1))
    && (forall i :: 0 <= i < |st.workers| ==> WorkerOk(maxDepth, st.workers[i]))
  }

  /** Somebody is left to work on what is queued. */
  ghost predicate Attended(st: State) {
    st.queue != [] ==> exists i :: 0 <= i < |st.workers| && st.workers[i] != Returned
  }

  ghost predicate Inv(maxDepth: int, seeds: int, st: State) {
    Conserved(st) && CountersOk(st, seeds) && DepthsOk(maxDepth, st) && Attended(st)
  }

  lemma PopConserved(maxDepth: int, st: State, w: nat)
    requires Enabled(st, TryPop(w)) && Conserved(st) && st.queue != []
    ensures Conserved(Next(maxDepth, st, TryPop(w)))
  {
    hide Bag;
    assert Held(st.workers[w]) == Held(Got(st.queue[0]));
    hide Held, One;
    BagUpdate(st.workers, w, Got(st.queue[0]), Held);
    BagSnoc(st.popped, st.queue[0], One);
    BagHead(st.queue, One);
  }

  lemma PushConserved(maxDepth: int, st: State, w: nat)
    requires Enabled(st, Push(w)) && Conserved(st)
    ensures Conserved(Next(maxDepth, st, Push(w)))
  {
    hide Bag;
    var worker := st.workers[w];
    var page := (worker.link, worker.depth + 1);
    assert Held(worker) == One(page) && Held(Linking(worker.depth, worker.links)) == multiset{};
    hide Held, One;
    BagUpdate(st.workers, w, Linking(worker.depth, worker.links), Held);
    BagSnoc(st.queue, page, One);
    Transfer(Bag(st.queue, One), Bag(st.popped, One), Bag(st.workers, Held), One(page));
  }

  lemma Transfer(a: multiset<string>, b: multiset<string>, c: multiset<string>, x: multiset<string>)
    requires x <= c
    ensures a + b + c == (a + x) + b + (c - x + multiset{})
  {
  }

  lemma MarkConserved(st: State, w: nat, worker: Worker, link: string)
    requires w < |st.workers| && Conserved(st) && link !in st.seen
    requires !Holds(st.workers[w]) && Holds(worker) && worker.link == link
    ensures Conserved(Become(st.(seen := st.seen + {link}), w, worker))
  {
    hide Bag;
    BagUpdate(st.workers, w, worker, Held);
    assert multiset(st.seen + {link}) == multiset(st.seen) + multiset{link};
  }

  lemma OtherConserved(st: State, next: State, w: nat, worker: Worker)
    requires w < |st.workers| && Conserved(st)
    requires Holds(st.workers[w]) == Holds(worker) && (Holds(worker) ==> worker.link == st.workers[w].link)
    requires next.seen == st.seen && next.queue == st.queue && next.popped == st.popped
    requires next.workers == st.workers[w := worker]
    ensures Conserved(next)
  {
    hide Bag;
    assert Held(st.workers[w]) == Held(worker);
    hide Held;
    BagUpdate(st.workers, w, worker, Held);
  }

  lemma ConservedStep(maxDepth: int, st: State, a: Action)
    requires Enabled(st, a) && Conserved(st)
    ensures Conserved(Next(maxDepth, st, a))
  {
    hide Bag, Conserved, Held;
    match a
    case TryPop(w) =>
      if st.queue != [] {
        PopConserved(maxDepth, st, w);
      } else {
        OtherConserved(st, Next(maxDepth, st, a), w, Popping);
      }
    case Push(w) => PushConserved(maxDepth, st, w);
    case NextLink(w) => LinkConserved(maxDepth, st, w);
    case _ =>
      var next := Next(maxDepth, st, a);
      OtherConserved(st, next, a.w, next.workers[a.w]);
  }

  lemma LinkConserved(maxDepth: int, st: State, w: nat)
    requires Enabled(st, NextLink(w)) && Conserved(st)
    ensures Conserved(Next(maxDepth, st, NextLink(w)))
  {
    hide Bag, Conserved, Held;
    var next := Next(maxDepth, st, NextLink(w));
    var worker := next.workers[w];
    if worker.Marked? {
      MarkConserved(st, w, worker, worker.link);
    } else {
      OtherConserved(st, next, w, worker);
    }
  }

  lemma CountersStep(maxDepth: int, seeds: int, st: State, a: Action)
    requires Enabled(st, a) && CountersOk(st, seeds)
    ensures CountersOk(Next(maxDepth, st, a), seeds)
  {
    var next := Next(maxDepth, st, a);
    SumUpdate(st.workers, a.w, next.workers[a.w], IsFetching);
    SumUpdate(st.workers, a.w, next.workers[a.w], NotTotalled);
    SumUpdate(st.workers, a.w, next.workers[a.w], NotCounted);
  }

  lemma DepthsStep(maxDepth: int, st: State, a: Action)
    requires Enabled(st, a) && DepthsOk(maxDepth, st)
    ensures DepthsOk(maxDepth, Next(maxDepth, st, a))
  {
    assert WorkerOk(maxDepth, st.workers[a.w]);
  }

  lemma AttendedStep(maxDepth: int, st: State, a: Action)
    requires Enabled(st, a) && Attended(st)
    ensures Attended(Next(maxDepth, st, a))
  {
    var next := Next(maxDepth, st, a);
    assert next.queue != [] ==> next.workers[a.w] != Returned;
  }

  lemma InvStep(maxDepth: int, seeds: int, st: State, a: Action)
    requires Enabled(st, a) && Inv(maxDepth, seeds, st)
    ensures Inv(maxDepth, seeds, Next(maxDepth, st, a))
  {
    hide Conserved, CountersOk, DepthsOk, Attended, Next, Enabled;
    ConservedStep(maxDepth, st, a);
    CountersStep(maxDepth, seeds, st, a);
    DepthsStep(maxDepth, st, a);
    AttendedStep(maxDepth, st, a);
  }

  lemma SeenGrows(seen: set<string>, s: string)
    ensures s !in seen ==> multiset(seen + {s}) == multiset(seen) + multiset{s}
  {
  }

  lemma {:induction false} SeededInv(seeds: seq<string>)
    ensures var st := Seeded(seeds);
      && multiset(st.seen) == Bag(st.queue, One) && st.size == |st.queue|
      && (forall i :: 0 <= i < |st.queue| ==> st.queue[i].1 == 0)
  {
    if seeds != [] {
      var front, s := seeds[..|seeds| - 1], seeds[|seeds| - 1];
      SeededInv(front);
      hide Bag;
      BagSnoc(Seeded(front).queue, (s, 0), One);
      SeenGrows(Seeded(front).seen, s);
    }
  }

  lemma {:induction false} SeededSeen(seeds: seq<string>)
    ensures Seeded(seeds).seen == SeedSet(seeds)
  {
    if seeds != [] {
      SeededSeen(seeds[..|seeds| - 1]);
      assert seeds == seeds[..|seeds| - 1] + [seeds[|seeds| - 1]];
    }
  }

  function SeedSet(seeds: seq<string>): set<string> {
    set s | s in seeds
  }

  lemma StartInv(maxDepth: int, seeds: seq<string>, concurrency: nat)
    requires maxDepth >= 0 && concurrency >= 1
    ensures var st := Start(seeds, concurrency); Inv(maxDepth, |st.seen|, st) && st.seen == SeedSet(seeds)
  {
    SeededInv(seeds);
    SeededSeen(seeds);
    hide Seeded;
    var st := Start(seeds, concurrency);
    BagEmpty(st.workers, Held);
    SumZero(st.workers, IsFetching);
    SumZero(st.workers, NotTotalled);
    SumZero(st.workers, NotCounted);
    assert st.workers[0] != Returned;
  }

  lemma {:induction false} InvRun(maxDepth: int, seeds: int, st: State, run: seq<Action>, end: State)
    requires Inv(maxDepth, seeds, st) && Reaches(maxDepth, st, run, end)
    ensures Inv(maxDepth, seeds, end) && |end.workers| == |st.workers|
    decreases |run|
  {
    hide Inv, Next, Enabled;
    if run != [] {
      InvStep(maxDepth, seeds, st, run[0]);
      InvRun(maxDepth, seeds, Next(maxDepth, st, run[0]), run[1..], end);
    }
  }

  // ---------- what every run of the crawler promises ----------

  /** Once all workers have returned, every URL ever seen was popped exactly once, within
      the depth limit, and the counters say so. */
  lemma AllDone(maxDepth: int, seeds: seq<string>, concurrency: nat, run: seq<Action>, end: State)
    requires maxDepth >= 0 && concurrency >= 1 && Reaches(maxDepth, Start(seeds, concurrency), run, end)
    requires forall i :: 0 <= i < |end.workers| ==> end.workers[i] == Returned
    ensures end.queue == [] && end.size == 0 && end.inflight == 0
    ensures multiset(end.seen) == Bag(end.popped, One) && |end.popped| == |end.seen|
    ensures forall i :: 0 <= i < |end.popped| ==> DepthOk(maxDepth, end.popped[i].1)
    ensures end.total == |end.seen|
    ensures end.unique == |end.seen| - |SeedSet(seeds)|
  {
    hide Bag, Sum, Seeded, Reaches;
    var st := Start(seeds, concurrency);
    StartInv(maxDepth, seeds, concurrency);
    InvRun(maxDepth, |st.seen|, st, run, end);
    BagEmpty(end.workers, Held);
    SumZero(end.workers, IsFetching);
    SumZero(end.workers, NotTotalled);
    SumZero(end.workers, NotCounted);
    BagSize(end.popped, One);
    BagNone(end.queue, One);
    assert |multiset(end.seen)| == |end.seen|;
  }

  // ---------- what is found, and from where ----------

  /** The links of a page that may be crawled, each with its depth. */
  function Links(maxDepth: int, depth: int, links: seq<string>): set<Page> {
    if depth + 1 > maxDepth then {} else set l | l in links :: (l, depth + 1)
  }

  function FoundBy(maxDepth: int, st: State, a: Action): set<Page>
    requires Enabled(st, a)
  {
    if a.EndFetch? then Links(maxDepth, st.workers[a.w].page.1, a.links) else {}
  }

  /** All links of all pages fetched in a run. */
  ghost function Discovered(maxDepth: int, st: State, run: seq<Action>): set<Page>
    decreases |run|
  {
    if run == [] || !Enabled(st, run[0]) then {}
    else FoundBy(maxDepth, st, run[0]) + Discovered(maxDepth, Next(maxDepth, st, run[0]), run[1..])
  }

  /** The links a worker has still to look at. */
  function Ahead(maxDepth: int, w: Worker): set<Page> {
    match w
    case Fetched(page, links) => Links(maxDepth, page.1, links)
    case Linking(depth, links) => Links(maxDepth, depth, links)
    case Duplicate(depth, links) => Links(maxDepth, depth, links)
    case Marked(depth, _, links) => Links(maxDepth, depth, links)
    case Counted(depth, _, links) => Links(maxDepth, depth, links)
    case _ => {}
  }

  ghost predicate IsAhead(maxDepth: int, st: State, page: Page) {
    exists w :: 0 <= w < |st.workers| && page in Ahead(maxDepth, st.workers[w])
  }

  /** Of the pages found so far, each URL is seen or still among some worker's links; nothing
      else is seen, queued, popped or in a worker's hands. */
  ghost predicate Traced(maxDepth: int, st: State, found: set<Page>) {
    && (forall page :: page in found ==> page.0 in st.seen || IsAhead(maxDepth, st, page))
    && (forall url :: url in st.seen ==> exists depth :: (url, depth) in found)
    && (forall i :: 0 <= i < |st.queue| ==> st.queue[i] in found)
    && (forall i :: 0 <= i < |st.popped| ==> st.popped[i] in found)
    && (forall w :: 0 <= w < |st.workers| ==>
          && Ahead(maxDepth, st.workers[w]) <= found
          && (Holds(st.workers[w]) ==> (st.workers[w].link, st.workers[w].depth + 1) in found))
  }

  lemma AheadKept(maxDepth: int, st: State, a: Action, page: Page)
    requires Enabled(st, a) && (page.0 in st.seen || IsAhead(maxDepth, st, page) || page in FoundBy(maxDepth, st, a))
    ensures page.0 in Next(maxDepth, st, a).seen || IsAhead(maxDepth, Next(maxDepth, st, a), page)
  {
    var next := Next(maxDepth, st, a);
    if page.0 !in st.seen {
      if page in FoundBy(maxDepth, st, a) {
        assert page in Ahead(maxDepth, next.workers[a.w]);
      } else {
        var w :| 0 <= w < |st.workers| && page in Ahead(maxDepth, st.workers[w]);
        if w != a.w {
          assert page in Ahead(maxDepth, next.workers[w]);
        } else {
          OwnAhead(maxDepth, st, a, page);
        }
      }
    }
  }

  /** The worker whose step it is either marks the link or keeps it ahead. */
  lemma OwnAhead(maxDepth: int, st: State, a: Action, page: Page)
    requires Enabled(st, a) && page in Ahead(maxDepth, st.workers[a.w])
    ensures page.0 in Next(maxDepth, st, a).seen || IsAhead(maxDepth, Next(maxDepth, st, a), page)
  {
    var next, worker := Next(maxDepth, st, a), st.workers[a.w];
    if page.0 !in next.seen {
      if a.NextLink? {
        assert worker.links == [worker.links[0]] + worker.links[1..];
      }
      assert page in Ahead(maxDepth, next.workers[a.w]);
    }
  }

  lemma FirstAhead(maxDepth: int, depth: int, links: seq<string>)
    requires links != [] && depth + 1 <= maxDepth
    ensures (links[0], depth + 1) in Links(maxDepth, depth, links)
    ensures Links(maxDepth, depth, links[1..]) <= Links(maxDepth, depth, links)
  {
    assert links[0] in links;
    assert forall l :: l in links[1..] ==> l in links;
  }

  lemma TracedOwn(maxDepth: int, st: State, found: set<Page>, a: Action)
    requires Enabled(st, a) && Traced(maxDepth, st, found)
    ensures var next, all := Next(maxDepth, st, a), found + FoundBy(maxDepth, st, a);
      && Ahead(maxDepth, next.workers[a.w]) <= all
      && (Holds(next.workers[a.w]) ==> (next.workers[a.w].link, next.workers[a.w].depth + 1) in all)
      && (next.seen == st.seen || (Holds(next.workers[a.w]) && next.seen == st.seen + {next.workers[a.w].link}))
  {
    var worker := st.workers[a.w];
    if a.NextLink? && worker.links != [] {
      assert worker.links == [worker.links[0]] + worker.links[1..];
      if worker.depth + 1 <= maxDepth {
        FirstAhead(maxDepth, worker.depth, worker.links);
      }
    }
  }

  lemma TracedQueues(maxDepth: int, st: State, found: set<Page>, a: Action)
    requires Enabled(st, a) && Traced(maxDepth, st, found)
    ensures var next := Next(maxDepth, st, a);
      && (forall i :: 0 <= i < |next.queue| ==> next.queue[i] in found)
      && (forall i :: 0 <= i < |next.popped| ==> next.popped[i] in found)
  {
  }

  lemma TracedStep(maxDepth: int, st: State, found: set<Page>, a: Action)
    requires Enabled(st, a) && Traced(maxDepth, st, found)
    ensures Traced(maxDepth, Next(maxDepth, st, a), found + FoundBy(maxDepth, st, a))
  {
    var next, all := Next(maxDepth, st, a), found + FoundBy(maxDepth, st, a);
    TracedOwn(maxDepth, st, found, a);
    TracedQueues(maxDepth, st, found, a);
    assert next.workers == st.workers[a.w := next.workers[a.w]];
    hide Next, Ahead, IsAhead, Enabled;
    forall page | page in all
      ensures page.0 in next.seen || IsAhead(maxDepth, next, page)
    {
      AheadKept(maxDepth, st, a, page);
    }
    forall url | url in next.seen
      ensures exists depth :: (url, depth) in all
    {
      if url in st.seen {
        var depth :| (url, depth) in found;
        assert (url, depth) in all;
      } else {
        assert (url, next.workers[a.w].depth + 1) in all;
      }
    }
  }

  lemma {:induction false} TracedRun(maxDepth: int, st: State, found: set<Page>, run: seq<Action>, end: State)
    requires Traced(maxDepth, st, found) && Reaches(maxDepth, st, run, end)
    ensures Traced(maxDepth, end, found + Discovered(maxDepth, st, run))
    decreases |run|
  {
    hide Traced, Next, Enabled, FoundBy;
    if run == [] {
      assert found + {} == found;
    } else {
      var more := FoundBy(maxDepth, st, run[0]);
      var next := Next(maxDepth, st, run[0]);
      TracedStep(maxDepth, st, found, run[0]);
      TracedRun(maxDepth, next, found + more, run[1..], end);
      assert found + more + Discovered(maxDepth, next, run[1..]) == found + (more + Discovered(maxDepth, next, run[1..]));
    }
  }

  function SeedPages(seeds: seq<string>): set<Page> {
    set s | s in seeds :: (s, 0)
  }

  lemma StartTraced(maxDepth: int, seeds: seq<string>, concurrency: nat)
    ensures Traced(maxDepth, Start(seeds, concurrency), SeedPages(seeds))
  {
    SeededInv(seeds);
    SeededSeen(seeds);
    SeededQueue(seeds);
    hide Seeded, Bag;
    forall url | url in SeedSet(seeds)
      ensures exists depth :: (url, depth) in SeedPages(seeds)
    {
      assert (url, 0) in SeedPages(seeds);
    }
  }

  lemma {:induction false} SeededQueue(seeds: seq<string>)
    ensures forall i :: 0 <= i < |Seeded(seeds).queue| ==> Seeded(seeds).queue[i] in SeedPages(seeds)
  {
    if seeds != [] {
      SeededQueue(seeds[..|seeds| - 1]);
      assert seeds == seeds[..|seeds| - 1] + [seeds[|seeds| - 1]];
    }
  }

  /** Once all workers have returned, the URLs seen are the seeds and all links of all pages
      fetched at less than the greatest depth; each was crawled as a seed, or one deeper than
      a page it is on. */
  lemma AllFound(maxDepth: int, seeds: seq<string>, concurrency: nat, run: seq<Action>, end: State)
    requires Reaches(maxDepth, Start(seeds, concurrency), run, end)
    requires forall i :: 0 <= i < |end.workers| ==> end.workers[i] == Returned
    ensures var found := SeedPages(seeds) + Discovered(maxDepth, Start(seeds, concurrency), run);
      && (forall url :: url in end.seen <==> exists depth :: (url, depth) in found)
      && (forall i :: 0 <= i < |end.popped| ==> end.popped[i] in found)
  {
    hide Start, Reaches, Discovered;
    StartTraced(maxDepth, seeds, concurrency);
    TracedRun(maxDepth, Start(seeds, concurrency), SeedPages(seeds), run, end);
    var found := SeedPages(seeds) + Discovered(maxDepth, Start(seeds, concurrency), run);
    forall page | page in found
      ensures page.0 in end.seen
    {
      assert !IsAhead(maxDepth, end, page);
    }
  }

  /** Pages are popped in the order in which they were queued. */
  lemma {:induction false} PoppedInOrder(maxDepth: int, st: State, run: seq<Action>, end: State)
    requires Reaches(maxDepth, st, run, end)
    ensures st.popped + st.queue <= end.popped + end.queue
    decreases |run|
  {
    if run != [] {
      var next := Next(maxDepth, st, run[0]);
      assert st.popped + st.queue <= next.popped + next.queue by {
        InOrderStep(maxDepth, st, run[0]);
      }
      hide Next, Enabled;
      PoppedInOrder(maxDepth, next, run[1..], end);
    }
  }

  lemma InOrderStep(maxDepth: int, st: State, a: Action)
    requires Enabled(st, a)
    ensures st.popped + st.queue <= Next(maxDepth, st, a).popped + Next(maxDepth, st, a).queue
  {
    var next := Next(maxDepth, st, a);
    if a.Push? {
      assert next.popped + next.queue == st.popped + st.queue + next.queue[|st.queue|..];
    } else if a.TryPop? && st.queue != [] {
      assert st.popped + [st.queue[0]] + st.queue[1..] == st.popped + st.queue;
    }
  }

  // ---------- how much is found ----------

  function WithinDepth(maxDepth: int, depth: int, links: seq<string>): int {
    if depth + 1 > maxDepth then 0 else |links|
  }

  /** The links a worker has still to count as new or as seen before. */
  function Owed(maxDepth: int): Worker -> int {
    (w: Worker) => match w
      case Fetched(page, links) => WithinDepth(maxDepth, page.1, links)
      case Linking(depth, links) => WithinDepth(maxDepth, depth, links)
      case Duplicate(depth, links) => 1 + WithinDepth(maxDepth, depth, links)
      case Marked(depth, _, links) => 1 + WithinDepth(maxDepth, depth, links)
      case Counted(depth, _, links) => WithinDepth(maxDepth, depth, links)
      case _ => 0
  }

  ghost function LinkCount(maxDepth: int, st: State, run: seq<Action>): int
    decreases |run|
  {
    if run == [] || !Enabled(st, run[0]) then 0
    else
      (if run[0].EndFetch? then WithinDepth(maxDepth, st.workers[run[0].w].page.1, run[0].links) else 0)
      + LinkCount(maxDepth, Next(maxDepth, st, run[0]), run[1..])
  }

  /** Of the links counted so far and still to be counted. */
  function Tallied(maxDepth: int, st: State): int {
    st.unique + st.duplicates + Sum(st.workers, Owed(maxDepth))
  }

  lemma TalliedStep(maxDepth: int, st: State, a: Action)
    requires Enabled(st, a) && DepthsOk(maxDepth, st)
    ensures Tallied(maxDepth, Next(maxDepth, st, a)) - Tallied(maxDepth, st)
         == if a.EndFetch? then WithinDepth(maxDepth, st.workers[a.w].page.1, a.links) else 0
  {
    hide Sum;
    var next := Next(maxDepth, st, a);
    SumUpdate(st.workers, a.w, next.workers[a.w], Owed(maxDepth));
    assert WorkerOk(maxDepth, st.workers[a.w]);
  }

  lemma {:induction false} TalliedRun(maxDepth: int, st: State, run: seq<Action>, end: State)
    requires DepthsOk(maxDepth, st) && Reaches(maxDepth, st, run, end)
    ensures Tallied(maxDepth, end) - Tallied(maxDepth, st) == LinkCount(maxDepth, st, run)
    decreases |run|
  {
    hide DepthsOk, Next, Enabled, Tallied;
    if run != [] {
      TalliedStep(maxDepth, st, run[0]);
      DepthsStep(maxDepth, st, run[0]);
      TalliedRun(maxDepth, Next(maxDepth, st, run[0]), run[1..], end);
    }
  }

  lemma {:induction false} SeededCounts(seeds: seq<string>)
    ensures Seeded(seeds).duplicates == 0 && Seeded(seeds).unique == 0
  {
    if seeds != [] {
      SeededCounts(seeds[..|seeds| - 1]);
    }
  }

  /** And every link on such a page has been counted once, as new or as seen before. */
  lemma AllCounted(maxDepth: int, seeds: seq<string>, concurrency: nat, run: seq<Action>, end: State)
    requires maxDepth >= 0 && concurrency >= 1 && Reaches(maxDepth, Start(seeds, concurrency), run, end)
    requires forall i :: 0 <= i < |end.workers| ==> end.workers[i] == Returned
    ensures end.unique + end.duplicates == LinkCount(maxDepth, Start(seeds, concurrency), run)
  {
    var st := Start(seeds, concurrency);
    StartInv(maxDepth, seeds, concurrency);
    TalliedRun(maxDepth, st, run, end);
    SeededCounts(seeds);
    SumZero(st.workers, Owed(maxDepth));
    SumZero(end.workers, Owed(maxDepth));
    hide Sum, Seeded, Reaches, LinkCount;
  }

  /** Nobody is ever stuck: a worker that has not returned has a step to take. */
  lemma NotStuck(st: State, w: nat)
    requires w < |st.workers| && st.workers[w] != Returned
    ensures exists a :: Enabled(st, a) && a.w == w
  {
    var a := match st.workers[w]
      case Popping => Check(w)
      case Checked => TryPop(w)
      case Got(_) => StartFetch(w)
      case Fetching(_) => EndFetch(w, [])
      case Fetched(_, _) => CountPage(w)
      case Linking(_, _) => NextLink(w)
      case Duplicate(_, _) => CountDuplicate(w)
      case Marked(_, _, _) => CountUnique(w)
      case Counted(_, _, _) => Push(w)
      case Returned => Check(w);
    assert Enabled(st, a);
  }

  // ---------- work still to come ----------

  lemma ReachesCons(maxDepth: int, st: State, a: Action, run: seq<Action>, end: State)
    requires Enabled(st, a) && Reaches(maxDepth, Next(maxDepth, st, a), run, end)
    ensures Reaches(maxDepth, st, [a] + run, end)
  {
    assert ([a] + run)[1..] == run;
    hide Enabled, Next;
  }

  /** Some continuation counts another page. */
  ghost predicate WorkToCome(maxDepth: int, st: State) {
    exists run, end :: Reaches(maxDepth, st, run, end) && end.total > st.total
  }

  /** A link that will be marked and pushed when its turn comes. */
  ghost predicate Fresh(maxDepth: int, st: State, depth: int, links: seq<string>) {
    depth + 1 <= maxDepth && exists i :: 0 <= i < |links| && links[i] !in st.seen
  }

  /** This worker still has a page to count, or a link to push. */
  ghost predicate Busy(maxDepth: int, st: State, w: Worker) {
    match w
    case Popping => false
    case Checked => false
    case Returned => false
    case Linking(depth, links) => Fresh(maxDepth, st, depth, links)
    case Duplicate(depth, links) => Fresh(maxDepth, st, depth, links)
    case _ => true
  }

  ghost predicate SomeBusy(maxDepth: int, st: State) {
    exists w :: 0 <= w < |st.workers| && Busy(maxDepth, st, st.workers[w])
  }

  /** Nothing queued and nobody busy. */
  ghost predicate Quiet(maxDepth: int, st: State) {
    st.queue == [] && !SomeBusy(maxDepth, st)
  }

  lemma QuietStep(maxDepth: int, st: State, a: Action)
    requires Enabled(st, a) && Quiet(maxDepth, st)
    ensures Quiet(maxDepth, Next(maxDepth, st, a)) && Next(maxDepth, st, a).total == st.total
  {
    var next := Next(maxDepth, st, a);
    var worker := st.workers[a.w];
    assert !Busy(maxDepth, st, worker);
    assert next.seen == st.seen && next.queue == [] && next.total == st.total;
    assert !Busy(maxDepth, next, next.workers[a.w]);
    forall w | 0 <= w < |next.workers|
      ensures !Busy(maxDepth, next, next.workers[w])
    {
      assert !Busy(maxDepth, st, st.workers[w]);
    }
  }

  lemma {:induction false} QuietRun(maxDepth: int, st: State, run: seq<Action>, end: State)
    requires Quiet(maxDepth, st) && Reaches(maxDepth, st, run, end)
    ensures end.total == st.total
    decreases |run|
  {
    hide Quiet, Enabled, Next;
    if run != [] {
      QuietStep(maxDepth, st, run[0]);
      QuietRun(maxDepth, Next(maxDepth, st, run[0]), run[1..], end);
    }
  }

  /** A worker that has popped a page counts it. */
  lemma FromGot(maxDepth: int, st: State, w: nat)
    requires w < |st.workers| && (st.workers[w].Got? || st.workers[w].Fetching? || st.workers[w].Fetched?)
    ensures WorkToCome(maxDepth, st)
    decreases if st.workers[w].Got? then 2 else if st.workers[w].Fetching? then 1 else 0
  {
    var a := if st.workers[w].Got? then StartFetch(w) else if st.workers[w].Fetching? then EndFetch(w, []) else CountPage(w);
    var next := Next(maxDepth, st, a);
    if st.workers[w].Fetched? {
      assert Reaches(maxDepth, next, [], next);
      ReachesCons(maxDepth, st, a, [], next);
    } else {
      FromGot(maxDepth, next, w);
      LaterWork(maxDepth, st, a);
    }
  }

  /** Work to come after a step that counts nothing was to come before it. */
  lemma LaterWork(maxDepth: int, st: State, a: Action)
    requires Enabled(st, a) && Next(maxDepth, st, a).total == st.total && WorkToCome(maxDepth, Next(maxDepth, st, a))
    ensures WorkToCome(maxDepth, st)
  {
    hide Enabled, Next;
    var run, end :| Reaches(maxDepth, Next(maxDepth, st, a), run, end) && end.total > Next(maxDepth, st, a).total;
    ReachesCons(maxDepth, st, a, run, end);
  }

  /** A worker in front of a filled queue pops from it. */
  lemma FromPopping(maxDepth: int, st: State, w: nat)
    requires w < |st.workers| && st.queue != [] && (st.workers[w] == Popping || st.workers[w] == Checked)
    ensures WorkToCome(maxDepth, st)
    decreases if st.workers[w] == Popping then 1 else 0
  {
    if st.workers[w] == Popping {
      FromPopping(maxDepth, Next(maxDepth, st, Check(w)), w);
      LaterWork(maxDepth, st, Check(w));
    } else {
      FromGot(maxDepth, Next(maxDepth, st, TryPop(w)), w);
      LaterWork(maxDepth, st, TryPop(w));
    }
  }

  /** How many steps a worker among its links needs to its next pop, at most. */
  function Left(w: Worker): nat {
    match w
    case Linking(_, links) => 4 * |links| + 1
    case Duplicate(_, links) => 4 * |links| + 2
    case Counted(_, _, links) => 4 * |links| + 2
    case Marked(_, _, links) => 4 * |links| + 3
    case _ => 0
  }

  function LinkStep(w: nat, worker: Worker): Action {
    match worker
    case Duplicate(_, _) => CountDuplicate(w)
    case Marked(_, _, _) => CountUnique(w)
    case Counted(_, _, _) => Push(w)
    case _ => NextLink(w)
  }

  predicate AmongLinks(worker: Worker) {
    worker.Linking? || worker.Duplicate? || worker.Marked? || worker.Counted?
  }

  lemma LinkOnward(maxDepth: int, st: State, w: nat)
    requires w < |st.workers| && AmongLinks(st.workers[w]) && (st.queue != [] || Busy(maxDepth, st, st.workers[w]))
    ensures Enabled(st, LinkStep(w, st.workers[w]))
    ensures var next := Next(maxDepth, st, LinkStep(w, st.workers[w]));
      && next.total == st.total && (next.queue != [] || Busy(maxDepth, next, next.workers[w]))
      && (if AmongLinks(next.workers[w]) then Left(next.workers[w]) < Left(st.workers[w])
          else next.workers[w] == Popping && next.queue != [])
  {
    var worker := st.workers[w];
    var next := Next(maxDepth, st, LinkStep(w, worker));
    if worker.Linking? && worker.links != [] && Busy(maxDepth, st, worker) {
      var i :| 0 <= i < |worker.links| && worker.links[i] !in st.seen;
      if worker.links[0] in st.seen {
        assert worker.links[1..][i - 1] == worker.links[i];
      }
    }
  }

  /** A worker among its links, with a page queued or a link to push, comes to a page. */
  lemma {:induction false} FromLinks(maxDepth: int, st: State, w: nat)
    requires w < |st.workers| && AmongLinks(st.workers[w]) && (st.queue != [] || Busy(maxDepth, st, st.workers[w]))
    ensures WorkToCome(maxDepth, st)
    decreases Left(st.workers[w])
  {
    LinkOnward(maxDepth, st, w);
    hide Busy, WorkToCome;
    var a := LinkStep(w, st.workers[w]);
    var next := Next(maxDepth, st, a);
    if AmongLinks(next.workers[w]) {
      FromLinks(maxDepth, next, w);
    } else {
      FromPopping(maxDepth, next, w);
    }
    LaterWork(maxDepth, st, a);
  }

  /** In every reachable state: a page will still be counted in some continuation exactly when
      one is queued or some worker is busy. */
  lemma WorkToComeIff(maxDepth: int, seeds: int, st: State)
    requires Inv(maxDepth, seeds, st)
    ensures WorkToCome(maxDepth, st) <==> !Quiet(maxDepth, st)
  {
    if Quiet(maxDepth, st) {
      forall run, end | Reaches(maxDepth, st, run, end)
        ensures end.total == st.total
      {
        QuietRun(maxDepth, st, run, end);
      }
    } else {
      hide WorkToCome, Conserved, CountersOk, DepthsOk;
      var w :| 0 <= w < |st.workers| && (if st.queue != [] then st.workers[w] != Returned else Busy(maxDepth, st, st.workers[w]));
      var worker := st.workers[w];
      if AmongLinks(worker) {
        FromLinks(maxDepth, st, w);
      } else if worker.Got? || worker.Fetching? || worker.Fetched? {
        FromGot(maxDepth, st, w);
      } else {
        FromPopping(maxDepth, st, w);
      }
    }
  }

  /** The worker returns, although a page will still be counted. */
  ghost predicate LeavesEarly(maxDepth: int, st: State, w: nat)
    requires Enabled(st, Check(w))
  {
    var next := Next(maxDepth, st, Check(w));
    next.workers[w] == Returned && WorkToCome(maxDepth, next)
  }

  /** Exactly when a worker leaves while work is still to come: the queue is empty, nobody is
      fetching, and some worker has a page to count or a link to push. */
  lemma LeavesEarlyIff(maxDepth: int, seeds: seq<string>, concurrency: nat, run: seq<Action>, st: State, w: nat)
    requires maxDepth >= 0 && concurrency >= 1 && Reaches(maxDepth, Start(seeds, concurrency), run, st)
    requires Enabled(st, Check(w))
    ensures LeavesEarly(maxDepth, st, w) <==>
      && st.queue == [] && SomeBusy(maxDepth, st)
      && forall u :: 0 <= u < |st.workers| ==> !st.workers[u].Fetching?
  {
    var n := |Start(seeds, concurrency).seen|;
    var next := Next(maxDepth, st, Check(w));
    StartInv(maxDepth, seeds, concurrency);
    InvRun(maxDepth, n, Start(seeds, concurrency), run, st);
    InvStep(maxDepth, n, st, Check(w));
    WorkToComeIff(maxDepth, n, next);
    SumBounds(st.workers, IsFetching);
    if forall u :: 0 <= u < |st.workers| ==> !st.workers[u].Fetching? {
      SumZero(st.workers, IsFetching);
    }
    SameBusy(maxDepth, st, next, w);
    hide Sum, Bag, Reaches, WorkToCome, Busy, Conserved, DepthsOk, Start, SomeBusy;
  }

  lemma SameBusy(maxDepth: int, st: State, next: State, w: nat)
    requires Enabled(st, Check(w)) && next == Next(maxDepth, st, Check(w))
    ensures SomeBusy(maxDepth, next) <==> SomeBusy(maxDepth, st)
  {
    assert next.seen == st.seen;
    assert forall u :: 0 <= u < |st.workers| ==>
      (Busy(maxDepth, next, next.workers[u]) <==> Busy(maxDepth, st, st.workers[u]));
  }

  // ---------- such a run ----------

  ghost predicate Leads(st: State, a: Action, next: State) {
    Enabled(st, a) && Next(1, st, a) == next
  }

  lemma {:induction false} ReachesSnoc(st: State, run: seq<Action>, mid: State, a: Action, next: State)
    requires Reaches(1, st, run, mid) && Leads(mid, a, next)
    ensures Reaches(1, st, run + [a], next)
    decreases |run|
  {
    hide Enabled, Next;
    if run == [] {
      assert ([] + [a])[1..] == [];
    } else {
      assert (run + [a])[1..] == run[1..] + [a];
      ReachesSnoc(Next(1, st, run[0]), run[1..], mid, a, next);
    }
  }

  function Early(i: nat): State {
    var got := State([], 0, 0, {"a"}, 0, 0, 0, [Got(("a", 0)), Popping], [("a", 0)]);
    var left := got.(workers := [Linking(0, ["b"]), Returned], total := 1);
    match i
    case 0 => State([("a", 0)], 1, 0, {"a"}, 0, 0, 0, [Popping, Popping], [])
    case 1 => State([("a", 0)], 1, 0, {"a"}, 0, 0, 0, [Checked, Popping], [])
    case 2 => got
    case 3 => got.(workers := [Got(("a", 0)), Returned])
    case 4 => got.(workers := [Fetching(("a", 0)), Returned], inflight := 1)
    case 5 => got.(workers := [Fetched(("a", 0), ["b"]), Returned])
    case 6 => left
    case 7 => left.(workers := [Marked(0, "b", []), Returned], seen := {"a", "b"})
    case 8 => left.(workers := [Counted(0, "b", []), Returned], seen := {"a", "b"}, unique := 1)
    case _ =>
      left.(workers := [Linking(0, []), Returned], seen := {"a", "b"}, unique := 1, queue := [("b", 1)], size := 1)
  }

  const EARLY_RUN := [Check(0), TryPop(0), Check(1), StartFetch(0), EndFetch(0, ["b"]), CountPage(0), NextLink(0), CountUnique(0), Push(0)]

  lemma PopSteps()
    ensures Leads(Early(0), Check(0), Early(1)) && Leads(Early(1), TryPop(0), Early(2))
    ensures Leads(Early(2), Check(1), Early(3))
  {
  }

  lemma FetchSteps()
    ensures Leads(Early(3), StartFetch(0), Early(4)) && Leads(Early(4), EndFetch(0, ["b"]), Early(5))
    ensures Leads(Early(5), CountPage(0), Early(6))
  {
  }

  lemma LinkSteps()
    ensures Leads(Early(6), NextLink(0), Early(7)) && Leads(Early(7), CountUnique(0), Early(8))
    ensures Leads(Early(8), Push(0), Early(9))
  {
    assert ["b"][1..] == [] && {"a"} + {"b"} == {"a", "b"} && [] + [("b", 1)] == [("b", 1)];
  }

  lemma EarlyStep(i: nat)
    requires i < 9
    ensures Leads(Early(i), EARLY_RUN[i], Early(i + 1))
  {
    hide Early, Leads;
    PopSteps();
    FetchSteps();
    LinkSteps();
  }

  lemma {:induction false} EarlyRun(i: nat)
    requires i <= 9
    ensures Reaches(1, Early(0), EARLY_RUN[..i], Early(i))
  {
    hide Early, Leads;
    if i > 0 {
      EarlyStep(i - 1);
      EarlyRun(i - 1);
      assert EARLY_RUN[..i] == EARLY_RUN[..i - 1] + [EARLY_RUN[i - 1]];
      ReachesSnoc(Early(0), EARLY_RUN[..i - 1], Early(i - 1), EARLY_RUN[i - 1], Early(i));
    }
  }

  lemma StartA()
    ensures Start(["a"], 2) == Early(0)
  {
    assert ["a"][..0] == [];
    assert Seeded([]) == State([], 0, 0, {}, 0, 0, 0, [], []);
    assert {} + {"a"} == {"a"} && [] + [("a", 0)] == [("a", 0)];
  }

  /** One worker has returned although a page is in the queue. */
  ghost predicate LeftEarly(end: State) {
    |end.workers| == 2 && end.workers[1] == Returned && end.queue == [("b", 1)]
  }

  /** A worker can leave although work is still to come: the other one holds the only URL,
      between its pop and the start of its fetch. */
  lemma EarlyLeaver()
    ensures exists run, end :: Reaches(1, Start(["a"], 2), run, end) && LeftEarly(end)
  {
    StartA();
    EarlyRun(9);
    assert LeftEarly(Early(9));
  }
}
