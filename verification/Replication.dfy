/** From a master's snapshot to a replica's data, over the byte stream between them. */
module Replication {
  import opened Text
  import opened SortedSet
  import opened Keyspace
  import opened ShardOps
  import opened Server
  import opened Resp
  import opened StreamParser
  import opened Snapshot
  import opened FlatMachine

  // ---------- the master's side ----------

  ghost function Start(): (st: Abs)
    ensures AbsOk(st) && st.db == 0 && forall d :: 0 <= d < DB_COUNT ==> st.views[d] == EmptyView()
  {
    Abs(seq(DB_COUNT, _ => EmptyView()), 0)
  }

  lemma SelectEffect(cfg: Config, st: Abs, d: nat)
    requires AbsOk(st) && d < DB_COUNT
    ensures Apply(cfg, st, ["SELECT", FromInt(d)]) == Abs(st.views, d)
    ensures GrowsAt(cfg, st, ["SELECT", FromInt(d)])
  {
    UpperNames();
    IntRoundTrip(d, INT_MIN, INT_MAX, "");
    assert FromInt(d) + "" == FromInt(d);
    hide FromInt, ParseInt;
    assert NextView(cfg, st.views[st.db], ["SELECT", FromInt(d)]) == st.views[st.db];
    assert st.views[st.db := st.views[st.db]] == st.views;
  }

  lemma {:induction false} ApplyTidy(cfg: Config, st: Abs, cmds: seq<Command>, writable: bool)
    requires AbsOk(st) && Tidy(cmds, writable)
    ensures ApplyAll(cfg, st, cmds) == Abs(st.views[st.db := ViewAll(cfg, st.views[st.db], cmds)], st.db)
    decreases |cmds|
  {
    hide NextView, WritableArgs;
    if cmds == [] {
      assert st.views[st.db := st.views[st.db]] == st.views;
    } else {
      var front, last := cmds[..|cmds| - 1], cmds[|cmds| - 1];
      assert cmds == front + [last];
      ApplyTidy(cfg, st, front, writable);
      ApplyAllConcat(cfg, st, front, [last]);
      UpperNames();
      var mid := ApplyAll(cfg, st, front);
      assert ApplyAll(cfg, mid, [last]) == Apply(cfg, mid, last);
      assert SelectDb(last, st.db) == st.db;
    }
  }

  /** Every command adds to what the ones before it have built. */
  ghost predicate Grows(cfg: Config, st: Abs, cmds: seq<Command>)
    requires AbsOk(st)
  {
    forall i :: 0 <= i < |cmds| ==> GrowsAt(cfg, ApplyAll(cfg, st, cmds[..i]), cmds[i])
  }

  ghost predicate GrowsAt(cfg: Config, st: Abs, c: Command)
    requires AbsOk(st)
  {
    Adds(cfg, st.views[st.db], c)
  }

  lemma GrowsConcat(cfg: Config, st: Abs, a: seq<Command>, b: seq<Command>)
    requires AbsOk(st) && Grows(cfg, st, a) && Grows(cfg, ApplyAll(cfg, st, a), b)
    ensures Grows(cfg, st, a + b)
  {
    hide ApplyAll, GrowsAt;
    forall i | 0 <= i < |a + b|
      ensures GrowsAt(cfg, ApplyAll(cfg, st, (a + b)[..i]), (a + b)[i])
    {
      if i < |a| {
        assert (a + b)[..i] == a[..i];
      } else {
        assert (a + b)[..i] == a + b[..i - |a|];
        ApplyAllConcat(cfg, st, a, b[..i - |a|]);
      }
    }
  }

  lemma GrowsTidy(cfg: Config, st: Abs, cmds: seq<Command>, writable: bool)
    requires AbsOk(st) && Tidy(cmds, writable) && Growing(cfg, st.views[st.db], cmds)
    ensures Grows(cfg, st, cmds)
  {
    hide Adds, ApplyAll, ViewAll, WritableArgs;
    forall i | 0 <= i < |cmds|
      ensures GrowsAt(cfg, ApplyAll(cfg, st, cmds[..i]), cmds[i])
    {
      ApplyTidy(cfg, st, cmds[..i], writable);
    }
  }

  lemma GrowsOne(cfg: Config, st: Abs, c: Command)
    requires AbsOk(st) && GrowsAt(cfg, st, c)
    ensures Grows(cfg, st, [c])
  {
    hide GrowsAt;
    assert [c][..0] == [];
  }

  method HasData(shards: seq<Shard>) returns (found: bool)
    ensures !found ==> forall i :: 0 <= i < |shards| ==>
      && shards[i].store == map[] && shards[i].hash == map[] && shards[i].lists == map[]
      && shards[i].sets == map[] && shards[i].zset == map[]
    ensures found ==> exists i, k :: 0 <= i < |shards| && At(shards[i], k) != EMPTY_SLOT
  {
    for i := 0 to |shards|
      invariant forall j :: 0 <= j < i ==>
        && shards[j].store == map[] && shards[j].hash == map[] && shards[j].lists == map[]
        && shards[j].sets == map[] && shards[j].zset == map[]
    {
      var s := shards[i];
      if s.store != map[] || s.hash != map[] || s.lists != map[] || s.sets != map[] || s.zset != map[] {
        ghost var k :| k in s.store || k in s.hash || k in s.lists || k in s.sets || k in s.zset;
        assert At(shards[i], k) != EMPTY_SLOT;
        return true;
      }
    }
    return false;
  }

  lemma NoDataNoImage(hash: string -> nat, shards: seq<Shard>)
    requires Placed(hash, shards) && ViewOk(View(hash, shards))
    requires forall i :: 0 <= i < |shards| ==>
      && shards[i].store == map[] && shards[i].hash == map[] && shards[i].lists == map[]
      && shards[i].sets == map[] && shards[i].zset == map[]
    ensures ImageView(View(hash, shards)) == EmptyView()
  {
    forall k: string
      ensures Image(View(hash, shards)[k]) == EMPTY_SLOT
    {
      hide Agrees;
      var i := ShardIndex(hash, k);
      assert shards[i].store == map[] && shards[i].zset == map[];
      assert SlotOk(View(hash, shards)[k]);
    }
  }

  /** What a replica should end up with in database d, of the n databases sent so far. */
  ghost function Sent(hash: string -> nat, dbs: seq<seq<Shard>>, n: nat): (views: seq<FlatDb>)
    requires DbsOk(hash, dbs)
    ensures |views| == DB_COUNT
    ensures forall d :: 0 <= d < DB_COUNT ==>
      views[d] == if d < n then ImageView(View(hash, dbs[d])) else EmptyView()
  {
    seq(DB_COUNT, d requires 0 <= d < DB_COUNT => if d < n then ImageView(View(hash, dbs[d])) else EmptyView())
  }

  ghost predicate AllScoresPrint(text: ScoreText, dbs: seq<seq<Shard>>) {
    forall d, i :: 0 <= d < |dbs| && 0 <= i < |dbs[d]| ==> ScoresPrint(text, dbs[d][i])
  }

  ghost predicate AllWritable(now: int, dbs: seq<seq<Shard>>) {
    forall d, i :: 0 <= d < |dbs| && 0 <= i < |dbs[d]| ==> WritableShard(now, dbs[d][i])
  }

  ghost predicate Sendable(cmds: seq<Command>, writable: bool) {
    forall i :: 0 <= i < |cmds| ==> cmds[i] != [] && cmds[i][0] in SENT && (writable ==> WritableArgs(cmds[i]))
  }

  lemma SendableConcat(a: seq<Command>, b: seq<Command>, writable: bool)
    requires Sendable(a, writable) && Sendable(b, writable)
    ensures Sendable(a + b, writable)
  {
    hide WritableArgs;
  }

  lemma SendableWeaker(cmds: seq<Command>, writable: bool, weaker: bool)
    requires Sendable(cmds, writable) && (weaker ==> writable)
    ensures Sendable(cmds, weaker)
  {
  }

  lemma NextSent(hash: string -> nat, dbs: seq<seq<Shard>>, d: nat)
    requires DbsOk(hash, dbs) && d < DB_COUNT
    ensures Sent(hash, dbs, d + 1) == Sent(hash, dbs, d)[d := ImageView(View(hash, dbs[d]))]
    ensures ImageView(View(hash, dbs[d])) == EmptyView() ==> Sent(hash, dbs, d + 1) == Sent(hash, dbs, d)
    ensures Sent(hash, dbs, d)[d] == EmptyView()
  {
    hide View, ImageView, EmptyView, Placed, ViewOk;
  }

  lemma NothingSent(hash: string -> nat, dbs: seq<seq<Shard>>)
    requires DbsOk(hash, dbs)
    ensures Sent(hash, dbs, 0) == Start().views
  {
    hide View, ImageView, EmptyView, Placed, ViewOk;
  }

  method EmitSelected(cfg: Config, clock: int, ghost hash: string -> nat, shards: seq<Shard>, d: nat, ghost st: Abs)
    returns (cmds: seq<Command>)
    requires AbsOk(st) && d < DB_COUNT && st.views[d] == EmptyView()
    requires Placed(hash, shards) && ViewOk(View(hash, shards))
    requires forall i :: 0 <= i < SHARD_COUNT ==> ScoresPrint(cfg.text, shards[i])
    ensures ApplyAll(cfg, st, cmds).views == st.views[d := ImageView(View(hash, shards))]
    ensures Sendable(cmds, forall i :: 0 <= i < SHARD_COUNT ==> WritableShard(clock, shards[i]))
    ensures Grows(cfg, st, cmds)
  {
    hide View, ViewAll, ImageView, ScoresPrint, WritableShard, Apply, ApplyAll, EmptyView, WritableArgs, Tidy, FromInt, SlotOk,
         Growing, Grows;
    LiteralArgs(DB_COUNT);
    cmds := EmitDb(cfg, clock, hash, shards);
    OneDatabase(cfg, st, d, cmds, View(hash, shards),
                forall i :: 0 <= i < SHARD_COUNT ==> WritableShard(clock, shards[i]));
    cmds := [["SELECT", FromInt(d)]] + cmds;
  }

  /** cmds are the commands for the first n databases. */
  ghost predicate Covers(cfg: Config, clock: int, hash: string -> nat, dbs: seq<seq<Shard>>, n: nat, cmds: seq<Command>) {
    && DbsOk(hash, dbs)
    && ApplyAll(cfg, Start(), cmds).views == Sent(hash, dbs, n)
    && Sendable(cmds, AllWritable(clock, dbs))
    && Grows(cfg, Start(), cmds)
  }

  lemma CoversNone(cfg: Config, clock: int, hash: string -> nat, dbs: seq<seq<Shard>>)
    requires DbsOk(hash, dbs)
    ensures Covers(cfg, clock, hash, dbs, 0, [])
  {
    NothingSent(hash, dbs);
    hide DbsOk, Sent, Start;
    assert ApplyAll(cfg, Start(), []) == Start();
  }

  lemma CoversMore(cfg: Config, clock: int, hash: string -> nat, dbs: seq<seq<Shard>>, d: nat, cmds: seq<Command>, more: seq<Command>)
    requires Covers(cfg, clock, hash, dbs, d, cmds) && d < DB_COUNT
    requires ApplyAll(cfg, ApplyAll(cfg, Start(), cmds), more).views
          == ApplyAll(cfg, Start(), cmds).views[d := ImageView(View(hash, dbs[d]))]
    requires Sendable(more, forall i :: 0 <= i < SHARD_COUNT ==> WritableShard(clock, dbs[d][i]))
    requires Grows(cfg, ApplyAll(cfg, Start(), cmds), more)
    ensures Covers(cfg, clock, hash, dbs, d + 1, cmds + more)
  {
    hide View, ImageView, WritableShard, ApplyAll, Sent, ViewOk, Start, Sendable, Grows;
    GrowsConcat(cfg, Start(), cmds, more);
    NextSent(hash, dbs, d);
    ApplyAllConcat(cfg, Start(), cmds, more);
    var writable := AllWritable(clock, dbs);
    SendableWeaker(more, forall i :: 0 <= i < SHARD_COUNT ==> WritableShard(clock, dbs[d][i]), writable);
    SendableConcat(cmds, more, writable);
  }

  lemma CoversSame(cfg: Config, clock: int, hash: string -> nat, dbs: seq<seq<Shard>>, d: nat, cmds: seq<Command>)
    requires Covers(cfg, clock, hash, dbs, d, cmds) && d < DB_COUNT && ImageView(View(hash, dbs[d])) == EmptyView()
    ensures Covers(cfg, clock, hash, dbs, d + 1, cmds)
  {
    hide View, ImageView, ApplyAll, Sent, ViewOk, Start, Sendable, EmptyView, Grows;
    NextSent(hash, dbs, d);
  }

  /** Database d: nothing when it has no data, else SELECT and its contents. */
  method EmitNext(cfg: Config, clock: int, ghost hash: string -> nat, dbs: seq<seq<Shard>>, d: nat, cmds: seq<Command>)
    returns (r: seq<Command>)
    requires Covers(cfg, clock, hash, dbs, d, cmds) && d < DB_COUNT && AllScoresPrint(cfg.text, dbs)
    ensures Covers(cfg, clock, hash, dbs, d + 1, r)
  {
    hide View, ImageView, ScoresPrint, WritableShard, ApplyAll, Sent, EmptyView, ViewOk, Start, Sendable, At, Grows;
    var found := HasData(dbs[d]);
    if found {
      NextSent(hash, dbs, d);
      var more := EmitSelected(cfg, clock, hash, dbs[d], d, ApplyAll(cfg, Start(), cmds));
      CoversMore(cfg, clock, hash, dbs, d, cmds, more);
      r := cmds + more;
    } else {
      NoDataNoImage(hash, dbs[d]);
      CoversSame(cfg, clock, hash, dbs, d, cmds);
      r := cmds;
    }
  }

  /** The whole snapshot: run on an empty server, the commands rebuild the image of
      every database. */
  method GenerateRdb(cfg: Config, clock: int, ghost hash: string -> nat, dbs: seq<seq<Shard>>)
    returns (cmds: seq<Command>)
    requires DbsOk(hash, dbs) && AllScoresPrint(cfg.text, dbs)
    ensures Covers(cfg, clock, hash, dbs, DB_COUNT, cmds)
  {
    hide *;
    CoversNone(cfg, clock, hash, dbs);
    cmds := [];
    var d := 0;
    while d < DB_COUNT
      invariant 0 <= d <= DB_COUNT && Covers(cfg, clock, hash, dbs, d, cmds)
    {
      cmds := EmitNext(cfg, clock, hash, dbs, d, cmds);
      d := d + 1;
    }
    CoversEof(cfg, clock, hash, dbs, cmds);
    cmds := cmds + [["EOF"]];
  }

  lemma CoversEof(cfg: Config, clock: int, hash: string -> nat, dbs: seq<seq<Shard>>, cmds: seq<Command>)
    requires Covers(cfg, clock, hash, dbs, DB_COUNT, cmds)
    ensures Covers(cfg, clock, hash, dbs, DB_COUNT, cmds + [["EOF"]])
  {
    LiteralArgs(DB_COUNT);
    assert Sendable([["EOF"]], AllWritable(clock, dbs));
    hide ApplyAll, Sent, DbsOk, Start, WritableArgs, Sendable, AllWritable, Grows, GrowsAt;
    EofEffect(cfg, ApplyAll(cfg, Start(), cmds));
    GrowsOne(cfg, ApplyAll(cfg, Start(), cmds), ["EOF"]);
    GrowsConcat(cfg, Start(), cmds, [["EOF"]]);
    ApplyAllConcat(cfg, Start(), cmds, [["EOF"]]);
    SendableConcat(cmds, [["EOF"]], AllWritable(clock, dbs));
  }

  lemma LiteralArgs(n: nat)
    requires n <= DB_COUNT
    ensures WritableArgs(["EOF"])
    ensures forall d :: 0 <= d < n ==> WritableArgs(["SELECT", FromInt(d)])
  {
    LiteralsWritable();
    forall d | 0 <= d < n
      ensures WritableArgs(["SELECT", FromInt(d)])
    {
      NumberWritable(d);
    }
  }

  lemma EofEffect(cfg: Config, st: Abs)
    requires AbsOk(st)
    ensures ApplyAll(cfg, st, [["EOF"]]).views == st.views && GrowsAt(cfg, st, ["EOF"])
  {
    NoEffect(cfg, st.views[st.db], 0);
    hide NextView;
    assert ApplyAll(cfg, st, [["EOF"]]) == Apply(cfg, st, ["EOF"]);
    assert st.views[st.db := st.views[st.db]] == st.views;
  }

  /** A database's part of the stream changes that database and no other. */
  lemma OneDatabase(cfg: Config, st: Abs, d: nat, body: seq<Command>, view: FlatDb, writable: bool)
    requires AbsOk(st) && d < DB_COUNT && st.views[d] == EmptyView() && Total(view)
    requires ViewAll(cfg, EmptyView(), body) == ImageView(view) && Tidy(body, writable)
    requires Growing(cfg, EmptyView(), body)
    ensures ApplyAll(cfg, st, [["SELECT", FromInt(d)]] + body).views == st.views[d := ImageView(view)]
    ensures Sendable(body, writable) && Grows(cfg, st, [["SELECT", FromInt(d)]] + body)
  {
    hide ViewAll, EmptyView, ImageView, Apply, WritableArgs, FromInt, Growing, Grows, GrowsAt;
    SelectEffect(cfg, st, d);
    ApplyTidy(cfg, Abs(st.views, d), body, writable);
    var c := ["SELECT", FromInt(d)];
    GrowsOne(cfg, st, c);
    assert ApplyAll(cfg, st, [c]) == Abs(st.views, d);
    GrowsTidy(cfg, Abs(st.views, d), body, writable);
    GrowsConcat(cfg, st, [c], body);
    assert ([c] + body)[1..] == body;
  }

  // ---------- the replica's side ----------

  /** args[i].str of a parsed argument. */
  function StrOf(v: RespValue): string {
    match v
    case SimpleString(t) => t
    case Error(t) => t
    case BulkString(t) => t
    case _ => ""
  }

  function ArgsOf(v: RespValue): Command {
    if v.Array? then seq(|v.arr|, i requires 0 <= i < |v.arr| => StrOf(v.arr[i])) else []
  }

  /** The commands a loader runs: non-empty arrays, in order. */
  function Replayed(values: seq<RespValue>): seq<Command> {
    if values == [] then [] else AsCommand(values[0]) + Replayed(values[1..])
  }

  function AsCommand(v: RespValue): seq<Command> {
    if ArgsOf(v) == [] then [] else [ArgsOf(v)]
  }

  /** loadRDBFromMemory: feed, drain, execute, for every piece that arrives. A piece that
      would pass the parser's limit ends the load. */
  method LoadRdb(replica: ServerData, limit: nat, chunks: seq<string>, grows: nat -> bool)
    returns (db: nat, fed: nat, defined: bool)
    requires replica.Valid()
    modifies replica`dbs
    ensures fed <= |chunks| && (defined ==> fed == Accepted(limit, 0, "", chunks))
    ensures match RunOutcome(replica.Settings(), Abs(old(replica.Held()), 0),
                             Replayed(DecodeAll(Joined(chunks[..Accepted(limit, 0, "", chunks)])).values), grows, 0)
      case None => !defined
      case Some(end) => defined && replica.Valid() && db < DB_COUNT && Abs(replica.Held(), db) == end
  {
    hide Outcome, Parse, DbsOk, Views, DecodeAll, RunOutcome, Replayed, Joined, Kept;
    db, fed, defined := 0, 0, true;
    var count := 0;
    var parser := new RespStreamParser(limit);
    NothingLoaded(replica.Settings(), Abs(replica.Held(), 0), grows);
    assert chunks[..0] == [] && chunks[0..] == chunks;
    while fed < |chunks|
      invariant replica.Valid() && parser.Valid() && fed <= |chunks| && db < DB_COUNT && defined
      invariant parser.maxBufferSize == limit && fresh(parser)
      invariant fed + Accepted(limit, parser.parseOffset, parser.Pending(), chunks[fed..]) == Accepted(limit, 0, "", chunks)
      invariant parser.Pending() == DecodeAll(Joined(chunks[..fed])).rest
      invariant count == |Replayed(DecodeAll(Joined(chunks[..fed])).values)|
      invariant RunOutcome(replica.Settings(), Abs(old(replica.Held()), 0),
                           Replayed(DecodeAll(Joined(chunks[..fed])).values), grows, 0)
             == Some(Abs(replica.Held(), db))
    {
      ghost var before := Joined(chunks[..fed]);
      var ok := parser.Feed(chunks[fed]);
      if !ok {
        return;
      }
      var more := parser.Drain();
      DecodeInPieces(before, chunks[fed]);
      JoinedSnoc(chunks[..fed], chunks[fed]);
      assert chunks[..fed + 1] == chunks[..fed] + [chunks[fed]];
      assert chunks[fed..][1..] == chunks[fed + 1..];
      ReplayedConcat(DecodeAll(before).values, more);
      RunOutcomeConcat(replica.Settings(), Abs(old(replica.Held()), 0),
                       Replayed(DecodeAll(before).values), Replayed(more), grows, 0);
      var cmds := Replayed(more);
      db, defined := replica.Run(db, cmds, grows, count);
      fed, count := fed + 1, count + |cmds|;
      if !defined {
        StaysUndefined(replica.Settings(), Abs(old(replica.Held()), 0), chunks, fed, Accepted(limit, 0, "", chunks), grows);
        return;
      }
    }
  }

  lemma NothingLoaded(cfg: Config, st: Abs, grows: nat -> bool)
    requires AbsOk(st)
    ensures DecodeAll(Joined([])).rest == "" && Replayed(DecodeAll(Joined([])).values) == []
    ensures RunOutcome(cfg, st, [], grows, 0) == Some(st)
  {
    NothingDecoded();
  }

  lemma StaysUndefined(cfg: Config, st: Abs, chunks: seq<string>, fed: nat, n: nat, grows: nat -> bool)
    requires AbsOk(st) && fed <= n <= |chunks|
    requires RunOutcome(cfg, st, Replayed(DecodeAll(Joined(chunks[..fed])).values), grows, 0) == None
    ensures RunOutcome(cfg, st, Replayed(DecodeAll(Joined(chunks[..n])).values), grows, 0) == None
  {
    hide DecodeAll, RunOutcome, Replayed, Joined;
    assert chunks[..n] == chunks[..fed] + chunks[fed..n];
    JoinedConcat(chunks[..fed], chunks[fed..n]);
    var data, more := Joined(chunks[..fed]), Joined(chunks[fed..n]);
    DecodeInPieces(data, more);
    ReplayedConcat(DecodeAll(data).values, DecodeAll(DecodeAll(data).rest + more).values);
    RunOutcomeConcat(cfg, st, Replayed(DecodeAll(data).values), Replayed(DecodeAll(DecodeAll(data).rest + more).values), grows, 0);
  }

  lemma {:induction false} ReplayedConcat(a: seq<RespValue>, b: seq<RespValue>)
    ensures Replayed(a + b) == Replayed(a) + Replayed(b)
  {
    hide AsCommand;
    if a == [] {
      assert a + b == b;
    } else {
      ReplayedConcat(a[1..], b);
      assert (a + b)[1..] == a[1..] + b && (a + b)[0] == a[0];
      assert AsCommand(a[0]) + (Replayed(a[1..]) + Replayed(b)) == (AsCommand(a[0]) + Replayed(a[1..])) + Replayed(b);
    }
  }

  lemma {:induction false} ReplayedCommands(cmds: seq<Command>)
    requires forall i :: 0 <= i < |cmds| ==> cmds[i] != []
    ensures Replayed(Commands(cmds)) == cmds
  {
    if cmds != [] {
      ReplayedCommands(cmds[1..]);
      assert Commands(cmds)[1..] == Commands(cmds[1..]);
      assert ArgsOf(Array(Bulks(cmds[0]))) == cmds[0];
    }
  }

  // ---------- the two sides together ----------

  predicate Fits(t: string) {
    |t| <= INT64_MAX
  }

  ghost predicate ExpiriesFit(clock: int, dbs: seq<seq<Shard>>) {
    forall d, i, k :: 0 <= d < |dbs| && 0 <= i < |dbs[d]| && k in dbs[d][i].store ==>
      var e := dbs[d][i].store[k].expire;
      e.Some? ==> (e.value - clock) / NANOS_PER_SECOND < INT64_MAX
  }

  /** What a 64-bit server can hold at all. */
  ghost predicate DataFits(clock: int, hash: string -> nat, dbs: seq<seq<Shard>>)
    requires DbsOk(hash, dbs)
  {
    ExpiriesFit(clock, dbs) && forall d :: 0 <= d < DB_COUNT ==> ViewTexts(Sent(hash, dbs, DB_COUNT)[d], Fits)
  }

  /** No name, field, value or member of the data contains a line end. */
  ghost predicate DataClean(hash: string -> nat, dbs: seq<seq<Shard>>)
    requires DbsOk(hash, dbs)
  {
    forall d :: 0 <= d < DB_COUNT ==> ViewTexts(Sent(hash, dbs, DB_COUNT)[d], CrlfFree)
  }

  lemma SlotWritable(clock: int, s: Shard, k: string)
    requires At(s, k) != EMPTY_SLOT ==>
      (Image(At(s, k)) != EMPTY_SLOT ==> Writable(k) && SlotTexts(Image(At(s, k)), Writable))
    ensures k in s.store ==> Writable(k) && Writable(s.store[k].val)
    ensures k in s.hash && s.hash[k] != map[] ==> Writable(k) && WritableFields(s.hash[k])
    ensures k in s.lists && s.lists[k] != [] ==> Writable(k) && forall v :: v in s.lists[k] ==> Writable(v)
    ensures k in s.sets && s.sets[k] != {} ==> Writable(k) && forall v :: v in s.sets[k] ==> Writable(v)
    ensures k in s.zsetScore && k in s.zset && s.zsetScore[k] != map[] ==>
      Writable(k) && WritableMembers(s.zsetScore[k])
  {
    hide Writable;
    var image := Image(At(s, k));
    if k in s.store {
      assert image.store == Some(StoreData(s.store[k].val, None));
    }
    if k in s.hash && s.hash[k] != map[] {
      assert image.hash == Some(s.hash[k]);
    }
    if k in s.lists && s.lists[k] != [] {
      assert image.list == Some(s.lists[k]);
    }
    if k in s.sets && s.sets[k] != {} {
      assert image.members == Some(s.sets[k]);
    }
    if k in s.zsetScore && k in s.zset && s.zsetScore[k] != map[] {
      assert image.scores == Some(s.zsetScore[k]);
    }
  }

  lemma CleanIsWritable(clock: int, hash: string -> nat, dbs: seq<seq<Shard>>)
    requires DbsOk(hash, dbs) && DataFits(clock, hash, dbs) && DataClean(hash, dbs)
    ensures AllWritable(clock, dbs)
  {
    forall d, i | 0 <= d < |dbs| && 0 <= i < |dbs[d]|
      ensures WritableShard(clock, dbs[d][i])
    {
      ShardWritable(clock, hash, dbs, d, i);
    }
  }

  lemma ShardWritable(clock: int, hash: string -> nat, dbs: seq<seq<Shard>>, d: nat, i: nat)
    requires DbsOk(hash, dbs) && DataFits(clock, hash, dbs) && DataClean(hash, dbs)
    requires d < |dbs| && i < |dbs[d]|
    ensures WritableShard(clock, dbs[d][i])
  {
    var s := dbs[d][i];
    AllSlotsOk(hash, dbs[d], i);
    IndexedScores(s);
    forall k
      ensures k in s.store ==> Writable(k) && Writable(s.store[k].val)
      ensures k in s.hash && s.hash[k] != map[] ==> Writable(k) && WritableFields(s.hash[k])
      ensures k in s.lists && s.lists[k] != [] ==> Writable(k) && forall v :: v in s.lists[k] ==> Writable(v)
      ensures k in s.sets && s.sets[k] != {} ==> Writable(k) && forall v :: v in s.sets[k] ==> Writable(v)
      ensures k in s.zsetScore && s.zsetScore[k] != map[] ==> Writable(k) && WritableMembers(s.zsetScore[k])
    {
      NameWritable(clock, hash, dbs, d, i, k);
      SlotWritable(clock, s, k);
      hide At, Image, SlotTexts, Writable, WritableFields, WritableMembers, DbsOk, DataFits, DataClean;
    }
    hide At, Image, SlotTexts, Writable, WritableFields, WritableMembers, DataClean;
    assert ExpiriesFit(clock, dbs);
  }

  lemma NameWritable(clock: int, hash: string -> nat, dbs: seq<seq<Shard>>, d: nat, i: nat, k: string)
    requires DbsOk(hash, dbs) && DataFits(clock, hash, dbs) && DataClean(hash, dbs)
    requires d < |dbs| && i < |dbs[d]|
    ensures At(dbs[d][i], k) != EMPTY_SLOT ==>
      (Image(At(dbs[d][i], k)) != EMPTY_SLOT ==> Writable(k) && SlotTexts(Image(At(dbs[d][i], k)), Writable))
  {
    hide At, Image, SlotTexts, ViewOk;
    if At(dbs[d][i], k) != EMPTY_SLOT {
      assert ShardIndex(hash, k) == i;
      var image := Sent(hash, dbs, DB_COUNT)[d];
      assert image[k] == Image(At(dbs[d][i], k));
      assert ViewTexts(image, Fits) && ViewTexts(image, CrlfFree);
      if image[k] != EMPTY_SLOT {
        BothTexts(image[k]);
      }
    }
  }

  lemma BothTexts(slot: Slot)
    requires SlotTexts(slot, Fits) && SlotTexts(slot, CrlfFree)
    ensures SlotTexts(slot, Writable)
  {
  }

  /** Whatever bytes a replica receives, no command it runs has a line end in an argument. */
  lemma {:induction false} ReplayedClean(data: string)
    ensures forall i :: 0 <= i < |Replayed(DecodeAll(data).values)| ==>
      ArgTexts(Replayed(DecodeAll(data).values)[i], CrlfFree)
    decreases |data|
  {
    match Parse(data) {
      case Incomplete =>
      case Parsed(v, n) =>
        ParseTransparent(data);
        ReplayedClean(data[n..]);
        ArgsClean(v);
        hide ArgsOf, Parse, ArgTexts;
        var rest := DecodeAll(data[n..]).values;
        assert ([v] + rest)[1..] == rest;
    }
  }

  lemma ArgsClean(v: RespValue)
    requires Transparent(v)
    ensures ArgTexts(ArgsOf(v), CrlfFree)
  {
    var args := ArgsOf(v);
    forall i | 0 <= i < |args|
      ensures CrlfFree(args[i])
    {
      assert Transparent(v.arr[i]);
    }
  }

  /** None of the commands sent moves anything between two names, so none can go astray. */
  lemma {:induction false} SentDefined(cfg: Config, st: Abs, cmds: seq<Command>, grows: nat -> bool, n: nat)
    requires AbsOk(st) && forall i :: 0 <= i < |cmds| ==> cmds[i] != [] && cmds[i][0] in SENT
    ensures RunOutcome(cfg, st, cmds, grows, n) == Some(ApplyAll(cfg, st, cmds))
    decreases |cmds|
  {
    if cmds != [] {
      UpperNames();
      NeverStale(cfg, st.views[st.db], cmds[0], grows(n));
      hide Apply, StaleAt;
      SentDefined(cfg, Apply(cfg, st, cmds[0]), cmds[1..], grows, n + 1);
    }
  }

  ghost predicate Ends(outcome: Option<Abs>, views: seq<FlatDb>) {
    outcome.Some? && outcome.value.views == views
  }

  /** What a replica has loaded never contains a line end, whatever bytes it received. */
  lemma LoadedIsClean(cfg: Config, hash: string -> nat, dbs: seq<seq<Shard>>, data: string, grows: nat -> bool)
    requires DbsOk(hash, dbs)
    requires Ends(RunOutcome(cfg, Start(), Replayed(DecodeAll(data).values), grows, 0), Sent(hash, dbs, DB_COUNT))
    ensures DataClean(hash, dbs)
  {
    var replayed := Replayed(DecodeAll(data).values);
    ReplayedClean(data);
    StartClean();
    RunTexts(cfg, Start(), replayed, CrlfFree);
    hide ApplyAll, ViewTexts, Sent, DecodeAll, DbsOk, Start, RunOutcome;
    DefinedRunApplies(cfg, Start(), replayed, grows, 0);
  }

  predicate Writes(c: Command) {
    c != [] && c[0] in WRITERS
  }

  /** The number of commands up to the last one that writes data. */
  function Needed(cmds: seq<Command>): (n: nat)
    ensures n <= |cmds| && (n > 0 ==> Writes(cmds[n - 1]))
    ensures forall i :: n <= i < |cmds| ==> !Writes(cmds[i])
  {
    if cmds == [] then 0
    else if Writes(cmds[|cmds| - 1]) then |cmds|
    else Needed(cmds[..|cmds| - 1])
  }

  /** The length of the stream up to the end of that command. */
  function DataLength(cmds: seq<Command>): nat {
    |FormatAll(cmds[..Needed(cmds)])|
  }

  ghost predicate Leq(a: Abs, b: Abs)
    requires AbsOk(a) && AbsOk(b)
  {
    forall d :: 0 <= d < DB_COUNT ==> ViewLeq(a.views[d], b.views[d])
  }

  lemma LeqTransitive(a: Abs, b: Abs, c: Abs)
    requires AbsOk(a) && AbsOk(b) && AbsOk(c) && Leq(a, b) && Leq(b, c)
    ensures Leq(a, c)
  {
    forall d, k: string | 0 <= d < DB_COUNT
      ensures SlotLeq(a.views[d][k], c.views[d][k])
    {
      assert ViewLeq(a.views[d], b.views[d]) && ViewLeq(b.views[d], c.views[d]);
      SlotLeqTransitive(a.views[d][k], b.views[d][k], c.views[d][k]);
      hide SlotLeq;
    }
  }

  lemma LeqStep(cfg: Config, st: Abs, c: Command)
    requires AbsOk(st) && GrowsAt(cfg, st, c)
    ensures Leq(st, Apply(cfg, st, c))
    ensures Writes(c) ==> !Leq(Apply(cfg, st, c), st)
    ensures !Writes(c) ==> Apply(cfg, st, c).views == st.views
  {
    hide Adds, ViewLeq, NextView;
    AddsGrows(cfg, st.views[st.db], c);
    if !Writes(c) {
      AddsNothing(cfg, st.views[st.db], c);
    }
    forall d | 0 <= d < DB_COUNT
      ensures ViewLeq(st.views[d], Apply(cfg, st, c).views[d])
    {
      SameLeq(st.views[d]);
    }
    assert st.views[st.db := st.views[st.db]] == st.views;
  }

  lemma AddsNothing(cfg: Config, view: FlatDb, c: Command)
    requires Total(view) && Adds(cfg, view, c) && !Writes(c)
    ensures NextView(cfg, view, c) == view
  {
    hide NextView;
  }

  lemma OneMore(cfg: Config, st: Abs, cmds: seq<Command>, n: nat)
    requires AbsOk(st) && n < |cmds|
    ensures ApplyAll(cfg, st, cmds[..n + 1]) == Apply(cfg, ApplyAll(cfg, st, cmds[..n]), cmds[n])
  {
    hide Apply;
    assert cmds[..n + 1] == cmds[..n] + [cmds[n]];
    ApplyAllConcat(cfg, st, cmds[..n], [cmds[n]]);
    var mid := ApplyAll(cfg, st, cmds[..n]);
    assert ApplyAll(cfg, mid, [cmds[n]]) == ApplyAll(cfg, Apply(cfg, mid, cmds[n]), []);
  }

  lemma {:induction false} LeqRun(cfg: Config, st: Abs, cmds: seq<Command>, i: nat, j: nat)
    requires AbsOk(st) && Grows(cfg, st, cmds) && i <= j <= |cmds|
    ensures Leq(ApplyAll(cfg, st, cmds[..i]), ApplyAll(cfg, st, cmds[..j]))
    ensures (forall k :: i <= k < j ==> !Writes(cmds[k])) ==>
      ApplyAll(cfg, st, cmds[..i]).views == ApplyAll(cfg, st, cmds[..j]).views
    decreases j - i
  {
    hide ApplyAll, Apply, GrowsAt, Leq;
    if i == j {
      LeqSame(ApplyAll(cfg, st, cmds[..i]));
    } else {
      LeqRun(cfg, st, cmds, i, j - 1);
      OneMore(cfg, st, cmds, j - 1);
      LeqStep(cfg, ApplyAll(cfg, st, cmds[..j - 1]), cmds[j - 1]);
      LeqTransitive(ApplyAll(cfg, st, cmds[..i]), ApplyAll(cfg, st, cmds[..j - 1]), ApplyAll(cfg, st, cmds[..j]));
      assert GrowsAt(cfg, ApplyAll(cfg, st, cmds[..j - 1]), cmds[j - 1]);
    }
  }

  lemma LeqSame(st: Abs)
    requires AbsOk(st)
    ensures Leq(st, st)
  {
    forall d | 0 <= d < DB_COUNT
      ensures ViewLeq(st.views[d], st.views[d])
    {
      SameLeq(st.views[d]);
      hide ViewLeq;
    }
  }

  /** Between a and d the data grew, so they differ. */
  lemma GrownBetween(a: Abs, b: Abs, c: Abs, d: Abs)
    requires AbsOk(a) && AbsOk(b) && AbsOk(c) && AbsOk(d)
    requires Leq(a, b) && !Leq(c, b) && Leq(c, d)
    ensures a.views != d.views
  {
    if a.views == d.views {
      LeqTransitive(c, Abs(a.views, d.db), b);
    }
    hide ViewLeq;
  }

  /** Stopped before the last command that writes, a load leaves other data. */
  lemma AllNeeded(cfg: Config, st: Abs, cmds: seq<Command>, n: nat)
    requires AbsOk(st) && Grows(cfg, st, cmds) && n <= |cmds|
    ensures ApplyAll(cfg, st, cmds[..n]).views == ApplyAll(cfg, st, cmds).views <==> Needed(cmds) <= n
  {
    hide ApplyAll, Leq, Apply, Grows, GrowsAt;
    var last := Needed(cmds);
    assert cmds[..|cmds|] == cmds;
    if last <= n {
      LeqRun(cfg, st, cmds, n, |cmds|);
    } else {
      var before := ApplyAll(cfg, st, cmds[..last - 1]);
      LastWrites(cfg, st, cmds, last - 1);
      LeqRun(cfg, st, cmds, last, |cmds|);
      LeqRun(cfg, st, cmds, n, last - 1);
      GrownBetween(ApplyAll(cfg, st, cmds[..n]), before, ApplyAll(cfg, st, cmds[..last]), ApplyAll(cfg, st, cmds));
    }
  }

  lemma LastWrites(cfg: Config, st: Abs, cmds: seq<Command>, n: nat)
    requires AbsOk(st) && Grows(cfg, st, cmds) && n < |cmds| && Writes(cmds[n])
    ensures !Leq(ApplyAll(cfg, st, cmds[..n + 1]), ApplyAll(cfg, st, cmds[..n]))
  {
    hide ApplyAll, Leq, Apply, GrowsAt;
    OneMore(cfg, st, cmds, n);
    assert GrowsAt(cfg, ApplyAll(cfg, st, cmds[..n]), cmds[n]);
    LeqStep(cfg, ApplyAll(cfg, st, cmds[..n]), cmds[n]);
  }

  lemma {:induction false} CompleteIff(cmds: seq<Command>, size: nat, n: nat)
    requires n <= |cmds|
    ensures n <= Complete(cmds, size) <==> |FormatAll(cmds[..n])| <= size
  {
    hide FormatCommand;
    if n > 0 {
      assert cmds[..n][1..] == cmds[1..][..n - 1];
      if |FormatCommand(cmds[0])| <= size {
        CompleteIff(cmds[1..], size - |FormatCommand(cmds[0])|, n - 1);
      }
    }
  }

  lemma CleanPart(cmds: seq<Command>, part: string)
    requires forall i :: 0 <= i < |cmds| ==> cmds[i] != [] && WritableArgs(cmds[i])
    requires part <= FormatAll(cmds)
    ensures Replayed(DecodeAll(part).values) == cmds[..Complete(cmds, |part|)]
  {
    hide WritableArgs, Sized, Clean, DecodeAll, Replayed, FormatAll, FormatCommand, Bulks, Complete;
    AllSized(cmds);
    PartDecodes(cmds, part);
    ReplayedCommands(cmds[..Complete(cmds, |part|)]);
  }

  lemma AllSized(cmds: seq<Command>)
    requires forall i :: 0 <= i < |cmds| ==> WritableArgs(cmds[i])
    ensures forall i :: 0 <= i < |cmds| ==> Sized(cmds[i]) && Clean(cmds[i])
  {
    forall i | 0 <= i < |cmds|
      ensures Sized(cmds[i]) && Clean(cmds[i])
    {
      assert WritableArgs(cmds[i]);
    }
  }

  /** A replica that starts empty and loads some first part of the stream ends with the
      master's data exactly when no text in that data contains a line end and the part
      reaches the end of the last command that writes data. */
  lemma PartMatchesIff(cfg: Config, clock: int, hash: string -> nat, dbs: seq<seq<Shard>>, cmds: seq<Command>,
                       part: string, grows: nat -> bool)
    requires Covers(cfg, clock, hash, dbs, DB_COUNT, cmds) && DataFits(clock, hash, dbs) && part <= FormatAll(cmds)
    ensures Ends(RunOutcome(cfg, Start(), Replayed(DecodeAll(part).values), grows, 0), Sent(hash, dbs, DB_COUNT))
       <==> DataClean(hash, dbs) && DataLength(cmds) <= |part|
  {
    hide ApplyAll, RunOutcome, DecodeAll, Replayed, Sent, DbsOk, Start, Grows, WritableArgs;
    if DataClean(hash, dbs) {
      CleanIsWritable(clock, hash, dbs);
      CleanPart(cmds, part);
      var n := Complete(cmds, |part|);
      SentDefined(cfg, Start(), cmds[..n], grows, 0);
      AllNeeded(cfg, Start(), cmds, n);
      CompleteIff(cmds, |part|, Needed(cmds));
    } else if Ends(RunOutcome(cfg, Start(), Replayed(DecodeAll(part).values), grows, 0), Sent(hash, dbs, DB_COUNT)) {
      LoadedIsClean(cfg, hash, dbs, part, grows);
    }
  }

  /** Exactly when a replica that loads the whole stream ends with the master's data: no text
      in that data contains a line end. */
  lemma ReplicaMatchesIff(cfg: Config, clock: int, hash: string -> nat, dbs: seq<seq<Shard>>, cmds: seq<Command>,
                          grows: nat -> bool)
    requires Covers(cfg, clock, hash, dbs, DB_COUNT, cmds) && DataFits(clock, hash, dbs)
    ensures Ends(RunOutcome(cfg, Start(), Replayed(DecodeAll(FormatAll(cmds)).values), grows, 0), Sent(hash, dbs, DB_COUNT))
       <==> DataClean(hash, dbs)
  {
    hide Ends, DataClean, FormatAll, Grows;
    PartMatchesIff(cfg, clock, hash, dbs, cmds, FormatAll(cmds), grows);
    FormatAllSplit(cmds, Needed(cmds));
  }

  lemma StartClean()
    ensures StateTexts(Start(), CrlfFree)
  {
  }
}
