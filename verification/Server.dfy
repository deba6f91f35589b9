/** The write commands over all databases: what each promises on the flat view, and the
    handlers that keep the promise on shards. */
module Server {
  import opened Text
  import opened SortedSet
  import opened Keyspace
  import opened ShardOps

  // ---------- the promise: one flat map per database ----------

  datatype Config = Config(hash: string -> nat, text: ScoreText, now: int)

  type FlatDb = imap<string, Slot>

  ghost predicate Total(view: FlatDb) {
    forall key: string :: key in view
  }

  ghost function EmptyView(): (view: FlatDb)
    ensures forall key: string :: key in view && view[key] == EMPTY_SLOT
  {
    View(_ => 0, seq(SHARD_COUNT, _ => EMPTY_SHARD))
  }

  function CommandName(args: seq<string>): string {
    if args == [] then "" else ToUpper(args[0])
  }

  /** ZINCRBY reads a 64-bit integer, ZINCRBYFLOAT a score. */
  function Increment(text: ScoreText, name: string, s: string): Option<Score> {
    if name == "ZINCRBY" then Stoll(s) else text.parse(s)
  }

  /** The commands that change one name: what they leave under it, or None for an error
      reply or a command of another sort. */
  function SlotEffect(cfg: Config, slot: Slot, args: seq<string>): Option<Slot> {
    var n, name := |args|, CommandName(args);
    if name == "SET" then
      (if n < 3 || SetExpiry(args, cfg.now).None? then None
       else Some(slot.(store := Some(StoreData(args[2], SetExpiry(args, cfg.now).value)))))
    else if name == "HSET" then (if n < 4 || n % 2 != 0 then None else Some(HSetSlot(slot, args)))
    else if name == "HDEL" then (if n < 3 then None else Some(HDelSlot(slot, SetOf(args[2..]))))
    else if name == "RPUSH" then (if n < 3 then None else Some(RPushSlot(slot, args[2..])))
    else if name == "SADD" then (if n < 3 then None else Some(SAddSlot(slot, SetOf(args[2..]))))
    else if name == "SREM" then (if n < 3 then None else Some(SRemSlot(slot, SetOf(args[2..]))))
    else if name == "ZADD" then (if n < 4 || n % 2 != 0 then None else Some(ZAddSlot(cfg.text, slot, args)))
    else if name == "ZREM" then (if n < 3 then None else Some(ZDropSlot(slot, SetOf(args[2..]))))
    else if name == "ZINCRBY" || name == "ZINCRBYFLOAT" then
      (if n != 4 || Increment(cfg.text, name, args[2]).None? then None
       else Some(ZIncrSlot(slot, args[3], Increment(cfg.text, name, args[2]).value)))
    else if name == "ZREMRANGEBYSCORE" then
      (if n != 4 || cfg.text.parse(args[2]).None? || cfg.text.parse(args[3]).None?
          || cfg.text.parse(args[2]).value > cfg.text.parse(args[3]).value then None
       else Some(ZDropSlot(slot, InRange(OrElse(slot.scores, map[]), cfg.text.parse(args[2]).value,
                                         cfg.text.parse(args[3]).value))))
    else None
  }

  /** The commands that change one name. */
  const ONE_NAME: set<string> :=
    {"SET", "HSET", "HDEL", "RPUSH", "SADD", "SREM", "ZADD", "ZREM", "ZINCRBY", "ZINCRBYFLOAT", "ZREMRANGEBYSCORE"}

  /** Their replies, by what they find and what they leave: mostly how many elements that is
      more or less. */
  function SlotReply(cfg: Config, slot: Slot, args: seq<string>): Reply {
    var name := CommandName(args);
    match SlotEffect(cfg, slot, args)
    case None => Err
    case Some(after) =>
      if name == "SET" then Ok
      else if name == "HSET" then Count(|OrElse(after.hash, map[])| - |OrElse(slot.hash, map[])|)
      else if name == "HDEL" then Count(|OrElse(slot.hash, map[])| - |OrElse(after.hash, map[])|)
      else if name == "RPUSH" then Count(|OrElse(after.list, [])|)
      else if name == "SADD" then Count(|OrElse(after.members, {})| - |OrElse(slot.members, {})|)
      else if name == "SREM" then Count(|OrElse(slot.members, {})| - |OrElse(after.members, {})|)
      else if name == "ZADD" then
        (if exists i :: 2 <= i < |args| && i % 2 == 0 && cfg.text.parse(args[i]).None? then Err
         else Count(|OrElse(after.scores, map[])| - |OrElse(slot.scores, map[])|))
      else if name == "ZREM" then Count(|OrElse(slot.scores, map[])| - |OrElse(after.scores, map[])|)
      else if name == "ZREMRANGEBYSCORE" then
        (if slot.scores.None? then Count(-1) else Count(|slot.scores.value| - |OrElse(after.scores, map[])|))
      else if |args| == 4 && args[3] in OrElse(after.scores, map[]) then Value(after.scores.value[args[3]])
      else Null
  }

  /** What a command replies; None for a command that is not in the model. */
  ghost function ReplyTo(cfg: Config, view: FlatDb, args: seq<string>): Option<Reply>
    requires Total(view)
  {
    var n, name := |args|, CommandName(args);
    if name in ONE_NAME then Some(if n < 2 then Err else SlotReply(cfg, view[args[1]], args))
    else if name == "DEL" then Some(if n < 2 then Err else Count(|StringsAmong(view, SetOf(args[1..]))|))
    else if name == "FLUSHDB" then Some(if n >= 2 && IsFlush(args) then Ok else Err)
    else if name == "SELECT" then
      Some(if n == 2 && Stoi(args[1]).Some? && 0 <= Stoi(args[1]).value < DB_COUNT then Ok else Err)
    else if name == "SMOVE" then
      Some(if n != 4 then Err
           else if args[1] == args[2] || args[3] in OrElse(view[args[1]].members, {}) then Count(1)
           else Count(0))
    else if name == "RENAME" then
      Some(if n != 3 || (args[1] != args[2] && FirstKind(view[args[1]]).None?) then Err else Ok)
    else if name == "RENAMENX" then
      Some(if n != 3 || (args[1] != args[2] && FirstKind(view[args[1]]).None?) then Err
           else Count(if args[1] != args[2] && FirstKind(view[args[2]]).Some? then 0 else 1))
    else None
  }

  /** The replies that depend on the arguments alone. */
  function Immediate(args: seq<string>): Option<Reply> {
    var n, name := |args|, CommandName(args);
    if name == "FLUSHDB" then Some(if n >= 2 && IsFlush(args) then Ok else Err)
    else if name == "SELECT" then
      Some(if n == 2 && Stoi(args[1]).Some? && 0 <= Stoi(args[1]).value < DB_COUNT then Ok else Err)
    else if name in ONE_NAME || name in {"DEL", "SMOVE", "RENAME", "RENAMENX"} then Some(Err)
    else None
  }

  predicate SameShard(hash: string -> nat, a: string, b: string) {
    ShardIndex(hash, a) == ShardIndex(hash, b)
  }

  /** The commands that move between two names: what they leave under the source and the target. */
  function PairEffect(cfg: Config, source: Slot, target: Slot, args: seq<string>): Option<(Slot, Slot)> {
    var n, name := |args|, CommandName(args);
    if name == "SMOVE" && n == 4 then Some(SMoveSlots(source, target, args[3]))
    else if name == "RENAME" && n == 3 then
      Some(RenameSlots(source, target, SameShard(cfg.hash, args[1], args[2])))
    else if name == "RENAMENX" && n == 3 then
      Some(RenameNxSlots(source, target, SameShard(cfg.hash, args[1], args[2])))
    else None
  }

  /** DEL erases strings only. */
  ghost function DelView(view: FlatDb, keys: set<string>): (r: FlatDb)
    requires Total(view)
    ensures Total(r)
  {
    imap key: string :: if key in keys then view[key].(store := None) else view[key]
  }

  predicate IsFlush(args: seq<string>) {
    |args| == 2 && CommandName(args) == "FLUSHDB" && ToUpper(args[1]) == "CONFIRM"
  }

  /** The effect of a command on the selected database. A name outside these lists is
      treated as the server treats a name missing from its table: no effect. */
  ghost function NextView(cfg: Config, view: FlatDb, args: seq<string>): (r: FlatDb)
    requires Total(view)
    ensures Total(r)
  {
    if |args| < 2 then view
    else if IsFlush(args) then EmptyView()
    else if CommandName(args) == "DEL" then DelView(view, SetOf(args[1..]))
    else match SlotEffect(cfg, view[args[1]], args)
      case Some(slot) => view[args[1] := slot]
      case None => PairView(cfg, view, args)
  }

  /** All databases, and the one the connection has selected. */
  datatype Abs = Abs(views: seq<FlatDb>, db: nat)

  ghost predicate AbsOk(st: Abs) {
    |st.views| == DB_COUNT && st.db < DB_COUNT && forall d :: 0 <= d < DB_COUNT ==> Total(st.views[d])
  }

  function SelectDb(args: seq<string>, db: nat): (r: nat)
    requires db < DB_COUNT
    ensures r < DB_COUNT
  {
    if |args| == 2 && CommandName(args) == "SELECT" then
      match Stoi(args[1])
      case Some(d) => if 0 <= d < DB_COUNT then d else db
      case None => db
    else db
  }

  ghost function Apply(cfg: Config, st: Abs, args: seq<string>): (r: Abs)
    requires AbsOk(st)
    ensures AbsOk(r)
  {
    Abs(st.views[st.db := NextView(cfg, st.views[st.db], args)], SelectDb(args, st.db))
  }

  ghost function ApplyAll(cfg: Config, st: Abs, cmds: seq<seq<string>>): (r: Abs)
    requires AbsOk(st)
    ensures AbsOk(r)
    decreases |cmds|
  {
    if cmds == [] then st else ApplyAll(cfg, Apply(cfg, st, cmds[0]), cmds[1..])
  }

  lemma {:induction false} ApplyAllConcat(cfg: Config, st: Abs, a: seq<seq<string>>, b: seq<seq<string>>)
    requires AbsOk(st)
    ensures ApplyAll(cfg, st, a + b) == ApplyAll(cfg, ApplyAll(cfg, st, a), b)
    decreases |a|
  {
    hide Apply;
    if a == [] {
      assert a + b == b;
    } else {
      assert (a + b)[1..] == a[1..] + b;
      ApplyAllConcat(cfg, Apply(cfg, st, a[0]), a[1..], b);
    }
  }

  // ---------- when the program goes astray ----------

  /** Whether a two-name command uses a stale reference. */
  predicate PairStale(cfg: Config, source: Slot, target: Slot, args: seq<string>, grows: bool) {
    var n, name := |args|, CommandName(args);
    n >= 3 && args[1] != args[2] &&
    var same := SameShard(cfg.hash, args[1], args[2]);
    || (name == "SMOVE" && n == 4 && SMoveStale(source, target, same, grows))
    || (name == "RENAME" && n == 3 && RenameStale(source, target, same, grows))
    || (name == "RENAMENX" && n == 3 && RenameNxStale(source, target, same, grows))
  }

  ghost predicate StaleAt(cfg: Config, view: FlatDb, args: seq<string>, grows: bool)
    requires Total(view)
  {
    |args| >= 3 && PairStale(cfg, view[args[1]], view[args[2]], args, grows)
  }

  /** One command: None when it uses a stale reference. */
  ghost function Outcome(cfg: Config, st: Abs, args: seq<string>, grows: bool): (r: Option<Abs>)
    requires AbsOk(st)
    ensures r.Some? ==> AbsOk(r.value)
  {
    if StaleAt(cfg, st.views[st.db], args, grows) then None else Some(Apply(cfg, st, args))
  }

  /** A run of commands; grows(i) tells whether the i-th command of all grows its table. */
  ghost function RunOutcome(cfg: Config, st: Abs, cmds: seq<seq<string>>, grows: nat -> bool, n: nat): (r: Option<Abs>)
    requires AbsOk(st)
    ensures r.Some? ==> AbsOk(r.value)
    decreases |cmds|
  {
    if cmds == [] then Some(st)
    else match Outcome(cfg, st, cmds[0], grows(n))
      case None => None
      case Some(next) => RunOutcome(cfg, next, cmds[1..], grows, n + 1)
  }

  /** A run that does not go astray does what the flat machine does. */
  lemma {:induction false} DefinedRunApplies(cfg: Config, st: Abs, cmds: seq<seq<string>>, grows: nat -> bool, n: nat)
    requires AbsOk(st)
    ensures RunOutcome(cfg, st, cmds, grows, n).Some? ==>
      RunOutcome(cfg, st, cmds, grows, n).value == ApplyAll(cfg, st, cmds)
    decreases |cmds|
  {
    hide Apply, StaleAt;
    if cmds != [] {
      DefinedRunApplies(cfg, Apply(cfg, st, cmds[0]), cmds[1..], grows, n + 1);
    }
  }

  /** And it goes astray exactly when some command, in the state the ones before it lead to,
      uses a stale reference. */
  lemma {:induction false} RunUndefinedIff(cfg: Config, st: Abs, cmds: seq<seq<string>>, grows: nat -> bool, n: nat)
    requires AbsOk(st)
    ensures RunOutcome(cfg, st, cmds, grows, n).None? <==>
      exists i :: 0 <= i < |cmds| && StaleCommand(cfg, st, cmds, grows, n, i)
    decreases |cmds|
  {
    hide Apply, StaleAt;
    if cmds != [] {
      var next, rest := Apply(cfg, st, cmds[0]), cmds[1..];
      RunUndefinedIff(cfg, next, rest, grows, n + 1);
      assert cmds[..0] == [];
      assert StaleCommand(cfg, st, cmds, grows, n, 0) <==> StaleAt(cfg, st.views[st.db], cmds[0], grows(n));
      if RunOutcome(cfg, next, rest, grows, n + 1).None? {
        var i :| 0 <= i < |rest| && StaleCommand(cfg, next, rest, grows, n + 1, i);
        StaleShift(cfg, st, cmds, grows, n, i);
      }
      if i :| 0 <= i < |cmds| && StaleCommand(cfg, st, cmds, grows, n, i) {
        if i > 0 {
          StaleShift(cfg, st, cmds, grows, n, i - 1);
        }
      }
    }
  }

  lemma StaleShift(cfg: Config, st: Abs, cmds: seq<seq<string>>, grows: nat -> bool, n: nat, i: nat)
    requires AbsOk(st) && i + 1 < |cmds|
    ensures StaleCommand(cfg, Apply(cfg, st, cmds[0]), cmds[1..], grows, n + 1, i) <==> StaleCommand(cfg, st, cmds, grows, n, i + 1)
  {
    hide Apply, StaleAt;
    assert cmds[..i + 1][1..] == cmds[1..][..i];
  }

  ghost predicate StaleCommand(cfg: Config, st: Abs, cmds: seq<seq<string>>, grows: nat -> bool, n: nat, i: nat)
    requires AbsOk(st) && i < |cmds|
  {
    var before := ApplyAll(cfg, st, cmds[..i]);
    StaleAt(cfg, before.views[before.db], cmds[i], grows(n + i))
  }

  lemma {:induction false} RunOutcomeConcat(cfg: Config, st: Abs, a: seq<seq<string>>, b: seq<seq<string>>,
                                            grows: nat -> bool, n: nat)
    requires AbsOk(st)
    ensures RunOutcome(cfg, st, a + b, grows, n)
         == match RunOutcome(cfg, st, a, grows, n)
            case None => None
            case Some(mid) => RunOutcome(cfg, mid, b, grows, n + |a|)
    decreases |a|
  {
    hide Outcome;
    if a == [] {
      assert a + b == b;
    } else {
      assert (a + b)[1..] == a[1..] + b;
      var first := Outcome(cfg, st, a[0], grows(n));
      if first.Some? {
        RunOutcomeConcat(cfg, first.value, a[1..], b, grows, n + 1);
      }
    }
  }

  // ---------- inside one shard ----------

  const SORTED_SET: set<string> := {"ZADD", "ZREM", "ZINCRBY", "ZINCRBYFLOAT", "ZREMRANGEBYSCORE"}

  method OnSortedSet(cfg: Config, s: Shard, args: seq<string>) returns (r: Shard, reply: Reply)
    requires |args| >= 2 && SlotOk(At(s, args[1])) && CommandName(args) in SORTED_SET
    ensures match SlotEffect(cfg, At(s, args[1]), args)
      case None => r == s
      case Some(slot) => Became(s, args[1], r, slot)
    ensures reply == SlotReply(cfg, At(s, args[1]), args)
  {
    hide At, SlotOk, DiffersOnlyAt, ZAddSlot, ZDropSlot, ZIncrSlot, InRange, SetOf;
    var n, name := |args|, CommandName(args);
    r, reply := s, Err;
    if name == "ZADD" {
      if n >= 4 && n % 2 == 0 {
        r, reply := ZAdd(cfg.text, s, args);
      }
    } else if name == "ZREM" {
      if n >= 3 {
        r, reply := ZRem(s, args);
      }
    } else if name == "ZINCRBY" || name == "ZINCRBYFLOAT" {
      if n == 4 {
        var incr := Increment(cfg.text, name, args[2]);
        if incr.Some? {
          r, reply := ZIncrBy(s, args[1], args[3], incr.value);
        }
      }
    } else if n == 4 {
      var lo, hi := cfg.text.parse(args[2]), cfg.text.parse(args[3]);
      if lo.Some? && hi.Some? {
        r, reply := ZRemRangeByScore(s, args[1], lo.value, hi.value);
      }
    }
  }

  method OnShard(cfg: Config, s: Shard, args: seq<string>) returns (r: Shard, reply: Reply)
    requires |args| >= 2 && SlotOk(At(s, args[1]))
    ensures match SlotEffect(cfg, At(s, args[1]), args)
      case None => r == s
      case Some(slot) => Became(s, args[1], r, slot)
    ensures CommandName(args) in ONE_NAME ==> reply == SlotReply(cfg, At(s, args[1]), args)
  {
    hide At, SlotOk, DiffersOnlyAt, SetExpiry, HSetSlot, HDelSlot, RPushSlot, SAddSlot, SRemSlot, ZAddSlot, ZDropSlot, ZIncrSlot,
         InRange, SetOf;
    var n, name := |args|, CommandName(args);
    r, reply := s, Err;
    if name in SORTED_SET {
      r, reply := OnSortedSet(cfg, s, args);
    } else if name == "SET" {
      if n >= 3 {
        r, reply := Set(s, args, cfg.now);
      }
    } else if name == "HSET" {
      if n >= 4 && n % 2 == 0 {
        r, reply := HSet(s, args);
      }
    } else if name == "HDEL" {
      if n >= 3 {
        r, reply := HDel(s, args);
      }
    } else if name == "RPUSH" {
      if n >= 3 {
        r, reply := RPush(s, args);
      }
    } else if name == "SADD" {
      if n >= 3 {
        r, reply := SAdd(s, args);
      }
    } else if name == "SREM" {
      if n >= 3 {
        r, reply := SRem(s, args);
      }
    }
  }

  // ---------- the handlers on all shards ----------

  ghost function StringsAmong(view: FlatDb, keys: set<string>): set<string>
    requires Total(view)
  {
    set key | key in keys && view[key].store.Some?
  }

  lemma DelNone(view: FlatDb, args: seq<string>)
    requires Total(view) && |args| >= 1
    ensures DelView(view, SetOf(args[1..1])) == view
    ensures StringsAmong(view, SetOf(args[1..1])) == {}
  {
  }

  lemma DelStep(view: FlatDb, args: seq<string>, i: nat)
    requires Total(view) && 1 <= i < |args|
    ensures var before, after := SetOf(args[1..i]), SetOf(args[1..i + 1]);
      var slot := DelView(view, before)[args[i]];
      && DelView(view, after) == DelView(view, before)[args[i] := slot.(store := None)]
      && (slot.store.None? ==> DelView(view, after) == DelView(view, before))
      && |StringsAmong(view, after)| == |StringsAmong(view, before)| + (if slot.store.Some? then 1 else 0)
  {
    SetOfSnoc(args, 1, i);
    DelOne(view, SetOf(args[1..i]), args[i]);
  }

  lemma DelAt(view: FlatDb, keys: set<string>, key: string)
    requires Total(view)
    ensures DelView(view, keys)[key] == if key in keys then view[key].(store := None) else view[key]
  {
  }

  lemma DelMore(view: FlatDb, keys: set<string>, key: string)
    requires Total(view)
    ensures DelView(view, keys + {key}) == DelView(view, keys)[key := DelView(view, keys)[key].(store := None)]
  {
  }

  lemma StringsMore(view: FlatDb, keys: set<string>, key: string)
    requires Total(view)
    ensures StringsAmong(view, keys + {key})
         == StringsAmong(view, keys) + (if view[key].store.Some? then {key} else {})
    ensures key in StringsAmong(view, keys) <==> key in keys && view[key].store.Some?
  {
  }

  lemma DelOne(view: FlatDb, keys: set<string>, key: string)
    requires Total(view)
    ensures var slot := DelView(view, keys)[key];
      && DelView(view, keys + {key}) == DelView(view, keys)[key := slot.(store := None)]
      && (slot.store.None? ==> DelView(view, keys + {key}) == DelView(view, keys))
      && |StringsAmong(view, keys + {key})| == |StringsAmong(view, keys)| + (if slot.store.Some? then 1 else 0)
  {
    hide DelView, StringsAmong;
    DelAt(view, keys, key);
    DelMore(view, keys, key);
    StringsMore(view, keys, key);
    var before, slot := DelView(view, keys), DelView(view, keys)[key];
    assert slot.store.None? ==> before[key := slot.(store := None)] == before;
    var all := StringsAmong(view, keys);
    assert key in all ==> all + {key} == all;
  }

  /** The part of a command's effect that concerns two names. */
  ghost function PairView(cfg: Config, view: FlatDb, args: seq<string>): (r: FlatDb)
    requires Total(view)
    ensures Total(r)
  {
    if |args| < 3 || args[1] == args[2] then view
    else match PairEffect(cfg, view[args[1]], view[args[2]], args)
      case Some(pair) => view[args[2] := pair.1][args[1] := pair.0]
      case None => view
  }

  class ServerData {
    const hash: string -> nat
    const text: ScoreText
    var dbs: seq<seq<Shard>>
    /** Reading of the steady clock, in nanoseconds. */
    var now: int

    ghost predicate Valid()
      reads this
    {
      DbsOk(hash, dbs)
    }

    /** What is held under each name of each database. */
    ghost function Held(): (views: seq<FlatDb>)
      requires Valid()
      reads this
      ensures |views| == DB_COUNT && forall d :: 0 <= d < DB_COUNT ==> Total(views[d])
    {
      Views(hash, dbs)
    }

    function Settings(): Config
      reads this
    {
      Config(hash, text, now)
    }

    constructor (hash: string -> nat, text: ScoreText)
      ensures Valid() && this.hash == hash && this.text == text
      ensures forall d :: 0 <= d < DB_COUNT ==> Held()[d] == EmptyView()
    {
      this.hash, this.text, now := hash, text, 0;
      dbs := seq(DB_COUNT, _ => seq(SHARD_COUNT, _ => EMPTY_SHARD));
    }

    method Read(db: nat, key: string) returns (s: Shard)
      requires Valid() && db < DB_COUNT
      ensures s == dbs[db][ShardIndex(hash, key)]
      ensures At(s, key) == Held()[db][key] && SlotOk(At(s, key))
    {
      s := dbs[db][ShardIndex(hash, key)];
    }

    /** One shard written back. Every handler changes data through this. */
    method Write(db: nat, key: string, s: Shard)
      requires Valid() && db < DB_COUNT
      requires DiffersOnlyAt(dbs[db][ShardIndex(hash, key)], s, key) && SlotOk(At(s, key))
      modifies this`dbs
      ensures Valid()
      ensures Held() == old(Held())[db := old(Held())[db][key := At(s, key)]]
    {
      hide View, ViewOk, At, SlotOk, DiffersOnlyAt;
      DbsOfWrite(hash, dbs, db, key, s);
      dbs := dbs[db := dbs[db][ShardIndex(hash, key) := s]];
    }

    method HandleOne(db: nat, args: seq<string>) returns (reply: Reply)
      requires Valid() && db < DB_COUNT && |args| >= 2
      modifies this`dbs
      ensures Valid()
      ensures match SlotEffect(Settings(), old(Held())[db][args[1]], args)
        case None => Held() == old(Held())
        case Some(slot) => Held() == old(Held())[db := old(Held())[db][args[1] := slot]]
      ensures CommandName(args) in ONE_NAME ==> reply == SlotReply(Settings(), old(Held())[db][args[1]], args)
    {
      hide View, Views, ViewOk, At, SlotOk, DiffersOnlyAt, DbsOk, SlotEffect;
      var before := Read(db, args[1]);
      var s;
      s, reply := OnShard(Settings(), before, args);
      if s == before {
        ghost var held := Held();
        assert held[db] == held[db][args[1] := held[db][args[1]]];
      } else {
        Write(db, args[1], s);
      }
    }

    /** The reply counts the names that held a string. */
    method HandleDel(db: nat, args: seq<string>) returns (reply: Reply)
      requires Valid() && db < DB_COUNT
      modifies this`dbs
      ensures Valid()
      ensures |args| < 2 ==> reply == Err && Held() == old(Held())
      ensures |args| >= 2 ==>
        && Held() == old(Held())[db := DelView(old(Held())[db], SetOf(args[1..]))]
        && reply == Count(|StringsAmong(old(Held())[db], SetOf(args[1..]))|)
    {
      hide View, Views, ViewOk, SlotOk, DbsOk, DelView, StringsAmong, DiffersOnlyAt;
      if |args| < 2 {
        return Err;
      }
      ghost var before := Held();
      var count, i := 0, 1;
      DelNone(before[db], args);
      while i < |args|
        invariant 1 <= i <= |args| && Valid()
        invariant Held() == before[db := DelView(before[db], SetOf(args[1..i]))]
        invariant count == |StringsAmong(before[db], SetOf(args[1..i]))|
      {
        DelStep(before[db], args, i);
        var s := Read(db, args[i]);
        if args[i] in s.store {
          s := EraseIn(s, args[i], Strings);
          Write(db, args[i], s);
          count := count + 1;
        }
        i := i + 1;
      }
      assert args[1..i] == args[1..];
      return Count(count);
    }

    /** Defined exactly unless the iterator to the source set has gone stale. */
    method HandleSMove(db: nat, args: seq<string>, grows: bool) returns (reply: Reply, defined: bool)
      requires Valid() && db < DB_COUNT && |args| == 4 && CommandName(args) == "SMOVE"
      modifies this`dbs
      ensures defined <==> !StaleAt(Settings(), old(Held())[db], args, grows)
      ensures defined ==>
        && Valid()
        && Held() == old(Held())[db := PairView(Settings(), old(Held())[db], args)]
        && Some(reply) == ReplyTo(Settings(), old(Held())[db], args)
    {
      hide View, Views, ViewOk, DbsOk;
      var source, target, member := args[1], args[2], args[3];
      defined := true;
      if source == target {
        reply := Count(1);
        return;
      }
      ghost var view := Held()[db];
      var src := Read(db, source);
      var dst := Read(db, target);
      if source !in src.sets {
        assert view == view[target := view[target]][source := view[source]];
        reply := Count(0);
      } else if target !in dst.sets && grows && ShardIndex(hash, source) == ShardIndex(hash, target) {
        reply, defined := Err, false;
      } else {
        reply := MoveMember(db, source, target, member);
      }
    }

    method MoveMember(db: nat, source: string, target: string, member: string) returns (reply: Reply)
      requires Valid() && db < DB_COUNT && source != target && Held()[db][source].members.Some?
      modifies this`dbs
      ensures Valid()
      ensures var view := old(Held())[db];
        var pair := SMoveSlots(view[source], view[target], member);
        && Held() == old(Held())[db := view[target := pair.1][source := pair.0]]
        && reply == Count(if member in view[source].members.value then 1 else 0)
    {
      hide View, Views, ViewOk, DbsOk;
      ghost var view := Held()[db];
      var src := Read(db, source);
      var dst := Read(db, target);
      var into := OrElse(Find(dst.sets, target), {});
      if member !in src.sets[source] {
        Write(db, target, dst.(sets := Assign(dst.sets, target, Some(into))));
        assert Held()[db] == Held()[db][source := view[source]];
        return Count(0);
      }
      Write(db, target, dst.(sets := Assign(dst.sets, target, Some(into + {member}))));
      src := Read(db, source);
      var left := src.sets[source] - {member};
      Write(db, source, src.(sets := Assign(src.sets, source, if left == {} then None else Some(left))));
      return Count(1);
    }

    /** The data of one type moved from a name to another name. */
    method MoveName(db: nat, key: string, newKey: string, kind: Kind, grows: bool) returns (defined: bool)
      requires Valid() && db < DB_COUNT && key != newKey
      requires FirstKind(Held()[db][key]) == Some(kind)
      modifies this`dbs
      ensures defined <==> !MoveStale(kind, old(Held())[db][newKey], SameShard(hash, key, newKey), grows)
      ensures defined ==>
        var view := old(Held())[db];
        var into := MoveKind(kind, view[key], view[newKey], SameShard(hash, key, newKey));
        Valid() && Held() == old(Held())[db := view[newKey := into][key := EraseKind(view[key], kind)]]
    {
      hide View, Views, ViewOk, DbsOk, At, SlotOk, DiffersOnlyAt, FirstKind, EraseKind, MoveKind, MoveStale;
      var from := Read(db, key);
      var into := Read(db, newKey);
      into, defined := MoveIn(kind, from, key, into, newKey, ShardIndex(hash, key) == ShardIndex(hash, newKey), grows);
      if defined {
        Write(db, newKey, into);
        from := Read(db, key);
        from := EraseIn(from, key, kind);
        Write(db, key, from);
      }
    }

    /** Defined exactly unless the reference to the moved value has gone stale. */
    method HandleRename(db: nat, args: seq<string>, grows: bool) returns (reply: Reply, defined: bool)
      requires Valid() && db < DB_COUNT && |args| == 3
      requires CommandName(args) == "RENAME" || CommandName(args) == "RENAMENX"
      modifies this`dbs
      ensures defined <==> !StaleAt(Settings(), old(Held())[db], args, grows)
      ensures defined ==>
        && Valid()
        && Held() == old(Held())[db := PairView(Settings(), old(Held())[db], args)]
        && Some(reply) == ReplyTo(Settings(), old(Held())[db], args)
    {
      hide View, Views, ViewOk, DbsOk, At, SlotOk, DiffersOnlyAt, FirstKind, EraseKind, MoveKind, PairView, StaleAt, MoveStale;
      var key, newKey := args[1], args[2];
      RenamePair(Settings(), Held()[db], args);
      RenameStaleAt(Settings(), Held()[db], args, grows);
      reply, defined := if CommandName(args) == "RENAMENX" then Count(1) else Ok, true;
      if key == newKey {
        return;
      }
      var s := Read(db, key);
      var kind := KindIn(s, key);
      if kind.None? {
        reply := Err;
        return;
      }
      s := Read(db, newKey);
      var target := KindIn(s, newKey);
      if target.Some? {
        if CommandName(args) == "RENAMENX" {
          reply := Count(0);
          return;
        }
        s := EraseIn(s, newKey, target.value);
        Write(db, newKey, s);
      }
      ghost var view := Held()[db];
      assert view == view[newKey := view[newKey]];
      defined := MoveName(db, key, newKey, kind.value, grows);
    }

    method HandleFlushDb(db: nat)
      requires Valid() && db < DB_COUNT
      modifies this`dbs
      ensures Valid()
      ensures Held() == old(Held())[db := EmptyView()]
    {
      hide View, ViewOk, Placed;
      PlacedCount(hash, dbs[db]);
      var shards, i := dbs[db], 0;
      while i < SHARD_COUNT
        invariant 0 <= i <= SHARD_COUNT && |shards| == SHARD_COUNT
        invariant forall j :: 0 <= j < i ==> shards[j] == EMPTY_SHARD
      {
        shards := shards[i := EMPTY_SHARD];
        i := i + 1;
      }
      EmptyShards(hash, shards);
      dbs := dbs[db := shards];
    }

    /** executeTable for the write commands: the whole effect, on the flat view, and the reply. */
    method Execute(db: nat, args: seq<string>, grows: bool) returns (db': nat, defined: bool, reply: Option<Reply>)
      requires Valid() && db < DB_COUNT
      modifies this`dbs
      ensures match Outcome(Settings(), Abs(old(Held()), db), args, grows)
        case None => !defined
        case Some(next) => defined && Valid() && db' < DB_COUNT && Abs(Held(), db') == next
      ensures defined ==> reply == ReplyTo(Settings(), old(Held())[db], args)
    {
      hide View, Views, ViewOk, DbsOk, At, SlotOk, DiffersOnlyAt, SlotEffect, PairEffect, DelView, PairStale, SlotReply, StringsAmong;
      db', defined := SelectDb(args, db), true;
      var name := CommandName(args);
      if (name == "SMOVE" && |args| == 4) || ((name == "RENAME" || name == "RENAMENX") && |args| == 3) {
        NotOneName(Settings(), Held()[db][args[1]], args);
        var r;
        if name == "SMOVE" {
          r, defined := HandleSMove(db, args, grows);
        } else {
          r, defined := HandleRename(db, args, grows);
        }
        return db', defined, Some(r);
      }
      NeverStale(Settings(), Held()[db], args, grows);
      reply := Immediate(args);
      if |args| < 2 {
      } else if IsFlush(args) {
        HandleFlushDb(db);
      } else if name == "DEL" {
        var r := HandleDel(db, args);
        reply := Some(r);
      } else {
        NoPair(Settings(), Held()[db], args);
        var r := HandleOne(db, args);
        if name in ONE_NAME {
          reply := Some(r);
        }
      }
    }

    /** Any run of commands does on the shards what it promises on the flat maps, or goes
        astray at the same command. */
    method Run(db: nat, cmds: seq<seq<string>>, grows: nat -> bool, n: nat) returns (db': nat, defined: bool)
      requires Valid() && db < DB_COUNT
      modifies this`dbs
      ensures match RunOutcome(Settings(), Abs(old(Held()), db), cmds, grows, n)
        case None => !defined
        case Some(end) => defined && Valid() && db' < DB_COUNT && Abs(Held(), db') == end
    {
      hide View, Views, ViewOk, DbsOk, Outcome, ReplyTo, SlotReply, Immediate, StaleAt, Apply, Placed;
      db', defined := db, true;
      var i := 0;
      assert cmds[0..] == cmds;
      while i < |cmds|
        invariant 0 <= i <= |cmds| && Valid() && db' < DB_COUNT && defined
        invariant RunOutcome(Settings(), Abs(Held(), db'), cmds[i..], grows, n + i)
               == RunOutcome(Settings(), Abs(old(Held()), db), cmds, grows, n)
      {
        ghost var st, rest := Abs(Held(), db'), cmds[i..];
        assert rest[0] == cmds[i] && rest[1..] == cmds[i + 1..];
        var reply;
        db', defined, reply := Execute(db', cmds[i], grows(n + i));
        if !defined {
          return;
        }
        i := i + 1;
      }
    }
  }

  /** RENAME and RENAMENX, spelt out on the view. */
  lemma RenameStaleAt(cfg: Config, view: FlatDb, args: seq<string>, grows: bool)
    requires Total(view) && |args| == 3
    requires CommandName(args) == "RENAME" || CommandName(args) == "RENAMENX"
    ensures var key, newKey := args[1], args[2];
      var kind, target := FirstKind(view[key]), FirstKind(view[newKey]);
      StaleAt(cfg, view, args, grows) <==>
        && key != newKey && kind.Some? && !(target.Some? && CommandName(args) == "RENAMENX")
        && var cleared := if target.None? then view[newKey] else EraseKind(view[newKey], target.value);
           MoveStale(kind.value, cleared, SameShard(cfg.hash, key, newKey), grows)
  {
    hide FirstKind, EraseKind, MoveStale;
  }

  lemma NeverStale(cfg: Config, view: FlatDb, args: seq<string>, grows: bool)
    requires Total(view)
    requires !(CommandName(args) == "SMOVE" && |args| == 4)
    requires !(CommandName(args) in {"RENAME", "RENAMENX"} && |args| == 3)
    ensures !StaleAt(cfg, view, args, grows)
  {
  }

  lemma EmptyShards(hash: string -> nat, shards: seq<Shard>)
    requires |shards| == SHARD_COUNT && forall j :: 0 <= j < SHARD_COUNT ==> shards[j] == EMPTY_SHARD
    ensures Placed(hash, shards) && View(hash, shards) == EmptyView() && ViewOk(EmptyView())
  {
  }

  /** RENAME and RENAMENX, spelt out on the view. */
  lemma RenamePair(cfg: Config, view: FlatDb, args: seq<string>)
    requires Total(view) && |args| == 3
    requires CommandName(args) == "RENAME" || CommandName(args) == "RENAMENX"
    ensures var key, newKey := args[1], args[2];
      var kind, target := FirstKind(view[key]), FirstKind(view[newKey]);
      PairView(cfg, view, args) ==
        if key == newKey || kind.None? || (target.Some? && CommandName(args) == "RENAMENX") then view
        else
          var cleared := if target.None? then view[newKey] else EraseKind(view[newKey], target.value);
          var into := MoveKind(kind.value, view[key], cleared, SameShard(cfg.hash, key, newKey));
          view[newKey := cleared][newKey := into][key := EraseKind(view[key], kind.value)]
  {
    hide FirstKind, EraseKind, MoveKind;
    var key, newKey := args[1], args[2];
    assert key != newKey ==> view == view[newKey := view[newKey]][key := view[key]];
  }

  lemma NotOneName(cfg: Config, slot: Slot, args: seq<string>)
    requires CommandName(args) in {"SMOVE", "RENAME", "RENAMENX"}
    ensures SlotEffect(cfg, slot, args).None?
  {
  }

  lemma NoPair(cfg: Config, view: FlatDb, args: seq<string>)
    requires Total(view)
    requires !(CommandName(args) == "SMOVE" && |args| == 4)
    requires !(CommandName(args) in {"RENAME", "RENAMENX"} && |args| == 3)
    ensures PairView(cfg, view, args) == view
  {
  }
}
