/** What every write command leaves, name by name and element by element. */
module Effects {
  import opened Text
  import opened SortedSet
  import opened Keyspace
  import opened ShardOps
  import opened Server
  import opened FlatMachine

  /** No name but `key` of the selected database has changed, and the selection has not. */
  ghost predicate OnlyAt(st: Abs, next: Abs, key: string)
    requires AbsOk(st) && AbsOk(next)
  {
    && next.db == st.db
    && (forall d :: 0 <= d < DB_COUNT && d != st.db ==> next.views[d] == st.views[d])
    && (forall k: string :: k != key ==> next.views[st.db][k] == st.views[st.db][k])
  }

  ghost predicate Unchanged(st: Abs, next: Abs)
    requires AbsOk(st) && AbsOk(next)
  {
    next == st
  }

  /** What is held under a name of the selected database. */
  ghost function Under(st: Abs, key: string): Slot
    requires AbsOk(st)
  {
    st.views[st.db][key]
  }

  function FieldsOf(slot: Slot): map<string, string> {
    OrElse(slot.hash, map[])
  }

  function MembersOf(slot: Slot): set<string> {
    OrElse(slot.members, {})
  }

  function ScoresOf(slot: Slot): map<string, Score> {
    OrElse(slot.scores, map[])
  }

  lemma OneName(cfg: Config, st: Abs, args: seq<string>, slot: Slot)
    requires AbsOk(st) && |args| >= 3 && CommandName(args) !in {"DEL", "FLUSHDB", "SELECT"}
    requires SlotEffect(cfg, Under(st, args[1]), args) == Some(slot)
    ensures var next := Apply(cfg, st, args);
      OnlyAt(st, next, args[1]) && Under(next, args[1]) == slot
  {
    hide SlotEffect, CommandName;
  }

  lemma NoName(cfg: Config, st: Abs, args: seq<string>)
    requires AbsOk(st) && |args| >= 2
    requires CommandName(args) !in {"DEL", "FLUSHDB", "SELECT", "SMOVE", "RENAME", "RENAMENX"}
    requires SlotEffect(cfg, Under(st, args[1]), args) == None
    ensures Unchanged(st, Apply(cfg, st, args))
  {
    hide SlotEffect, CommandName;
    var view := st.views[st.db];
    assert PairView(cfg, view, args) == view;
    assert st.views[st.db := view] == st.views;
  }

  // ---------- strings ----------

  /** The expiry that EX (seconds) or PX (milliseconds) asks for. */
  ghost predicate Expires(args: seq<string>, now: int, expire: Option<int>) {
    if |args| >= 5 && ToUpper(args[3]) == "EX" then
      Stoll(args[4]).Some? && Stoll(args[4]).value >= 0 && expire == Some(now + Stoll(args[4]).value * 1_000_000_000)
    else if |args| >= 5 && ToUpper(args[3]) == "PX" then
      Stoll(args[4]).Some? && Stoll(args[4]).value >= 0 && expire == Some(now + Stoll(args[4]).value * 1_000_000)
    else expire == None
  }

  /** SET replaces the string with its expiry, and nothing else; without a readable,
      non-negative expiry where one is asked for, it changes nothing. */
  lemma SetStores(cfg: Config, st: Abs, args: seq<string>)
    requires AbsOk(st) && CommandName(args) == "SET" && |args| >= 3
    ensures var next, before := Apply(cfg, st, args), Under(st, args[1]);
      && (forall expire :: Expires(args, cfg.now, expire) ==>
            OnlyAt(st, next, args[1]) && Under(next, args[1]) == before.(store := Some(StoreData(args[2], expire))))
      && ((forall expire :: !Expires(args, cfg.now, expire)) ==> Unchanged(st, next))
  {
    hide OnlyAt, Unchanged, Apply;
    var expiry := SetExpiry(args, cfg.now);
    if expiry.None? {
      NoName(cfg, st, args);
    } else {
      OneName(cfg, st, args, Under(st, args[1]).(store := Some(StoreData(args[2], expiry.value))));
      assert Expires(args, cfg.now, expiry.value);
    }
  }

  /** DEL takes the strings of the names given, and leaves their other types and other names. */
  lemma DelErases(cfg: Config, st: Abs, args: seq<string>, key: string)
    requires AbsOk(st) && CommandName(args) == "DEL" && |args| >= 2
    ensures var next := Apply(cfg, st, args);
      && next.db == st.db && (forall d :: 0 <= d < DB_COUNT && d != st.db ==> next.views[d] == st.views[d])
      && Under(next, key) == (if key in args[1..] then Under(st, key).(store := None) else Under(st, key))
  {
  }

  // ---------- pairs of arguments ----------

  /** The pair at position i is the last one before `end` that names x, in its first place
      (off 0) or its second (off 1). */
  ghost predicate LastNaming(args: seq<string>, end: nat, i: nat, off: nat, x: string) {
    && 2 <= i && i + 1 < end <= |args| && i % 2 == 0 && off <= 1 && args[i + off] == x
    && !NamedFrom(args, end, i + 2, off, x)
  }

  ghost predicate NamedFrom(args: seq<string>, end: nat, from: nat, off: nat, x: string) {
    exists j :: from <= j && j + 1 < end <= |args| && j % 2 == 0 && off <= 1 && args[j + off] == x
  }

  lemma NamedNext(args: seq<string>, end: nat, from: nat, off: nat, x: string)
    requires from % 2 == 0 && from + 1 < end <= |args| && off <= 1
    ensures NamedFrom(args, end, from, off, x) <==> args[from + off] == x || NamedFrom(args, end, from + 2, off, x)
  {
  }

  lemma LastParts(args: seq<string>, end: nat, i: nat, from: nat, off: nat, x: string)
    requires LastNaming(args, end, i, off, x) && from % 2 == 0 && from <= i
    ensures i == from || from + 2 <= i
    ensures i + 1 < end <= |args| && args[i + off] == x && !NamedFrom(args, end, i + 2, off, x)
  {
    hide NamedFrom;
  }

  lemma {:induction false} WithFieldsAt(fields: map<string, string>, args: seq<string>, i: nat, f: string)
    requires 2 <= i && i % 2 == 0
    ensures var after := WithFields(fields, args, i);
      && (forall k: nat :: i <= k && LastNaming(args, |args|, k, 0, f) ==> f in after && after[f] == args[k + 1])
      && (!NamedFrom(args, |args|, i, 0, f) ==> Find(after, f) == Find(fields, f))
    decreases |args| - i
  {
    hide LastNaming, NamedFrom;
    var after := WithFields(fields, args, i);
    if i + 1 < |args| {
      WithFieldsAt(fields[args[i] := args[i + 1]], args, i + 2, f);
      NamedNext(args, |args|, i, 0, f);
    }
    forall k: nat | i <= k && LastNaming(args, |args|, k, 0, f)
      ensures k + 1 < |args| && f in after && after[f] == args[k + 1]
    {
      LastParts(args, |args|, k, i, 0, f);
    }
  }

  lemma {:induction false} ZAddPairsAt(text: ScoreText, z: seq<ZKey>, scores: map<string, Score>, args: seq<string>,
                                       i: nat, stop: nat, m: string)
    requires 2 <= i && i % 2 == 0 && i <= stop && Readable(text, args, stop)
    ensures var after := ZAddPairs(text, z, scores, args, i).1;
      && (forall k: nat :: i <= k && LastNaming(args, stop, k, 1, m) ==>
            m in after && text.parse(args[k]) == Some(after[m]))
      && (!NamedFrom(args, stop, i, 1, m) ==> Find(after, m) == Find(scores, m))
    decreases |args| - i
  {
    hide ZPut, LastNaming, NamedFrom;
    var after := ZAddPairs(text, z, scores, args, i).1;
    if i < stop {
      var score := text.parse(args[i]).value;
      ZAddPairsAt(text, ZPut(z, scores, args[i + 1], score), scores[args[i + 1] := score], args, i + 2, stop, m);
      NamedNext(args, stop, i, 1, m);
    }
    forall k: nat | i <= k && LastNaming(args, stop, k, 1, m)
      ensures k < |args| && m in after && text.parse(args[k]) == Some(after[m])
    {
      LastParts(args, stop, k, i, 1, m);
    }
  }

  /** The pairs before `stop` have readable scores, and the one at `stop`, if any, has not. */
  ghost predicate Readable(text: ScoreText, args: seq<string>, stop: nat) {
    && 2 <= stop <= |args| && stop % 2 == 0 && |args| % 2 == 0
    && (forall k :: 2 <= k < stop && k % 2 == 0 ==> text.parse(args[k]).Some?)
    && (stop < |args| ==> text.parse(args[stop]).None?)
  }

  // ---------- hashes ----------

  /** HSET: the last value given for a field is its value; other fields stay. */
  lemma HSetAssigns(cfg: Config, st: Abs, args: seq<string>, f: string)
    requires AbsOk(st) && CommandName(args) == "HSET" && |args| >= 4 && |args| % 2 == 0
    ensures var next, before, after := Apply(cfg, st, args), Under(st, args[1]), Under(Apply(cfg, st, args), args[1]);
      && OnlyAt(st, next, args[1]) && after.hash.Some? && after == before.(hash := after.hash)
      && (forall k: nat :: LastNaming(args, |args|, k, 0, f) ==> f in FieldsOf(after) && FieldsOf(after)[f] == args[k + 1])
      && (!NamedFrom(args, |args|, 2, 0, f) ==> Find(FieldsOf(after), f) == Find(FieldsOf(before), f))
  {
    hide OnlyAt, Apply;
    WithFieldsAt(FieldsOf(Under(st, args[1])), args, 2, f);
    OneName(cfg, st, args, HSetSlot(Under(st, args[1]), args));
  }

  /** HDEL: the named fields are gone, the others stay, and a hash left empty is gone too. */
  lemma HDelRemoves(cfg: Config, st: Abs, args: seq<string>, f: string)
    requires AbsOk(st) && CommandName(args) == "HDEL" && |args| >= 3
    ensures var next, before, after := Apply(cfg, st, args), Under(st, args[1]), Under(Apply(cfg, st, args), args[1]);
      && OnlyAt(st, next, args[1]) && after == before.(hash := after.hash)
      && Find(FieldsOf(after), f) == (if f in args[2..] then None else Find(FieldsOf(before), f))
      && (after.hash.Some? <==> FieldsOf(after) != map[])
  {
    hide OnlyAt, Apply;
    OneName(cfg, st, args, HDelSlot(Under(st, args[1]), SetOf(args[2..])));
  }

  // ---------- lists and sets ----------

  lemma RPushAppends(cfg: Config, st: Abs, args: seq<string>)
    requires AbsOk(st) && CommandName(args) == "RPUSH" && |args| >= 3
    ensures var next, before, after := Apply(cfg, st, args), Under(st, args[1]), Under(Apply(cfg, st, args), args[1]);
      && OnlyAt(st, next, args[1]) && after.list.Some? && after == before.(list := after.list)
      && after.list.value == (if before.list.Some? then before.list.value else []) + args[2..]
  {
    hide OnlyAt, Apply;
    OneName(cfg, st, args, RPushSlot(Under(st, args[1]), args[2..]));
  }

  lemma SAddAdds(cfg: Config, st: Abs, args: seq<string>, m: string)
    requires AbsOk(st) && CommandName(args) == "SADD" && |args| >= 3
    ensures var next, before, after := Apply(cfg, st, args), Under(st, args[1]), Under(Apply(cfg, st, args), args[1]);
      && OnlyAt(st, next, args[1]) && after.members.Some? && after == before.(members := after.members)
      && (m in MembersOf(after) <==> m in MembersOf(before) || m in args[2..])
  {
    hide OnlyAt, Apply;
    OneName(cfg, st, args, SAddSlot(Under(st, args[1]), SetOf(args[2..])));
  }

  /** SREM: the named members are gone, the others stay, and a set left empty is gone too. */
  lemma SRemRemoves(cfg: Config, st: Abs, args: seq<string>, m: string)
    requires AbsOk(st) && CommandName(args) == "SREM" && |args| >= 3
    ensures var next, before, after := Apply(cfg, st, args), Under(st, args[1]), Under(Apply(cfg, st, args), args[1]);
      && OnlyAt(st, next, args[1]) && after == before.(members := after.members)
      && (m in MembersOf(after) <==> m in MembersOf(before) && m !in args[2..])
      && (after.members.Some? <==> MembersOf(after) != {})
  {
    hide OnlyAt, Apply;
    OneName(cfg, st, args, SRemSlot(Under(st, args[1]), SetOf(args[2..])));
  }

  // ---------- sorted sets ----------

  /** What changes of a sorted set: its scores, and with them the index. */
  ghost predicate OnlyScores(before: Slot, after: Slot) {
    after == before.(zset := after.zset, scores := after.scores) && SlotOk(after)
  }

  /** ZADD: the last score given to a member is its score; other members stay. The first
      unreadable score ends it. */
  lemma ZAddScores(cfg: Config, st: Abs, args: seq<string>, stop: nat, m: string)
    requires StateOk(st) && CommandName(args) == "ZADD" && |args| >= 4 && Readable(cfg.text, args, stop)
    ensures var next, before, after := Apply(cfg, st, args), Under(st, args[1]), Under(Apply(cfg, st, args), args[1]);
      && OnlyAt(st, next, args[1]) && after.scores.Some? && OnlyScores(before, after)
      && (forall k: nat :: LastNaming(args, stop, k, 1, m) ==>
            m in ScoresOf(after) && cfg.text.parse(args[k]) == Some(ScoresOf(after)[m]))
      && (!NamedFrom(args, stop, 2, 1, m) ==> Find(ScoresOf(after), m) == Find(ScoresOf(before), m))
  {
    hide OnlyAt, Apply, Agrees;
    var before := Under(st, args[1]);
    ZAddPairsAt(cfg.text, OrElse(before.zset, []), ScoresOf(before), args, 2, stop, m);
    OneName(cfg, st, args, ZAddSlot(cfg.text, before, args));
    assert SlotOk(before);
    ZAddOk(cfg.text, before, args);
  }

  /** ZREM: the named members are gone, the others keep their scores, and a sorted set left
      empty is gone too. */
  lemma ZRemRemoves(cfg: Config, st: Abs, args: seq<string>, m: string)
    requires StateOk(st) && CommandName(args) == "ZREM" && |args| >= 3
    ensures var next, before, after := Apply(cfg, st, args), Under(st, args[1]), Under(Apply(cfg, st, args), args[1]);
      && OnlyAt(st, next, args[1]) && OnlyScores(before, after)
      && Find(ScoresOf(after), m) == (if m in args[2..] then None else Find(ScoresOf(before), m))
      && (after.scores.Some? <==> ScoresOf(after) != map[])
  {
    hide OnlyAt, Apply, Agrees;
    var before := Under(st, args[1]);
    assert SlotOk(before);
    ZDropOk(before, SetOf(args[2..]));
    OneName(cfg, st, args, ZDropSlot(before, SetOf(args[2..])));
  }

  /** ZREMRANGEBYSCORE: the members with scores between the bounds, both included, are gone. */
  lemma ZRangeRemoves(cfg: Config, st: Abs, args: seq<string>, lo: Score, hi: Score, m: string)
    requires StateOk(st) && CommandName(args) == "ZREMRANGEBYSCORE" && |args| == 4
    requires cfg.text.parse(args[2]) == Some(lo) && cfg.text.parse(args[3]) == Some(hi)
    ensures var next, before, after := Apply(cfg, st, args), Under(st, args[1]), Under(Apply(cfg, st, args), args[1]);
      && (lo > hi ==> Unchanged(st, next))
      && (lo <= hi ==>
            && OnlyAt(st, next, args[1]) && OnlyScores(before, after)
            && (m in ScoresOf(before) && (ScoresOf(before)[m] < lo || ScoresOf(before)[m] > hi) ==>
                  Find(ScoresOf(after), m) == Find(ScoresOf(before), m))
            && (m in ScoresOf(after) ==> m in ScoresOf(before) && (ScoresOf(before)[m] < lo || ScoresOf(before)[m] > hi))
            && (after.scores.Some? <==> ScoresOf(after) != map[]))
  {
    hide OnlyAt, Apply, Agrees, Unchanged;
    var before := Under(st, args[1]);
    assert SlotOk(before);
    if lo > hi {
      NoName(cfg, st, args);
    } else {
      var gone := InRange(ScoresOf(before), lo, hi);
      ZDropOk(before, gone);
      OneName(cfg, st, args, ZDropSlot(before, gone));
    }
  }

  /** ZINCRBY reads a 64-bit integer, ZINCRBYFLOAT a score. */
  function IncrementOf(cfg: Config, args: seq<string>): Option<Score> {
    if |args| != 4 then None
    else if CommandName(args) == "ZINCRBY" then Stoll(args[2])
    else if CommandName(args) == "ZINCRBYFLOAT" then cfg.text.parse(args[2])
    else None
  }

  /** A member that is there gets the old score plus the increment; other members keep theirs.
      For a member that is not there, and without a readable increment, nothing changes. */
  lemma ZIncrAdds(cfg: Config, st: Abs, args: seq<string>, d: Score, m: string)
    requires StateOk(st) && IncrementOf(cfg, args) == Some(d)
    ensures var next, before, after := Apply(cfg, st, args), Under(st, args[1]), Under(Apply(cfg, st, args), args[1]);
      && OnlyAt(st, next, args[1]) && OnlyScores(before, after)
      && (args[3] in ScoresOf(before) ==> args[3] in ScoresOf(after) && ScoresOf(after)[args[3]] - ScoresOf(before)[args[3]] == d)
      && (m != args[3] ==> Find(ScoresOf(after), m) == Find(ScoresOf(before), m))
      && (args[3] !in ScoresOf(before) ==> Unchanged(st, next))
  {
    hide OnlyAt, Apply, Agrees;
    var before := Under(st, args[1]);
    assert SlotOk(before);
    ZIncrOk(before, args[3], d);
    OneName(cfg, st, args, ZIncrSlot(before, args[3], d));
    if args[3] !in ScoresOf(before) {
      SameAgain(st, Apply(cfg, st, args), args[1]);
    }
  }

  lemma SameAgain(st: Abs, next: Abs, key: string)
    requires AbsOk(st) && AbsOk(next) && OnlyAt(st, next, key) && Under(next, key) == Under(st, key)
    ensures Unchanged(st, next)
  {
    assert next.views[st.db] == st.views[st.db];
    assert next.views == st.views;
  }

  /** The other ways in which a command changes nothing. */
  lemma WrongArguments(cfg: Config, st: Abs, args: seq<string>)
    requires AbsOk(st)
    requires || |args| < 2
             || (CommandName(args) in {"SET", "HDEL", "RPUSH", "SADD", "SREM", "ZREM"} && |args| < 3)
             || (CommandName(args) in {"HSET", "ZADD"} && (|args| < 4 || |args| % 2 != 0))
             || (CommandName(args) in {"ZINCRBY", "ZINCRBYFLOAT"} && IncrementOf(cfg, args).None?)
             || (CommandName(args) == "ZREMRANGEBYSCORE"
                 && (|args| != 4 || cfg.text.parse(args[2]).None? || cfg.text.parse(args[3]).None?))
    ensures Unchanged(st, Apply(cfg, st, args))
  {
    hide Apply, Unchanged;
    if |args| < 2 {
      TooShort(cfg, st, args);
    } else {
      NoName(cfg, st, args);
    }
  }

  lemma TooShort(cfg: Config, st: Abs, args: seq<string>)
    requires AbsOk(st) && |args| < 2
    ensures Unchanged(st, Apply(cfg, st, args))
  {
    assert st.views[st.db := st.views[st.db]] == st.views;
  }

  // ---------- two names ----------

  ghost predicate OnlyAtBoth(st: Abs, next: Abs, a: string, b: string)
    requires AbsOk(st) && AbsOk(next)
  {
    && next.db == st.db
    && (forall d :: 0 <= d < DB_COUNT && d != st.db ==> next.views[d] == st.views[d])
    && (forall k: string :: k != a && k != b ==> next.views[st.db][k] == st.views[st.db][k])
  }

  predicate MovesBetween(args: seq<string>) {
    || (CommandName(args) == "SMOVE" && |args| == 4)
    || (CommandName(args) in {"RENAME", "RENAMENX"} && |args| == 3)
  }

  lemma TwoNames(cfg: Config, st: Abs, args: seq<string>, pair: (Slot, Slot))
    requires AbsOk(st) && MovesBetween(args) && args[1] != args[2]
    requires PairEffect(cfg, Under(st, args[1]), Under(st, args[2]), args) == Some(pair)
    ensures var next := Apply(cfg, st, args);
      && OnlyAtBoth(st, next, args[1], args[2])
      && Under(next, args[1]) == pair.0 && Under(next, args[2]) == pair.1
  {
    hide PairEffect, CommandName;
    NotOneName(cfg, st.views[st.db][args[1]], args);
  }

  lemma SameName(cfg: Config, st: Abs, args: seq<string>)
    requires AbsOk(st) && MovesBetween(args) && args[1] == args[2]
    ensures Unchanged(st, Apply(cfg, st, args))
  {
    NotOneName(cfg, st.views[st.db][args[1]], args);
    assert st.views[st.db := st.views[st.db]] == st.views;
  }

  lemma BothSame(st: Abs, next: Abs, a: string, b: string)
    requires AbsOk(st) && AbsOk(next) && OnlyAtBoth(st, next, a, b)
    requires Under(next, a) == Under(st, a) && Under(next, b) == Under(st, b)
    ensures Unchanged(st, next)
  {
    assert next.views[st.db] == st.views[st.db];
    assert next.views == st.views;
  }

  /** SMOVE of a member that is there: it is in the target set and no longer in the source set,
      every other membership is what it was, and a source left empty is gone. */
  lemma SMoveMoves(cfg: Config, st: Abs, args: seq<string>, m: string)
    requires AbsOk(st) && CommandName(args) == "SMOVE" && |args| == 4 && args[1] != args[2]
    requires args[3] in MembersOf(Under(st, args[1]))
    ensures var next := Apply(cfg, st, args);
      var from, to, from', to' := Under(st, args[1]), Under(st, args[2]), Under(next, args[1]), Under(next, args[2]);
      && OnlyAtBoth(st, next, args[1], args[2])
      && from' == from.(members := from'.members) && to' == to.(members := to'.members)
      && args[3] !in MembersOf(from') && args[3] in MembersOf(to')
      && (m != args[3] ==> (m in MembersOf(from') <==> m in MembersOf(from)) && (m in MembersOf(to') <==> m in MembersOf(to)))
      && (from'.members.None? <==> MembersOf(from) == {args[3]})
  {
    hide OnlyAtBoth, Apply;
    TwoNames(cfg, st, args, SMoveSlots(Under(st, args[1]), Under(st, args[2]), args[3]));
  }

  /** SMOVE of a member that is not there changes no membership; if there is a source set, a
      missing target set is created empty. */
  lemma SMoveNothing(cfg: Config, st: Abs, args: seq<string>)
    requires AbsOk(st) && CommandName(args) == "SMOVE" && |args| == 4
    requires args[1] == args[2] || args[3] !in MembersOf(Under(st, args[1]))
    ensures var next := Apply(cfg, st, args);
      if args[1] != args[2] && Under(st, args[1]).members.Some? && Under(st, args[2]).members.None?
      then OnlyAt(st, next, args[2]) && Under(next, args[2]) == Under(st, args[2]).(members := Some({}))
      else Unchanged(st, next)
  {
    hide Apply;
    if args[1] == args[2] {
      SameName(cfg, st, args);
    } else {
      TwoNames(cfg, st, args, SMoveSlots(Under(st, args[1]), Under(st, args[2]), args[3]));
      if Under(st, args[1]).members.None? || Under(st, args[2]).members.Some? {
        BothSame(st, Apply(cfg, st, args), args[1], args[2]);
      }
    }
  }

  /** The type a name is held by, as RENAME sees it. */
  predicate HeldFirst(slot: Slot, kind: Kind) {
    match kind
    case Strings => slot.store.Some?
    case Hashes => slot.store.None? && slot.hash.Some?
    case Lists => slot.store.None? && slot.hash.None? && slot.list.Some?
    case Sets => slot.store.None? && slot.hash.None? && slot.list.None? && slot.members.Some?
    case ZSets => slot.store.None? && slot.hash.None? && slot.list.None? && slot.members.None? && slot.zset.Some?
  }

  /** Two names hold the same of one type. */
  predicate SameKind(a: Slot, b: Slot, kind: Kind) {
    match kind
    case Strings => a.store == b.store
    case Hashes => a.hash == b.hash
    case Lists => a.list == b.list
    case Sets => a.members == b.members
    case ZSets => a.zset == b.zset && a.scores == b.scores
  }

  /** RENAME moves what the first type holds, expiry included, over what the new name's first
      type held; other types of both names stay. Only a sorted set that meets another one in
      another shard is lost instead. */
  lemma RenameMoves(cfg: Config, st: Abs, args: seq<string>, kind: Kind, other: Kind)
    requires StateOk(st) && CommandName(args) == "RENAME" && |args| == 3 && args[1] != args[2]
    requires HeldFirst(Under(st, args[1]), kind)
    ensures var next := Apply(cfg, st, args);
      var from, to, from', to' := Under(st, args[1]), Under(st, args[2]), Under(next, args[1]), Under(next, args[2]);
      var lost := kind == ZSets && to.zset.Some? && !HeldFirst(to, ZSets)
                  && cfg.hash(args[1]) % 128 != cfg.hash(args[2]) % 128;
      && OnlyAtBoth(st, next, args[1], args[2])
      && SameKind(from', EMPTY_SLOT, kind) && (other != kind ==> SameKind(from', from, other))
      && SameKind(to', if lost then to else from, kind)
      && (other != kind ==> SameKind(to', if HeldFirst(to, other) then EMPTY_SLOT else to, other))
  {
    hide OnlyAtBoth, Apply, Agrees;
    assert SlotOk(Under(st, args[1])) && SlotOk(Under(st, args[2]));
    TwoNames(cfg, st, args, RenameSlots(Under(st, args[1]), Under(st, args[2]), SameShard(cfg.hash, args[1], args[2])));
  }

  /** RENAMENX does the same if the new name is held by no type, and else nothing. */
  lemma RenameNxMoves(cfg: Config, st: Abs, args: seq<string>, kind: Kind, other: Kind)
    requires StateOk(st) && CommandName(args) == "RENAMENX" && |args| == 3 && args[1] != args[2]
    requires HeldFirst(Under(st, args[1]), kind) && Under(st, args[2]) == EMPTY_SLOT
    ensures var next := Apply(cfg, st, args);
      var from, from', to' := Under(st, args[1]), Under(next, args[1]), Under(next, args[2]);
      && OnlyAtBoth(st, next, args[1], args[2])
      && SameKind(from', EMPTY_SLOT, kind) && (other != kind ==> SameKind(from', from, other))
      && SameKind(to', from, kind) && (other != kind ==> SameKind(to', EMPTY_SLOT, other))
  {
    hide OnlyAtBoth, Apply, Agrees;
    assert SlotOk(Under(st, args[1]));
    TwoNames(cfg, st, args, RenameNxSlots(Under(st, args[1]), Under(st, args[2]), SameShard(cfg.hash, args[1], args[2])));
  }

  lemma RenameNothing(cfg: Config, st: Abs, args: seq<string>)
    requires StateOk(st) && CommandName(args) in {"RENAME", "RENAMENX"} && |args| == 3
    requires || args[1] == args[2] || Under(st, args[1]) == EMPTY_SLOT
             || (CommandName(args) == "RENAMENX" && Under(st, args[2]) != EMPTY_SLOT)
    ensures Unchanged(st, Apply(cfg, st, args))
  {
    hide Apply, Agrees;
    if args[1] == args[2] {
      SameName(cfg, st, args);
    } else {
      assert SlotOk(Under(st, args[1])) && SlotOk(Under(st, args[2]));
      TwoNames(cfg, st, args, (Under(st, args[1]), Under(st, args[2])));
      BothSame(st, Apply(cfg, st, args), args[1], args[2]);
    }
  }

  /** RENAME refers to the value of this type while it inserts the new name. */
  predicate ReferredTo(from: Slot, kind: Kind) {
    kind != Hashes && HeldFirst(from, kind)
  }

  /** The new name holds nothing of this type once its first type has been erased. */
  predicate Missing(to: Slot, kind: Kind) {
    SameKind(to, EMPTY_SLOT, kind) || HeldFirst(to, kind)
  }

  /** Exactly when one of them uses a stale reference: the names share a shard, an insertion of
      the new name grows the table, and a set or a value that is not a hash was referred to. */
  lemma StaleIff(cfg: Config, st: Abs, args: seq<string>, grows: bool)
    requires StateOk(st)
    ensures StaleAt(cfg, st.views[st.db], args, grows) <==>
      && MovesBetween(args) && args[1] != args[2] && grows && cfg.hash(args[1]) % 128 == cfg.hash(args[2]) % 128
      && var from, to := Under(st, args[1]), Under(st, args[2]);
        if CommandName(args) == "SMOVE" then from.members.Some? && to.members.None?
        else exists kind :: ReferredTo(from, kind) && (if CommandName(args) == "RENAME" then Missing(to, kind) else to == EMPTY_SLOT)
  {
    hide Agrees;
    if MovesBetween(args) {
      assert SlotOk(Under(st, args[1])) && SlotOk(Under(st, args[2]));
      var from, to, kind := Under(st, args[1]), Under(st, args[2]), FirstKind(Under(st, args[1]));
      if kind.Some? {
        assert ReferredTo(from, kind.value) <==> kind != Some(Hashes);
        assert Missing(to, kind.value) <==> Absent(EraseFirst(to), kind.value);
      }
    }
  }

  // ---------- whole databases ----------

  /** FLUSHDB CONFIRM empties the selected database; without the word nothing happens. */
  lemma FlushEmpties(cfg: Config, st: Abs, args: seq<string>, key: string)
    requires AbsOk(st) && CommandName(args) == "FLUSHDB" && |args| >= 2
    ensures var next := Apply(cfg, st, args);
      if |args| == 2 && ToUpper(args[1]) == "CONFIRM" then
        && next.db == st.db && (forall d :: 0 <= d < DB_COUNT && d != st.db ==> next.views[d] == st.views[d])
        && Under(next, key) == EMPTY_SLOT
      else Unchanged(st, next)
  {
    assert PairView(cfg, st.views[st.db], args) == st.views[st.db];
    assert st.views[st.db := st.views[st.db]] == st.views;
  }

  /** SELECT selects one of the sixteen databases, and changes no data. */
  lemma SelectSelects(cfg: Config, st: Abs, args: seq<string>)
    requires AbsOk(st) && CommandName(args) == "SELECT"
    ensures var next := Apply(cfg, st, args);
      && next.views == st.views
      && (forall d :: 0 <= d < 16 && |args| == 2 && Stoi(args[1]) == Some(d) ==> next.db == d)
      && ((forall d :: 0 <= d < 16 && |args| == 2 ==> Stoi(args[1]) != Some(d)) ==> next.db == st.db)
  {
    assert |args| >= 2 ==> PairView(cfg, st.views[st.db], args) == st.views[st.db];
    assert st.views[st.db := st.views[st.db]] == st.views;
  }

  // ---------- replies ----------

  /** The names in the first place (off 0) or second place (off 1) of the pairs. */
  function Named(args: seq<string>, from: nat, off: nat): set<string>
    requires off <= 1
  {
    set k | 2 <= from <= k < |args| - 1 && k % 2 == 0 :: args[k + off]
  }

  lemma NamedStep(args: seq<string>, from: nat, off: nat)
    requires off <= 1 && 2 <= from < |args| - 1 && from % 2 == 0
    ensures Named(args, from, off) == {args[from + off]} + Named(args, from + 2, off)
  {
  }

  lemma {:induction false} WithFieldsKeys(fields: map<string, string>, args: seq<string>, i: nat)
    requires 2 <= i && i % 2 == 0
    ensures WithFields(fields, args, i).Keys == fields.Keys + Named(args, i, 0)
    decreases |args| - i
  {
    if i + 1 < |args| {
      WithFieldsKeys(fields[args[i] := args[i + 1]], args, i + 2);
      NamedStep(args, i, 0);
    }
  }

  lemma {:induction false} ZAddPairsKeys(text: ScoreText, z: seq<ZKey>, scores: map<string, Score>, args: seq<string>, i: nat)
    requires 2 <= i && i % 2 == 0 && forall k :: i <= k < |args| && k % 2 == 0 ==> text.parse(args[k]).Some?
    ensures ZAddPairs(text, z, scores, args, i).1.Keys == scores.Keys + Named(args, i, 1)
    decreases |args| - i
  {
    hide ZPut;
    if i + 1 < |args| {
      var score := text.parse(args[i]).value;
      ZAddPairsKeys(text, ZPut(z, scores, args[i + 1], score), scores[args[i + 1] := score], args, i + 2);
      NamedStep(args, i, 1);
    }
  }

  lemma Grown(a: set<string>, b: set<string>)
    ensures |a + b| - |a| == |b - a|
  {
    assert a + b == a + (b - a);
  }

  lemma Shrunk(a: set<string>, b: set<string>)
    ensures |a| - |a - b| == |a * b|
  {
    assert a == (a - b) + (a * b);
  }

  lemma KeysLeft<V>(m: map<string, V>, gone: set<string>)
    ensures |m| - |m - gone| == |m.Keys * gone|
  {
    assert (m - gone).Keys == m.Keys - gone;
    Shrunk(m.Keys, gone);
  }

  ghost function ReplyOf(cfg: Config, st: Abs, args: seq<string>): Option<Reply>
    requires AbsOk(st)
  {
    ReplyTo(cfg, st.views[st.db], args)
  }

  /** HSET replies how many of the fields named were not there. */
  lemma HSetReply(cfg: Config, st: Abs, args: seq<string>)
    requires AbsOk(st) && CommandName(args) == "HSET" && |args| >= 4 && |args| % 2 == 0
    ensures ReplyOf(cfg, st, args) == Some(Count(|Named(args, 2, 0) - FieldsOf(Under(st, args[1])).Keys|))
  {
    hide Named;
    WithFieldsKeys(FieldsOf(Under(st, args[1])), args, 2);
    Grown(FieldsOf(Under(st, args[1])).Keys, Named(args, 2, 0));
  }

  lemma SAddReply(cfg: Config, st: Abs, args: seq<string>)
    requires AbsOk(st) && CommandName(args) == "SADD" && |args| >= 3
    ensures ReplyOf(cfg, st, args) == Some(Count(|(set m | m in args[2..]) - MembersOf(Under(st, args[1]))|))
  {
    Grown(MembersOf(Under(st, args[1])), SetOf(args[2..]));
  }

  lemma RPushReply(cfg: Config, st: Abs, args: seq<string>)
    requires AbsOk(st) && CommandName(args) == "RPUSH" && |args| >= 3
    ensures ReplyOf(cfg, st, args) == Some(Count(|OrElse(Under(st, args[1]).list, [])| + |args| - 2))
  {
  }

  /** ZADD replies how many of the members named were not there, and an error if a score is
      unreadable, whatever it has done before it came to that. */
  lemma ZAddReply(cfg: Config, st: Abs, args: seq<string>)
    requires AbsOk(st) && CommandName(args) == "ZADD" && |args| >= 4 && |args| % 2 == 0
    ensures ReplyOf(cfg, st, args)
         == Some(if Readable(cfg.text, args, |args|) then Count(|Named(args, 2, 1) - ScoresOf(Under(st, args[1])).Keys|) else Err)
  {
    hide Named, ZAddSlot, Readable;
    var before := Under(st, args[1]);
    if Readable(cfg.text, args, |args|) {
      ZAddCount(cfg.text, before, args);
    }
    AllReadable(cfg.text, args);
  }

  lemma AllReadable(text: ScoreText, args: seq<string>)
    requires |args| >= 2 && |args| % 2 == 0
    ensures Readable(text, args, |args|) <==> !exists i :: 2 <= i < |args| && i % 2 == 0 && text.parse(args[i]).None?
  {
  }

  lemma ZAddCount(text: ScoreText, slot: Slot, args: seq<string>)
    requires Readable(text, args, |args|)
    ensures |OrElse(ZAddSlot(text, slot, args).scores, map[])| - |ScoresOf(slot)| == |Named(args, 2, 1) - ScoresOf(slot).Keys|
  {
    hide Named;
    ZAddPairsKeys(text, OrElse(slot.zset, []), ScoresOf(slot), args, 2);
    Grown(ScoresOf(slot).Keys, Named(args, 2, 1));
  }

  /** HDEL, SREM and ZREM reply how many of the elements named were there. */
  lemma HDelReply(cfg: Config, st: Abs, args: seq<string>)
    requires AbsOk(st) && CommandName(args) == "HDEL" && |args| >= 3
    ensures ReplyOf(cfg, st, args) == Some(Count(|FieldsOf(Under(st, args[1])).Keys * set x | x in args[2..]|))
  {
    KeysLeft(FieldsOf(Under(st, args[1])), SetOf(args[2..]));
  }

  lemma SRemReply(cfg: Config, st: Abs, args: seq<string>)
    requires AbsOk(st) && CommandName(args) == "SREM" && |args| >= 3
    ensures ReplyOf(cfg, st, args) == Some(Count(|MembersOf(Under(st, args[1])) * set x | x in args[2..]|))
  {
    hide SRemSlot;
    SRemCount(Under(st, args[1]), SetOf(args[2..]));
  }

  lemma SRemCount(slot: Slot, gone: set<string>)
    ensures |MembersOf(slot)| - |MembersOf(SRemSlot(slot, gone))| == |MembersOf(slot) * gone|
  {
    Shrunk(MembersOf(slot), gone);
  }

  lemma ZRemReply(cfg: Config, st: Abs, args: seq<string>)
    requires StateOk(st) && CommandName(args) == "ZREM" && |args| >= 3
    ensures ReplyOf(cfg, st, args) == Some(Count(|ScoresOf(Under(st, args[1])).Keys * set x | x in args[2..]|))
  {
    assert SlotOk(Under(st, args[1]));
    hide SlotOk, ZDropSlot;
    ZDropCount(Under(st, args[1]), SetOf(args[2..]));
  }

  lemma ZDropCount(slot: Slot, gone: set<string>)
    requires SlotOk(slot)
    ensures |ScoresOf(slot)| - |ScoresOf(ZDropSlot(slot, gone))| == |ScoresOf(slot).Keys * gone|
  {
    hide Agrees, Without;
    KeysLeft(ScoresOf(slot), gone);
  }

  /** ZREMRANGEBYSCORE replies how many members had a score in the range, and -1 without a
      sorted set. */
  lemma RangeReply(cfg: Config, st: Abs, args: seq<string>, lo: Score, hi: Score)
    requires StateOk(st) && CommandName(args) == "ZREMRANGEBYSCORE" && |args| == 4
    requires cfg.text.parse(args[2]) == Some(lo) && cfg.text.parse(args[3]) == Some(hi)
    ensures var before := Under(st, args[1]);
      ReplyOf(cfg, st, args) == Some(if lo > hi then Err else if before.scores.None? then Count(-1)
                                     else Count(|set m | m in before.scores.value && lo <= before.scores.value[m] <= hi|))
  {
    var before := Under(st, args[1]);
    assert SlotOk(before);
    hide SlotOk, ZDropSlot;
    var gone := InRange(ScoresOf(before), lo, hi);
    ZDropCount(before, gone);
    assert ScoresOf(before).Keys * gone == gone;
  }

  /** ZINCRBY and ZINCRBYFLOAT reply the new score, or nothing for a member that is not there. */
  lemma IncrementReply(cfg: Config, st: Abs, args: seq<string>, d: Score)
    requires StateOk(st) && IncrementOf(cfg, args) == Some(d)
    ensures var before := ScoresOf(Under(st, args[1]));
      ReplyOf(cfg, st, args) == Some(if args[3] in before then Value(before[args[3]] + d) else Null)
  {
    hide Agrees;
    assert SlotOk(Under(st, args[1]));
  }

  lemma SetReply(cfg: Config, st: Abs, args: seq<string>)
    requires AbsOk(st) && CommandName(args) == "SET" && |args| >= 3
    ensures ReplyOf(cfg, st, args) == Some(if exists expire :: Expires(args, cfg.now, expire) then Ok else Err)
  {
    if SetExpiry(args, cfg.now).Some? {
      assert Expires(args, cfg.now, SetExpiry(args, cfg.now).value);
    }
  }

  /** SMOVE and RENAMENX reply whether they moved anything, RENAME an error if there is nothing. */
  lemma MovingReplies(cfg: Config, st: Abs, args: seq<string>)
    requires StateOk(st) && MovesBetween(args)
    ensures var from, to, reply, two := Under(st, args[1]), Under(st, args[2]), ReplyOf(cfg, st, args), args[1] != args[2];
      && (CommandName(args) == "SMOVE" ==> reply == Some(Count(if !two || args[3] in MembersOf(from) then 1 else 0)))
      && (CommandName(args) == "RENAME" ==> reply == Some(if two && from == EMPTY_SLOT then Err else Ok))
      && (CommandName(args) == "RENAMENX" ==>
            reply == Some(if two && from == EMPTY_SLOT then Err else Count(if two && to != EMPTY_SLOT then 0 else 1)))
  {
    hide Agrees, SlotReply;
    assert SlotOk(Under(st, args[1])) && SlotOk(Under(st, args[2]));
  }

  /** DEL replies how many of the names held a string. */
  lemma DelReply(cfg: Config, st: Abs, args: seq<string>)
    requires AbsOk(st) && CommandName(args) == "DEL" && |args| >= 2
    ensures ReplyOf(cfg, st, args) == Some(Count(|set k | k in args[1..] && st.views[st.db][k].store.Some?|))
  {
    hide SlotReply;
    assert StringsAmong(st.views[st.db], SetOf(args[1..])) == set k | k in args[1..] && st.views[st.db][k].store.Some?;
  }
}
