/** The handlers' work inside one shard, under that shard's lock. */
module ShardOps {
  import opened Text
  import opened SortedSet
  import opened Keyspace

  datatype Reply = Ok | Err | Null | Count(n: int) | Value(score: Score)

  /** insert_or_assign, or erase for None. */
  function Assign<V>(m: map<string, V>, key: string, value: Option<V>): (r: map<string, V>)
    ensures Find(r, key) == value
    ensures forall k :: k != key ==> Find(r, k) == Find(m, k)
  {
    if value.Some? then m[key := value.value] else m - {key}
  }

  /** s became r by a change under one name, from a consistent slot to the consistent slot `slot`. */
  ghost predicate Became(s: Shard, key: string, r: Shard, slot: Slot) {
    DiffersOnlyAt(s, r, key) && At(r, key) == slot && (SlotOk(At(s, key)) ==> SlotOk(slot))
  }

  lemma SetOfSnoc(args: seq<string>, from: nat, i: nat)
    requires from <= i < |args|
    ensures SetOf(args[from..i + 1]) == SetOf(args[from..i]) + {args[i]}
  {
    assert args[from..i + 1] == args[from..i] + [args[i]];
  }

  lemma SetOfNone(args: seq<string>)
    requires |args| >= 2
    ensures SetOf(args[2..2]) == {}
  {
  }

  lemma DropMember(start: set<string>, gone: set<string>, x: string)
    ensures start - gone - {x} == start - (gone + {x})
    ensures |start - gone - {x}| == |start - gone| - (if x in start - gone then 1 else 0)
  {
  }

  lemma DropOne(m: map<string, string>, key: string)
    ensures |m - {key}| == |m| - (if key in m then 1 else 0)
  {
    if key in m {
      assert m.Keys == (m - {key}).Keys + {key};
      assert |m.Keys| == |(m - {key}).Keys| + 1;
    } else {
      assert m - {key} == m;
    }
  }

  lemma MinusStep<V>(m: map<string, V>, gone: set<string>, key: string)
    ensures m - gone - {key} == m - (gone + {key})
    ensures key !in m - gone ==> m - gone == m - (gone + {key})
  {
  }

  // ---------- the loops over the arguments ----------

  method AddFields(start: map<string, string>, args: seq<string>)
    returns (fields: map<string, string>, count: int)
    requires |args| >= 4 && |args| % 2 == 0
    ensures fields == WithFields(start, args, 2) && count == |fields| - |start|
  {
    var i := 2;
    fields, count := start, 0;
    while i < |args|
      invariant 2 <= i <= |args| && i % 2 == 0
      invariant WithFields(fields, args, i) == WithFields(start, args, 2)
      invariant count == |fields| - |start|
    {
      if args[i] !in fields {
        count := count + 1;
      }
      fields := fields[args[i] := args[i + 1]];
      i := i + 2;
    }
  }

  method DropFields(start: map<string, string>, args: seq<string>)
    returns (fields: map<string, string>, count: int)
    requires |args| >= 2
    ensures fields == start - SetOf(args[2..]) && count == |start| - |fields|
  {
    hide SetOf;
    SetOfNone(args);
    assert start == start - {};
    var i := 2;
    fields, count := start, 0;
    while i < |args|
      invariant 2 <= i <= |args|
      invariant fields == start - SetOf(args[2..i])
      invariant count == |start| - |fields|
    {
      SetOfSnoc(args, 2, i);
      DropOne(fields, args[i]);
      MinusStep(start, SetOf(args[2..i]), args[i]);
      if args[i] in fields {
        count := count + 1;
      }
      fields := fields - {args[i]};
      i := i + 1;
    }
    assert args[2..i] == args[2..];
  }

  method AddMembers(start: set<string>, args: seq<string>) returns (members: set<string>, count: int)
    requires |args| >= 2
    ensures members == start + SetOf(args[2..]) && count == |members| - |start|
  {
    var i := 2;
    members, count := start, 0;
    while i < |args|
      invariant 2 <= i <= |args|
      invariant members == start + SetOf(args[2..i])
      invariant count == |members| - |start|
    {
      SetOfSnoc(args, 2, i);
      if args[i] !in members {
        count := count + 1;
      }
      members := members + {args[i]};
      i := i + 1;
    }
    assert args[2..i] == args[2..];
  }

  method DropMembers(start: set<string>, args: seq<string>) returns (members: set<string>, count: int)
    requires |args| >= 2
    ensures members == start - SetOf(args[2..]) && count == |start| - |members|
  {
    hide SetOf;
    SetOfNone(args);
    assert start == start - {};
    var i := 2;
    members, count := start, 0;
    while i < |args|
      invariant 2 <= i <= |args|
      invariant members == start - SetOf(args[2..i])
      invariant count == |start| - |members|
    {
      SetOfSnoc(args, 2, i);
      DropMember(start, SetOf(args[2..i]), args[i]);
      if args[i] in members {
        count := count + 1;
      }
      members := members - {args[i]};
      i := i + 1;
    }
    assert args[2..i] == args[2..];
  }

  lemma ZAddUnfold(text: ScoreText, z: seq<ZKey>, scores: map<string, Score>, args: seq<string>, i: nat)
    requires i + 1 < |args|
    ensures match text.parse(args[i])
      case None => ZAddPairs(text, z, scores, args, i) == (z, scores)
      case Some(score) =>
        var (z', scores') := (ZPut(z, scores, args[i + 1], score), scores[args[i + 1] := score]);
        ZAddPairs(text, z, scores, args, i) == ZAddPairs(text, z', scores', args, i + 2)
  {
  }

  lemma ZAddEnd(text: ScoreText, z: seq<ZKey>, scores: map<string, Score>, args: seq<string>)
    ensures ZAddPairs(text, z, scores, args, |args|) == (z, scores)
  {
  }

  /** An unreadable score ends the loop, after the pairs before it have been applied. */
  method AddEntries(text: ScoreText, index0: seq<ZKey>, scores0: map<string, Score>, args: seq<string>)
    returns (index: seq<ZKey>, scores: map<string, Score>, reply: Reply)
    requires |args| >= 4 && |args| % 2 == 0 && Agrees(index0, scores0)
    ensures (index, scores) == ZAddPairs(text, index0, scores0, args, 2)
    ensures Agrees(index, scores)
    ensures reply == Err <==> exists i :: 2 <= i < |args| && i % 2 == 0 && text.parse(args[i]).None?
    ensures reply != Err ==> reply == Count(|scores| - |scores0|)
  {
    hide Agrees, ZAddPairs, Insert, Remove;
    var count, i := 0, 2;
    index, scores := index0, scores0;
    while i < |args|
      invariant 2 <= i <= |args| && i % 2 == 0
      invariant Agrees(index, scores)
      invariant ZAddPairs(text, index, scores, args, i) == ZAddPairs(text, index0, scores0, args, 2)
      invariant count == |scores| - |scores0|
      invariant forall j :: 2 <= j < i && j % 2 == 0 ==> text.parse(args[j]).Some?
    {
      var score := text.parse(args[i]);
      ZAddUnfold(text, index, scores, args, i);
      if score.None? {
        return index, scores, Err;
      }
      var member := args[i + 1];
      ZPutAgrees(index, scores, member, score.value);
      if member in scores {
        index := Remove(index, ZKey(scores[member], member));
      } else {
        count := count + 1;
      }
      scores := scores[member := score.value];
      index := Insert(index, ZKey(score.value, member));
      i := i + 2;
    }
    ZAddEnd(text, index, scores, args);
    reply := Count(count);
  }

  method DropEntries(index0: seq<ZKey>, scores0: map<string, Score>, args: seq<string>)
    returns (index: seq<ZKey>, scores: map<string, Score>, count: int)
    requires |args| >= 2 && Agrees(index0, scores0)
    ensures scores == scores0 - SetOf(args[2..]) && Agrees(index, scores)
    ensures count == |scores0| - |scores|
  {
    hide Agrees, SetOf, Remove;
    SetOfNone(args);
    assert scores0 == scores0 - {};
    var i := 2;
    index, scores, count := index0, scores0, 0;
    while i < |args|
      invariant 2 <= i <= |args|
      invariant Agrees(index, scores)
      invariant scores == scores0 - SetOf(args[2..i])
      invariant count == |scores0| - |scores|
    {
      var member := args[i];
      SetOfSnoc(args, 2, i);
      MinusStep(scores0, SetOf(args[2..i]), member);
      if member in scores {
        RemoveAgrees(index, scores, member);
        DropScore(scores, member);
        index := Remove(index, ZKey(scores[member], member));
        scores := scores - {member};
        count := count + 1;
      }
      i := i + 1;
    }
    assert args[2..i] == args[2..];
  }

  /** The score map is walked in no particular order; its entries go after the walk. */
  method DropRange(index0: seq<ZKey>, all: map<string, Score>, lo: Score, hi: Score)
    returns (index: seq<ZKey>, scores: map<string, Score>, count: int)
    requires Agrees(index0, all)
    ensures scores == all - InRange(all, lo, hi) && Agrees(index, scores)
    ensures count == |InRange(all, lo, hi)| == |all| - |scores|
  {
    hide Agrees;
    var todo, gone := all.Keys, {};
    index, scores := index0, all;
    while todo != {}
      invariant todo <= all.Keys && gone !! todo
      invariant gone == set m | m in all && m !in todo && lo <= all[m] <= hi
      invariant scores == all - gone && Agrees(index, scores)
      invariant |gone| == |all| - |scores|
      decreases todo
    {
      var m :| m in todo;
      if lo <= all[m] <= hi {
        RemoveAgrees(index, scores, m);
        DropScore(scores, m);
        index := Remove(index, ZKey(all[m], m));
        scores := scores - {m};
        gone := gone + {m};
      }
      todo := todo - {m};
    }
    assert gone == InRange(all, lo, hi);
    count := |gone|;
  }

  lemma DropScore(m: map<string, Score>, key: string)
    requires key in m
    ensures |m - {key}| == |m| - 1
  {
    assert m.Keys == (m - {key}).Keys + {key};
    assert |m.Keys| == |(m - {key}).Keys| + 1;
  }

  // ---------- handlers on the shard of their name ----------

  method Set(s: Shard, args: seq<string>, now: int) returns (r: Shard, reply: Reply)
    requires |args| >= 3
    ensures reply == if SetExpiry(args, now).None? then Err else Ok
    ensures reply == Err ==> r == s
    ensures reply != Err ==>
      Became(s, args[1], r, At(s, args[1]).(store := Some(StoreData(args[2], SetExpiry(args, now).value))))
  {
    var expiry := SetExpiry(args, now);
    if expiry.None? {
      return s, Err;
    }
    r := s.(store := Assign(s.store, args[1], Some(StoreData(args[2], expiry.value))));
    reply := Ok;
  }

  /** The reply is the number of fields that were not there before. */
  method HSet(s: Shard, args: seq<string>) returns (r: Shard, reply: Reply)
    requires |args| >= 4 && |args| % 2 == 0
    ensures Became(s, args[1], r, HSetSlot(At(s, args[1]), args))
    ensures reply == Count(|OrElse(At(r, args[1]).hash, map[])| - |OrElse(At(s, args[1]).hash, map[])|)
  {
    var fields, count := AddFields(OrElse(Find(s.hash, args[1]), map[]), args);
    r := s.(hash := Assign(s.hash, args[1], Some(fields)));
    reply := Count(count);
  }

  lemma Unchanged(s: Shard, key: string)
    ensures Became(s, key, s, At(s, key))
  {
  }

  lemma HashBecame(s: Shard, key: string, fields: Option<map<string, string>>)
    ensures Became(s, key, s.(hash := Assign(s.hash, key, fields)), At(s, key).(hash := fields))
  {
    hide Find, Assign, Agrees;
  }

  /** The reply is the number of fields that went; a hash left empty goes as a whole. */
  method HDel(s: Shard, args: seq<string>) returns (r: Shard, reply: Reply)
    requires |args| >= 3
    ensures Became(s, args[1], r, HDelSlot(At(s, args[1]), SetOf(args[2..])))
    ensures reply == Count(|OrElse(At(s, args[1]).hash, map[])| - |OrElse(At(r, args[1]).hash, map[])|)
  {
    hide SetOf, Became, Assign;
    if args[1] !in s.hash {
      Unchanged(s, args[1]);
      return s, Count(0);
    }
    var fields, count := DropFields(s.hash[args[1]], args);
    var left := if fields == map[] then None else Some(fields);
    r := s.(hash := Assign(s.hash, args[1], left));
    HashBecame(s, args[1], left);
    reply := Count(count);
  }

  method RPush(s: Shard, args: seq<string>) returns (r: Shard, reply: Reply)
    requires |args| >= 3
    ensures Became(s, args[1], r, RPushSlot(At(s, args[1]), args[2..]))
    ensures reply == Count(|OrElse(At(r, args[1]).list, [])|)
  {
    var list, i := OrElse(Find(s.lists, args[1]), []), 2;
    while i < |args|
      invariant 2 <= i <= |args|
      invariant list == OrElse(Find(s.lists, args[1]), []) + args[2..i]
    {
      list := list + [args[i]];
      i := i + 1;
    }
    assert args[2..i] == args[2..];
    r := s.(lists := Assign(s.lists, args[1], Some(list)));
    reply := Count(|list|);
  }

  method SAdd(s: Shard, args: seq<string>) returns (r: Shard, reply: Reply)
    requires |args| >= 3
    ensures Became(s, args[1], r, SAddSlot(At(s, args[1]), SetOf(args[2..])))
    ensures reply == Count(|OrElse(At(r, args[1]).members, {})| - |OrElse(At(s, args[1]).members, {})|)
  {
    var members, count := AddMembers(OrElse(Find(s.sets, args[1]), {}), args);
    r := s.(sets := Assign(s.sets, args[1], Some(members)));
    reply := Count(count);
  }

  method SRem(s: Shard, args: seq<string>) returns (r: Shard, reply: Reply)
    requires |args| >= 3
    ensures Became(s, args[1], r, SRemSlot(At(s, args[1]), SetOf(args[2..])))
    ensures reply == Count(|OrElse(At(s, args[1]).members, {})| - |OrElse(At(r, args[1]).members, {})|)
  {
    if args[1] !in s.sets {
      return s, Count(0);
    }
    var members, count := DropMembers(s.sets[args[1]], args);
    r := s.(sets := Assign(s.sets, args[1], if members == {} then None else Some(members)));
    reply := Count(count);
  }

  /** Index and score map written back together, or both erased. */
  function StoreIndex(s: Shard, key: string, entries: Option<(seq<ZKey>, map<string, Score>)>): (r: Shard)
    ensures DiffersOnlyAt(s, r, key)
    ensures At(r, key) == if entries.None? then At(s, key).(zset := None, scores := None)
      else At(s, key).(zset := Some(entries.value.0), scores := Some(entries.value.1))
  {
    if entries.None? then
      s.(zset := Assign(s.zset, key, None), zsetScore := Assign(s.zsetScore, key, None))
    else
      s.(zset := Assign(s.zset, key, Some(entries.value.0)), zsetScore := Assign(s.zsetScore, key, Some(entries.value.1)))
  }

  method ZAdd(text: ScoreText, s: Shard, args: seq<string>) returns (r: Shard, reply: Reply)
    requires |args| >= 4 && |args| % 2 == 0
    requires SlotOk(At(s, args[1]))
    ensures Became(s, args[1], r, ZAddSlot(text, At(s, args[1]), args))
    ensures reply == Err <==> exists i :: 2 <= i < |args| && i % 2 == 0 && text.parse(args[i]).None?
    ensures reply != Err ==>
      reply == Count(|OrElse(At(r, args[1]).scores, map[])| - |OrElse(At(s, args[1]).scores, map[])|)
  {
    var index, scores := OrElse(Find(s.zset, args[1]), []), OrElse(Find(s.zsetScore, args[1]), map[]);
    index, scores, reply := AddEntries(text, index, scores, args);
    r := StoreIndex(s, args[1], Some((index, scores)));
  }

  method ZRem(s: Shard, args: seq<string>) returns (r: Shard, reply: Reply)
    requires |args| >= 3
    requires SlotOk(At(s, args[1]))
    ensures Became(s, args[1], r, ZDropSlot(At(s, args[1]), SetOf(args[2..])))
    ensures reply == Count(|OrElse(At(s, args[1]).scores, map[])| - |OrElse(At(r, args[1]).scores, map[])|)
  {
    var key := args[1];
    if key !in s.zset || key !in s.zsetScore {
      return s, Count(0);
    }
    var index, scores, count := DropEntries(s.zset[key], s.zsetScore[key], args);
    EmptyAgrees(index, scores);
    DropIsFilter(s.zset[key], s.zsetScore[key], SetOf(args[2..]), index);
    r := StoreIndex(s, key, if index == [] then None else Some((index, scores)));
    reply := Count(count);
  }

  /** ZINCRBY and ZINCRBYFLOAT: a member that is not there is not created. */
  method ZIncrBy(s: Shard, key: string, member: string, incr: Score) returns (r: Shard, reply: Reply)
    requires SlotOk(At(s, key))
    ensures Became(s, key, r, ZIncrSlot(At(s, key), member, incr))
    ensures member in OrElse(At(s, key).scores, map[]) <==> member in OrElse(At(r, key).scores, map[])
    ensures reply == if member in OrElse(At(r, key).scores, map[]) then Value(At(r, key).scores.value[member]) else Null
  {
    if key !in s.zset || key !in s.zsetScore || member !in s.zsetScore[key] {
      return s, Null;
    }
    var scores, index := s.zsetScore[key], s.zset[key];
    var score := scores[member] + incr;
    ZPutAgrees(index, scores, member, score);
    index := Insert(Remove(index, ZKey(scores[member], member)), ZKey(score, member));
    r := StoreIndex(s, key, Some((index, scores[member := score])));
    reply := Value(score);
  }

  method ZRemRangeByScore(s: Shard, key: string, lo: Score, hi: Score) returns (r: Shard, reply: Reply)
    requires SlotOk(At(s, key))
    ensures lo <= hi ==>
      Became(s, key, r, ZDropSlot(At(s, key), InRange(OrElse(At(s, key).scores, map[]), lo, hi)))
    ensures lo <= hi && At(s, key).scores.Some? ==>
      && reply == Count(|InRange(At(s, key).scores.value, lo, hi)|)
      && reply == Count(|At(s, key).scores.value| - |OrElse(At(r, key).scores, map[])|)
    ensures lo <= hi && At(s, key).scores.None? ==> reply == Count(-1)
    ensures lo > hi ==> r == s && reply == Err
  {
    if lo > hi {
      return s, Err;
    }
    if key !in s.zset || key !in s.zsetScore {
      return s, Count(-1);
    }
    var index, scores, count := DropRange(s.zset[key], s.zsetScore[key], lo, hi);
    EmptyAgrees(index, scores);
    DropIsFilter(s.zset[key], s.zsetScore[key], InRange(s.zsetScore[key], lo, hi), index);
    r := StoreIndex(s, key, if scores == map[] then None else Some((index, scores)));
    reply := Count(count);
  }

  // ---------- renaming ----------

  /** The chain of lookups that finds the type a name is held by. */
  function KindIn(s: Shard, key: string): (kind: Option<Kind>)
    ensures kind == FirstKind(At(s, key))
  {
    if key in s.store then Some(Strings)
    else if key in s.hash then Some(Hashes)
    else if key in s.lists then Some(Lists)
    else if key in s.sets then Some(Sets)
    else if key in s.zset then Some(ZSets)
    else None
  }

  method EraseIn(s: Shard, key: string, kind: Kind) returns (r: Shard)
    ensures Became(s, key, r, EraseKind(At(s, key), kind))
  {
    match kind
    case Strings => r := s.(store := Assign(s.store, key, None));
    case Hashes => r := s.(hash := Assign(s.hash, key, None));
    case Lists => r := s.(lists := Assign(s.lists, key, None));
    case Sets => r := s.(sets := Assign(s.sets, key, None));
    case ZSets => r := StoreIndex(s, key, None);
  }

  /** The value under `key` in one shard placed under `newKey` in another or the same; not
      defined when the reference to it has gone stale. */
  method MoveIn(kind: Kind, from: Shard, key: string, into: Shard, newKey: string, sameShard: bool, grows: bool)
    returns (r: Shard, defined: bool)
    requires FirstKind(At(from, key)) == Some(kind)
    requires SlotOk(At(from, key)) && SlotOk(At(into, newKey))
    ensures defined <==> !MoveStale(kind, At(into, newKey), sameShard, grows)
    ensures defined ==> Became(into, newKey, r, MoveKind(kind, At(from, key), At(into, newKey), sameShard))
  {
    r, defined := into, true;
    if sameShard && grows {
      match kind
      case Strings => defined := newKey in into.store;
      case Hashes =>
      case Lists => defined := newKey in into.lists;
      case Sets => defined := newKey in into.sets;
      case ZSets => defined := newKey in into.zset;
      if !defined {
        return;
      }
    }
    r := MoveDefined(kind, from, key, into, newKey, sameShard);
  }

  method MoveDefined(kind: Kind, from: Shard, key: string, into: Shard, newKey: string, sameShard: bool)
    returns (r: Shard)
    requires FirstKind(At(from, key)) == Some(kind)
    requires SlotOk(At(from, key)) && SlotOk(At(into, newKey))
    ensures Became(into, newKey, r, MoveKind(kind, At(from, key), At(into, newKey), sameShard))
  {
    match kind
    case Strings => r := into.(store := Assign(into.store, newKey, Some(from.store[key])));
    case Hashes => r := into.(hash := Assign(into.hash, newKey, Some(from.hash[key])));
    case Lists => r := into.(lists := Assign(into.lists, newKey, Some(from.lists[key])));
    case Sets => r := into.(sets := Assign(into.sets, newKey, Some(from.sets[key])));
    case ZSets =>
      if sameShard || newKey !in into.zset {
        r := StoreIndex(into, newKey, Some((from.zset[key], from.zsetScore[key])));
      } else {
        r := into;
      }
  }
}
