/** generateRDB: the whole keyspace written as a stream of commands for a replica. */
module Snapshot {
  import opened Text
  import opened SortedSet
  import opened Keyspace
  import opened ShardOps
  import opened Server
  import opened Resp
  import opened StreamParser

  type Command = seq<string>

  // ---------- what the emitted commands do ----------

  lemma UpperNames()
    ensures ToUpper("SET") == "SET" && ToUpper("HSET") == "HSET" && ToUpper("RPUSH") == "RPUSH"
    ensures ToUpper("SADD") == "SADD" && ToUpper("ZADD") == "ZADD" && ToUpper("SELECT") == "SELECT"
    ensures ToUpper("EX") == "EX" && ToUpper("EOF") == "EOF"
  {
  }

  lemma SetEffect(cfg: Config, view: FlatDb, key: string, val: string)
    requires Total(view)
    ensures NextView(cfg, view, ["SET", key, val])
         == view[key := view[key].(store := Some(StoreData(val, None)))]
  {
    UpperNames();
  }

  lemma HSetEffect(cfg: Config, view: FlatDb, key: string, field: string, val: string)
    requires Total(view)
    ensures NextView(cfg, view, ["HSET", key, field, val])
         == view[key := view[key].(hash := Some(OrElse(view[key].hash, map[])[field := val]))]
  {
    UpperNames();
    var args := ["HSET", key, field, val];
    assert WithFields(OrElse(view[key].hash, map[]), args, 2)
        == WithFields(OrElse(view[key].hash, map[])[field := val], args, 4);
  }

  lemma RPushEffect(cfg: Config, view: FlatDb, key: string, val: string)
    requires Total(view)
    ensures NextView(cfg, view, ["RPUSH", key, val])
         == view[key := view[key].(list := Some(OrElse(view[key].list, []) + [val]))]
  {
    UpperNames();
    assert ["RPUSH", key, val][2..] == [val];
  }

  lemma SAddEffect(cfg: Config, view: FlatDb, key: string, member: string)
    requires Total(view)
    ensures NextView(cfg, view, ["SADD", key, member])
         == view[key := view[key].(members := Some(OrElse(view[key].members, {}) + {member}))]
  {
    UpperNames();
    assert ["SADD", key, member][2..] == [member];
    assert SetOf([member]) == {member};
  }

  lemma ZAddEffect(cfg: Config, view: FlatDb, key: string, score: Score, member: string)
    requires Total(view) && cfg.text.parse(cfg.text.format(score)) == Some(score)
    ensures
      var z, scores := OrElse(view[key].zset, []), OrElse(view[key].scores, map[]);
      NextView(cfg, view, ["ZADD", key, cfg.text.format(score), member])
        == view[key := view[key].(zset := Some(ZPut(z, scores, member, score)),
                                  scores := Some(scores[member := score]))]
  {
    UpperNames();
    var args := ["ZADD", key, cfg.text.format(score), member];
    var z, scores := OrElse(view[key].zset, []), OrElse(view[key].scores, map[]);
    ZAddUnfold(cfg.text, z, scores, args, 2);
    ZAddEnd(cfg.text, ZPut(z, scores, member, score), scores[member := score], args);
    hide ZAddPairs, ZPut;
  }

  /** The separate EX command and the closing EOF change nothing. */
  lemma NoEffect(cfg: Config, view: FlatDb, seconds: int)
    requires Total(view)
    ensures NextView(cfg, view, ["EX", FromInt(seconds)]) == view
    ensures NextView(cfg, view, ["EOF"]) == view
  {
    UpperNames();
  }

  ghost function ViewAll(cfg: Config, view: FlatDb, cmds: seq<Command>): (r: FlatDb)
    requires Total(view)
    ensures Total(r)
    decreases |cmds|
  {
    if cmds == [] then view
    else NextView(cfg, ViewAll(cfg, view, cmds[..|cmds| - 1]), cmds[|cmds| - 1])
  }

  lemma ViewSnoc(cfg: Config, view: FlatDb, cmds: seq<Command>, last: Command)
    requires Total(view)
    ensures ViewAll(cfg, view, cmds + [last]) == NextView(cfg, ViewAll(cfg, view, cmds), last)
  {
    assert (cmds + [last])[..|cmds|] == cmds;
  }

  lemma {:induction false} ViewConcat(cfg: Config, view: FlatDb, a: seq<Command>, b: seq<Command>)
    requires Total(view)
    ensures ViewAll(cfg, view, a + b) == ViewAll(cfg, ViewAll(cfg, view, a), b)
    decreases |b|
  {
    hide NextView;
    if b == [] {
      assert a + b == a;
    } else {
      ViewConcat(cfg, view, a, b[..|b| - 1]);
      assert (a + b)[..|a + b| - 1] == a + b[..|b| - 1];
    }
  }

  // ---------- the text of the emitted commands ----------

  /** The literal head of each command generateRDB yields. */
  function Head(name: string): string {
    match name
    case "SELECT" => "*2\r\n$6\r\nSELECT\r\n"
    case "SET" => "*3\r\n$3\r\nSET\r\n"
    case "EX" => "*2\r\n$2\r\nEX\r\n"
    case "HSET" => "*4\r\n$4\r\nHSET\r\n"
    case "RPUSH" => "*3\r\n$5\r\nRPUSH\r\n"
    case "SADD" => "*3\r\n$4\r\nSADD\r\n"
    case "ZADD" => "*4\r\n$4\r\nZADD\r\n"
    case "EOF" => "*1\r\n$3\r\nEOF\r\n"
    case _ => ""
  }

  function Arity(name: string): nat {
    match name
    case "SELECT" => 2
    case "SET" => 3
    case "EX" => 2
    case "HSET" => 4
    case "RPUSH" => 3
    case "SADD" => 3
    case "ZADD" => 4
    case "EOF" => 1
    case _ => 0
  }

  lemma Digit(n: nat)
    requires n < 10
    ensures FromInt(n) == ["0123456789"[n]]
  {
  }

  ghost predicate IsHead(name: string, n: nat, head: string) {
    head == "*" + FromInt(n) + CRLF + ("$" + FromInt(|name|) + CRLF + name + CRLF)
  }

  lemma Heads0()
    ensures IsHead("SELECT", 2, "*2\r\n$6\r\nSELECT\r\n")
    ensures IsHead("SET", 3, "*3\r\n$3\r\nSET\r\n")
  {
    Digit(2);
    Digit(3);
    Digit(6);
    hide FromInt;
  }

  lemma Heads1()
    ensures IsHead("EX", 2, "*2\r\n$2\r\nEX\r\n")
    ensures IsHead("HSET", 4, "*4\r\n$4\r\nHSET\r\n")
  {
    Digit(2);
    Digit(4);
    hide FromInt;
  }

  lemma Heads2()
    ensures IsHead("RPUSH", 3, "*3\r\n$5\r\nRPUSH\r\n")
    ensures IsHead("SADD", 3, "*3\r\n$4\r\nSADD\r\n")
  {
    Digit(3);
    Digit(4);
    Digit(5);
    hide FromInt;
  }

  lemma Heads3()
    ensures IsHead("ZADD", 4, "*4\r\n$4\r\nZADD\r\n")
    ensures IsHead("EOF", 1, "*1\r\n$3\r\nEOF\r\n")
  {
    Digit(1);
    Digit(3);
    Digit(4);
    hide FromInt;
  }

  lemma HeadText(name: string)
    requires Arity(name) > 0
    ensures IsHead(name, Arity(name), Head(name))
  {
    Heads0();
    Heads1();
    Heads2();
    Heads3();
    hide IsHead;
  }

  /** The literal heads are what the encoder writes for the name and the argument count. */
  lemma HeadIsFormat(c: Command)
    requires c != [] && |c| == Arity(c[0])
    ensures Head(c[0]) + FormatArgs(c[1..]) == FormatCommand(c)
  {
    hide FromInt, Head, Arity;
    HeadText(c[0]);
    var first := "$" + FromInt(|c[0]|) + CRLF + c[0] + CRLF;
    assert FormatArgs(c) == first + FormatArgs(c[1..]);
  }

  // ---------- what the emitted commands look like ----------

  ghost predicate Writable(t: string) {
    |t| <= INT64_MAX && CrlfFree(t)
  }

  ghost predicate WritableArgs(c: Command) {
    |c| <= INT64_MAX && forall i :: 0 <= i < |c| ==> Writable(c[i])
  }

  /** The names that generateRDB writes. */
  const SENT: set<string> := {"SELECT", "SET", "EX", "HSET", "RPUSH", "SADD", "ZADD", "EOF"}

  /** No command but the leading SELECT changes the selected database; if all texts are
      writable, so are all commands. */
  ghost predicate Tidy(cmds: seq<Command>, writable: bool) {
    forall i :: 0 <= i < |cmds| ==>
      && cmds[i] != [] && (|cmds[i]| == 2 ==> cmds[i][0] == "EX") && cmds[i][0] in SENT
      && (writable ==> WritableArgs(cmds[i]))
  }

  lemma TidyConcat(a: seq<Command>, b: seq<Command>, writable: bool)
    requires Tidy(a, writable) && Tidy(b, writable)
    ensures Tidy(a + b, writable)
  {
    hide WritableArgs;
  }

  lemma TidySnoc(cmds: seq<Command>, c: Command, writable: bool)
    requires Tidy(cmds, writable) && c != [] && (|c| == 2 ==> c[0] == "EX") && c[0] in SENT && (writable ==> WritableArgs(c))
    ensures Tidy(cmds + [c], writable)
  {
    hide WritableArgs;
  }

  lemma TidyWeaker(cmds: seq<Command>, writable: bool, weaker: bool)
    requires Tidy(cmds, writable) && (weaker ==> writable)
    ensures Tidy(cmds, weaker)
  {
    hide WritableArgs;
  }

  // ---------- every command adds something ----------

  /** The commands that write data. */
  const WRITERS: set<string> := {"SET", "HSET", "RPUSH", "SADD", "ZADD"}

  ghost predicate IsScore(text: ScoreText, t: string) {
    exists score :: t == text.format(score) && text.parse(t) == Some(score)
  }

  /** The command writes what is not there yet, or writes nothing. */
  ghost predicate Adds(cfg: Config, view: FlatDb, c: Command)
    requires Total(view)
  {
    && c != []
    && match c[0]
       case "SET" => |c| == 3 && view[c[1]].store == None
       case "HSET" => |c| == 4 && c[2] !in OrElse(view[c[1]].hash, map[])
       case "RPUSH" => |c| == 3
       case "SADD" => |c| == 3 && c[2] !in OrElse(view[c[1]].members, {})
       case "ZADD" => |c| == 4 && c[3] !in OrElse(view[c[1]].scores, map[]) && IsScore(cfg.text, c[2])
       case _ => NextView(cfg, view, c) == view
  }

  ghost predicate Growing(cfg: Config, view: FlatDb, cmds: seq<Command>)
    requires Total(view)
  {
    forall i :: 0 <= i < |cmds| ==> Adds(cfg, ViewAll(cfg, view, cmds[..i]), cmds[i])
  }

  lemma GrowingNone(cfg: Config, view: FlatDb)
    requires Total(view)
    ensures Growing(cfg, view, [])
  {
  }

  lemma GrowingSnoc(cfg: Config, view: FlatDb, cmds: seq<Command>, c: Command)
    requires Total(view) && Growing(cfg, view, cmds) && Adds(cfg, ViewAll(cfg, view, cmds), c)
    ensures Growing(cfg, view, cmds + [c])
  {
    hide Adds, ViewAll;
    forall i | 0 <= i < |cmds + [c]|
      ensures Adds(cfg, ViewAll(cfg, view, (cmds + [c])[..i]), (cmds + [c])[i])
    {
      assert (cmds + [c])[..i] == cmds[..i];
      assert cmds[..|cmds|] == cmds;
    }
  }

  lemma GrowingConcat(cfg: Config, view: FlatDb, a: seq<Command>, b: seq<Command>)
    requires Total(view) && Growing(cfg, view, a) && Growing(cfg, ViewAll(cfg, view, a), b)
    ensures Growing(cfg, view, a + b)
  {
    hide Adds, ViewAll;
    forall i | 0 <= i < |a + b|
      ensures Adds(cfg, ViewAll(cfg, view, (a + b)[..i]), (a + b)[i])
    {
      if i < |a| {
        assert (a + b)[..i] == a[..i];
      } else {
        assert (a + b)[..i] == a + b[..i - |a|];
        ViewConcat(cfg, view, a, b[..i - |a|]);
      }
    }
  }

  /** The commands of one part after those of the parts before. */
  lemma Append(cfg: Config, view: FlatDb, cmds: seq<Command>, more: seq<Command>, own: bool, writable: bool)
    requires Total(view) && Tidy(cmds, writable) && Tidy(more, own) && (writable ==> own)
    requires Growing(cfg, view, cmds) && Growing(cfg, ViewAll(cfg, view, cmds), more)
    ensures ViewAll(cfg, view, cmds + more) == ViewAll(cfg, ViewAll(cfg, view, cmds), more)
    ensures Tidy(cmds + more, writable) && Growing(cfg, view, cmds + more)
  {
    hide Tidy, Growing, ViewAll;
    ViewConcat(cfg, view, cmds, more);
    TidyWeaker(more, own, writable);
    TidyConcat(cmds, more, writable);
    GrowingConcat(cfg, view, cmds, more);
  }

  /** One slot holds all that the other holds; the index follows from the scores. */
  ghost predicate SlotLeq(a: Slot, b: Slot) {
    && (a.store.Some? ==> b.store == a.store)
    && (forall f :: f in OrElse(a.hash, map[]) ==> f in OrElse(b.hash, map[]))
    && OrElse(a.list, []) <= OrElse(b.list, [])
    && OrElse(a.members, {}) <= OrElse(b.members, {})
    && (forall m :: m in OrElse(a.scores, map[]) ==> m in OrElse(b.scores, map[]))
  }

  ghost predicate ViewLeq(a: FlatDb, b: FlatDb)
    requires Total(a) && Total(b)
  {
    forall k: string :: SlotLeq(a[k], b[k])
  }

  lemma SlotLeqTransitive(a: Slot, b: Slot, c: Slot)
    requires SlotLeq(a, b) && SlotLeq(b, c)
    ensures SlotLeq(a, c)
  {
  }

  lemma AddedTo(a: FlatDb, key: string, slot: Slot)
    requires Total(a) && SlotLeq(a[key], slot)
    ensures ViewLeq(a, a[key := slot])
    ensures !SlotLeq(slot, a[key]) ==> !ViewLeq(a[key := slot], a)
  {
    var b := a[key := slot];
    forall k: string
      ensures SlotLeq(a[k], b[k])
    {
    }
    assert b[key] == slot;
  }

  /** A command that adds makes the data strictly larger, if it writes any. */
  lemma AddsGrows(cfg: Config, view: FlatDb, c: Command)
    requires Total(view) && Adds(cfg, view, c)
    ensures ViewLeq(view, NextView(cfg, view, c))
    ensures c[0] in WRITERS ==> !ViewLeq(NextView(cfg, view, c), view)
  {
    hide NextView, ViewLeq, ZPut;
    match c[0]
    case "SET" =>
      assert c == ["SET", c[1], c[2]];
      SetEffect(cfg, view, c[1], c[2]);
      AddedTo(view, c[1], view[c[1]].(store := Some(StoreData(c[2], None))));
    case "HSET" =>
      assert c == ["HSET", c[1], c[2], c[3]];
      HSetEffect(cfg, view, c[1], c[2], c[3]);
      AddedTo(view, c[1], view[c[1]].(hash := Some(OrElse(view[c[1]].hash, map[])[c[2] := c[3]])));
    case "RPUSH" =>
      assert c == ["RPUSH", c[1], c[2]];
      RPushEffect(cfg, view, c[1], c[2]);
      AddedTo(view, c[1], view[c[1]].(list := Some(OrElse(view[c[1]].list, []) + [c[2]])));
    case "SADD" =>
      assert c == ["SADD", c[1], c[2]];
      SAddEffect(cfg, view, c[1], c[2]);
      AddedTo(view, c[1], view[c[1]].(members := Some(OrElse(view[c[1]].members, {}) + {c[2]})));
    case "ZADD" =>
      ZAddGrows(cfg, view, c);
    case _ => SameLeq(view);
  }

  lemma SameLeq(view: FlatDb)
    requires Total(view)
    ensures ViewLeq(view, view)
  {
  }

  lemma ZAddGrows(cfg: Config, view: FlatDb, c: Command)
    requires Total(view) && Adds(cfg, view, c) && c[0] == "ZADD"
    ensures ViewLeq(view, NextView(cfg, view, c)) && !ViewLeq(NextView(cfg, view, c), view)
  {
    hide NextView, ViewLeq, ZPut;
    var score :| c[2] == cfg.text.format(score) && cfg.text.parse(c[2]) == Some(score);
    assert c == ["ZADD", c[1], cfg.text.format(score), c[3]];
    var z, scores := OrElse(view[c[1]].zset, []), OrElse(view[c[1]].scores, map[]);
    ZAddEffect(cfg, view, c[1], score, c[3]);
    assert c[3] in scores[c[3] := score];
    AddedTo(view, c[1], view[c[1]].(zset := Some(ZPut(z, scores, c[3], score)), scores := Some(scores[c[3] := score])));
  }

  lemma LiteralsWritable()
    ensures Writable("SET") && Writable("HSET") && Writable("RPUSH") && Writable("SADD") && Writable("ZADD")
    ensures Writable("SELECT") && Writable("EX") && Writable("EOF")
  {
  }

  lemma NumberWritable(i: int)
    requires 0 <= i < INT64_MAX
    ensures Writable(FromInt(i))
  {
    DigitsShort(i);
    assert FromInt(i) == FromNat(i);
    hide FromNat;
  }

  lemma {:induction false} DigitsShort(n: nat)
    ensures |FromNat(n)| <= n + 1
  {
    if n >= 10 {
      DigitsShort(n / 10);
    }
  }

  // ---------- one name ----------

  /** The scores are read back exactly from their text. */
  ghost predicate Prints(text: ScoreText, scores: map<string, Score>) {
    forall m :: m in scores ==>
      text.parse(text.format(scores[m])) == Some(scores[m]) && Writable(text.format(scores[m]))
  }

  function NonEmpty<T(==)>(value: T, empty: T): Option<T> {
    if value == empty then None else Some(value)
  }

  ghost predicate WritableFields(fields: map<string, string>) {
    forall f :: f in fields ==> Writable(f) && Writable(fields[f])
  }

  ghost predicate WritableMembers(scores: map<string, Score>) {
    forall m :: m in scores ==> Writable(m)
  }

  lemma HSetOnto(cfg: Config, view: FlatDb, key: string, done: map<string, string>, f: string, val: string)
    requires Total(view) && f !in done
    ensures var before := view[key := view[key].(hash := NonEmpty(done, map[]))];
      && NextView(cfg, before, ["HSET", key, f, val]) == view[key := view[key].(hash := NonEmpty(done[f := val], map[]))]
      && Adds(cfg, before, ["HSET", key, f, val])
  {
    hide NextView;
    HSetEffect(cfg, view[key := view[key].(hash := NonEmpty(done, map[]))], key, f, val);
    assert f in done[f := val];
  }

  method EmitHash(cfg: Config, key: string, fields: map<string, string>, ghost view: FlatDb)
    returns (cmds: seq<Command>)
    requires Total(view) && view[key].hash == None
    ensures ViewAll(cfg, view, cmds) == view[key := view[key].(hash := NonEmpty(fields, map[]))]
    ensures Tidy(cmds, fields != map[] ==> Writable(key) && WritableFields(fields)) && Growing(cfg, view, cmds)
  {
    hide NextView, ViewAll, Writable, Tidy, WritableArgs, Growing, Adds;
    cmds := [];
    var todo, done := fields.Keys, map[];
    ghost var writable := fields != map[] ==> Writable(key) && WritableFields(fields);
    GrowingNone(cfg, view);
    TidyNone(writable);
    ViewNone(cfg, view);
    assert view == view[key := view[key].(hash := None)];
    while todo != {}
      invariant todo <= fields.Keys && done.Keys == fields.Keys - todo
      invariant forall f :: f in done ==> done[f] == fields[f]
      invariant ViewAll(cfg, view, cmds) == view[key := view[key].(hash := NonEmpty(done, map[]))]
      invariant Tidy(cmds, writable) && Growing(cfg, view, cmds)
      decreases todo
    {
      var f :| f in todo;
      var c := ["HSET", key, f, fields[f]];
      HSetOnto(cfg, view, key, done, f, fields[f]);
      ViewSnoc(cfg, view, cmds, c);
      GrowingSnoc(cfg, view, cmds, c);
      if writable {
        FourWritable("HSET", key, f, fields[f]);
      }
      TidySnoc(cmds, c, writable);
      cmds := cmds + [c];
      done := done[f := fields[f]];
      todo := todo - {f};
    }
    assert done == fields;
  }

  method EmitList(cfg: Config, key: string, list: seq<string>, ghost view: FlatDb)
    returns (cmds: seq<Command>)
    requires Total(view) && view[key].list == None
    ensures ViewAll(cfg, view, cmds) == view[key := view[key].(list := NonEmpty(list, []))]
    ensures Tidy(cmds, list != [] ==> Writable(key) && forall v :: v in list ==> Writable(v))
    ensures Growing(cfg, view, cmds)
  {
    hide NextView, Writable, Growing;
    LiteralsWritable();
    cmds := [];
    GrowingNone(cfg, view);
    var i := 0;
    assert view == view[key := view[key].(list := None)];
    while i < |list|
      invariant 0 <= i <= |list|
      invariant ViewAll(cfg, view, cmds) == view[key := view[key].(list := NonEmpty(list[..i], []))]
      invariant Tidy(cmds, list != [] ==> Writable(key) && forall v :: v in list ==> Writable(v))
      invariant Growing(cfg, view, cmds)
    {
      RPushEffect(cfg, ViewAll(cfg, view, cmds), key, list[i]);
      ViewSnoc(cfg, view, cmds, ["RPUSH", key, list[i]]);
      GrowingSnoc(cfg, view, cmds, ["RPUSH", key, list[i]]);
      assert list[..i + 1] == list[..i] + [list[i]];
      assert [] + [list[i]] == [list[i]];
      cmds := cmds + [["RPUSH", key, list[i]]];
      i := i + 1;
    }
    assert list[..i] == list;
  }

  lemma SAddOnto(cfg: Config, view: FlatDb, key: string, done: set<string>, m: string)
    requires Total(view) && m !in done
    ensures var before := view[key := view[key].(members := NonEmpty(done, {}))];
      && NextView(cfg, before, ["SADD", key, m]) == view[key := view[key].(members := NonEmpty(done + {m}, {}))]
      && Adds(cfg, before, ["SADD", key, m])
  {
    hide NextView;
    SAddEffect(cfg, view[key := view[key].(members := NonEmpty(done, {}))], key, m);
    assert m in done + {m};
  }

  method EmitMembers(cfg: Config, key: string, members: set<string>, ghost view: FlatDb)
    returns (cmds: seq<Command>)
    requires Total(view) && view[key].members == None
    ensures ViewAll(cfg, view, cmds) == view[key := view[key].(members := NonEmpty(members, {}))]
    ensures Tidy(cmds, members != {} ==> Writable(key) && forall m :: m in members ==> Writable(m))
    ensures Growing(cfg, view, cmds)
  {
    hide NextView, ViewAll, Writable, Tidy, WritableArgs, Growing, Adds;
    cmds := [];
    var todo := members;
    ghost var done: set<string> := {};
    ghost var writable := members != {} ==> Writable(key) && forall m :: m in members ==> Writable(m);
    GrowingNone(cfg, view);
    TidyNone(writable);
    ViewNone(cfg, view);
    assert view == view[key := view[key].(members := None)];
    while todo != {}
      invariant todo <= members && done == members - todo
      invariant ViewAll(cfg, view, cmds) == view[key := view[key].(members := NonEmpty(done, {}))]
      invariant Tidy(cmds, writable) && Growing(cfg, view, cmds)
      decreases todo
    {
      var m :| m in todo;
      var c := ["SADD", key, m];
      SAddOnto(cfg, view, key, done, m);
      ViewSnoc(cfg, view, cmds, c);
      GrowingSnoc(cfg, view, cmds, c);
      if writable {
        ThreeWritable("SADD", key, m);
      }
      TidySnoc(cmds, c, writable);
      cmds := cmds + [c];
      done, todo := done + {m}, todo - {m};
    }
    assert done == members;
  }

  /** What a replica makes of a sorted set: nothing when it is empty. */
  function ZSetSlot(slot: Slot, z: seq<ZKey>, scores: map<string, Score>): Slot {
    if scores == map[] then slot.(zset := None, scores := None)
    else slot.(zset := Some(z), scores := Some(scores))
  }

  lemma ZAddOnto(cfg: Config, view: FlatDb, key: string, z: seq<ZKey>, done: map<string, Score>, m: string, score: Score)
    requires Total(view) && view[key].zset == None && view[key].scores == None
    requires Agrees(z, done) && cfg.text.parse(cfg.text.format(score)) == Some(score)
    ensures NextView(cfg, view[key := ZSetSlot(view[key], z, done)], ["ZADD", key, cfg.text.format(score), m])
         == view[key := ZSetSlot(view[key], ZPut(z, done, m, score), done[m := score])]
    ensures Agrees(ZPut(z, done, m, score), done[m := score])
  {
    EmptyAgrees(z, done);
    ZPutAgrees(z, done, m, score);
    hide NextView, Agrees, ZPut;
    ZAddEffect(cfg, view[key := ZSetSlot(view[key], z, done)], key, score, m);
    assert m in done[m := score];
  }

  method EmitScores(cfg: Config, key: string, scores: map<string, Score>, ghost z: seq<ZKey>, ghost view: FlatDb)
    returns (cmds: seq<Command>)
    requires Total(view) && view[key].zset == None && view[key].scores == None
    requires Agrees(z, scores) && Prints(cfg.text, scores)
    ensures ViewAll(cfg, view, cmds) == view[key := ZSetSlot(view[key], z, scores)]
    ensures Tidy(cmds, scores != map[] ==> Writable(key) && WritableMembers(scores)) && Growing(cfg, view, cmds)
  {
    hide NextView, ViewAll, Agrees, ZPut, Writable, Tidy, ZSetSlot, WritableArgs, Growing, Adds;
    GrowingNone(cfg, view);
    cmds := [];
    var todo, done := scores.Keys, map[];
    ghost var built: seq<ZKey> := [];
    ghost var writable := scores != map[] ==> Writable(key) && WritableMembers(scores);
    NoScoresYet(view, key);
    TidyNone(writable);
    NothingAgrees();
    ViewNone(cfg, view);
    while todo != {}
      invariant todo <= scores.Keys && done.Keys == scores.Keys - todo
      invariant forall m :: m in done ==> done[m] == scores[m]
      invariant Agrees(built, done)
      invariant ViewAll(cfg, view, cmds) == view[key := ZSetSlot(view[key], built, done)]
      invariant Tidy(cmds, writable) && Growing(cfg, view, cmds)
      decreases todo
    {
      var m :| m in todo;
      var c := ["ZADD", key, cfg.text.format(scores[m]), m];
      ZAddOnto(cfg, view, key, built, done, m, scores[m]);
      ViewSnoc(cfg, view, cmds, c);
      ZAddAdds(cfg, view, key, built, done, m, scores[m]);
      GrowingSnoc(cfg, view, cmds, c);
      if writable {
        FourWritable("ZADD", key, cfg.text.format(scores[m]), m);
      }
      TidySnoc(cmds, c, writable);
      cmds := cmds + [c];
      built := ZPut(built, done, m, scores[m]);
      done := done[m := scores[m]];
      todo := todo - {m};
    }
    assert todo == {} && done.Keys == scores.Keys;
    assert done == scores;
    AgreesUnique(built, z, scores);
  }

  lemma ZAddAdds(cfg: Config, view: FlatDb, key: string, z: seq<ZKey>, done: map<string, Score>, m: string, score: Score)
    requires Total(view) && view[key].zset == None && view[key].scores == None && m !in done
    requires cfg.text.parse(cfg.text.format(score)) == Some(score)
    ensures Adds(cfg, view[key := ZSetSlot(view[key], z, done)], ["ZADD", key, cfg.text.format(score), m])
  {
    hide NextView;
    assert IsScore(cfg.text, cfg.text.format(score));
  }

  lemma NoScoresYet(view: FlatDb, key: string)
    requires Total(view) && view[key].zset == None && view[key].scores == None
    ensures view == view[key := ZSetSlot(view[key], [], map[])]
  {
  }

  lemma FourWritable(a: string, b: string, c: string, d: string)
    requires a in {"HSET", "ZADD"} && Writable(b) && Writable(c) && Writable(d)
    ensures WritableArgs([a, b, c, d])
  {
    LiteralsWritable();
    hide Writable;
  }

  lemma ThreeWritable(a: string, b: string, c: string)
    requires a in {"SET", "RPUSH", "SADD"} && Writable(b) && Writable(c)
    ensures WritableArgs([a, b, c])
  {
    LiteralsWritable();
    hide Writable;
  }

  lemma NothingAgrees()
    ensures Agrees([], map[])
  {
  }

  // ---------- one shard ----------

  ghost predicate WritableStrings(now: int, m: map<string, StoreData>) {
    forall k :: k in m ==>
      && Writable(k) && Writable(m[k].val)
      && (m[k].expire.Some? ==> (m[k].expire.value - now) / NANOS_PER_SECOND < INT64_MAX)
  }

  ghost predicate WritableHashes(m: map<string, map<string, string>>) {
    forall k :: k in m && m[k] != map[] ==> Writable(k) && WritableFields(m[k])
  }

  ghost predicate WritableLists(m: map<string, seq<string>>) {
    forall k :: k in m && m[k] != [] ==> Writable(k) && forall v :: v in m[k] ==> Writable(v)
  }

  ghost predicate WritableSets(m: map<string, set<string>>) {
    forall k :: k in m && m[k] != {} ==> Writable(k) && forall v :: v in m[k] ==> Writable(v)
  }

  ghost predicate WritableZSets(m: map<string, map<string, Score>>) {
    forall k :: k in m && m[k] != map[] ==> Writable(k) && WritableMembers(m[k])
  }

  lemma TidyNone(writable: bool)
    ensures Tidy([], writable)
  {
  }

  function PutString(slot: Slot, o: Option<StoreData>): Slot {
    if o.Some? then slot.(store := Some(StoreData(o.value.val, None))) else slot
  }

  function PutHash(slot: Slot, o: Option<map<string, string>>): Slot {
    if o.Some? then slot.(hash := NonEmpty(o.value, map[])) else slot
  }

  function PutList(slot: Slot, o: Option<seq<string>>): Slot {
    if o.Some? then slot.(list := NonEmpty(o.value, [])) else slot
  }

  function PutSet(slot: Slot, o: Option<set<string>>): Slot {
    if o.Some? then slot.(members := NonEmpty(o.value, {})) else slot
  }

  function PutZSet(slot: Slot, z: Option<seq<ZKey>>, o: Option<map<string, Score>>): Slot {
    if z.Some? && o.Some? then ZSetSlot(slot, z.value, o.value) else slot
  }

  ghost function StringsView(view: FlatDb, m: map<string, StoreData>): (r: FlatDb)
    requires Total(view)
    ensures Total(r)
  {
    imap k: string :: PutString(view[k], Find(m, k))
  }

  ghost function HashesView(view: FlatDb, m: map<string, map<string, string>>): (r: FlatDb)
    requires Total(view)
    ensures Total(r)
  {
    imap k: string :: PutHash(view[k], Find(m, k))
  }

  ghost function ListsView(view: FlatDb, m: map<string, seq<string>>): (r: FlatDb)
    requires Total(view)
    ensures Total(r)
  {
    imap k: string :: PutList(view[k], Find(m, k))
  }

  ghost function SetsView(view: FlatDb, m: map<string, set<string>>): (r: FlatDb)
    requires Total(view)
    ensures Total(r)
  {
    imap k: string :: PutSet(view[k], Find(m, k))
  }

  ghost function ZSetsView(view: FlatDb, index: map<string, seq<ZKey>>, m: map<string, map<string, Score>>): (r: FlatDb)
    requires Total(view)
    ensures Total(r)
  {
    imap k: string :: PutZSet(view[k], Find(index, k), Find(m, k))
  }

  /** The view with the names in `done` brought to their goal. */
  ghost function Written(view: FlatDb, goal: FlatDb, done: set<string>): (r: FlatDb)
    requires Total(view) && Total(goal)
    ensures Total(r)
  {
    imap k: string :: if k in done then goal[k] else view[k]
  }

  lemma StartWriting(cfg: Config, view: FlatDb, goal: FlatDb)
    requires Total(view) && Total(goal)
    ensures ViewAll(cfg, view, []) == Written(view, goal, {})
  {
  }

  lemma WriteNext(view: FlatDb, goal: FlatDb, done: set<string>, k: string)
    requires Total(view) && Total(goal) && k !in done
    ensures Written(view, goal, done)[k] == view[k]
    ensures Written(view, goal, done + {k}) == Written(view, goal, done)[k := goal[k]]
  {
  }

  lemma DoneWriting(view: FlatDb, goal: FlatDb, done: set<string>)
    requires Total(view) && Total(goal) && forall k: string :: k !in done ==> goal[k] == view[k]
    ensures Written(view, goal, done) == goal
  {
  }

  /** A string that will live for another n seconds has its EX command. */
  ghost predicate SentLive(clock: int, data: StoreData, cmds: seq<Command>) {
    data.expire.Some? ==>
      var n := (data.expire.value - clock) / 1_000_000_000;
      n > 0 ==> ["EX", FromInt(n)] in cmds
  }

  ghost predicate WritableString(now: int, key: string, data: StoreData) {
    && Writable(key) && Writable(data.val)
    && (data.expire.Some? ==> (data.expire.value - now) / NANOS_PER_SECOND < INT64_MAX)
  }

  lemma SetOnto(cfg: Config, view: FlatDb, key: string, val: string)
    requires Total(view) && view[key].store == None
    ensures ViewAll(cfg, view, [["SET", key, val]]) == view[key := view[key].(store := Some(StoreData(val, None)))]
    ensures Growing(cfg, view, [["SET", key, val]])
  {
    hide NextView;
    SetEffect(cfg, view, key, val);
    assert [["SET", key, val]][..0] == [];
    ViewSnoc(cfg, view, [], ["SET", key, val]);
    assert [] + [["SET", key, val]] == [["SET", key, val]];
  }

  /** A live expiry is sent as a command of its own. */
  method EmitString(cfg: Config, clock: int, key: string, data: StoreData, ghost view: FlatDb) returns (cmds: seq<Command>)
    requires Total(view) && view[key].store == None
    ensures ViewAll(cfg, view, cmds) == view[key := view[key].(store := Some(StoreData(data.val, None)))]
    ensures Tidy(cmds, WritableString(clock, key, data)) && Growing(cfg, view, cmds) && SentLive(clock, data, cmds)
  {
    hide NextView, ViewAll, Writable, Growing, Adds, WritableArgs;
    ghost var writable := WritableString(clock, key, data);
    var c := ["SET", key, data.val];
    SetOnto(cfg, view, key, data.val);
    if writable {
      ThreeWritable("SET", key, data.val);
    }
    cmds := [c];
    if data.expire.Some? {
      var remain := (data.expire.value - clock) / NANOS_PER_SECOND;
      if remain > 0 {
        var ex := ["EX", FromInt(remain)];
        if writable {
          ExWritable(remain);
        }
        ghost var after := ViewAll(cfg, view, cmds);
        ExAdds(cfg, after, remain);
        ViewSnoc(cfg, view, cmds, ex);
        GrowingSnoc(cfg, view, cmds, ex);
        cmds := cmds + [ex];
      }
    }
  }

  lemma ExWritable(remain: int)
    requires 0 <= remain < INT64_MAX
    ensures WritableArgs(["EX", FromInt(remain)])
  {
    LiteralsWritable();
    NumberWritable(remain);
    hide Writable, FromInt;
  }

  lemma ExAdds(cfg: Config, view: FlatDb, remain: int)
    requires Total(view)
    ensures NextView(cfg, view, ["EX", FromInt(remain)]) == view && Adds(cfg, view, ["EX", FromInt(remain)])
  {
    NoEffect(cfg, view, remain);
    hide NextView, FromInt;
  }

  lemma StringPart(now: int, m: map<string, StoreData>, k: string)
    requires k in m && WritableStrings(now, m)
    ensures WritableString(now, k, m[k])
  {
  }

  lemma StillLive(clock: int, data: StoreData, cmds: seq<Command>, more: seq<Command>)
    requires SentLive(clock, data, cmds) || SentLive(clock, data, more)
    ensures SentLive(clock, data, cmds + more)
  {
  }

  /** Containers are walked in whatever order the hash table gives. */
  method EmitStrings(cfg: Config, clock: int, m: map<string, StoreData>, ghost view: FlatDb) returns (cmds: seq<Command>)
    requires Total(view) && forall k :: k in m ==> view[k].store == None
    ensures ViewAll(cfg, view, cmds) == StringsView(view, m)
    ensures Tidy(cmds, WritableStrings(clock, m)) && Growing(cfg, view, cmds)
    ensures forall k :: k in m ==> SentLive(clock, m[k], cmds)
  {
    hide NextView, ViewAll, Written, Tidy, Writable, Growing, SentLive, WritableString, WritableStrings;
    cmds := [];
    var todo, done := m.Keys, {};
    ghost var goal := StringsView(view, m);
    TidyNone(WritableStrings(clock, m));
    GrowingNone(cfg, view);
    StartWriting(cfg, view, goal);
    while todo != {}
      invariant todo <= m.Keys && done == m.Keys - todo
      invariant ViewAll(cfg, view, cmds) == Written(view, goal, done)
      invariant Tidy(cmds, WritableStrings(clock, m)) && Growing(cfg, view, cmds)
      invariant forall k :: k in done ==> SentLive(clock, m[k], cmds)
      decreases todo
    {
      var k :| k in todo;
      WriteNext(view, goal, done, k);
      var more := EmitString(cfg, clock, k, m[k], ViewAll(cfg, view, cmds));
      if WritableStrings(clock, m) {
        StringPart(clock, m, k);
      }
      Append(cfg, view, cmds, more, WritableString(clock, k, m[k]), WritableStrings(clock, m));
      forall x | x in done + {k}
        ensures SentLive(clock, m[x], cmds + more)
      {
        StillLive(clock, m[x], cmds, more);
      }
      cmds := cmds + more;
      done, todo := done + {k}, todo - {k};
    }
    DoneWriting(view, goal, done);
  }

  method EmitHashes(cfg: Config, m: map<string, map<string, string>>, ghost view: FlatDb) returns (cmds: seq<Command>)
    requires Total(view) && forall k :: k in m ==> view[k].hash == None
    ensures ViewAll(cfg, view, cmds) == HashesView(view, m)
    ensures Tidy(cmds, WritableHashes(m)) && Growing(cfg, view, cmds)
  {
    hide NextView, ViewAll, Written, Tidy, Writable, Growing;
    cmds := [];
    var todo, done := m.Keys, {};
    ghost var goal := HashesView(view, m);
    assert Tidy([], WritableHashes(m)) by {
      TidyNone(WritableHashes(m));
    }
    GrowingNone(cfg, view);
    StartWriting(cfg, view, goal);
    while todo != {}
      invariant todo <= m.Keys && done == m.Keys - todo
      invariant ViewAll(cfg, view, cmds) == Written(view, goal, done)
      invariant Tidy(cmds, WritableHashes(m)) && Growing(cfg, view, cmds)
      decreases todo
    {
      var k :| k in todo;
      WriteNext(view, goal, done, k);
      var more := EmitHash(cfg, k, m[k], ViewAll(cfg, view, cmds));
      Append(cfg, view, cmds, more, m[k] != map[] ==> Writable(k) && WritableFields(m[k]), WritableHashes(m));
      cmds := cmds + more;
      done, todo := done + {k}, todo - {k};
    }
    DoneWriting(view, goal, done);
  }

  method EmitLists(cfg: Config, m: map<string, seq<string>>, ghost view: FlatDb) returns (cmds: seq<Command>)
    requires Total(view) && forall k :: k in m ==> view[k].list == None
    ensures ViewAll(cfg, view, cmds) == ListsView(view, m)
    ensures Tidy(cmds, WritableLists(m)) && Growing(cfg, view, cmds)
  {
    hide NextView, ViewAll, Written, Tidy, Writable, Growing;
    cmds := [];
    var todo, done := m.Keys, {};
    ghost var goal := ListsView(view, m);
    assert Tidy([], WritableLists(m)) by {
      TidyNone(WritableLists(m));
    }
    GrowingNone(cfg, view);
    StartWriting(cfg, view, goal);
    while todo != {}
      invariant todo <= m.Keys && done == m.Keys - todo
      invariant ViewAll(cfg, view, cmds) == Written(view, goal, done)
      invariant Tidy(cmds, WritableLists(m)) && Growing(cfg, view, cmds)
      decreases todo
    {
      var k :| k in todo;
      WriteNext(view, goal, done, k);
      var more := EmitList(cfg, k, m[k], ViewAll(cfg, view, cmds));
      Append(cfg, view, cmds, more, m[k] != [] ==> Writable(k) && forall v :: v in m[k] ==> Writable(v), WritableLists(m));
      cmds := cmds + more;
      done, todo := done + {k}, todo - {k};
    }
    DoneWriting(view, goal, done);
  }

  method EmitSets(cfg: Config, m: map<string, set<string>>, ghost view: FlatDb) returns (cmds: seq<Command>)
    requires Total(view) && forall k :: k in m ==> view[k].members == None
    ensures ViewAll(cfg, view, cmds) == SetsView(view, m)
    ensures Tidy(cmds, WritableSets(m)) && Growing(cfg, view, cmds)
  {
    hide NextView, ViewAll, Written, Tidy, Writable, Growing;
    cmds := [];
    var todo, done := m.Keys, {};
    ghost var goal := SetsView(view, m);
    assert Tidy([], WritableSets(m)) by {
      TidyNone(WritableSets(m));
    }
    GrowingNone(cfg, view);
    StartWriting(cfg, view, goal);
    while todo != {}
      invariant todo <= m.Keys && done == m.Keys - todo
      invariant ViewAll(cfg, view, cmds) == Written(view, goal, done)
      invariant Tidy(cmds, WritableSets(m)) && Growing(cfg, view, cmds)
      decreases todo
    {
      var k :| k in todo;
      WriteNext(view, goal, done, k);
      var more := EmitMembers(cfg, k, m[k], ViewAll(cfg, view, cmds));
      Append(cfg, view, cmds, more, m[k] != {} ==> Writable(k) && forall v :: v in m[k] ==> Writable(v), WritableSets(m));
      cmds := cmds + more;
      done, todo := done + {k}, todo - {k};
    }
    DoneWriting(view, goal, done);
  }

  method EmitZSets(cfg: Config, ghost index: map<string, seq<ZKey>>, m: map<string, map<string, Score>>, ghost view: FlatDb) returns (cmds: seq<Command>)
    requires Total(view) && m.Keys <= index.Keys
    requires forall k :: k in m ==> view[k].zset == None && view[k].scores == None
    requires forall k :: k in m ==> Agrees(index[k], m[k]) && Prints(cfg.text, m[k])
    ensures ViewAll(cfg, view, cmds) == ZSetsView(view, index, m)
    ensures Tidy(cmds, WritableZSets(m)) && Growing(cfg, view, cmds)
  {
    hide NextView, ViewAll, Written, Tidy, Writable, Agrees, Prints, Growing;
    cmds := [];
    var todo, done := m.Keys, {};
    ghost var goal := ZSetsView(view, index, m);
    assert Tidy([], WritableZSets(m)) by {
      TidyNone(WritableZSets(m));
    }
    GrowingNone(cfg, view);
    StartWriting(cfg, view, goal);
    while todo != {}
      invariant todo <= m.Keys && done == m.Keys - todo
      invariant ViewAll(cfg, view, cmds) == Written(view, goal, done)
      invariant Tidy(cmds, WritableZSets(m)) && Growing(cfg, view, cmds)
      decreases todo
    {
      var k :| k in todo;
      WriteNext(view, goal, done, k);
      var more := EmitScores(cfg, k, m[k], index[k], ViewAll(cfg, view, cmds));
      Append(cfg, view, cmds, more, m[k] != map[] ==> Writable(k) && WritableMembers(m[k]), WritableZSets(m));
      cmds := cmds + more;
      done, todo := done + {k}, todo - {k};
    }
    DoneWriting(view, goal, done);
  }

  /** What survives of a slot: values without expiry, containers that are not empty. */
  function Image(slot: Slot): Slot {
    Slot(
      if slot.store.Some? then Some(StoreData(slot.store.value.val, None)) else None,
      if slot.hash.Some? then NonEmpty(slot.hash.value, map[]) else None,
      if slot.list.Some? then NonEmpty(slot.list.value, []) else None,
      if slot.members.Some? then NonEmpty(slot.members.value, {}) else None,
      if slot.zset.Some? && slot.scores.Some? && slot.scores.value != map[] then slot.zset else None,
      if slot.zset.Some? && slot.scores.Some? && slot.scores.value != map[] then slot.scores else None)
  }

  /** What a replica gets of a slot: the string without its expiry, and containers that hold
      anything. */
  lemma ImageIs(slot: Slot)
    requires SlotOk(slot)
    ensures var image := Image(slot);
      && image.store == (if slot.store.Some? then Some(StoreData(slot.store.value.val, None)) else None)
      && image.hash == (if slot.hash == Some(map[]) then None else slot.hash)
      && image.list == (if slot.list == Some([]) then None else slot.list)
      && image.members == (if slot.members == Some({}) then None else slot.members)
      && image.scores == (if slot.scores == Some(map[]) then None else slot.scores)
      && image.zset == (if slot.scores == Some(map[]) then None else slot.zset)
  {
    hide Agrees;
  }

  ghost function ShardView(view: FlatDb, s: Shard): (r: FlatDb)
    requires Total(view)
    ensures Total(r)
  {
    imap k: string :: if At(s, k) == EMPTY_SLOT then view[k] else Image(At(s, k))
  }

  ghost predicate ScoresPrint(text: ScoreText, s: Shard) {
    forall k :: k in s.zsetScore ==> Prints(text, s.zsetScore[k])
  }

  ghost predicate WritableShard(now: int, s: Shard) {
    && WritableStrings(now, s.store) && WritableHashes(s.hash) && WritableLists(s.lists)
    && WritableSets(s.sets) && WritableZSets(s.zsetScore)
  }

  method EmitShard(cfg: Config, clock: int, s: Shard, ghost view: FlatDb) returns (cmds: seq<Command>)
    requires Total(view) && forall k :: At(s, k) != EMPTY_SLOT ==> view[k] == EMPTY_SLOT
    requires (forall k :: SlotOk(At(s, k))) && ScoresPrint(cfg.text, s)
    ensures ViewAll(cfg, view, cmds) == ShardView(view, s)
    ensures Tidy(cmds, WritableShard(clock, s)) && Growing(cfg, view, cmds)
  {
    hide *;
    ghost var writable := WritableShard(clock, s);
    ghost var v1 := StringsView(view, s.store);
    ghost var v2 := HashesView(v1, s.hash);
    ghost var v3 := ListsView(v2, s.lists);
    ghost var v4 := SetsView(v3, s.sets);
    IndexedScores(s);
    StagesFresh(view, s);
    FiveStages(view, s);
    if writable {
      PartsWritable(clock, s);
    }
    ShardPrints(cfg.text, s);
    cmds := EmitStrings(cfg, clock, s.store, view);
    TidyWeaker(cmds, WritableStrings(clock, s.store), writable);
    var more := EmitHashes(cfg, s.hash, v1);
    Append(cfg, view, cmds, more, WritableHashes(s.hash), writable);
    cmds := cmds + more;
    more := EmitLists(cfg, s.lists, v2);
    Append(cfg, view, cmds, more, WritableLists(s.lists), writable);
    cmds := cmds + more;
    more := EmitSets(cfg, s.sets, v3);
    Append(cfg, view, cmds, more, WritableSets(s.sets), writable);
    cmds := cmds + more;
    more := EmitZSets(cfg, s.zset, s.zsetScore, v4);
    Append(cfg, view, cmds, more, WritableZSets(s.zsetScore), writable);
    cmds := cmds + more;
  }

  lemma ShardPrints(text: ScoreText, s: Shard)
    requires ScoresPrint(text, s)
    ensures forall k :: k in s.zsetScore ==> Prints(text, s.zsetScore[k])
  {
  }

  lemma PartsWritable(now: int, s: Shard)
    requires WritableShard(now, s)
    ensures WritableStrings(now, s.store) && WritableHashes(s.hash) && WritableLists(s.lists)
    ensures WritableSets(s.sets) && WritableZSets(s.zsetScore)
  {
  }

  lemma StagesFresh(view: FlatDb, s: Shard)
    requires Total(view) && forall k :: At(s, k) != EMPTY_SLOT ==> view[k] == EMPTY_SLOT
    ensures var v1 := StringsView(view, s.store);
      var v2 := HashesView(v1, s.hash);
      var v3 := ListsView(v2, s.lists);
      var v4 := SetsView(v3, s.sets);
      && (forall k :: k in s.store ==> view[k].store == None)
      && (forall k :: k in s.hash ==> v1[k].hash == None)
      && (forall k :: k in s.lists ==> v2[k].list == None)
      && (forall k :: k in s.sets ==> v3[k].members == None)
      && (forall k :: k in s.zsetScore ==> v4[k].zset == None && v4[k].scores == None)
  {
    Untouched(view, s);
    hide At, NonEmpty;
    var v1 := StringsView(view, s.store);
    var v2 := HashesView(v1, s.hash);
    var v3 := ListsView(v2, s.lists);
    var v4 := SetsView(v3, s.sets);
    forall k
      ensures v1[k].hash == view[k].hash && v2[k].list == view[k].list && v3[k].members == view[k].members
      ensures v4[k].zset == view[k].zset && v4[k].scores == view[k].scores
    {
      PutFrame(view[k], Find(s.store, k), Find(s.hash, k), Find(s.lists, k), Find(s.sets, k));
      hide PutString, PutHash, PutList, PutSet, Find;
    }
  }

  lemma PutFrame(slot: Slot, a: Option<StoreData>, b: Option<map<string, string>>, c: Option<seq<string>>, d: Option<set<string>>)
    ensures var s1 := PutString(slot, a);
      var s2 := PutHash(s1, b);
      var s3 := PutList(s2, c);
      var s4 := PutSet(s3, d);
      && s1.hash == slot.hash && s2.list == slot.list && s3.members == slot.members
      && s4.zset == slot.zset && s4.scores == slot.scores
  {
  }

  lemma IndexedScores(s: Shard)
    requires forall k :: SlotOk(At(s, k))
    ensures forall k :: k in s.zsetScore ==> k in s.zset && Agrees(s.zset[k], s.zsetScore[k])
  {
    forall k | k in s.zsetScore
      ensures k in s.zset && Agrees(s.zset[k], s.zsetScore[k])
    {
      assert SlotOk(At(s, k));
      hide Agrees;
    }
  }

  lemma Untouched(view: FlatDb, s: Shard)
    requires Total(view) && forall k :: At(s, k) != EMPTY_SLOT ==> view[k] == EMPTY_SLOT
    ensures forall k :: k in s.store || k in s.hash || k in s.lists || k in s.sets || k in s.zsetScore ==>
      view[k] == EMPTY_SLOT
  {
    forall k | k in s.store || k in s.hash || k in s.lists || k in s.sets || k in s.zsetScore
      ensures view[k] == EMPTY_SLOT
    {
      assert At(s, k) != EMPTY_SLOT;
    }
  }

  /** Name by name, the five stages add up to the image of the slot. */
  lemma FiveStages(view: FlatDb, s: Shard)
    requires Total(view) && forall k :: At(s, k) != EMPTY_SLOT ==> view[k] == EMPTY_SLOT
    requires forall k :: SlotOk(At(s, k))
    ensures var v := SetsView(ListsView(HashesView(StringsView(view, s.store), s.hash), s.lists), s.sets);
      ZSetsView(v, s.zset, s.zsetScore) == ShardView(view, s)
  {
    var v := SetsView(ListsView(HashesView(StringsView(view, s.store), s.hash), s.lists), s.sets);
    var r := ZSetsView(v, s.zset, s.zsetScore);
    forall k: string
      ensures r[k] == ShardView(view, s)[k]
    {
      hide PutString, PutHash, PutList, PutSet, PutZSet, Image;
      var slot := At(s, k);
      assert SlotOk(slot);
      PutAll(view[k], slot);
    }
  }

  lemma PutAll(start: Slot, slot: Slot)
    requires SlotOk(slot) && (slot != EMPTY_SLOT ==> start == EMPTY_SLOT)
    ensures PutZSet(PutSet(PutList(PutHash(PutString(start, slot.store), slot.hash), slot.list), slot.members), slot.zset, slot.scores)
         == if slot == EMPTY_SLOT then start else Image(slot)
  {
    hide Agrees;
  }

  // ---------- one database, all databases ----------

  ghost function ImageView(view: FlatDb): (r: FlatDb)
    requires Total(view)
    ensures Total(r)
  {
    imap k: string :: Image(view[k])
  }

  /** The names of the first n shards in place, the others not yet. */
  ghost function Partial(hash: string -> nat, shards: seq<Shard>, n: nat): (r: FlatDb)
    requires |shards| == SHARD_COUNT
    ensures Total(r)
  {
    imap k: string :: if ShardIndex(hash, k) < n then Image(At(shards[ShardIndex(hash, k)], k)) else EMPTY_SLOT
  }

  lemma NextPartial(hash: string -> nat, shards: seq<Shard>, n: nat)
    requires Placed(hash, shards) && n < SHARD_COUNT
    ensures ShardView(Partial(hash, shards, n), shards[n]) == Partial(hash, shards, n + 1)
    ensures forall k :: At(shards[n], k) != EMPTY_SLOT ==> Partial(hash, shards, n)[k] == EMPTY_SLOT
  {
    forall k: string
      ensures ShardView(Partial(hash, shards, n), shards[n])[k] == Partial(hash, shards, n + 1)[k]
    {
      hide At;
      assert Image(EMPTY_SLOT) == EMPTY_SLOT;
    }
  }

  lemma OutOfPlace(hash: string -> nat, shards: seq<Shard>, n: nat, k: string)
    requires Placed(hash, shards) && n < SHARD_COUNT
    ensures ShardIndex(hash, k) == n ==> At(shards[n], k) == View(hash, shards)[k]
    ensures ShardIndex(hash, k) != n ==> At(shards[n], k) == EMPTY_SLOT
  {
    hide At, ShardIndex;
  }

  lemma AllSlotsOk(hash: string -> nat, shards: seq<Shard>, n: nat)
    requires Placed(hash, shards) && ViewOk(View(hash, shards)) && n < SHARD_COUNT
    ensures forall k :: SlotOk(At(shards[n], k))
  {
    assert SlotOk(EMPTY_SLOT);
    hide Placed, View, At, SlotOk, ShardIndex;
    PlacedCount(hash, shards);
    forall k
      ensures SlotOk(At(shards[n], k))
    {
      OutOfPlace(hash, shards, n, k);
    }
  }

  lemma PartialEnds(hash: string -> nat, shards: seq<Shard>)
    requires |shards| == SHARD_COUNT
    ensures Partial(hash, shards, 0) == EmptyView()
    ensures Partial(hash, shards, SHARD_COUNT) == ImageView(View(hash, shards))
  {
    hide At, Image;
  }

  method EmitDb(cfg: Config, clock: int, ghost hash: string -> nat, shards: seq<Shard>) returns (cmds: seq<Command>)
    requires Placed(hash, shards) && ViewOk(View(hash, shards))
    requires forall i :: 0 <= i < SHARD_COUNT ==> ScoresPrint(cfg.text, shards[i])
    ensures ViewAll(cfg, EmptyView(), cmds) == ImageView(View(hash, shards))
    ensures Tidy(cmds, forall i :: 0 <= i < SHARD_COUNT ==> WritableShard(clock, shards[i]))
    ensures Growing(cfg, EmptyView(), cmds)
  {
    hide View, ViewAll, Placed, ViewOk, Partial, ShardView, ImageView, Tidy, WritableShard, ScoresPrint, EmptyView, SlotOk, At, Growing;
    GrowingNone(cfg, EmptyView());
    PlacedCount(hash, shards);
    cmds := [];
    ghost var writable := forall i :: 0 <= i < SHARD_COUNT ==> WritableShard(clock, shards[i]);
    PartialEnds(hash, shards);
    TidyNone(writable);
    ViewNone(cfg, EmptyView());
    var n := 0;
    while n < SHARD_COUNT
      invariant 0 <= n <= SHARD_COUNT
      invariant ViewAll(cfg, EmptyView(), cmds) == Partial(hash, shards, n)
      invariant Tidy(cmds, writable) && Growing(cfg, EmptyView(), cmds)
    {
      NextPartial(hash, shards, n);
      AllSlotsOk(hash, shards, n);
      var more := EmitShard(cfg, clock, shards[n], Partial(hash, shards, n));
      Append(cfg, EmptyView(), cmds, more, WritableShard(clock, shards[n]), writable);
      cmds := cmds + more;
      n := n + 1;
    }
  }

  lemma ViewNone(cfg: Config, view: FlatDb)
    requires Total(view)
    ensures ViewAll(cfg, view, []) == view
  {
  }
}
