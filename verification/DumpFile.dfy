/** The dump file: saveToFile writes one line per value, field, element, member or score,
    loadFromFile puts them back. */
module DumpFile {
  import opened Text
  import opened SortedSet
  import opened Keyspace
  import opened ShardOps
  import opened Server
  import opened Snapshot
  import opened FlatMachine
  import opened Delimited

  type Record = seq<string>

  // ---------- what one line of a dump does when it is loaded ----------

  /** Stopped: loading gave up without an error. Undefined: the program indexed a vector or
      the database table out of range, after which nothing is known. */
  datatype Outcome = Loaded | Stopped | Undefined

  datatype LoadState = LoadState(views: seq<FlatDb>, outcome: Outcome)

  ghost predicate ViewsOk(views: seq<FlatDb>) {
    |views| == DB_COUNT && forall d :: 0 <= d < DB_COUNT ==> Total(views[d])
  }

  /** The name's data afterwards, and whether loading goes on. A bad expiry is noticed
      after the value has been stored; a sorted-set entry is inserted without looking for
      an older entry of the same member. */
  function LoadSlot(text: ScoreText, slot: Slot, parts: Record): (Slot, bool)
    requires |parts| >= 5
  {
    var kind, value := parts[2], parts[4];
    if kind == "STR" then
      if |parts| == 5 then (slot.(store := Some(StoreData(value, None))), true)
      else match Stoll(parts[5])
        case None => (slot.(store := Some(StoreData(value, None))), false)
        case Some(e) => (slot.(store := Some(StoreData(value, Some(e)))), true)
    else if kind == "HASH" && |parts| >= 6 then
      (slot.(hash := Some(OrElse(slot.hash, map[])[value := parts[5]])), true)
    else if kind == "LIST" then (slot.(list := Some(OrElse(slot.list, []) + [value])), true)
    else if kind == "SET" then (slot.(members := Some(OrElse(slot.members, {}) + {value})), true)
    else if kind == "ZSET" && |parts| >= 6 then
      match text.parse(value)
      case None => (slot, false)
      case Some(score) =>
        (slot.(zset := Some(Insert(OrElse(slot.zset, []), ZKey(score, parts[5]))),
               scores := Some(OrElse(slot.scores, map[])[parts[5] := score])), true)
    else (slot, true)
  }

  ghost function LoadLine(text: ScoreText, views: seq<FlatDb>, parts: Record): (r: LoadState)
    requires ViewsOk(views)
    ensures ViewsOk(r.views)
  {
    if |parts| < 2 then LoadState(views, Undefined)
    else match Stoi(parts[1])
      case None => LoadState(views, Stopped)
      case Some(d) =>
        if |parts| < 3 || !(0 <= d < DB_COUNT) then LoadState(views, Undefined)
        else if |parts| < 5 then LoadState(views, Loaded)
        else
          var r := LoadSlot(text, views[d][parts[3]], parts);
          LoadState(views[d := views[d][parts[3] := r.0]], if r.1 then Loaded else Stopped)
  }

  ghost function LoadRecords(text: ScoreText, st: LoadState, recs: seq<Record>): (r: LoadState)
    requires ViewsOk(st.views)
    ensures ViewsOk(r.views)
    decreases |recs|
  {
    if recs == [] || st.outcome != Loaded then st
    else LoadRecords(text, LoadLine(text, st.views, recs[0]), recs[1..])
  }

  /** How one line ends: it leads out of a table if it has no number or no type, or names no
      database; it stops the loading if the number, an expiry or a score is unreadable. */
  lemma LineEnds(text: ScoreText, views: seq<FlatDb>, parts: Record)
    requires ViewsOk(views)
    ensures var out := LoadLine(text, views, parts).outcome;
      && (out == Undefined <==>
            || |parts| < 2
            || (Stoi(parts[1]).Some? && (|parts| == 2 || Stoi(parts[1]).value < 0 || Stoi(parts[1]).value >= 16)))
      && (out == Stopped <==>
            && out != Undefined
            && (|| Stoi(parts[1]).None?
                || (|parts| >= 6 && parts[2] == "STR" && Stoll(parts[5]).None?)
                || (|parts| >= 6 && parts[2] == "ZSET" && text.parse(parts[4]).None?)))
  {
  }

  /** What one line leaves under its name: the value of a string with its expiry, one more
      field, element, member or score. Nothing else changes. */
  lemma LineLoads(text: ScoreText, views: seq<FlatDb>, parts: Record, d: nat, x: string)
    requires ViewsOk(views) && |parts| >= 5 && Stoi(parts[1]) == Some(d) && d < 16
    ensures var after, before := LoadLine(text, views, parts).views, views[d][parts[3]];
      var slot, kind, value := after[d][parts[3]], parts[2], parts[4];
      && (forall e :: 0 <= e < 16 && e != d ==> after[e] == views[e])
      && (forall k: string :: k != parts[3] ==> after[d][k] == views[d][k])
      && (kind == "STR" ==>
            && slot == before.(store := slot.store) && slot.store.Some? && slot.store.value.val == value
            && slot.store.value.expire == if |parts| >= 6 then Stoll(parts[5]) else None)
      && (kind == "HASH" && |parts| >= 6 ==>
            && slot == before.(hash := slot.hash) && slot.hash.Some?
            && Find(slot.hash.value, x) == if x == value then Some(parts[5]) else Find(OrElse(before.hash, map[]), x))
      && (kind == "LIST" ==> slot == before.(list := Some(OrElse(before.list, []) + [value])))
      && (kind == "SET" ==>
            && slot == before.(members := slot.members) && slot.members.Some?
            && (x in slot.members.value <==> x in OrElse(before.members, {}) || x == value))
      && (kind !in {"STR", "HASH", "LIST", "SET", "ZSET"} || (kind in {"HASH", "ZSET"} && |parts| == 5) ==> slot == before)
  {
  }

  lemma ScoreLoads(text: ScoreText, views: seq<FlatDb>, parts: Record, d: nat, m: string, e: ZKey)
    requires ViewsOk(views) && |parts| >= 6 && Stoi(parts[1]) == Some(d) && d < 16 && parts[2] == "ZSET"
    ensures var before, slot := views[d][parts[3]], LoadLine(text, views, parts).views[d][parts[3]];
      match text.parse(parts[4])
      case None => slot == before
      case Some(score) =>
        && slot == before.(zset := slot.zset, scores := slot.scores) && slot.zset.Some? && slot.scores.Some?
        && Find(slot.scores.value, m) == (if m == parts[5] then Some(score) else Find(OrElse(before.scores, map[]), m))
        && (e in slot.zset.value <==> e in OrElse(before.zset, []) || e == ZKey(score, parts[5]))
  {
    if text.parse(parts[4]).Some? {
      InsertElements(OrElse(views[d][parts[3]].zset, []), ZKey(text.parse(parts[4]).value, parts[5]), e);
    }
    hide Insert;
  }

  lemma {:induction false} LoadConcat(text: ScoreText, st: LoadState, a: seq<Record>, b: seq<Record>)
    requires ViewsOk(st.views)
    ensures LoadRecords(text, st, a + b) == LoadRecords(text, LoadRecords(text, st, a), b)
    decreases |a|
  {
    hide LoadLine, ViewsOk;
    if a == [] {
      assert a + b == b;
    } else if st.outcome == Loaded {
      assert (a + b)[1..] == a[1..] + b;
      LoadConcat(text, LoadLine(text, st.views, a[0]), a[1..], b);
    }
  }

  // ---------- the text of the file ----------

  function Records(file: string): seq<Record> {
    var lines := Lines(file);
    seq(|lines|, i requires 0 <= i < |lines| => Cut(lines[i], '|'))
  }

  function DumpText(recs: seq<Record>): string
    requires forall i :: 0 <= i < |recs| ==> recs[i] != []
  {
    FileText(seq(|recs|, i requires 0 <= i < |recs| => Glue(recs[i], '|')))
  }

  predicate Plain(t: string) {
    '|' !in t && '\n' !in t
  }

  ghost predicate PlainRecord(r: Record) {
    forall i :: 0 <= i < |r| ==> Plain(r[i])
  }

  lemma RecordsOfText(recs: seq<Record>)
    requires forall i :: 0 <= i < |recs| ==> recs[i] != [] && PlainRecord(recs[i])
    ensures Records(DumpText(recs)) == recs
  {
    var lines := seq(|recs|, i requires 0 <= i < |recs| => Glue(recs[i], '|'));
    forall i | 0 <= i < |recs|
      ensures '\n' !in lines[i] && Cut(lines[i], '|') == recs[i]
    {
      assert PlainRecord(recs[i]);
      CutOfGlue(recs[i], '|');
      GlueWithin(recs[i], '|', '\n');
    }
    LinesOfText(lines);
  }

  /** Whatever the file holds, no field read from it contains a separator. */
  lemma RecordsPlain(file: string)
    ensures forall i :: 0 <= i < |Records(file)| ==> PlainRecord(Records(file)[i])
  {
    var lines := Lines(file);
    LinesFree(file);
    forall i | 0 <= i < |lines|
      ensures PlainRecord(Cut(lines[i], '|'))
    {
      CutFree(lines[i], '|');
      CutWithin(lines[i], '|', '\n');
    }
  }

  // ---------- records that build up one database ----------

  /** Loading recs takes database d from `view` to `goal` and touches nothing else. */
  ghost predicate Builds(text: ScoreText, d: nat, recs: seq<Record>, view: FlatDb, goal: FlatDb) {
    forall views: seq<FlatDb> :: ViewsOk(views) && d < DB_COUNT && views[d] == view ==>
      LoadRecords(text, LoadState(views, Loaded), recs) == LoadState(views[d := goal], Loaded)
  }

  lemma BuildsNone(text: ScoreText, d: nat, view: FlatDb)
    ensures Builds(text, d, [], view, view)
  {
    forall views: seq<FlatDb> | ViewsOk(views) && d < DB_COUNT && views[d] == view
      ensures LoadRecords(text, LoadState(views, Loaded), []) == LoadState(views[d := view], Loaded)
    {
      assert views[d := view] == views;
    }
  }

  lemma BuildsMore(text: ScoreText, d: nat, a: seq<Record>, b: seq<Record>, view: FlatDb, mid: FlatDb, goal: FlatDb)
    requires Builds(text, d, a, view, mid) && Builds(text, d, b, mid, goal) && Total(mid)
    ensures Builds(text, d, a + b, view, goal)
  {
    hide LoadRecords;
    forall views: seq<FlatDb> | ViewsOk(views) && d < DB_COUNT && views[d] == view
      ensures LoadRecords(text, LoadState(views, Loaded), a + b) == LoadState(views[d := goal], Loaded)
    {
      LoadConcat(text, LoadState(views, Loaded), a, b);
      assert ViewsOk(views[d := mid]);
      assert views[d := mid][d := goal] == views[d := goal];
    }
  }

  lemma BuildsOne(text: ScoreText, d: nat, r: Record, view: FlatDb)
    requires |r| >= 5 && r[1] == FromInt(d) && d < DB_COUNT && Total(view)
    requires LoadSlot(text, view[r[3]], r).1
    ensures Builds(text, d, [r], view, view[r[3] := LoadSlot(text, view[r[3]], r).0])
  {
    hide LoadSlot, FromInt, ParseInt;
    IntRoundTrip(d, INT_MIN, INT_MAX, "");
    assert FromInt(d) + "" == FromInt(d);
    forall views: seq<FlatDb> | ViewsOk(views) && views[d] == view
      ensures LoadRecords(text, LoadState(views, Loaded), [r])
           == LoadState(views[d := view[r[3] := LoadSlot(text, view[r[3]], r).0]], Loaded)
    {
      assert [r][1..] == [];
    }
  }

  lemma BuildsStep(text: ScoreText, d: nat, r: Record, view: FlatDb, from: Slot, to: Slot)
    requires |r| >= 5 && r[1] == FromInt(d) && d < DB_COUNT && Total(view)
    requires LoadSlot(text, from, r) == (to, true)
    ensures Builds(text, d, [r], view[r[3] := from], view[r[3] := to])
  {
    hide LoadSlot, Builds, FromInt;
    BuildsOne(text, d, r, view[r[3] := from]);
    assert view[r[3] := from][r[3] := to] == view[r[3] := to];
  }

  /** No record is empty; if the data is plain, so are the records. */
  ghost predicate Sound(recs: seq<Record>, plain: bool) {
    forall i :: 0 <= i < |recs| ==> recs[i] != [] && (plain ==> PlainRecord(recs[i]))
  }

  lemma SoundConcat(a: seq<Record>, b: seq<Record>, plain: bool)
    requires Sound(a, plain) && Sound(b, plain)
    ensures Sound(a + b, plain)
  {
    hide PlainRecord;
  }

  lemma PlainLiterals()
    ensures Plain("DB") && Plain("STR") && Plain("HASH") && Plain("LIST") && Plain("SET") && Plain("ZSET")
  {
  }

  lemma PlainNumber(i: int)
    ensures Plain(FromInt(i))
  {
    hide FromInt;
    var t := FromInt(i);
    assert forall j :: 0 <= j < |t| ==> IsDigit(t[j]) || t[j] == '-';
  }

  /** An expiry is written only when it has already passed. */
  function Kept(now: int, data: StoreData): StoreData {
    StoreData(data.val, if data.expire.Some? && now > data.expire.value then data.expire else None)
  }

  // ---------- saving: one name ----------

  method SaveString(text: ScoreText, now: int, d: nat, key: string, data: StoreData,
                    ghost view: FlatDb, ghost plain: bool) returns (recs: seq<Record>)
    requires d < DB_COUNT && Total(view) && (plain ==> Plain(key) && Plain(data.val))
    requires data.expire.Some? ==> INT64_MIN <= data.expire.value <= INT64_MAX
    ensures Builds(text, d, recs, view, view[key := view[key].(store := Some(Kept(now, data)))])
    ensures Sound(recs, plain)
  {
    hide Builds, Plain;
    PlainLiterals();
    PlainNumber(d);
    var r := ["DB", FromInt(d), "STR", key, data.val];
    if data.expire.Some? && now > data.expire.value {
      var e := data.expire.value;
      IntRoundTrip(e, INT64_MIN, INT64_MAX, "");
      assert FromInt(e) + "" == FromInt(e);
      PlainNumber(e);
      r := r + [FromInt(e)];
    }
    BuildsOne(text, d, r, view);
    recs := [r];
  }

  method SaveHash(text: ScoreText, d: nat, key: string, fields: map<string, string>,
                  ghost view: FlatDb, ghost plain: bool) returns (recs: seq<Record>)
    requires d < DB_COUNT && Total(view) && view[key].hash == None
    requires plain && fields != map[] ==> Plain(key) && forall f :: f in fields ==> Plain(f) && Plain(fields[f])
    ensures Builds(text, d, recs, view, view[key := view[key].(hash := NonEmpty(fields, map[]))])
    ensures Sound(recs, plain)
  {
    hide Builds, Plain;
    PlainLiterals();
    PlainNumber(d);
    recs := [];
    var todo, done := fields.Keys, map[];
    BuildsNone(text, d, view);
    assert view == view[key := view[key].(hash := None)];
    while todo != {}
      invariant todo <= fields.Keys && done.Keys == fields.Keys - todo
      invariant forall f :: f in done ==> done[f] == fields[f]
      invariant Builds(text, d, recs, view, view[key := view[key].(hash := NonEmpty(done, map[]))])
      invariant Sound(recs, plain)
      decreases todo
    {
      var f :| f in todo;
      var r := ["DB", FromInt(d), "HASH", key, f, fields[f]];
      ghost var from := view[key].(hash := NonEmpty(done, map[]));
      done := done[f := fields[f]];
      assert f in done;
      ghost var to := view[key].(hash := NonEmpty(done, map[]));
      BuildsStep(text, d, r, view, from, to);
      BuildsMore(text, d, recs, [r], view, view[key := from], view[key := to]);
      recs := recs + [r];
      todo := todo - {f};
    }
    assert done == fields;
  }

  method SaveList(text: ScoreText, d: nat, key: string, list: seq<string>,
                  ghost view: FlatDb, ghost plain: bool) returns (recs: seq<Record>)
    requires d < DB_COUNT && Total(view) && view[key].list == None
    requires plain && list != [] ==> Plain(key) && forall v :: v in list ==> Plain(v)
    ensures Builds(text, d, recs, view, view[key := view[key].(list := NonEmpty(list, []))])
    ensures Sound(recs, plain)
  {
    hide Builds, Plain;
    PlainLiterals();
    PlainNumber(d);
    recs := [];
    BuildsNone(text, d, view);
    assert view == view[key := view[key].(list := None)];
    var i := 0;
    while i < |list|
      invariant 0 <= i <= |list|
      invariant Builds(text, d, recs, view, view[key := view[key].(list := NonEmpty(list[..i], []))])
      invariant Sound(recs, plain)
    {
      var r := ["DB", FromInt(d), "LIST", key, list[i]];
      assert list[..i + 1] == list[..i] + [list[i]];
      assert [] + [list[i]] == [list[i]];
      ghost var from := view[key].(list := NonEmpty(list[..i], []));
      ghost var to := view[key].(list := NonEmpty(list[..i + 1], []));
      BuildsStep(text, d, r, view, from, to);
      BuildsMore(text, d, recs, [r], view, view[key := from], view[key := to]);
      recs := recs + [r];
      i := i + 1;
    }
    assert list[..i] == list;
  }

  method SaveMembers(text: ScoreText, d: nat, key: string, members: set<string>,
                     ghost view: FlatDb, ghost plain: bool) returns (recs: seq<Record>)
    requires d < DB_COUNT && Total(view) && view[key].members == None
    requires plain && members != {} ==> Plain(key) && forall m :: m in members ==> Plain(m)
    ensures Builds(text, d, recs, view, view[key := view[key].(members := NonEmpty(members, {}))])
    ensures Sound(recs, plain)
  {
    hide Builds, Plain;
    PlainLiterals();
    PlainNumber(d);
    recs := [];
    var todo := members;
    BuildsNone(text, d, view);
    assert members - todo == {};
    assert view == view[key := view[key].(members := None)];
    while todo != {}
      invariant todo <= members
      invariant Builds(text, d, recs, view, view[key := view[key].(members := NonEmpty(members - todo, {}))])
      invariant Sound(recs, plain)
      decreases todo
    {
      var m :| m in todo;
      var r := ["DB", FromInt(d), "SET", key, m];
      assert members - (todo - {m}) == members - todo + {m};
      ghost var from := view[key].(members := NonEmpty(members - todo, {}));
      ghost var to := view[key].(members := NonEmpty(members - (todo - {m}), {}));
      BuildsStep(text, d, r, view, from, to);
      BuildsMore(text, d, recs, [r], view, view[key := from], view[key := to]);
      recs := recs + [r];
      todo := todo - {m};
    }
    assert members - todo == members;
  }

  /** The scores are read back exactly from their text, which has no separator in it. */
  ghost predicate PrintsPlain(text: ScoreText, scores: map<string, Score>) {
    forall m :: m in scores ==>
      text.parse(text.format(scores[m])) == Some(scores[m]) && Plain(text.format(scores[m]))
  }

  lemma ZSetOnto(text: ScoreText, d: nat, key: string, view: FlatDb, z: seq<ZKey>, done: map<string, Score>,
                 m: string, score: Score)
    requires d < DB_COUNT && Total(view) && view[key].zset == None && view[key].scores == None
    requires Agrees(z, done) && m !in done && text.parse(text.format(score)) == Some(score)
    ensures Builds(text, d, [["DB", FromInt(d), "ZSET", key, text.format(score), m]],
                   view[key := ZSetSlot(view[key], z, done)],
                   view[key := ZSetSlot(view[key], Insert(z, ZKey(score, m)), done[m := score])])
    ensures Agrees(Insert(z, ZKey(score, m)), done[m := score])
  {
    EmptyAgrees(z, done);
    InsertAgrees(z, done, m, score);
    hide Agrees, Insert, Builds, FromInt;
    var r := ["DB", FromInt(d), "ZSET", key, text.format(score), m];
    assert m in done[m := score];
    BuildsStep(text, d, r, view, ZSetSlot(view[key], z, done),
               ZSetSlot(view[key], Insert(z, ZKey(score, m)), done[m := score]));
  }

  method SaveScores(text: ScoreText, d: nat, key: string, scores: map<string, Score>, ghost z: seq<ZKey>,
                    ghost view: FlatDb, ghost plain: bool) returns (recs: seq<Record>)
    requires d < DB_COUNT && Total(view) && view[key].zset == None && view[key].scores == None
    requires Agrees(z, scores) && PrintsPlain(text, scores)
    requires plain && scores != map[] ==> Plain(key) && forall m :: m in scores ==> Plain(m)
    ensures Builds(text, d, recs, view, view[key := ZSetSlot(view[key], z, scores)])
    ensures Sound(recs, plain)
  {
    hide Builds, Plain, Agrees, Insert, LoadSlot, ZSetSlot;
    PlainLiterals();
    PlainNumber(d);
    recs := [];
    var todo, done := scores.Keys, map[];
    ghost var built: seq<ZKey> := [];
    BuildsNone(text, d, view);
    NoScores(view[key]);
    assert view == view[key := ZSetSlot(view[key], [], map[])];
    NothingAgrees();
    while todo != {}
      invariant todo <= scores.Keys && done.Keys == scores.Keys - todo
      invariant forall m :: m in done ==> done[m] == scores[m]
      invariant Agrees(built, done)
      invariant Builds(text, d, recs, view, view[key := ZSetSlot(view[key], built, done)])
      invariant Sound(recs, plain)
      decreases todo
    {
      var m :| m in todo;
      var r := ["DB", FromInt(d), "ZSET", key, text.format(scores[m]), m];
      ZSetOnto(text, d, key, view, built, done, m, scores[m]);
      ghost var mid := view[key := ZSetSlot(view[key], built, done)];
      built := Insert(built, ZKey(scores[m], m));
      done := done[m := scores[m]];
      BuildsMore(text, d, recs, [r], view, mid, view[key := ZSetSlot(view[key], built, done)]);
      assert PlainRecord(r) || !plain;
      recs := recs + [r];
      todo := todo - {m};
    }
    assert done == scores;
    AgreesUnique(built, z, scores);
  }

  lemma NoScores(slot: Slot)
    requires slot.zset == None && slot.scores == None
    ensures ZSetSlot(slot, [], map[]) == slot
  {
  }

  // ---------- saving: shards and databases ----------

  /** What a saved and reloaded name holds: no live expiry, no empty container. */
  function Restored(now: int, slot: Slot): Slot {
    Image(slot).(store := if slot.store.Some? then Some(Kept(now, slot.store.value)) else None)
  }

  /** Times fit the clock's 64 bits and scores survive their text. */
  /** What comes back of a slot: the string, with an expiry that has passed; containers that
      hold anything. */
  lemma RestoredIs(now: int, slot: Slot)
    requires SlotOk(slot)
    ensures var back := Restored(now, slot);
      && (slot.store.Some? <==> back.store.Some?)
      && (slot.store.Some? ==>
            && back.store.value.val == slot.store.value.val
            && (back.store.value.expire.Some? <==> slot.store.value.expire.Some? && slot.store.value.expire.value < now)
            && (back.store.value.expire.Some? ==> back.store.value.expire == slot.store.value.expire))
      && back.hash == (if slot.hash == Some(map[]) then None else slot.hash)
      && back.list == (if slot.list == Some([]) then None else slot.list)
      && back.members == (if slot.members == Some({}) then None else slot.members)
      && back.scores == (if slot.scores == Some(map[]) then None else slot.scores)
      && back.zset == (if slot.scores == Some(map[]) then None else slot.zset)
  {
    hide Agrees;
  }

  ghost predicate Storable(text: ScoreText, slot: Slot) {
    && (slot.scores.Some? ==> PrintsPlain(text, slot.scores.value))
    && (slot.store.Some? && slot.store.value.expire.Some? ==>
          INT64_MIN <= slot.store.value.expire.value <= INT64_MAX)
  }

  ghost predicate PlainName(now: int, key: string, slot: Slot) {
    Restored(now, slot) != EMPTY_SLOT ==> Plain(key) && SlotTexts(Restored(now, slot), Plain)
  }

  function SavedNames(s: Shard, kind: Kind): set<string> {
    match kind
    case Strings => s.store.Keys
    case Hashes => s.hash.Keys
    case Lists => s.lists.Keys
    case Sets => s.sets.Keys
    case ZSets => s.zsetScore.Keys
  }

  lemma PlainParts(now: int, key: string, slot: Slot)
    requires SlotOk(slot) && PlainName(now, key, slot)
    ensures slot.store.Some? ==> Plain(key) && Plain(slot.store.value.val)
    ensures slot.hash.Some? && slot.hash.value != map[] ==>
      Plain(key) && forall f :: f in slot.hash.value ==> Plain(f) && Plain(slot.hash.value[f])
    ensures slot.list.Some? && slot.list.value != [] ==> Plain(key) && forall v :: v in slot.list.value ==> Plain(v)
    ensures slot.members.Some? && slot.members.value != {} ==>
      Plain(key) && forall v :: v in slot.members.value ==> Plain(v)
    ensures slot.scores.Some? && slot.scores.value != map[] ==>
      Plain(key) && forall m :: m in slot.scores.value ==> Plain(m)
  {
    hide Plain, Agrees;
  }

  method SaveValue(text: ScoreText, now: int, d: nat, key: string, s: Shard, kind: Kind,
                   ghost view: FlatDb, ghost plain: bool) returns (recs: seq<Record>)
    requires d < DB_COUNT && Total(view) && EraseKind(view[key], kind) == view[key]
    requires key in SavedNames(s, kind) && SlotOk(At(s, key)) && Storable(text, At(s, key))
    requires plain ==> PlainName(now, key, At(s, key))
    ensures Builds(text, d, recs, view, view[key := MoveKind(kind, Restored(now, At(s, key)), view[key], true)])
    ensures Sound(recs, plain)
  {
    ghost var slot := At(s, key);
    if plain {
      PlainParts(now, key, slot);
    }
    hide Builds, Plain, Sound, PrintsPlain, SlotTexts, Agrees;
    match kind
    case Strings => recs := SaveString(text, now, d, key, s.store[key], view, plain);
    case Hashes => recs := SaveHash(text, d, key, s.hash[key], view, plain);
    case Lists => recs := SaveList(text, d, key, s.lists[key], view, plain);
    case Sets => recs := SaveMembers(text, d, key, s.sets[key], view, plain);
    case ZSets => recs := SaveScores(text, d, key, s.zsetScore[key], slot.zset.value, view, plain);
  }

  /** The view with the data of one type in place. */
  ghost function KindView(view: FlatDb, now: int, s: Shard, kind: Kind): (r: FlatDb)
    requires Total(view)
    ensures Total(r)
  {
    imap k: string :: if k in SavedNames(s, kind) then MoveKind(kind, Restored(now, At(s, k)), view[k], true) else view[k]
  }

  /** A shard that can be saved, every name of it. */
  ghost predicate ShardFit(text: ScoreText, s: Shard) {
    forall k :: SlotOk(At(s, k)) && Storable(text, At(s, k))
  }

  ghost predicate PlainShard(now: int, s: Shard) {
    forall k :: PlainName(now, k, At(s, k))
  }

  method SaveKind(text: ScoreText, now: int, d: nat, s: Shard, kind: Kind,
                  ghost view: FlatDb, ghost plain: bool) returns (recs: seq<Record>)
    requires d < DB_COUNT && Total(view) && ShardFit(text, s) && (plain ==> PlainShard(now, s))
    requires forall k :: k in SavedNames(s, kind) ==> EraseKind(view[k], kind) == view[k]
    ensures Builds(text, d, recs, view, KindView(view, now, s, kind))
    ensures Sound(recs, plain)
  {
    hide Builds, Written, Sound, SlotOk, Storable, PlainName, MoveKind, Restored, EraseKind, At, SavedNames;
    recs := [];
    NoRecords(plain);
    var todo, done := SavedNames(s, kind), {};
    ghost var goal := KindView(view, now, s, kind);
    BuildsNone(text, d, view);
    WrittenNone(view, goal);
    while todo != {}
      invariant todo <= SavedNames(s, kind) && done == SavedNames(s, kind) - todo
      invariant Builds(text, d, recs, view, Written(view, goal, done))
      invariant Sound(recs, plain)
      decreases todo
    {
      var k :| k in todo;
      WriteNext(view, goal, done, k);
      var more := SaveValue(text, now, d, k, s, kind, Written(view, goal, done), plain);
      BuildsMore(text, d, recs, more, view, Written(view, goal, done), Written(view, goal, done + {k}));
      SoundConcat(recs, more, plain);
      recs := recs + more;
      done, todo := done + {k}, todo - {k};
    }
    DoneWriting(view, goal, done);
  }

  lemma NoRecords(plain: bool)
    ensures Sound([], plain)
  {
  }

  lemma WrittenNone(view: FlatDb, goal: FlatDb)
    requires Total(view) && Total(goal)
    ensures Written(view, goal, {}) == view
  {
  }

  /** The names of one shard restored over `view`. */
  ghost function ShardGoal(view: FlatDb, now: int, s: Shard): (r: FlatDb)
    requires Total(view)
    ensures Total(r)
  {
    imap k: string :: if At(s, k) == EMPTY_SLOT then view[k] else Restored(now, At(s, k))
  }

  ghost predicate Fresh(view: FlatDb, s: Shard)
    requires Total(view)
  {
    forall k :: At(s, k) != EMPTY_SLOT ==> view[k] == EMPTY_SLOT
  }

  method SaveShard(text: ScoreText, now: int, d: nat, s: Shard, ghost view: FlatDb, ghost plain: bool)
    returns (recs: seq<Record>)
    requires d < DB_COUNT && Total(view) && ShardFit(text, s) && (plain ==> PlainShard(now, s)) && Fresh(view, s)
    ensures Builds(text, d, recs, view, ShardGoal(view, now, s))
    ensures Sound(recs, plain)
  {
    ghost var v1 := KindView(view, now, s, Strings);
    ghost var v2 := KindView(v1, now, s, Hashes);
    ghost var v3 := KindView(v2, now, s, Lists);
    ghost var v4 := KindView(v3, now, s, Sets);
    ghost var v5 := KindView(v4, now, s, ZSets);
    FiveKinds(view, now, s, text);
    hide *;
    recs := SaveKind(text, now, d, s, Strings, view, plain);
    var more := SaveKind(text, now, d, s, Hashes, v1, plain);
    BuildsMore(text, d, recs, more, view, v1, v2);
    SoundConcat(recs, more, plain);
    recs := recs + more;
    more := SaveKind(text, now, d, s, Lists, v2, plain);
    BuildsMore(text, d, recs, more, view, v2, v3);
    SoundConcat(recs, more, plain);
    recs := recs + more;
    more := SaveKind(text, now, d, s, Sets, v3, plain);
    BuildsMore(text, d, recs, more, view, v3, v4);
    SoundConcat(recs, more, plain);
    recs := recs + more;
    more := SaveKind(text, now, d, s, ZSets, v4, plain);
    BuildsMore(text, d, recs, more, view, v4, v5);
    SoundConcat(recs, more, plain);
    recs := recs + more;
  }

  lemma KindAt(view: FlatDb, now: int, s: Shard, kind: Kind, k: string)
    requires Total(view)
    ensures KindView(view, now, s, kind)[k] == PutKind(kind, k in SavedNames(s, kind), view[k], now, At(s, k))
  {
    hide At, Restored, MoveKind, SavedNames;
  }

  /** What SaveShard needs of each name, all five types in turn. */
  ghost predicate Staged(view: FlatDb, now: int, s: Shard, k: string)
    requires Total(view)
  {
    var v1 := KindView(view, now, s, Strings);
    var v2 := KindView(v1, now, s, Hashes);
    var v3 := KindView(v2, now, s, Lists);
    var v4 := KindView(v3, now, s, Sets);
    && KindView(v4, now, s, ZSets)[k] == ShardGoal(view, now, s)[k]
    && (k in SavedNames(s, Strings) ==> EraseKind(view[k], Strings) == view[k])
    && (k in SavedNames(s, Hashes) ==> EraseKind(v1[k], Hashes) == v1[k])
    && (k in SavedNames(s, Lists) ==> EraseKind(v2[k], Lists) == v2[k])
    && (k in SavedNames(s, Sets) ==> EraseKind(v3[k], Sets) == v3[k])
    && (k in SavedNames(s, ZSets) ==> EraseKind(v4[k], ZSets) == v4[k])
  }

  lemma StagedAt(view: FlatDb, now: int, s: Shard, k: string)
    requires Total(view) && SlotOk(At(s, k)) && (At(s, k) != EMPTY_SLOT ==> view[k] == EMPTY_SLOT)
    ensures Staged(view, now, s, k)
  {
    hide At, Restored, MoveKind, EraseKind, SlotOk, SavedNames, KindView, PutKind;
    var v1 := KindView(view, now, s, Strings);
    var v2 := KindView(v1, now, s, Hashes);
    var v3 := KindView(v2, now, s, Lists);
    var v4 := KindView(v3, now, s, Sets);
    KindAt(view, now, s, Strings, k);
    KindAt(v1, now, s, Hashes, k);
    KindAt(v2, now, s, Lists, k);
    KindAt(v3, now, s, Sets, k);
    KindAt(v4, now, s, ZSets, k);
    SavedAt(s, k);
    FiveParts(view[k], now, At(s, k));
  }

  /** The five types in turn: each finds its part of the name untouched, and together they
      restore the slot. */
  lemma FiveKinds(view: FlatDb, now: int, s: Shard, text: ScoreText)
    requires Total(view) && Fresh(view, s) && ShardFit(text, s)
    ensures var v1 := KindView(view, now, s, Strings);
      var v2 := KindView(v1, now, s, Hashes);
      var v3 := KindView(v2, now, s, Lists);
      var v4 := KindView(v3, now, s, Sets);
      && KindView(v4, now, s, ZSets) == ShardGoal(view, now, s)
      && (forall k :: k in SavedNames(s, Strings) ==> EraseKind(view[k], Strings) == view[k])
      && (forall k :: k in SavedNames(s, Hashes) ==> EraseKind(v1[k], Hashes) == v1[k])
      && (forall k :: k in SavedNames(s, Lists) ==> EraseKind(v2[k], Lists) == v2[k])
      && (forall k :: k in SavedNames(s, Sets) ==> EraseKind(v3[k], Sets) == v3[k])
      && (forall k :: k in SavedNames(s, ZSets) ==> EraseKind(v4[k], ZSets) == v4[k])
  {
    hide KindView, ShardGoal, EraseKind, SavedNames, At, SlotOk, Storable;
    var v1 := KindView(view, now, s, Strings);
    var v2 := KindView(v1, now, s, Hashes);
    var v3 := KindView(v2, now, s, Lists);
    var v4 := KindView(v3, now, s, Sets);
    forall k: string
      ensures KindView(v4, now, s, ZSets)[k] == ShardGoal(view, now, s)[k]
      ensures k in SavedNames(s, Strings) ==> EraseKind(view[k], Strings) == view[k]
      ensures k in SavedNames(s, Hashes) ==> EraseKind(v1[k], Hashes) == v1[k]
      ensures k in SavedNames(s, Lists) ==> EraseKind(v2[k], Lists) == v2[k]
      ensures k in SavedNames(s, Sets) ==> EraseKind(v3[k], Sets) == v3[k]
      ensures k in SavedNames(s, ZSets) ==> EraseKind(v4[k], ZSets) == v4[k]
    {
      assert SlotOk(At(s, k));
      StagedAt(view, now, s, k);
    }
  }

  function PutKind(kind: Kind, here: bool, start: Slot, now: int, slot: Slot): Slot {
    if here then MoveKind(kind, Restored(now, slot), start, true) else start
  }

  lemma SavedAt(s: Shard, k: string)
    ensures k in SavedNames(s, Strings) <==> At(s, k).store.Some?
    ensures k in SavedNames(s, Hashes) <==> At(s, k).hash.Some?
    ensures k in SavedNames(s, Lists) <==> At(s, k).list.Some?
    ensures k in SavedNames(s, Sets) <==> At(s, k).members.Some?
    ensures k in SavedNames(s, ZSets) <==> At(s, k).scores.Some?
  {
  }

  lemma FiveParts(start: Slot, now: int, slot: Slot)
    requires SlotOk(slot) && (slot != EMPTY_SLOT ==> start == EMPTY_SLOT)
    ensures var s1 := PutKind(Strings, slot.store.Some?, start, now, slot);
      var s2 := PutKind(Hashes, slot.hash.Some?, s1, now, slot);
      var s3 := PutKind(Lists, slot.list.Some?, s2, now, slot);
      var s4 := PutKind(Sets, slot.members.Some?, s3, now, slot);
      && PutKind(ZSets, slot.scores.Some?, s4, now, slot) == (if slot == EMPTY_SLOT then start else Restored(now, slot))
      && (slot.store.Some? ==> EraseKind(start, Strings) == start)
      && (slot.hash.Some? ==> EraseKind(s1, Hashes) == s1)
      && (slot.list.Some? ==> EraseKind(s2, Lists) == s2)
      && (slot.members.Some? ==> EraseKind(s3, Sets) == s3)
      && (slot.scores.Some? ==> EraseKind(s4, ZSets) == s4)
  {
    hide Agrees;
  }

  ghost function RestoredView(now: int, view: FlatDb): (r: FlatDb)
    requires Total(view)
    ensures Total(r)
  {
    imap k: string :: Restored(now, view[k])
  }

  /** The names of the first n shards in place. */
  ghost function UpTo(hash: string -> nat, goal: FlatDb, n: nat): (r: FlatDb)
    requires Total(goal)
    ensures Total(r)
  {
    imap k: string :: if ShardIndex(hash, k) < n then goal[k] else EMPTY_SLOT
  }

  lemma UpToEnds(hash: string -> nat, goal: FlatDb)
    requires Total(goal)
    ensures UpTo(hash, goal, 0) == EmptyView() && UpTo(hash, goal, SHARD_COUNT) == goal
  {
  }

  lemma ViewTotal(hash: string -> nat, shards: seq<Shard>)
    requires |shards| == SHARD_COUNT
    ensures Total(View(hash, shards))
  {
  }

  /** Shard n holds exactly the names that belong there, and `goal` restores them. */
  ghost predicate GoalOf(hash: string -> nat, now: int, goal: FlatDb, s: Shard, n: nat) {
    && Total(goal)
    && (forall k :: At(s, k) != EMPTY_SLOT ==> ShardIndex(hash, k) == n)
    && (forall k :: ShardIndex(hash, k) == n ==> goal[k] == Restored(now, At(s, k)))
  }

  lemma GoalOfShard(hash: string -> nat, now: int, shards: seq<Shard>, n: nat)
    requires Placed(hash, shards) && n < SHARD_COUNT && Total(View(hash, shards))
    ensures GoalOf(hash, now, RestoredView(now, View(hash, shards)), shards[n], n)
  {
    hide At, Restored;
  }

  lemma UpToNext(hash: string -> nat, now: int, goal: FlatDb, s: Shard, n: nat)
    requires GoalOf(hash, now, goal, s, n) && n < SHARD_COUNT && Total(goal)
    ensures Fresh(UpTo(hash, goal, n), s)
    ensures ShardGoal(UpTo(hash, goal, n), now, s) == UpTo(hash, goal, n + 1)
  {
    assert Restored(now, EMPTY_SLOT) == EMPTY_SLOT;
    hide At, Restored, ShardIndex;
  }

  /** Every name of one database can be saved. */
  ghost predicate DbFit(text: ScoreText, view: FlatDb) {
    ViewOk(view) && forall k: string :: Storable(text, view[k])
  }

  lemma ShardOfDb(text: ScoreText, hash: string -> nat, now: int, shards: seq<Shard>, n: nat)
    requires Placed(hash, shards) && n < SHARD_COUNT && DbFit(text, View(hash, shards))
    ensures ShardFit(text, shards[n])
    ensures ViewTexts(RestoredView(now, View(hash, shards)), Plain) ==> PlainShard(now, shards[n])
  {
    forall k
      ensures SlotOk(At(shards[n], k)) && Storable(text, At(shards[n], k))
      ensures ViewTexts(RestoredView(now, View(hash, shards)), Plain) ==> PlainName(now, k, At(shards[n], k))
    {
      NothingToSave(text, now, k);
      hide At, SlotOk, Storable, Restored, SlotTexts;
      if ShardIndex(hash, k) == n {
        assert View(hash, shards)[k] == At(shards[n], k);
      } else {
        assert At(shards[n], k) == EMPTY_SLOT;
      }
    }
  }

  lemma NothingToSave(text: ScoreText, now: int, k: string)
    ensures SlotOk(EMPTY_SLOT) && Storable(text, EMPTY_SLOT) && PlainName(now, k, EMPTY_SLOT)
  {
  }

  /** `goal` is what a reload of these shards should give. */
  ghost predicate Savable(text: ScoreText, now: int, hash: string -> nat, shards: seq<Shard>, goal: FlatDb, plain: bool) {
    && Placed(hash, shards) && DbFit(text, View(hash, shards))
    && goal == RestoredView(now, View(hash, shards))
    && (plain ==> ViewTexts(goal, Plain))
  }

  lemma SavableShard(text: ScoreText, now: int, hash: string -> nat, shards: seq<Shard>, goal: FlatDb, plain: bool, n: nat)
    requires Savable(text, now, hash, shards, goal, plain) && n < SHARD_COUNT == |shards| && Total(goal)
    ensures ShardFit(text, shards[n]) && (plain ==> PlainShard(now, shards[n]))
    ensures Fresh(UpTo(hash, goal, n), shards[n])
    ensures ShardGoal(UpTo(hash, goal, n), now, shards[n]) == UpTo(hash, goal, n + 1)
  {
    ViewTotal(hash, shards);
    hide Placed, DbFit, View, RestoredView, ViewTexts, ShardFit, PlainShard, Fresh, ShardGoal, UpTo, GoalOf, Total;
    ShardOfDb(text, hash, now, shards, n);
    GoalOfShard(hash, now, shards, n);
    UpToNext(hash, now, goal, shards[n], n);
  }

  method SaveDb(text: ScoreText, now: int, ghost hash: string -> nat, d: nat, shards: seq<Shard>,
                ghost goal: FlatDb, ghost plain: bool)
    returns (recs: seq<Record>)
    requires d < DB_COUNT && |shards| == SHARD_COUNT && Total(goal)
    requires Savable(text, now, hash, shards, goal, plain)
    ensures Builds(text, d, recs, EmptyView(), goal)
    ensures Sound(recs, plain)
  {
    hide *;
    recs := [];
    NoRecords(plain);
    UpToEnds(hash, goal);
    BuildsNone(text, d, EmptyView());
    var n := 0;
    while n < SHARD_COUNT
      invariant 0 <= n <= SHARD_COUNT
      invariant Builds(text, d, recs, EmptyView(), UpTo(hash, goal, n))
      invariant Sound(recs, plain)
    {
      SavableShard(text, now, hash, shards, goal, plain, n);
      var more := SaveShard(text, now, d, shards[n], UpTo(hash, goal, n), plain);
      BuildsMore(text, d, recs, more, EmptyView(), UpTo(hash, goal, n), UpTo(hash, goal, n + 1));
      SoundConcat(recs, more, plain);
      recs := recs + more;
      n := n + 1;
    }
  }

  // ---------- saving: the whole server ----------

  ghost predicate DataFit(text: ScoreText, hash: string -> nat, dbs: seq<seq<Shard>>) {
    && |dbs| == DB_COUNT
    && (forall d :: 0 <= d < DB_COUNT ==> Placed(hash, dbs[d]) && DbFit(text, View(hash, dbs[d])))
  }

  /** The first n databases restored, the others empty. */
  ghost function Back(now: int, hash: string -> nat, dbs: seq<seq<Shard>>, n: nat): (views: seq<FlatDb>)
    requires |dbs| == DB_COUNT && forall d :: 0 <= d < DB_COUNT ==> |dbs[d]| == SHARD_COUNT
    ensures ViewsOk(views)
  {
    seq(DB_COUNT, d requires 0 <= d < DB_COUNT =>
      if d < n then RestoredView(now, View(hash, dbs[d])) else EmptyView())
  }

  ghost predicate DataPlain(now: int, hash: string -> nat, dbs: seq<seq<Shard>>)
    requires |dbs| == DB_COUNT && forall d :: 0 <= d < DB_COUNT ==> |dbs[d]| == SHARD_COUNT
  {
    forall d :: 0 <= d < DB_COUNT ==> ViewTexts(Back(now, hash, dbs, DB_COUNT)[d], Plain)
  }

  /** recs bring an empty server to the first n databases of dbs. */
  ghost predicate Saves(text: ScoreText, now: int, hash: string -> nat, dbs: seq<seq<Shard>>, n: nat, recs: seq<Record>) {
    && DataFit(text, hash, dbs)
    && LoadRecords(text, LoadState(Back(now, hash, dbs, 0), Loaded), recs)
       == LoadState(Back(now, hash, dbs, n), Loaded)
    && Sound(recs, DataPlain(now, hash, dbs))
  }

  lemma SavesNone(text: ScoreText, now: int, hash: string -> nat, dbs: seq<seq<Shard>>)
    requires DataFit(text, hash, dbs)
    ensures Saves(text, now, hash, dbs, 0, [])
  {
  }

  lemma BackNext(now: int, hash: string -> nat, dbs: seq<seq<Shard>>, d: nat)
    requires |dbs| == DB_COUNT && (forall i :: 0 <= i < DB_COUNT ==> |dbs[i]| == SHARD_COUNT) && d < DB_COUNT
    ensures Back(now, hash, dbs, d)[d] == EmptyView()
    ensures Back(now, hash, dbs, d)[d := RestoredView(now, View(hash, dbs[d]))] == Back(now, hash, dbs, d + 1)
  {
    hide View, RestoredView, EmptyView;
  }

  lemma FitCounts(text: ScoreText, hash: string -> nat, dbs: seq<seq<Shard>>)
    requires DataFit(text, hash, dbs)
    ensures |dbs| == DB_COUNT && forall d :: 0 <= d < DB_COUNT ==> |dbs[d]| == SHARD_COUNT
  {
  }

  lemma SavesMore(text: ScoreText, now: int, hash: string -> nat, dbs: seq<seq<Shard>>, d: nat,
                  recs: seq<Record>, more: seq<Record>)
    requires Saves(text, now, hash, dbs, d, recs) && d < DB_COUNT
    requires Builds(text, d, more, EmptyView(), RestoredView(now, View(hash, dbs[d])))
    requires Sound(more, DataPlain(now, hash, dbs))
    ensures Saves(text, now, hash, dbs, d + 1, recs + more)
  {
    FitCounts(text, hash, dbs);
    hide LoadRecords, Sound, View, RestoredView, EmptyView, DataFit, Back, DataPlain, ViewsOk;
    LoadConcat(text, LoadState(Back(now, hash, dbs, 0), Loaded), recs, more);
    SoundConcat(recs, more, DataPlain(now, hash, dbs));
    BackNext(now, hash, dbs, d);
  }

  lemma SavableDb(text: ScoreText, now: int, hash: string -> nat, dbs: seq<seq<Shard>>, d: nat)
    requires DataFit(text, hash, dbs) && d < DB_COUNT
    ensures Total(View(hash, dbs[d]))
    ensures Savable(text, now, hash, dbs[d], RestoredView(now, View(hash, dbs[d])), DataPlain(now, hash, dbs))
  {
    ViewTotal(hash, dbs[d]);
    hide ViewTexts, RestoredView, View, EmptyView, DbFit, Total;
    assert Back(now, hash, dbs, DB_COUNT)[d] == RestoredView(now, View(hash, dbs[d]));
  }

  method SaveNext(text: ScoreText, now: int, ghost hash: string -> nat, dbs: seq<seq<Shard>>, d: nat, recs: seq<Record>)
    returns (r: seq<Record>)
    requires |dbs| == DB_COUNT && d < DB_COUNT && Saves(text, now, hash, dbs, d, recs)
    ensures Saves(text, now, hash, dbs, d + 1, r)
  {
    FitCounts(text, hash, dbs);
    hide LoadRecords, View, RestoredView, EmptyView, DataFit, Builds, DataPlain, Back, Sound, Savable, Total;
    SavableDb(text, now, hash, dbs, d);
    var more := SaveDb(text, now, hash, d, dbs[d], RestoredView(now, View(hash, dbs[d])), DataPlain(now, hash, dbs));
    SavesMore(text, now, hash, dbs, d, recs, more);
    r := recs + more;
  }

  /** saveToFile: the text written is that of records which rebuild the data. */
  method SaveToFile(text: ScoreText, now: int, ghost hash: string -> nat, dbs: seq<seq<Shard>>)
    returns (file: string, recs: seq<Record>)
    requires DataFit(text, hash, dbs)
    ensures Saves(text, now, hash, dbs, DB_COUNT, recs)
    ensures (forall i :: 0 <= i < |recs| ==> recs[i] != []) && file == DumpText(recs)
  {
    FitCounts(text, hash, dbs);
    hide *;
    SavesNone(text, now, hash, dbs);
    recs := [];
    var d := 0;
    while d < DB_COUNT
      invariant 0 <= d <= DB_COUNT && Saves(text, now, hash, dbs, d, recs)
    {
      recs := SaveNext(text, now, hash, dbs, d, recs);
      d := d + 1;
    }
    SavesSound(text, now, hash, dbs, recs);
    file := DumpText(recs);
  }

  lemma SavesSound(text: ScoreText, now: int, hash: string -> nat, dbs: seq<seq<Shard>>, recs: seq<Record>)
    requires Saves(text, now, hash, dbs, DB_COUNT, recs)
    ensures forall i :: 0 <= i < |recs| ==> recs[i] != []
  {
  }

  // ---------- loading ----------

  lemma Assigned(s: Shard, key: string, store: Option<StoreData>, fields: Option<map<string, string>>,
                 list: Option<seq<string>>, members: Option<set<string>>)
    ensures var r := s.(store := Assign(s.store, key, store));
      DiffersOnlyAt(s, r, key) && At(r, key) == At(s, key).(store := store)
    ensures var r := s.(hash := Assign(s.hash, key, fields));
      DiffersOnlyAt(s, r, key) && At(r, key) == At(s, key).(hash := fields)
    ensures var r := s.(lists := Assign(s.lists, key, list));
      DiffersOnlyAt(s, r, key) && At(r, key) == At(s, key).(list := list)
    ensures var r := s.(sets := Assign(s.sets, key, members));
      DiffersOnlyAt(s, r, key) && At(r, key) == At(s, key).(members := members)
  {
    hide Find, Assign;
  }

  lemma AssignedScores(s: Shard, key: string, z: Option<seq<ZKey>>, scores: Option<map<string, Score>>)
    ensures var r := s.(zsetScore := Assign(s.zsetScore, key, scores), zset := Assign(s.zset, key, z));
      DiffersOnlyAt(s, r, key) && At(r, key) == At(s, key).(zset := z, scores := scores)
  {
    hide Find, Assign;
  }

  lemma AtParts(s: Shard, key: string)
    ensures DiffersOnlyAt(s, s, key)
    ensures At(s, key) == Slot(Find(s.store, key), Find(s.hash, key), Find(s.lists, key), Find(s.sets, key),
                               Find(s.zset, key), Find(s.zsetScore, key))
  {
  }

  /** What loading does to a name depends on its slot only; it stays in its shard. */
  method LoadOnShard(text: ScoreText, s: Shard, parts: Record) returns (r: Shard, ok: bool)
    requires |parts| >= 5
    ensures DiffersOnlyAt(s, r, parts[3])
    ensures (At(r, parts[3]), ok) == LoadSlot(text, At(s, parts[3]), parts)
  {
    hide ParseInt, Insert, At, DiffersOnlyAt, Assign, Find;
    var kind, key, value := parts[2], parts[3], parts[4];
    AtParts(s, key);
    r, ok := s, true;
    if kind == "STR" {
      var expire := None;
      if |parts| >= 6 {
        expire := Stoll(parts[5]);
        ok := expire.Some?;
      }
      r := s.(store := Assign(s.store, key, Some(StoreData(value, expire))));
      Assigned(s, key, Some(StoreData(value, expire)), None, None, None);
    } else if kind == "HASH" && |parts| >= 6 {
      var fields := OrElse(Find(s.hash, key), map[])[value := parts[5]];
      r := s.(hash := Assign(s.hash, key, Some(fields)));
      Assigned(s, key, None, Some(fields), None, None);
    } else if kind == "LIST" {
      var list := OrElse(Find(s.lists, key), []) + [value];
      r := s.(lists := Assign(s.lists, key, Some(list)));
      Assigned(s, key, None, None, Some(list), None);
    } else if kind == "SET" {
      var members := OrElse(Find(s.sets, key), {}) + {value};
      r := s.(sets := Assign(s.sets, key, Some(members)));
      Assigned(s, key, None, None, None, Some(members));
    } else if kind == "ZSET" && |parts| >= 6 {
      var score := text.parse(value);
      if score.None? {
        ok := false;
      } else {
        var scores := OrElse(Find(s.zsetScore, key), map[])[parts[5] := score.value];
        var index := Insert(OrElse(Find(s.zset, key), []), ZKey(score.value, parts[5]));
        r := s.(zsetScore := Assign(s.zsetScore, key, Some(scores)), zset := Assign(s.zset, key, Some(index)));
        AssignedScores(s, key, Some(index), Some(scores));
      }
    }
  }

  ghost predicate AllPlaced(hash: string -> nat, dbs: seq<seq<Shard>>) {
    |dbs| == DB_COUNT && forall d :: 0 <= d < DB_COUNT ==> Placed(hash, dbs[d])
  }

  ghost function Holding(hash: string -> nat, dbs: seq<seq<Shard>>): (views: seq<FlatDb>)
    requires AllPlaced(hash, dbs)
    ensures ViewsOk(views) && forall d :: 0 <= d < DB_COUNT ==> views[d] == View(hash, dbs[d])
  {
    Views(hash, dbs)
  }

  lemma HoldingWrite(hash: string -> nat, dbs: seq<seq<Shard>>, d: nat, key: string, s: Shard)
    requires AllPlaced(hash, dbs) && d < DB_COUNT && DiffersOnlyAt(dbs[d][ShardIndex(hash, key)], s, key)
    ensures var after := dbs[d := dbs[d][ShardIndex(hash, key) := s]];
      && AllPlaced(hash, after)
      && Holding(hash, after) == Holding(hash, dbs)[d := Holding(hash, dbs)[d][key := At(s, key)]]
  {
    hide View, At, DiffersOnlyAt;
    ViewOfWrite(hash, dbs[d], key, s);
  }

  /** loadFromFile, on whatever the file contains and whatever the server holds. */
  method LoadFromFile(server: ServerData, file: string) returns (outcome: Outcome)
    requires AllPlaced(server.hash, server.dbs)
    modifies server`dbs
    ensures AllPlaced(server.hash, server.dbs)
    ensures LoadState(Holding(server.hash, server.dbs), outcome)
      == LoadRecords(server.text, LoadState(old(Holding(server.hash, server.dbs)), Loaded), Records(file))
  {
    hide Placed, View, LoadLine, At, DiffersOnlyAt, Cut, Lines, Holding;
    outcome := Loaded;
    var lines := Lines(file);
    ghost var recs := Records(file);
    ghost var start := LoadState(Holding(server.hash, server.dbs), Loaded);
    var i := 0;
    while i < |lines|
      invariant 0 <= i <= |lines| && outcome == Loaded && AllPlaced(server.hash, server.dbs)
      invariant LoadRecords(server.text, start, recs)
        == LoadRecords(server.text, LoadState(Holding(server.hash, server.dbs), Loaded), recs[i..])
    {
      ghost var before := Holding(server.hash, server.dbs);
      assert recs[i..][0] == recs[i] && recs[i..][1..] == recs[i + 1..];
      var parts := Split(lines[i], '|');
      outcome := LoadOne(server, parts);
      if outcome != Loaded {
        return;
      }
      i := i + 1;
    }
  }

  method LoadOne(server: ServerData, parts: Record) returns (outcome: Outcome)
    requires AllPlaced(server.hash, server.dbs) && |parts| >= 1
    modifies server`dbs
    ensures AllPlaced(server.hash, server.dbs)
    ensures LoadState(Holding(server.hash, server.dbs), outcome)
      == LoadLine(server.text, old(Holding(server.hash, server.dbs)), parts)
  {
    hide ParseInt, View, At, DiffersOnlyAt, LoadSlot;
    if |parts| < 2 {
      return Undefined;
    }
    var d := Stoi(parts[1]);
    if d.None? {
      return Stopped;
    }
    if |parts| < 3 || d.value < 0 || d.value >= DB_COUNT {
      return Undefined;
    }
    if |parts| < 5 {
      return Loaded;
    }
    var key := parts[3];
    var i := ShardIndex(server.hash, key);
    var shards := server.dbs[d.value];
    var s, ok := LoadOnShard(server.text, shards[i], parts);
    HoldingWrite(server.hash, server.dbs, d.value, key, s);
    HoldingAt(server.hash, server.dbs, d.value, key);
    server.dbs := server.dbs[d.value := shards[i := s]];
    return if ok then Loaded else Stopped;
  }

  lemma HoldingAt(hash: string -> nat, dbs: seq<seq<Shard>>, d: nat, key: string)
    requires AllPlaced(hash, dbs) && d < DB_COUNT
    ensures Holding(hash, dbs)[d][key] == At(dbs[d][ShardIndex(hash, key)], key)
  {
  }

  // ---------- saving and loading together ----------

  lemma PutTexts(slot: Slot, a: string, expire: Option<int>)
    requires SlotTexts(slot, Plain) && Plain(a)
    ensures SlotTexts(slot.(store := Some(StoreData(a, expire))), Plain)
    ensures SlotTexts(slot.(list := Some(OrElse(slot.list, []) + [a])), Plain)
    ensures SlotTexts(slot.(members := Some(OrElse(slot.members, {}) + {a})), Plain)
  {
    hide Plain;
  }

  lemma PutPairTexts(slot: Slot, a: string, b: string, score: Score, z: seq<ZKey>)
    requires SlotTexts(slot, Plain) && Plain(b)
    ensures Plain(a) ==> SlotTexts(slot.(hash := Some(OrElse(slot.hash, map[])[a := b])), Plain)
    ensures SlotTexts(slot.(zset := Some(z), scores := Some(OrElse(slot.scores, map[])[b := score])), Plain)
  {
    hide Plain;
  }

  lemma LoadSlotTexts(text: ScoreText, slot: Slot, parts: Record)
    requires |parts| >= 5 && PlainRecord(parts) && SlotTexts(slot, Plain)
    ensures SlotTexts(LoadSlot(text, slot, parts).0, Plain)
  {
    hide Plain, ParseInt, Insert, SlotTexts;
    var value := parts[4];
    PutTexts(slot, value, None);
    if |parts| >= 6 {
      PutTexts(slot, value, Stoll(parts[5]));
      var score := OrElse(text.parse(value), 0);
      PutPairTexts(slot, value, parts[5], score, Insert(OrElse(slot.zset, []), ZKey(score, parts[5])));
    }
  }

  lemma LoadLineTexts(text: ScoreText, views: seq<FlatDb>, parts: Record)
    requires ViewsOk(views) && PlainRecord(parts) && forall d :: 0 <= d < DB_COUNT ==> ViewTexts(views[d], Plain)
    ensures forall d :: 0 <= d < DB_COUNT ==> ViewTexts(LoadLine(text, views, parts).views[d], Plain)
  {
    if |parts| >= 5 && Stoi(parts[1]).Some? && 0 <= Stoi(parts[1]).value < DB_COUNT {
      var slot := views[Stoi(parts[1]).value][parts[3]];
      NoTexts(Plain);
      hide LoadSlot, SlotTexts, Plain, ParseInt;
      assert SlotTexts(slot, Plain);
      LoadSlotTexts(text, slot, parts);
    }
  }

  /** Loading plain records brings in plain texts only. */
  lemma {:induction false} LoadTexts(text: ScoreText, st: LoadState, recs: seq<Record>)
    requires ViewsOk(st.views) && forall d :: 0 <= d < DB_COUNT ==> ViewTexts(st.views[d], Plain)
    requires forall i :: 0 <= i < |recs| ==> PlainRecord(recs[i])
    ensures forall d :: 0 <= d < DB_COUNT ==> ViewTexts(LoadRecords(text, st, recs).views[d], Plain)
    decreases |recs|
  {
    hide LoadLine, ViewTexts, PlainRecord;
    if recs != [] && st.outcome == Loaded {
      LoadLineTexts(text, st.views, recs[0]);
      LoadTexts(text, LoadLine(text, st.views, recs[0]), recs[1..]);
    }
  }

  /** Whatever an empty server loads, it holds plain texts only. */
  lemma LoadedIsPlain(text: ScoreText, now: int, hash: string -> nat, dbs: seq<seq<Shard>>, file: string)
    requires |dbs| == DB_COUNT && forall d :: 0 <= d < DB_COUNT ==> |dbs[d]| == SHARD_COUNT
    ensures var views := LoadRecords(text, LoadState(Back(now, hash, dbs, 0), Loaded), Records(file)).views;
      forall d :: 0 <= d < DB_COUNT ==> ViewTexts(views[d], Plain)
  {
    hide LoadRecords, View, PlainRecord, Records, ViewTexts, RestoredView, EmptyView;
    RecordsPlain(file);
    NothingPlain();
    LoadTexts(text, LoadState(Back(now, hash, dbs, 0), Loaded), Records(file));
  }

  /** Exactly when an empty server that loads the dump gets the data back: no name, field,
      value, element or member in it contains the field separator or a line end. */
  lemma LoadOfSaveIff(text: ScoreText, now: int, hash: string -> nat, dbs: seq<seq<Shard>>, recs: seq<Record>)
    requires Saves(text, now, hash, dbs, DB_COUNT, recs) && forall i :: 0 <= i < |recs| ==> recs[i] != []
    ensures LoadRecords(text, LoadState(Back(now, hash, dbs, 0), Loaded), Records(DumpText(recs)))
         == LoadState(Back(now, hash, dbs, DB_COUNT), Loaded)
       <==> DataPlain(now, hash, dbs)
  {
    hide LoadRecords, DataFit, Back, PlainRecord, Records, DumpText, ViewTexts, ViewsOk;
    FitCounts(text, hash, dbs);
    LoadedIsPlain(text, now, hash, dbs, DumpText(recs));
    if DataPlain(now, hash, dbs) {
      RecordsOfText(recs);
    }
  }

  lemma NothingPlain()
    ensures ViewTexts(EmptyView(), Plain)
  {
  }

  /** A line of a sorted set leaves index and score map in agreement exactly when it does not
      change the score of a member already there. */
  lemma ZSetLineIff(text: ScoreText, slot: Slot, parts: Record)
    requires SlotOk(slot) && |parts| >= 6 && parts[2] == "ZSET" && text.parse(parts[4]).Some?
    ensures var scores, m := OrElse(slot.scores, map[]), parts[5];
      SlotOk(LoadSlot(text, slot, parts).0) <==> (m in scores ==> scores[m] == text.parse(parts[4]).value)
  {
    var z, scores := OrElse(slot.zset, []), OrElse(slot.scores, map[]);
    var m, score := parts[5], text.parse(parts[4]).value;
    if m !in scores {
      InsertAgrees(z, scores, m, score);
    } else {
      assert ZKey(scores[m], m) in z;
      InsertElements(z, ZKey(score, m), ZKey(scores[m], m));
      if scores[m] == score {
        InsertSame(z, ZKey(score, m));
        assert scores[m := score] == scores;
      } else {
        assert ZKey(scores[m], m) in Insert(z, ZKey(score, m));
      }
    }
  }

  // ---------- the index over a whole file ----------

  /** The line gives a member that is already there another score. */
  ghost predicate Rescores(text: ScoreText, slot: Slot, parts: Record) {
    && |parts| >= 6 && parts[2] == "ZSET" && text.parse(parts[4]).Some?
    && var scores := OrElse(slot.scores, map[]);
       parts[5] in scores && scores[parts[5]] != text.parse(parts[4]).value
  }

  /** The database and name a line is about, if it changes anything. */
  predicate Concerns(parts: Record, d: int) {
    |parts| >= 5 && Stoi(parts[1]) == Some(d) && 0 <= d < DB_COUNT
  }

  ghost predicate RescoringLine(text: ScoreText, views: seq<FlatDb>, parts: Record)
    requires ViewsOk(views)
  {
    exists d :: Concerns(parts, d) && Rescores(text, views[d][parts[3]], parts)
  }

  /** No line that is reached does so. */
  ghost predicate NoRescore(text: ScoreText, st: LoadState, recs: seq<Record>)
    requires ViewsOk(st.views)
    decreases |recs|
  {
    recs != [] && st.outcome == Loaded ==>
      !RescoringLine(text, st.views, recs[0]) && NoRescore(text, LoadLine(text, st.views, recs[0]), recs[1..])
  }

  ghost predicate AllOk(views: seq<FlatDb>) {
    forall d :: 0 <= d < |views| ==> ViewOk(views[d])
  }

  /** Two entries for one member. */
  ghost predicate Broken(slot: Slot) {
    slot.zset.Some? && exists a, b :: a in slot.zset.value && b in slot.zset.value && a.member == b.member && a.score != b.score
  }

  lemma BrokenNotOk(slot: Slot)
    requires Broken(slot)
    ensures !SlotOk(slot)
  {
    var a, b :| a in slot.zset.value && b in slot.zset.value && a.member == b.member && a.score != b.score;
  }

  lemma BrokenStays(text: ScoreText, slot: Slot, parts: Record)
    requires Broken(slot) && |parts| >= 5
    ensures Broken(LoadSlot(text, slot, parts).0)
  {
    var a, b :| a in slot.zset.value && b in slot.zset.value && a.member == b.member && a.score != b.score;
    if |parts| >= 6 && text.parse(parts[4]).Some? {
      var k := ZKey(text.parse(parts[4]).value, parts[5]);
      InsertElements(slot.zset.value, k, a);
      InsertElements(slot.zset.value, k, b);
    }
    hide Insert, ParseInt;
  }

  lemma RescoreBreaks(text: ScoreText, slot: Slot, parts: Record)
    requires SlotOk(slot) && Rescores(text, slot, parts)
    ensures Broken(LoadSlot(text, slot, parts).0)
  {
    var z, m := slot.zset.value, parts[5];
    var old_, new_ := ZKey(slot.scores.value[m], m), ZKey(text.parse(parts[4]).value, m);
    assert old_ in z;
    InsertElements(z, new_, old_);
    InsertElements(z, new_, new_);
    hide Insert, Agrees;
  }

  lemma OtherLineOk(text: ScoreText, slot: Slot, parts: Record)
    requires SlotOk(slot) && |parts| >= 5 && !Rescores(text, slot, parts)
    ensures SlotOk(LoadSlot(text, slot, parts).0)
  {
    if |parts| >= 6 && parts[2] == "ZSET" && text.parse(parts[4]).Some? {
      ZSetLineIff(text, slot, parts);
    } else {
      hide Agrees, ParseInt, Insert;
    }
  }

  lemma OtherLineAllOk(text: ScoreText, views: seq<FlatDb>, parts: Record)
    requires ViewsOk(views) && AllOk(views) && !RescoringLine(text, views, parts)
    ensures AllOk(LoadLine(text, views, parts).views)
  {
    hide SlotOk, LoadSlot, Rescores;
    if |parts| >= 5 && Stoi(parts[1]).Some? && 0 <= Stoi(parts[1]).value < DB_COUNT {
      var d := Stoi(parts[1]).value;
      assert Concerns(parts, d);
      OtherLineOk(text, views[d][parts[3]], parts);
    }
  }

  lemma BrokenLine(text: ScoreText, views: seq<FlatDb>, parts: Record, d: nat, k: string)
    requires ViewsOk(views) && d < DB_COUNT && Broken(views[d][k])
    ensures Broken(LoadLine(text, views, parts).views[d][k])
  {
    hide Broken, LoadSlot, ParseInt;
    if |parts| >= 5 && Stoi(parts[1]) == Some(d) && parts[3] == k {
      BrokenStays(text, views[d][k], parts);
    }
  }

  lemma {:induction false} BrokenForGood(text: ScoreText, st: LoadState, recs: seq<Record>, d: nat, k: string)
    requires ViewsOk(st.views) && d < DB_COUNT && Broken(st.views[d][k])
    ensures Broken(LoadRecords(text, st, recs).views[d][k])
    decreases |recs|
  {
    hide Broken, LoadLine;
    if recs != [] && st.outcome == Loaded {
      BrokenLine(text, st.views, recs[0], d, k);
      BrokenForGood(text, LoadLine(text, st.views, recs[0]), recs[1..], d, k);
    }
  }

  /** Loading any file into consistent data leaves every sorted-set index in agreement with its
      scores exactly when no line that is reached gives a member another score; a later line
      never repairs the damage. */
  lemma {:induction false} IndexKeptIff(text: ScoreText, st: LoadState, recs: seq<Record>)
    requires ViewsOk(st.views) && AllOk(st.views)
    ensures AllOk(LoadRecords(text, st, recs).views) <==> NoRescore(text, st, recs)
    decreases |recs|
  {
    if recs != [] && st.outcome == Loaded {
      hide Rescores, LoadSlot, SlotOk, Broken, ParseInt;
      var next := LoadLine(text, st.views, recs[0]);
      if RescoringLine(text, st.views, recs[0]) {
        var d :| Concerns(recs[0], d) && Rescores(text, st.views[d][recs[0][3]], recs[0]);
        var k := recs[0][3];
        assert SlotOk(st.views[d][k]);
        RescoreBreaks(text, st.views[d][k], recs[0]);
        BrokenForGood(text, next, recs[1..], d, k);
        BrokenNotOk(LoadRecords(text, st, recs).views[d][k]);
      } else {
        OtherLineAllOk(text, st.views, recs[0]);
        hide LoadLine, AllOk, RescoringLine;
        IndexKeptIff(text, next, recs[1..]);
      }
    }
  }
}
