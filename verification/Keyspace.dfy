/** The data of the server: databases of shards, and what a shard holds under one name. */
module Keyspace {
  import opened Text
  import opened SortedSet

  const SHARD_COUNT: nat := 128
  const DB_COUNT: nat := 16

  datatype StoreData = StoreData(val: string, expire: Option<int>)

  datatype Shard = Shard(
    store: map<string, StoreData>,
    hash: map<string, map<string, string>>,
    lists: map<string, seq<string>>,
    sets: map<string, set<string>>,
    zset: map<string, seq<ZKey>>,
    zsetScore: map<string, map<string, Score>>)

  const EMPTY_SHARD := Shard(map[], map[], map[], map[], map[], map[])

  /** Everything held under one name: the five types are independent of each other. */
  datatype Slot = Slot(
    store: Option<StoreData>,
    hash: Option<map<string, string>>,
    list: Option<seq<string>>,
    members: Option<set<string>>,
    zset: Option<seq<ZKey>>,
    scores: Option<map<string, Score>>)

  const EMPTY_SLOT := Slot(None, None, None, None, None, None)

  function Find<V>(m: map<string, V>, key: string): Option<V> {
    if key in m then Some(m[key]) else None
  }

  function At(s: Shard, key: string): Slot {
    Slot(Find(s.store, key), Find(s.hash, key), Find(s.lists, key), Find(s.sets, key),
         Find(s.zset, key), Find(s.zsetScore, key))
  }

  /** Index and score map exist together and hold the same entries. */
  ghost predicate SlotOk(slot: Slot) {
    && (slot.zset.Some? <==> slot.scores.Some?)
    && (slot.zset.Some? ==> Agrees(slot.zset.value, slot.scores.value))
  }

  /** ServerData::getShardIndex; `hash` is std::hash<std::string>. */
  function ShardIndex(hash: string -> nat, key: string): (i: nat)
    ensures i < SHARD_COUNT
  {
    hash(key) % SHARD_COUNT
  }

  /** Two names share a shard exactly when their hashes are a multiple of 128 apart. */
  lemma ShareShardIff(hash: string -> nat, a: string, b: string)
    ensures var p: int, q: int := hash(a), hash(b);
      ShardIndex(hash, a) == ShardIndex(hash, b) <==> (p - q) % 128 == 0
  {
    var p: int, q: int := hash(a), hash(b);
    assert p - q == (p / 128 - q / 128) * 128 + (p % 128 - q % 128);
  }

  /** Every name sits in the shard its hash selects and in no other. */
  ghost predicate Placed(hash: string -> nat, shards: seq<Shard>) {
    && |shards| == SHARD_COUNT
    && forall i, key :: 0 <= i < |shards| && At(shards[i], key) != EMPTY_SLOT
        ==> ShardIndex(hash, key) == i
  }

  lemma PlacedCount(hash: string -> nat, shards: seq<Shard>)
    requires Placed(hash, shards)
    ensures |shards| == SHARD_COUNT
  {
  }

  /** The flat view of one database: what is held under each name. */
  ghost function View(hash: string -> nat, shards: seq<Shard>): imap<string, Slot>
    requires |shards| == SHARD_COUNT
  {
    imap key: string :: At(shards[ShardIndex(hash, key)], key)
  }

  ghost predicate ViewOk(view: imap<string, Slot>) {
    forall key: string :: key in view && SlotOk(view[key])
  }

  ghost predicate DiffersOnlyAt(a: Shard, b: Shard, key: string) {
    forall k :: k != key ==> At(a, k) == At(b, k)
  }

  /** Changing one shard at a name that belongs there changes the flat view at that name only. */
  lemma ViewOfWrite(hash: string -> nat, shards: seq<Shard>, key: string, s: Shard)
    requires Placed(hash, shards)
    requires DiffersOnlyAt(shards[ShardIndex(hash, key)], s, key)
    ensures Placed(hash, shards[ShardIndex(hash, key) := s])
    ensures View(hash, shards[ShardIndex(hash, key) := s]) == View(hash, shards)[key := At(s, key)]
  {
    var i := ShardIndex(hash, key);
    var after := shards[i := s];
    forall j, k | 0 <= j < |after| && At(after[j], k) != EMPTY_SLOT
      ensures ShardIndex(hash, k) == j
    {
      assert k != key ==> At(after[j], k) == At(shards[j], k);
    }
    forall k
      ensures View(hash, after)[k] == View(hash, shards)[key := At(s, key)][k]
    {
      assert k != key ==> At(after[ShardIndex(hash, k)], k) == At(shards[ShardIndex(hash, k)], k);
    }
  }

  lemma SameSlotsSameShard(a: Shard, b: Shard)
    requires forall key :: At(a, key) == At(b, key)
    ensures a == b
  {
    forall key
      ensures Find(a.store, key) == Find(b.store, key) && Find(a.hash, key) == Find(b.hash, key)
      ensures Find(a.lists, key) == Find(b.lists, key) && Find(a.sets, key) == Find(b.sets, key)
      ensures Find(a.zset, key) == Find(b.zset, key) && Find(a.zsetScore, key) == Find(b.zsetScore, key)
    {
      assert At(a, key) == At(b, key);
    }
    SameFinds(a.store, b.store);
    SameFinds(a.hash, b.hash);
    SameFinds(a.lists, b.lists);
    SameFinds(a.sets, b.sets);
    SameFinds(a.zset, b.zset);
    SameFinds(a.zsetScore, b.zsetScore);
  }

  lemma SameFinds<V>(a: map<string, V>, b: map<string, V>)
    requires forall key :: Find(a, key) == Find(b, key)
    ensures a == b
  {
    forall key
      ensures key in a <==> key in b
      ensures key in a ==> a[key] == b[key]
    {
      assert Find(a, key) == Find(b, key);
    }
  }

  /** The flat view loses nothing: with every name in its place it determines the shards. */
  lemma ViewDetermines(hash: string -> nat, a: seq<Shard>, b: seq<Shard>)
    requires Placed(hash, a) && Placed(hash, b)
    requires View(hash, a) == View(hash, b)
    ensures a == b
  {
    forall i | 0 <= i < SHARD_COUNT
      ensures a[i] == b[i]
    {
      forall key
        ensures At(a[i], key) == At(b[i], key)
      {
        if ShardIndex(hash, key) == i {
          assert View(hash, a)[key] == View(hash, b)[key];
        } else {
          assert At(a[i], key) == EMPTY_SLOT == At(b[i], key);
        }
      }
      SameSlotsSameShard(a[i], b[i]);
    }
  }

  // ---------- all databases ----------

  ghost function Views(hash: string -> nat, dbs: seq<seq<Shard>>): (views: seq<imap<string, Slot>>)
    requires forall d :: 0 <= d < |dbs| ==> |dbs[d]| == SHARD_COUNT
    ensures |views| == |dbs| && forall d :: 0 <= d < |dbs| ==> views[d] == View(hash, dbs[d])
  {
    seq(|dbs|, d requires 0 <= d < |dbs| => View(hash, dbs[d]))
  }

  ghost predicate DbsOk(hash: string -> nat, dbs: seq<seq<Shard>>) {
    && |dbs| == DB_COUNT
    && (forall d :: 0 <= d < |dbs| ==> Placed(hash, dbs[d]))
    && (forall d :: 0 <= d < |dbs| ==> ViewOk(View(hash, dbs[d])))
  }

  lemma DbsOfWrite(hash: string -> nat, dbs: seq<seq<Shard>>, db: nat, key: string, s: Shard)
    requires DbsOk(hash, dbs) && db < DB_COUNT
    requires DiffersOnlyAt(dbs[db][ShardIndex(hash, key)], s, key) && SlotOk(At(s, key))
    ensures var after := dbs[db := dbs[db][ShardIndex(hash, key) := s]];
            && DbsOk(hash, after)
            && Views(hash, after) == Views(hash, dbs)[db := Views(hash, dbs)[db][key := At(s, key)]]
  {
    hide View, ViewOk, At, SlotOk, DiffersOnlyAt;
    ViewOfWrite(hash, dbs[db], key, s);
    ViewOkUpdate(View(hash, dbs[db]), key, At(s, key));
  }

  lemma ViewOkUpdate(view: imap<string, Slot>, key: string, slot: Slot)
    requires ViewOk(view) && SlotOk(slot)
    ensures ViewOk(view[key := slot])
  {
  }

  // ---------- what the write commands do to the slots they name ----------

  /** The text form of scores: std::to_string and std::stod, which are not modelled. */
  datatype ScoreText = ScoreText(format: Score -> string, parse: string -> Option<Score>)

  const NANOS_PER_SECOND := 1_000_000_000
  const NANOS_PER_MILLI := 1_000_000

  /** The EX and PX options of SET: None is the error reply, Some(e) the expiry to store. */
  function SetExpiry(args: seq<string>, now: int): Option<Option<int>>
    requires |args| >= 3
  {
    if |args| < 5 then Some(None)
    else
      var unit := ToUpper(args[3]);
      if unit != "EX" && unit != "PX" then Some(None)
      else match Stoll(args[4])
        case None => None
        case Some(n) =>
          if n < 0 then None
          else Some(Some(now + n * (if unit == "EX" then NANOS_PER_SECOND else NANOS_PER_MILLI)))
  }

  function OrElse<T>(o: Option<T>, default: T): T {
    if o.Some? then o.value else default
  }

  function SetOf(xs: seq<string>): set<string> {
    set x | x in xs
  }

  /** The field and value pairs of HSET from position i on. */
  function WithFields(fields: map<string, string>, args: seq<string>, i: nat): map<string, string>
    decreases |args| - i
  {
    if i + 1 >= |args| then fields
    else WithFields(fields[args[i] := args[i + 1]], args, i + 2)
  }

  function HSetSlot(slot: Slot, args: seq<string>): Slot {
    slot.(hash := Some(WithFields(OrElse(slot.hash, map[]), args, 2)))
  }

  function HDelSlot(slot: Slot, fields: set<string>): Slot {
    if slot.hash.None? then slot
    else
      var left := slot.hash.value - fields;
      slot.(hash := if left == map[] then None else Some(left))
  }

  function RPushSlot(slot: Slot, values: seq<string>): Slot {
    slot.(list := Some(OrElse(slot.list, []) + values))
  }

  function SAddSlot(slot: Slot, members: set<string>): Slot {
    slot.(members := Some(OrElse(slot.members, {}) + members))
  }

  function SRemSlot(slot: Slot, members: set<string>): Slot {
    if slot.members.None? then slot
    else
      var left := slot.members.value - members;
      slot.(members := if left == {} then None else Some(left))
  }

  /** SMOVE on its two slots; a missing target set is created even when nothing moves. */
  function SMoveSlots(source: Slot, target: Slot, member: string): (Slot, Slot) {
    if source.members.None? then (source, target)
    else
      var into := OrElse(target.members, {});
      if member !in source.members.value then (source, target.(members := Some(into)))
      else (SRemSlot(source, {member}), target.(members := Some(into + {member})))
  }

  function ZPut(z: seq<ZKey>, scores: map<string, Score>, member: string, score: Score): seq<ZKey> {
    var without := if member in scores then Remove(z, ZKey(scores[member], member)) else z;
    Insert(without, ZKey(score, member))
  }

  lemma ZPutAgrees(z: seq<ZKey>, scores: map<string, Score>, member: string, score: Score)
    requires Agrees(z, scores)
    ensures Agrees(ZPut(z, scores, member, score), scores[member := score])
  {
    if member in scores {
      ReplaceAgrees(z, scores, member, score);
    } else {
      InsertAgrees(z, scores, member, score);
    }
  }

  /** The score and member pairs of ZADD from position i on, up to the first bad score. */
  function ZAddPairs(text: ScoreText, z: seq<ZKey>, scores: map<string, Score>,
                     args: seq<string>, i: nat): (seq<ZKey>, map<string, Score>)
    decreases |args| - i
  {
    if i + 1 >= |args| then (z, scores)
    else match text.parse(args[i])
      case None => (z, scores)
      case Some(score) =>
        ZAddPairs(text, ZPut(z, scores, args[i + 1], score), scores[args[i + 1] := score], args, i + 2)
  }

  function ZAddSlot(text: ScoreText, slot: Slot, args: seq<string>): Slot {
    var (z, scores) := ZAddPairs(text, OrElse(slot.zset, []), OrElse(slot.scores, map[]), args, 2);
    slot.(zset := Some(z), scores := Some(scores))
  }

  lemma {:induction false} ZAddPairsAgree(text: ScoreText, z: seq<ZKey>, scores: map<string, Score>,
                                          args: seq<string>, i: nat)
    requires Agrees(z, scores)
    ensures var (z', scores') := ZAddPairs(text, z, scores, args, i); Agrees(z', scores')
    decreases |args| - i
  {
    if i + 1 < |args| && text.parse(args[i]).Some? {
      var score := text.parse(args[i]).value;
      ZPutAgrees(z, scores, args[i + 1], score);
      ZAddPairsAgree(text, ZPut(z, scores, args[i + 1], score), scores[args[i + 1] := score], args, i + 2);
    }
  }

  function ZIncrSlot(slot: Slot, member: string, incr: Score): Slot {
    if slot.zset.None? || member !in OrElse(slot.scores, map[]) then slot
    else
      var score := slot.scores.value[member] + incr;
      slot.(zset := Some(ZPut(slot.zset.value, slot.scores.value, member, score)),
            scores := Some(slot.scores.value[member := score]))
  }

  /** Deletion of any set of members; an emptied sorted set disappears. */
  function ZDropSlot(slot: Slot, members: set<string>): Slot {
    if slot.zset.None? || slot.scores.None? then slot
    else
      var left := slot.scores.value - members;
      if left == map[] then slot.(zset := None, scores := None)
      else slot.(zset := Some(Without(slot.zset.value, members)), scores := Some(left))
  }

  function InRange(scores: map<string, Score>, lo: Score, hi: Score): set<string> {
    set m | m in scores && lo <= scores[m] <= hi
  }

  // ---------- renaming ----------

  datatype Kind = Strings | Hashes | Lists | Sets | ZSets

  /** The order in which RENAME looks for the name. */
  function FirstKind(slot: Slot): Option<Kind> {
    if slot.store.Some? then Some(Strings)
    else if slot.hash.Some? then Some(Hashes)
    else if slot.list.Some? then Some(Lists)
    else if slot.members.Some? then Some(Sets)
    else if slot.zset.Some? then Some(ZSets)
    else None
  }

  function EraseKind(slot: Slot, kind: Kind): Slot {
    match kind
    case Strings => slot.(store := None)
    case Hashes => slot.(hash := None)
    case Lists => slot.(list := None)
    case Sets => slot.(members := None)
    case ZSets => slot.(zset := None, scores := None)
  }

  function EraseFirst(slot: Slot): Slot {
    match FirstKind(slot)
    case None => slot
    case Some(kind) => EraseKind(slot, kind)
  }

  /** Assignment through operator[] overwrites; emplace keeps what is there. */
  function Emplace<T>(there: Option<T>, new_: Option<T>): Option<T> {
    if there.Some? then there else new_
  }

  function MoveKind(kind: Kind, source: Slot, target: Slot, sameShard: bool): Slot {
    match kind
    case Strings => target.(store := source.store)
    case Hashes => target.(hash := source.hash)
    case Lists => target.(list := source.list)
    case Sets => target.(members := source.members)
    case ZSets =>
      if sameShard then target.(zset := source.zset, scores := source.scores)
      else target.(zset := Emplace(target.zset, source.zset), scores := Emplace(target.scores, source.scores))
  }

  /** RENAME on its two slots. */
  function RenameSlots(source: Slot, target: Slot, sameShard: bool): (Slot, Slot) {
    match FirstKind(source)
    case None => (source, target)
    case Some(kind) =>
      (EraseKind(source, kind), MoveKind(kind, source, EraseFirst(target), sameShard))
  }

  function RenameNxSlots(source: Slot, target: Slot, sameShard: bool): (Slot, Slot) {
    match FirstKind(source)
    case None => (source, target)
    case Some(kind) =>
      if FirstKind(target).Some? then (source, target)
      else (EraseKind(source, kind), MoveKind(kind, source, target, sameShard))
  }

  // ---------- references that do not survive an insertion ----------

  predicate Absent(slot: Slot, kind: Kind) {
    match kind
    case Strings => slot.store.None?
    case Hashes => slot.hash.None?
    case Lists => slot.list.None?
    case Sets => slot.members.None?
    case ZSets => slot.zset.None?
  }

  /** Inserting an absent name may grow a flat_hash_map, which moves its elements. A reference
      to another element of the same table, taken before and used after, is then stale. */
  predicate Stale(sameShard: bool, absent: bool, grows: bool) {
    sameShard && absent && grows
  }

  /** The moved value is handed over by reference, except that of a hash, which is copied first. */
  predicate MoveStale(kind: Kind, target: Slot, sameShard: bool, grows: bool) {
    kind != Hashes && Stale(sameShard, Absent(target, kind), grows)
  }

  predicate RenameStale(source: Slot, target: Slot, sameShard: bool, grows: bool) {
    match FirstKind(source)
    case None => false
    case Some(kind) => MoveStale(kind, EraseFirst(target), sameShard, grows)
  }

  predicate RenameNxStale(source: Slot, target: Slot, sameShard: bool, grows: bool) {
    match FirstKind(source)
    case None => false
    case Some(kind) => FirstKind(target).None? && MoveStale(kind, target, sameShard, grows)
  }

  /** The iterator to the source set is used after the target set has been created. */
  predicate SMoveStale(source: Slot, target: Slot, sameShard: bool, grows: bool) {
    source.members.Some? && Stale(sameShard, target.members.None?, grows)
  }

  /** None: a stale reference is used, after which nothing is known. */
  function RenameOutcome(source: Slot, target: Slot, sameShard: bool, grows: bool): Option<(Slot, Slot)> {
    if RenameStale(source, target, sameShard, grows) then None else Some(RenameSlots(source, target, sameShard))
  }

  function RenameNxOutcome(source: Slot, target: Slot, sameShard: bool, grows: bool): Option<(Slot, Slot)> {
    if RenameNxStale(source, target, sameShard, grows) then None else Some(RenameNxSlots(source, target, sameShard))
  }

  function SMoveOutcome(source: Slot, target: Slot, member: string, sameShard: bool, grows: bool): Option<(Slot, Slot)> {
    if SMoveStale(source, target, sameShard, grows) then None else Some(SMoveSlots(source, target, member))
  }

  predicate OneKind(slot: Slot) {
    EraseFirst(slot) == EMPTY_SLOT
  }

  /** The target name still holds a sorted set after its first type has been erased. */
  predicate ZSetClash(source: Slot, target: Slot) {
    FirstKind(source) == Some(ZSets) && EraseFirst(target).zset.Some?
  }

  lemma RenameSlotsAgreeIff(source: Slot, target: Slot)
    requires SlotOk(source) && SlotOk(target)
    ensures RenameSlots(source, target, true) == RenameSlots(source, target, false)
       <==> (ZSetClash(source, target) ==> source.scores == target.scores)
  {
    if ZSetClash(source, target) {
      assert EraseFirst(target).zset == target.zset && EraseFirst(target).scores == target.scores;
      if source.scores == target.scores {
        AgreesUnique(source.zset.value, target.zset.value, source.scores.value);
      }
    }
  }

  /** RENAME does the same thing whether or not the two names share a shard, exactly unless a
      reference goes stale in the shared shard, or a sorted set meets a different one that
      survived under the new name. */
  lemma RenameBranchesAgreeIff(source: Slot, target: Slot, grows: bool)
    requires SlotOk(source) && SlotOk(target)
    ensures RenameOutcome(source, target, true, grows) == RenameOutcome(source, target, false, grows)
       <==> && !RenameStale(source, target, true, grows)
            && (ZSetClash(source, target) ==> source.scores == target.scores)
  {
    hide RenameSlots, SlotOk, ZSetClash;
    RenameSlotsAgreeIff(source, target);
  }

  lemma RenameNxSlotsAgree(source: Slot, target: Slot)
    requires SlotOk(source) && SlotOk(target)
    ensures RenameNxSlots(source, target, true) == RenameNxSlots(source, target, false)
  {
  }

  lemma RenameNxBranchesAgreeIff(source: Slot, target: Slot, grows: bool)
    requires SlotOk(source) && SlotOk(target)
    ensures RenameNxOutcome(source, target, true, grows) == RenameNxOutcome(source, target, false, grows)
       <==> !RenameNxStale(source, target, true, grows)
  {
    hide RenameNxSlots, SlotOk;
    RenameNxSlotsAgree(source, target);
  }

  lemma SMoveBranchesAgreeIff(source: Slot, target: Slot, member: string, grows: bool)
    ensures SMoveOutcome(source, target, member, true, grows) == SMoveOutcome(source, target, member, false, grows)
       <==> !SMoveStale(source, target, true, grows)
  {
  }

  lemma RenameSlotsMoveIff(source: Slot, target: Slot, sameShard: bool)
    requires SlotOk(source) && SlotOk(target) && FirstKind(source).Some?
    ensures RenameSlots(source, target, sameShard) == (EMPTY_SLOT, source)
       <==> && OneKind(source)
            && EraseKind(EraseFirst(target), FirstKind(source).value) == EMPTY_SLOT
            && (!sameShard && ZSetClash(source, target) ==> source.scores == target.scores)
  {
    if ZSetClash(source, target) && source.scores == target.scores {
      AgreesUnique(source.zset.value, target.zset.value, source.scores.value);
    }
  }

  /** Exactly when RENAME leaves all of the old name's data, and nothing else, under the new one. */
  lemma RenameMovesEverythingIff(source: Slot, target: Slot, sameShard: bool, grows: bool)
    requires SlotOk(source) && SlotOk(target) && FirstKind(source).Some?
    ensures RenameOutcome(source, target, sameShard, grows) == Some((EMPTY_SLOT, source))
       <==> && !RenameStale(source, target, sameShard, grows)
            && OneKind(source)
            && EraseKind(EraseFirst(target), FirstKind(source).value) == EMPTY_SLOT
            && (!sameShard && ZSetClash(source, target) ==> source.scores == target.scores)
  {
    RenameSlotsMoveIff(source, target, sameShard);
    hide RenameSlots, SlotOk, ZSetClash, OneKind, EraseKind, EraseFirst;
  }

  /** When each name is held by at most one type, it does so exactly unless the names share a
      shard, the value is not a hash, and the table grows. */
  lemma RenameMovesEverything(source: Slot, target: Slot, sameShard: bool, grows: bool)
    requires SlotOk(source) && SlotOk(target) && FirstKind(source).Some?
    requires OneKind(source) && OneKind(target)
    ensures RenameOutcome(source, target, sameShard, grows)
         == if sameShard && grows && FirstKind(source) != Some(Hashes) then None else Some((EMPTY_SLOT, source))
  {
    RenameMovesEverythingIff(source, target, sameShard, grows);
  }

  /** A string renamed to a free name in its own shard: whether it arrives or the program goes
      astray depends on the table's growth alone. The same for a member moved to a new set. */
  lemma GrowthDecides(text: string, member: string)
    ensures var source := EMPTY_SLOT.(store := Some(StoreData(text, None)));
      && RenameOutcome(source, EMPTY_SLOT, true, true) == RenameNxOutcome(source, EMPTY_SLOT, true, true) == None
      && RenameOutcome(source, EMPTY_SLOT, true, false) == Some((EMPTY_SLOT, source))
      && RenameOutcome(source, EMPTY_SLOT, false, true) == Some((EMPTY_SLOT, source))
    ensures var source := EMPTY_SLOT.(members := Some({member}));
      && SMoveOutcome(source, EMPTY_SLOT, member, true, true) == None
      && SMoveOutcome(source, EMPTY_SLOT, member, true, false) == Some((EMPTY_SLOT, source))
  {
    assert {} + {member} == {member} && {member} - {member} == {};
  }

  /** A sorted set renamed over a name that is both a string and a sorted set: across
      shards its data is lost, within one shard it arrives. */
  lemma RenameCanLoseData()
    ensures exists source, target ::
      && SlotOk(source) && SlotOk(target) && source.scores.Some?
      && RenameSlots(source, target, true).1.scores == source.scores
      && RenameSlots(source, target, false).0 == EMPTY_SLOT
      && RenameSlots(source, target, false).1.scores != source.scores
  {
    var source := EMPTY_SLOT.(zset := Some([ZKey(1, "m")]), scores := Some(map["m" := 1]));
    var target := Slot(Some(StoreData("v", None)), None, None, None, Some([]), Some(map[]));
    assert SlotOk(source) && SlotOk(target);
    assert "m" in source.scores.value;
    assert RenameSlots(source, target, true).1.scores == source.scores;
    assert RenameSlots(source, target, false).0 == EMPTY_SLOT;
    assert RenameSlots(source, target, false).1.scores != source.scores;
  }
}
