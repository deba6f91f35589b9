/** SCAN: an incremental walk over all shards and types, one bounded batch per call. */
module Scan {
  import opened Text
  import opened Keyspace
  import opened Tally

  const SHARDS: nat := SHARD_COUNT
  const KINDS: nat := 5

  /** The names of one database in iteration order: per shard, per type. */
  type Order = db: seq<seq<seq<string>>> |
    |db| == SHARDS && forall i :: 0 <= i < SHARDS ==> |db[i]| == KINDS
    witness seq(SHARDS, _ => seq(KINDS, _ => []))

  datatype ScanCursor = ScanCursor(shardIndex: int, dataType: int, offset: nat, completed: bool)

  const FRESH := ScanCursor(0, 0, 0, false)

  // ---------- the plain meaning: flatten and filter ----------

  datatype Entry = Entry(kind: int, key: string)

  function Tagged(kind: int, names: seq<string>): (r: seq<Entry>)
    ensures |r| == |names| && forall i :: 0 <= i < |r| ==> r[i] == Entry(kind, names[i])
  {
    seq(|names|, i requires 0 <= i < |names| => Entry(kind, names[i]))
  }

  function From<T>(s: seq<T>, n: nat): seq<T> {
    if n <= |s| then s[n..] else []
  }

  /** The entries of one shard from a type and an offset in it on. */
  function ShardRest(shard: seq<seq<string>>, kind: int, offset: nat): seq<Entry>
    requires |shard| == KINDS
    decreases KINDS - kind
  {
    if kind >= KINDS then []
    else (if kind < 0 then [] else Tagged(kind, From(shard[kind], offset))) + ShardRest(shard, kind + 1, 0)
  }

  function DbRest(db: Order, i: nat, kind: int, offset: nat): seq<Entry>
    decreases SHARDS - i
  {
    if i >= SHARDS then [] else ShardRest(db[i], kind, offset) + DbRest(db, i + 1, 0, 0)
  }

  /** A cursor that does not lead outside the shards: the client can send any shard index. */
  predicate Walks(c: ScanCursor) {
    c.completed || c.shardIndex >= 0
  }

  /** Everything a cursor has still to visit. */
  function Remaining(db: Order, c: ScanCursor): seq<Entry>
    requires Walks(c)
  {
    if c.completed then [] else DbRest(db, c.shardIndex, c.dataType, c.offset)
  }

  function AllEntries(db: Order): seq<Entry> {
    DbRest(db, 0, 0, 0)
  }

  function Matching(es: seq<Entry>, match_: string -> bool): seq<Entry> {
    if es == [] then []
    else (if match_(es[0].key) then [es[0]] else []) + Matching(es[1..], match_)
  }

  function Names(es: seq<Entry>): (r: seq<string>)
    ensures |r| == |es| && forall i :: 0 <= i < |r| ==> r[i] == es[i].key
  {
    seq(|es|, i requires 0 <= i < |es| => es[i].key)
  }

  lemma {:induction false} MatchingConcat(a: seq<Entry>, b: seq<Entry>, match_: string -> bool)
    ensures Matching(a + b, match_) == Matching(a, match_) + Matching(b, match_)
  {
    if a == [] {
      assert a + b == b;
    } else {
      MatchingConcat(a[1..], b, match_);
      assert (a + b)[1..] == a[1..] + b && (a + b)[0] == a[0];
      var first := if match_(a[0].key) then [a[0]] else [];
      assert first + (Matching(a[1..], match_) + Matching(b, match_))
          == (first + Matching(a[1..], match_)) + Matching(b, match_);
    }
  }

  lemma {:induction false} MatchingAll(es: seq<Entry>, match_: string -> bool)
    requires forall k :: match_(k)
    ensures Matching(es, match_) == es
  {
    if es != [] {
      MatchingAll(es[1..], match_);
      assert es == [es[0]] + es[1..];
    }
  }

  lemma {:induction false} MatchingShrinks(es: seq<Entry>, match_: string -> bool)
    ensures |Matching(es, match_)| <= |es|
  {
    if es != [] {
      MatchingShrinks(es[1..], match_);
    }
  }

  lemma MatchingStep(kind: int, names: seq<string>, a: nat, b: nat, match_: string -> bool)
    requires a <= b < |names|
    ensures Matching(Tagged(kind, names[a..b + 1]), match_)
         == Matching(Tagged(kind, names[a..b]), match_) + (if match_(names[b]) then [Entry(kind, names[b])] else [])
  {
    var last := [Entry(kind, names[b])];
    assert Tagged(kind, names[a..b + 1]) == Tagged(kind, names[a..b]) + last;
    MatchingConcat(Tagged(kind, names[a..b]), last, match_);
    assert Matching(last, match_) == (if match_(names[b]) then last else []) + Matching([], match_);
  }

  // ---------- the walk ----------

  /** One container, from an offset, until it ends or the batch is full. */
  method ScanContainer(ghost kind: int, container: seq<string>, match_: string -> bool, startOffset: nat, count: int,
                       keys0: seq<string>)
    returns (full: bool, keys: seq<string>, offset: nat, ghost found: seq<Entry>)
    requires |keys0| < count
    ensures keys == keys0 + Names(found) && |keys| <= count
    ensures full <==> |keys| == count
    ensures full ==> startOffset < offset <= |container|
    ensures full ==> found == Matching(Tagged(kind, container[startOffset..offset]), match_)
    ensures !full ==> found == Matching(Tagged(kind, From(container, startOffset)), match_)
  {
    if startOffset >= |container| {
      return false, keys0, |container|, [];
    }
    keys, offset, found := keys0, startOffset, [];
    assert container[offset..offset] == [];
    while offset < |container| && |keys| < count
      invariant startOffset <= offset <= |container| && |keys| <= count
      invariant keys == keys0 + Names(found)
      invariant found == Matching(Tagged(kind, container[startOffset..offset]), match_)
    {
      MatchingStep(kind, container, startOffset, offset, match_);
      if match_(container[offset]) {
        keys := keys + [container[offset]];
        found := found + [Entry(kind, container[offset])];
      }
      offset := offset + 1;
    }
    full := |keys| >= count;
    assert offset == |container| ==> container[startOffset..offset] == From(container, startOffset);
  }

  function Clamp(count: int): (r: int)
    ensures 1 <= r <= 1000
  {
    if count <= 0 then 10 else if count > 1000 then 1000 else count
  }

  /** Position order of cursors. */
  predicate Before(a: ScanCursor, b: ScanCursor) {
    || a.shardIndex < b.shardIndex
    || (a.shardIndex == b.shardIndex && a.dataType < b.dataType)
    || (a.shardIndex == b.shardIndex && a.dataType == b.dataType && a.offset < b.offset)
  }

  ghost predicate Covered(whole: seq<Entry>, found: seq<Entry>, rest: seq<Entry>) {
    whole == found + rest
  }

  lemma CoveredStep(whole: seq<Entry>, found: seq<Entry>, more: seq<Entry>, rest: seq<Entry>)
    requires Covered(whole, found, more + rest)
    ensures Covered(whole, found + more, rest)
  {
  }

  lemma CoveredEnds(whole: seq<Entry>)
    ensures Covered(whole, [], whole) && Covered(whole, whole, [])
  {
  }

  lemma NamesConcat(keys: seq<string>, a: seq<Entry>, b: seq<Entry>)
    ensures keys + Names(a) + Names(b) == keys + Names(a + b)
    ensures Names(a) + Names(b) == Names(a + b)
  {
  }

  lemma TaggedSplit(kind: int, names: seq<string>, offset: nat, next: nat)
    requires offset <= next <= |names|
    ensures Tagged(kind, names[offset..]) == Tagged(kind, names[offset..next]) + Tagged(kind, names[next..])
  {
  }

  /** The container was left with the batch full. */
  lemma ContainerFull(shard: seq<seq<string>>, kind: int, offset: nat, next: nat, match_: string -> bool)
    requires |shard| == KINDS && 0 <= kind < KINDS && offset <= next <= |shard[kind]|
    ensures Matching(ShardRest(shard, kind, offset), match_)
         == Matching(Tagged(kind, shard[kind][offset..next]), match_) + Matching(ShardRest(shard, kind, next), match_)
  {
    hide Matching;
    var here, rest := Tagged(kind, shard[kind][offset..next]), ShardRest(shard, kind + 1, 0);
    TaggedSplit(kind, shard[kind], offset, next);
    assert here + Tagged(kind, shard[kind][next..]) + rest == here + (Tagged(kind, shard[kind][next..]) + rest);
    MatchingConcat(here, ShardRest(shard, kind, next), match_);
  }

  /** The container was walked to its end. */
  lemma ContainerDone(shard: seq<seq<string>>, kind: int, offset: nat, match_: string -> bool)
    requires |shard| == KINDS && kind < KINDS
    ensures Matching(ShardRest(shard, kind, offset), match_)
         == (if kind < 0 then [] else Matching(Tagged(kind, From(shard[kind], offset)), match_))
            + Matching(ShardRest(shard, kind + 1, 0), match_)
  {
    var here := if kind < 0 then [] else Tagged(kind, From(shard[kind], offset));
    MatchingConcat(here, ShardRest(shard, kind + 1, 0), match_);
  }

  lemma ShardDone(shard: seq<seq<string>>, kind: int, offset: nat, match_: string -> bool)
    requires |shard| == KINDS && kind >= KINDS
    ensures Matching(ShardRest(shard, kind, offset), match_) == []
  {
  }

  /** One shard, from a type and offset on. */
  method ScanShard(shard: seq<seq<string>>, startType: int, startOffset: nat, match_: string -> bool, count: int,
                   keys0: seq<string>)
    returns (full: bool, keys: seq<string>, dataType: int, offset: nat, ghost found: seq<Entry>)
    requires |shard| == KINDS && |keys0| < count
    ensures keys == keys0 + Names(found) && |keys| <= count
    ensures full <==> |keys| == count
    ensures full ==> Covered(Matching(ShardRest(shard, startType, startOffset), match_), found,
                             Matching(ShardRest(shard, dataType, offset), match_))
    ensures full ==> 0 <= dataType < KINDS && startType <= dataType && (startType == dataType ==> startOffset < offset)
    ensures full ==> 0 < offset <= |shard[dataType]|
    ensures !full ==> found == Matching(ShardRest(shard, startType, startOffset), match_)
  {
    hide Matching, ShardRest, Tagged, From, Covered;
    ghost var whole := Matching(ShardRest(shard, startType, startOffset), match_);
    CoveredEnds(whole);
    NamesConcat(keys0, [], []);
    keys, dataType, offset, found, full := keys0, startType, startOffset, [], false;
    while dataType < KINDS
      invariant startType <= dataType && !full
      invariant dataType == startType ==> offset == startOffset
      invariant keys == keys0 + Names(found) && |keys| < count
      invariant Covered(whole, found, Matching(ShardRest(shard, dataType, offset), match_))
      decreases KINDS - dataType
    {
      ghost var start, more := offset, [];
      if dataType >= 0 {
        full, keys, offset, more := ScanContainer(dataType, shard[dataType], match_, offset, count, keys);
        NamesConcat(keys0, found, more);
      }
      if full {
        ContainerFull(shard, dataType, start, offset, match_);
        CoveredStep(whole, found, more, Matching(ShardRest(shard, dataType, offset), match_));
        found := found + more;
        return;
      }
      ContainerDone(shard, dataType, start, match_);
      CoveredStep(whole, found, more, Matching(ShardRest(shard, dataType + 1, 0), match_));
      assert more == [] ==> found + more == found;
      found := found + more;
      dataType, offset := dataType + 1, 0;
    }
    ShardDone(shard, dataType, offset, match_);
    CoveredNothing(whole, found);
  }

  lemma CoveredNothing(whole: seq<Entry>, found: seq<Entry>)
    requires Covered(whole, found, [])
    ensures whole == found
  {
  }

  lemma NextShard(db: Order, i: nat, kind: int, offset: nat, match_: string -> bool)
    requires i < SHARDS
    ensures Matching(DbRest(db, i, kind, offset), match_)
         == Matching(ShardRest(db[i], kind, offset), match_) + Matching(DbRest(db, i + 1, 0, 0), match_)
  {
    MatchingConcat(ShardRest(db[i], kind, offset), DbRest(db, i + 1, 0, 0), match_);
  }

  lemma AllShardsDone(db: Order, i: nat, kind: int, offset: nat, match_: string -> bool)
    requires i >= SHARDS
    ensures Matching(DbRest(db, i, kind, offset), match_) == []
  {
  }

  /** ServerData::scanKeys. A call that does not finish returns exactly the clamped count
      and moves the cursor forward; nothing is skipped and nothing is visited twice. */
  method ScanKeys(db: Order, cursor: ScanCursor, match_: string -> bool, count: int)
    returns (done: bool, keys: seq<string>, cursor': ScanCursor, ghost found: seq<Entry>)
    requires Walks(cursor)
    ensures Walks(cursor') && keys == Names(found)
    ensures Covered(Matching(Remaining(db, cursor), match_), found, Matching(Remaining(db, cursor'), match_))
    ensures done == cursor'.completed
    ensures !done ==> |keys| == Clamp(count) && Before(cursor, cursor') && !cursor.completed
    ensures done ==> |keys| < Clamp(count)
    ensures !done ==> cursor'.shardIndex < SHARDS && 0 <= cursor'.dataType < KINDS
    ensures !done ==> 0 < cursor'.offset <= |db[cursor'.shardIndex][cursor'.dataType]|
  {
    hide Matching, ShardRest, DbRest, Covered;
    ghost var whole := Matching(Remaining(db, cursor), match_);
    CoveredEnds(whole);
    NamesConcat([], [], []);
    if cursor.completed {
      return true, [], cursor, [];
    }
    var limit := Clamp(count);
    cursor', keys, found := cursor, [], [];
    while cursor'.shardIndex < SHARDS
      invariant cursor'.shardIndex >= cursor.shardIndex && !cursor'.completed
      invariant cursor' == cursor || cursor'.shardIndex > cursor.shardIndex
      invariant keys == Names(found) && |keys| < limit
      invariant Covered(whole, found, Matching(Remaining(db, cursor'), match_))
      decreases SHARDS - cursor'.shardIndex
    {
      var i := cursor'.shardIndex;
      var full, dataType, offset;
      ghost var more;
      NextShard(db, i, cursor'.dataType, cursor'.offset, match_);
      ghost var here := Matching(ShardRest(db[i], cursor'.dataType, cursor'.offset), match_);
      ghost var later := Matching(DbRest(db, i + 1, 0, 0), match_);
      full, keys, dataType, offset, more := ScanShard(db[i], cursor'.dataType, cursor'.offset, match_, limit, keys);
      NamesConcat([], found, more);
      if full {
        NextShard(db, i, dataType, offset, match_);
        CoveredInside(whole, found, here, more, Matching(ShardRest(db[i], dataType, offset), match_), later);
        found := found + more;
        cursor' := ScanCursor(i, dataType, offset, false);
        return false, keys, cursor', found;
      }
      CoveredStep(whole, found, more, later);
      found := found + more;
      cursor' := ScanCursor(i + 1, 0, 0, false);
    }
    AllShardsDone(db, cursor'.shardIndex, cursor'.dataType, cursor'.offset, match_);
    NothingRemains(db, cursor'.(completed := true), match_);
    cursor' := cursor'.(completed := true);
    return true, keys, cursor', found;
  }

  lemma NothingRemains(db: Order, c: ScanCursor, match_: string -> bool)
    requires c.completed
    ensures Matching(Remaining(db, c), match_) == []
  {
  }

  lemma CoveredInside(whole: seq<Entry>, found: seq<Entry>, here: seq<Entry>, more: seq<Entry>, rest: seq<Entry>, later: seq<Entry>)
    requires Covered(whole, found, here + later) && Covered(here, more, rest)
    ensures Covered(whole, found + more, rest + later)
  {
    assert found + (more + rest + later) == found + more + (rest + later);
  }

  // ---------- whole scans ----------

  /** Calls with any COUNT each, from a fresh cursor until one reports the end, return the
      matching names of all shards and types, in order. */
  method ScanAll(db: Order, match_: string -> bool, counts: nat -> int)
    returns (all: seq<string>)
    ensures all == Names(Matching(AllEntries(db), match_))
  {
    hide Matching, DbRest, Covered;
    var cursor, done, call := FRESH, false, 0;
    ghost var whole := Matching(AllEntries(db), match_);
    ghost var found: seq<Entry> := [];
    all := [];
    CoveredEnds(whole);
    NamesConcat([], [], []);
    while !done
      invariant Walks(cursor) && done == cursor.completed
      invariant all == Names(found) && Covered(whole, found, Matching(Remaining(db, cursor), match_))
      decreases !done, |Matching(Remaining(db, cursor), match_)|
    {
      var keys;
      ghost var more;
      ghost var before := Matching(Remaining(db, cursor), match_);
      done, keys, cursor, more := ScanKeys(db, cursor, match_, counts(call));
      CoveredSplit(before, more, Matching(Remaining(db, cursor), match_));
      CoveredStep(whole, found, more, Matching(Remaining(db, cursor), match_));
      NamesConcat([], found, more);
      all, found, call := all + keys, found + more, call + 1;
    }
    NothingRemains(db, cursor, match_);
    CoveredNothing(whole, found);
  }

  lemma CoveredSplit(whole: seq<Entry>, found: seq<Entry>, rest: seq<Entry>)
    requires Covered(whole, found, rest)
    ensures whole == found + rest && |whole| == |found| + |rest|
  {
  }

  /** ServerData::getTotalKeys. */
  method TotalKeys(db: Order) returns (total: nat)
    ensures total == |AllEntries(db)|
  {
    hide DbRest;
    NothingLeft(db);
    total := 0;
    var i := 0;
    while i < SHARDS
      invariant 0 <= i <= SHARDS
      invariant total + |DbRest(db, i, 0, 0)| == |AllEntries(db)|
    {
      DbSize(db, i);
      total := total + |db[i][0]| + |db[i][1]| + |db[i][2]| + |db[i][3]| + |db[i][4]|;
      i := i + 1;
    }
  }

  lemma DbSize(db: Order, i: nat)
    requires i < SHARDS
    ensures |DbRest(db, i, 0, 0)| == |db[i][0]| + |db[i][1]| + |db[i][2]| + |db[i][3]| + |db[i][4]| + |DbRest(db, i + 1, 0, 0)|
  {
    ShardSize(db[i]);
    hide ShardRest;
  }

  lemma NothingLeft(db: Order)
    ensures DbRest(db, SHARDS, 0, 0) == []
  {
  }

  lemma ShardSize(shard: seq<seq<string>>)
    requires |shard| == KINDS
    ensures |ShardRest(shard, 0, 0)| == |shard[0]| + |shard[1]| + |shard[2]| + |shard[3]| + |shard[4]|
  {
    assert |ShardRest(shard, 4, 0)| == |shard[4]| + |ShardRest(shard, 5, 0)|;
    assert |ShardRest(shard, 3, 0)| == |shard[3]| + |ShardRest(shard, 4, 0)|;
    assert |ShardRest(shard, 2, 0)| == |shard[2]| + |ShardRest(shard, 3, 0)|;
    assert |ShardRest(shard, 1, 0)| == |shard[1]| + |ShardRest(shard, 2, 0)|;
  }

  // ---------- what the entries are: every name of every type, once ----------

  function ScannedNames(s: Shard, kind: int): set<string> {
    match kind
    case 0 => s.store.Keys
    case 1 => s.hash.Keys
    case 2 => s.lists.Keys
    case 3 => s.sets.Keys
    case 4 => s.zset.Keys
    case _ => {}
  }

  /** db lists the names of the shards: each container once through, in some order. */
  ghost predicate Lists(shards: seq<Shard>, db: Order) {
    && |shards| == SHARDS
    && forall i, kind :: 0 <= i < SHARDS && 0 <= kind < KINDS ==>
        && Distinct(db[i][kind])
        && (forall k :: k in db[i][kind] <==> k in ScannedNames(shards[i], kind))
  }

  ghost predicate HeldIn(shards: seq<Shard>, i: nat, e: Entry)
    requires |shards| == SHARDS
  {
    i < SHARDS && 0 <= e.kind < KINDS && e.key in ScannedNames(shards[i], e.kind)
  }

  lemma {:induction false} ShardEntries(shards: seq<Shard>, db: Order, i: nat, kind: int)
    requires Lists(shards, db) && i < SHARDS && 0 <= kind <= KINDS
    ensures Distinct(ShardRest(db[i], kind, 0))
    ensures forall e :: e in ShardRest(db[i], kind, 0) <==> HeldIn(shards, i, e) && e.kind >= kind
    decreases KINDS - kind
  {
    if kind < KINDS {
      ShardEntries(shards, db, i, kind + 1);
      var here, rest := Tagged(kind, db[i][kind]), ShardRest(db[i], kind + 1, 0);
      assert From(db[i][kind], 0) == db[i][kind];
      assert ShardRest(db[i], kind, 0) == here + rest;
      assert Distinct(db[i][kind]);
      forall e
        ensures e in here <==> HeldIn(shards, i, e) && e.kind == kind
      {
        if HeldIn(shards, i, e) && e.kind == kind {
          assert e.key in db[i][kind];
          var n :| 0 <= n < |db[i][kind]| && db[i][kind][n] == e.key;
          assert here[n] == e;
        }
        if e in here {
          var n :| 0 <= n < |here| && here[n] == e;
          assert db[i][kind][n] in db[i][kind];
        }
      }
      hide ShardRest, HeldIn;
      Disjoint(here, rest);
    }
  }

  lemma Disjoint(a: seq<Entry>, b: seq<Entry>)
    requires Distinct(a) && Distinct(b) && forall e :: e in a ==> e !in b
    ensures Distinct(a + b) && forall e :: e in a + b <==> e in a || e in b
  {
    var s := a + b;
    forall i, j | 0 <= i < j < |s|
      ensures s[i] != s[j]
    {
      if i < |a| <= j {
        assert s[i] in a && s[j] in b;
      }
    }
  }

  ghost predicate HeldFrom(shards: seq<Shard>, i: nat, e: Entry)
    requires |shards| == SHARDS
  {
    exists j :: i <= j < SHARDS && HeldIn(shards, j, e)
  }

  lemma HeldFromStep(shards: seq<Shard>, i: nat, e: Entry)
    requires |shards| == SHARDS && i < SHARDS
    ensures HeldFrom(shards, i, e) <==> HeldIn(shards, i, e) || HeldFrom(shards, i + 1, e)
  {
    hide HeldIn;
  }

  lemma {:induction false} DbEntries(hash: string -> nat, shards: seq<Shard>, db: Order, i: nat)
    requires Placed(hash, shards) && Lists(shards, db) && i <= SHARDS
    ensures Distinct(DbRest(db, i, 0, 0))
    ensures forall e :: e in DbRest(db, i, 0, 0) <==> HeldFrom(shards, i, e)
    decreases SHARDS - i
  {
    if i < SHARDS {
      DbEntries(hash, shards, db, i + 1);
      ShardEntries(shards, db, i, 0);
      var here, rest := ShardRest(db[i], 0, 0), DbRest(db, i + 1, 0, 0);
      assert DbRest(db, i, 0, 0) == here + rest;
      forall e | e in here
        ensures e !in rest
      {
        OneShard(hash, shards, i, e);
        hide HeldIn, ShardRest, DbRest, Lists, Placed;
      }
      hide ShardRest, DbRest, HeldIn, HeldFrom, Lists, Placed, Distinct;
      Disjoint(here, rest);
      forall e
        ensures e in here || e in rest <==> HeldFrom(shards, i, e)
      {
        HeldFromStep(shards, i, e);
      }
    }
  }

  lemma HeldInItsShard(hash: string -> nat, shards: seq<Shard>, i: nat, e: Entry)
    requires Placed(hash, shards) && HeldIn(shards, i, e)
    ensures i == ShardIndex(hash, e.key)
  {
    assert At(shards[i], e.key) != EMPTY_SLOT;
  }

  lemma OneShard(hash: string -> nat, shards: seq<Shard>, i: nat, e: Entry)
    requires Placed(hash, shards) && HeldIn(shards, i, e)
    ensures forall j: nat :: HeldIn(shards, j, e) ==> j == i
  {
    HeldInItsShard(hash, shards, i, e);
    forall j: nat | HeldIn(shards, j, e)
      ensures j == i
    {
      HeldInItsShard(hash, shards, j, e);
    }
  }

  /** The entries of a database: every (type, name) held in it, each exactly once. */
  lemma EntriesOnce(hash: string -> nat, shards: seq<Shard>, db: Order)
    requires Placed(hash, shards) && Lists(shards, db)
    ensures Distinct(AllEntries(db))
    ensures forall e :: e in AllEntries(db) <==> HeldIn(shards, ShardIndex(hash, e.key), e)
  {
    DbEntries(hash, shards, db, 0);
    hide DbRest, Lists, HeldFrom, HeldIn, Placed, ShardIndex, Distinct;
    forall e
      ensures HeldFrom(shards, 0, e) <==> HeldIn(shards, ShardIndex(hash, e.key), e)
    {
      HeldSomewhere(hash, shards, e);
    }
  }

  lemma HeldSomewhere(hash: string -> nat, shards: seq<Shard>, e: Entry)
    requires Placed(hash, shards)
    ensures HeldFrom(shards, 0, e) <==> HeldIn(shards, ShardIndex(hash, e.key), e)
  {
    if HeldFrom(shards, 0, e) {
      var j :| 0 <= j < SHARDS && HeldIn(shards, j, e);
      HeldInItsShard(hash, shards, j, e);
    }
  }

  // ---------- patterns ----------

  predicate OccursAt(s: string, t: string, i: int) {
    0 <= i <= |s| - |t| && s[i..i + |t|] == t
  }

  predicate Contains(s: string, t: string) {
    exists i :: 0 <= i <= |s| - |t| && OccursAt(s, t, i)
  }

  /** matchPattern; `regex` is std::regex_match on the translated pattern, None when the
      translation is not a regular expression. */
  predicate MatchPattern(key: string, pattern: string, regex: (string, string) -> Option<bool>) {
    if pattern == "*" || pattern == key then true
    else match regex(key, pattern)
      case Some(b) => b
      case None => Contains(key, pattern)
  }

  /** "*", the name itself, a match of the regular expression, or without one the pattern
      anywhere in the name. */
  lemma MatchesIff(key: string, pattern: string, regex: (string, string) -> Option<bool>)
    ensures MatchPattern(key, pattern, regex) <==>
      || pattern == "*" || pattern == key || regex(key, pattern) == Some(true)
      || (regex(key, pattern).None? && exists x, y :: key == x + pattern + y)
  {
    if Contains(key, pattern) {
      var i :| 0 <= i <= |key| - |pattern| && OccursAt(key, pattern, i);
      assert key == key[..i] + pattern + key[i + |pattern|..];
    }
    if x, y :| key == x + pattern + y {
      assert OccursAt(key, pattern, |x|);
    }
  }

  function Pattern(pattern: string, regex: (string, string) -> Option<bool>): string -> bool {
    (key: string) => MatchPattern(key, pattern, regex)
  }

  /** With the pattern "*" a whole scan returns as many names as getTotalKeys counts. */
  lemma ScanAllTotal(db: Order, regex: (string, string) -> Option<bool>)
    ensures |Names(Matching(AllEntries(db), Pattern("*", regex)))| == |AllEntries(db)|
  {
    MatchingAll(AllEntries(db), Pattern("*", regex));
  }

  /** And every key is found under its own name, whatever the regular expressions say. */
  lemma OwnNameFound(hash: string -> nat, shards: seq<Shard>, db: Order, e: Entry, regex: (string, string) -> Option<bool>)
    requires Placed(hash, shards) && Lists(shards, db) && HeldIn(shards, ShardIndex(hash, e.key), e)
    ensures e in Matching(AllEntries(db), Pattern(e.key, regex))
  {
    EntriesOnce(hash, shards, db);
    MatchingMember(AllEntries(db), Pattern(e.key, regex), e);
  }

  lemma {:induction false} MatchingMember(es: seq<Entry>, match_: string -> bool, e: Entry)
    ensures e in Matching(es, match_) <==> e in es && match_(e.key)
  {
    if es != [] {
      MatchingMember(es[1..], match_, e);
      assert es == [es[0]] + es[1..];
    }
  }

  // ---------- the cursor as text, and the conversation with a client ----------

  function FindChar(s: string, c: char, from: nat): (r: Option<nat>)
    ensures r.Some? ==> from <= r.value < |s| && s[r.value] == c
    ensures r.Some? ==> forall i :: from <= i < r.value ==> s[i] != c
    ensures r.None? ==> forall i :: from <= i < |s| ==> s[i] != c
    decreases |s| - from
  {
    if from >= |s| then None
    else if s[from] == c then Some(from)
    else FindChar(s, c, from + 1)
  }

  function Serialize(c: ScanCursor): string {
    if c.completed then "0"
    else FromInt(c.shardIndex) + ":" + FromInt(c.dataType) + ":" + FromInt(c.offset)
  }

  function Deserialize(s: string): ScanCursor {
    match FindChar(s, ':', 0)
    case None => FRESH.(completed := true)
    case Some(p) =>
      match FindChar(s, ':', p + 1)
      case None => FRESH.(completed := true)
      case Some(q) =>
        match (Stoi(s[..p]), Stoi(s[p + 1..q]), Stoull(s[q + 1..]))
        case (Some(shard), Some(kind), Some(offset)) => ScanCursor(shard, kind, offset, false)
        case _ => FRESH.(completed := true)
  }

  lemma NumberNoColon(i: int)
    ensures ':' !in FromInt(i)
  {
  }

  lemma FindFirst(s: string, c: char, from: nat, at: nat)
    requires from <= at < |s| && s[at] == c && forall i :: from <= i < at ==> s[i] != c
    ensures FindChar(s, c, from) == Some(at)
  {
  }

  lemma Regroup<T>(a: seq<T>, b: seq<T>, c: seq<T>, d: seq<T>, e: seq<T>)
    ensures a + b + c + d + e == [] + a + b + (c + d + e)
  {
  }

  lemma FindAfter(x: string, y: string, c: char, z: string)
    requires c !in y
    ensures FindChar(x + y + [c] + z, c, |x|) == Some(|x| + |y|)
  {
    var s := x + y + [c] + z;
    assert s[|x| + |y|] == c;
    forall i | |x| <= i < |x| + |y|
      ensures s[i] != c
    {
      assert s[i] == y[i - |x|];
    }
    FindFirst(s, c, |x|, |x| + |y|);
  }

  lemma Middle<T>(x: seq<T>, y: seq<T>, z: seq<T>)
    ensures (x + y + z)[|x|..|x| + |y|] == y
    ensures (x + y + z)[|x| + |y|..] == z
  {
  }

  lemma CutAtColons(a: string, b: string, d: string, c: char)
    requires c !in a && c !in b
    ensures var s := a + [c] + b + [c] + d;
      && FindChar(s, c, 0) == Some(|a|) && FindChar(s, c, |a| + 1) == Some(|a| + 1 + |b|)
      && s[0..|a|] == a && s[|a| + 1..|a| + 1 + |b|] == b && s[|a| + |b| + 2..] == d
  {
    hide FindChar;
    var s := a + [c] + b + [c] + d;
    assert s == [] + a + [c] + (b + [c] + d) by {
      Regroup(a, [c], b, [c], d);
    }
    FindAfter([], a, c, b + [c] + d);
    assert s == (a + [c]) + b + [c] + d;
    FindAfter(a + [c], b, c, d);
    CutPieces(a, b, d, c);
  }

  lemma CutPieces(a: string, b: string, d: string, c: char)
    ensures var s := a + [c] + b + [c] + d;
      s[0..|a|] == a && s[|a| + 1..|a| + 1 + |b|] == b && s[|a| + |b| + 2..] == d
  {
    Middle([], a, [c] + b + [c] + d);
    Regroup3(a, [c], b, [c], d);
    Middle(a + [c], b, [c] + d);
    Middle(a + [c] + b, [c], d);
  }

  lemma Regroup3<T>(a: seq<T>, b: seq<T>, c: seq<T>, d: seq<T>, e: seq<T>)
    ensures a + b + c + d + e == [] + a + (b + c + d + e)
    ensures a + b + c + d + e == (a + b) + c + (d + e)
  {
  }

  /** A client that sends the cursor back sends the same cursor. */
  lemma CursorRoundTrip(c: ScanCursor)
    requires !c.completed && 0 <= c.shardIndex <= INT_MAX && INT_MIN <= c.dataType <= INT_MAX
    requires c.offset < SIZE_LIMIT
    ensures Deserialize(Serialize(c)) == c
  {
    var a, b, d := FromInt(c.shardIndex), FromInt(c.dataType), FromInt(c.offset);
    NumberNoColon(c.shardIndex);
    NumberNoColon(c.dataType);
    hide FindChar, FromInt, ParseInt;
    CutAtColons(a, b, d, ':');
    assert ":" == [':'];
    assert Serialize(c)[0..|a|] == Serialize(c)[..|a|];
    IntRoundTrip(c.shardIndex, INT_MIN, INT_MAX, "");
    IntRoundTrip(c.dataType, INT_MIN, INT_MAX, "");
    IntRoundTrip(c.offset, 1 - SIZE_LIMIT, SIZE_LIMIT - 1, "");
    assert a + "" == a && b + "" == b && d + "" == d;
  }

  /** The cursor a SCAN starts from: what the connection remembers, then what the client sent. */
  function StartCursor(saved: Option<ScanCursor>, arg: string): ScanCursor {
    var remembered :=
      if saved.None? then FRESH
      else if saved.value.completed && arg == "0" then FRESH
      else saved.value;
    if arg != "0" && !Deserialize(arg).completed then Deserialize(arg) else remembered
  }

  /** The text is three numbers with colons between them, whatever a number may have behind it. */
  ghost predicate ReadsAs(arg: string, c: ScanCursor) {
    !c.completed && exists a, b, d :: CutAs(arg, a, b, d) && NumbersAs(a, b, d, c)
  }

  predicate NumbersAs(a: string, b: string, d: string, c: ScanCursor) {
    Stoi(a) == Some(c.shardIndex) && Stoi(b) == Some(c.dataType) && Stoull(d) == Some(c.offset)
  }

  ghost predicate CutAs(arg: string, a: string, b: string, d: string) {
    arg == a + ":" + b + ":" + d && ':' !in a && ':' !in b
  }

  ghost predicate IsCursor(arg: string) {
    exists c :: ReadsAs(arg, c)
  }

  lemma CutsAs(arg: string, a: string, b: string, d: string)
    requires CutAs(arg, a, b, d)
    ensures FindChar(arg, ':', 0) == Some(|a|) && FindChar(arg, ':', |a| + 1) == Some(|a| + 1 + |b|)
    ensures arg[..|a|] == a && arg[|a| + 1..|a| + 1 + |b|] == b && arg[|a| + |b| + 2..] == d
  {
    hide FindChar;
    assert ":" == [':'];
    CutAtColons(a, b, d, ':');
    assert arg[0..|a|] == arg[..|a|];
  }

  lemma ReadsAsIff(arg: string, c: ScanCursor)
    ensures ReadsAs(arg, c) <==> !Deserialize(arg).completed && Deserialize(arg) == c
  {
    hide FindChar, ParseInt;
    if ReadsAs(arg, c) {
      var a, b, d :| CutAs(arg, a, b, d) && NumbersAs(a, b, d, c);
      CutsAs(arg, a, b, d);
    } else if !Deserialize(arg).completed {
      var p := FindChar(arg, ':', 0).value;
      var q := FindChar(arg, ':', p + 1).value;
      ColonsCut(arg, p, q);
      assert CutAs(arg, arg[..p], arg[p + 1..q], arg[q + 1..]);
    }
  }

  lemma ColonsCut(arg: string, p: nat, q: nat)
    requires FindChar(arg, ':', 0) == Some(p) && FindChar(arg, ':', p + 1) == Some(q)
    ensures CutAs(arg, arg[..p], arg[p + 1..q], arg[q + 1..])
  {
    hide FindChar;
    assert arg == arg[..p] + ":" + arg[p + 1..q] + ":" + arg[q + 1..];
  }

  /** Where a call that sends `arg` starts: where that says, whatever the connection remembers;
      if it is no cursor, where the connection stands. */
  ghost predicate StartsAt(saved: Option<ScanCursor>, arg: string, start: ScanCursor) {
    && (forall c :: ReadsAs(arg, c) ==> start == c)
    && (!IsCursor(arg) ==>
          start == if saved.None? || (saved.value.completed && arg == "0") then FRESH else saved.value)
  }

  lemma StartIsThere(saved: Option<ScanCursor>, arg: string)
    ensures StartsAt(saved, arg, StartCursor(saved, arg))
  {
    hide Deserialize, ReadsAs;
    ZeroIsNoCursor();
    ReadsAsIff(arg, Deserialize(arg));
    forall c
      ensures ReadsAs(arg, c) <==> !Deserialize(arg).completed && Deserialize(arg) == c
    {
      ReadsAsIff(arg, c);
    }
  }

  lemma ZeroIsNoCursor()
    ensures Deserialize("0").completed
  {
    assert FindChar("0", ':', 0) == None;
  }

  /** The text of a cursor, sent by any client on any connection, starts there. */
  lemma SentStarts(saved: Option<ScanCursor>, c: ScanCursor)
    requires !c.completed && 0 <= c.shardIndex <= INT_MAX && INT_MIN <= c.dataType <= INT_MAX && c.offset < SIZE_LIMIT
    ensures ReadsAs(Serialize(c), c)
    ensures forall start :: StartsAt(saved, Serialize(c), start) ==> start == c
  {
    hide Deserialize, Serialize, ReadsAs;
    CursorRoundTrip(c);
    ReadsAsIff(Serialize(c), c);
    forall start | StartsAt(saved, Serialize(c), start)
      ensures start == c
    {
      assert ReadsAs(Serialize(c), c);
    }
  }

  /** SCAN 0 starts over exactly when the connection has no unfinished scan that moved. */
  lemma ScanZeroRestartsIff(saved: Option<ScanCursor>)
    ensures StartCursor(saved, "0") == FRESH
       <==> saved.None? || saved.value.completed || saved.value == FRESH
  {
  }

  /** COUNT as the handler reads it. */
  function Batch(count: Option<int>): int {
    if count.None? then 10 else if count.value <= 0 then 1 else count.value
  }

  /** The connection remembers c, the client was sent c, and `rest` is what c has to visit. */
  ghost predicate Midway(db: Order, match_: string -> bool, c: ScanCursor, reply: string, rest: seq<Entry>) {
    && !c.completed && reply == Serialize(c) && 0 <= c.shardIndex < SHARDS && 0 <= c.dataType < KINDS
    && 0 < c.offset <= |db[c.shardIndex][c.dataType]|
    && rest == Matching(Remaining(db, c), match_)
  }

  /** How many names one call gives while there are more: ten, or what COUNT says between 1
      and 1000. */
  function BatchSize(count: Option<int>): (n: int)
    ensures 1 <= n <= 1000
  {
    match count
    case None => 10
    case Some(n) => if n < 1 then 1 else if n > 1000 then 1000 else n
  }

  lemma DefinedThere(saved: Option<ScanCursor>, arg: string, start: ScanCursor)
    requires StartsAt(saved, arg, start)
    ensures Walks(start) <==> && (forall c :: ReadsAs(arg, c) ==> c.shardIndex >= 0)
                              && (!IsCursor(arg) && saved.Some? && !saved.value.completed ==> saved.value.shardIndex >= 0)
  {
    hide ReadsAs;
    if c :| ReadsAs(arg, c) {
      assert start == c && !c.completed by { NotCompleted(arg, c); }
    }
  }

  lemma NotCompleted(arg: string, c: ScanCursor)
    requires ReadsAs(arg, c)
    ensures !c.completed
  {
  }

  /** One SCAN; not defined when the cursor leads outside the shards. */
  method HandleScan(db: Order, saved: Option<ScanCursor>, arg: string, match_: string -> bool, count: Option<int>)
    returns (defined: bool, reply: string, keys: seq<string>, saved': Option<ScanCursor>,
             ghost found: seq<Entry>, ghost rest: seq<Entry>)
    ensures StartsAt(saved, arg, StartCursor(saved, arg))
    ensures defined <==> && (forall c :: ReadsAs(arg, c) ==> c.shardIndex >= 0)
                         && (!IsCursor(arg) && saved.Some? && !saved.value.completed ==> saved.value.shardIndex >= 0)
    ensures defined <==> Walks(StartCursor(saved, arg))
    ensures defined ==>
      && keys == Names(found)
      && Covered(Matching(Remaining(db, StartCursor(saved, arg)), match_), found, rest)
      && (reply == "0" <==> saved'.None?)
      && (saved'.None? ==> rest == [] && |keys| <= BatchSize(count))
      && (saved'.Some? ==> Midway(db, match_, saved'.value, reply, rest) && |keys| == BatchSize(count))
  {
    hide Deserialize, Serialize, Matching, Remaining, DbRest, ReadsAs;
    var cursor := StartCursor(saved, arg);
    StartIsThere(saved, arg);
    DefinedThere(saved, arg, cursor);
    if !Walks(cursor) {
      return false, "", [], saved, [], [];
    }
    var done;
    done, keys, cursor, found := ScanKeys(db, cursor, match_, Batch(count));
    rest := Matching(Remaining(db, cursor), match_);
    if done {
      NothingRemains(db, cursor, match_);
      return true, "0", keys, None, found, rest;
    }
    SerializedNotZero(cursor);
    return true, Serialize(cursor), keys, Some(cursor), found, rest;
  }

  /** Sent back, the cursor of a scan under way is where the next call starts. */
  lemma Resumes(db: Order, match_: string -> bool, c: ScanCursor, reply: string, rest: seq<Entry>)
    requires Midway(db, match_, c, reply, rest)
    requires forall i, kind :: 0 <= i < SHARDS && 0 <= kind < KINDS ==> |db[i][kind]| < SIZE_LIMIT
    ensures StartCursor(Some(c), reply) == c && Walks(c) && rest == Matching(Remaining(db, c), match_)
  {
    hide Matching, DbRest, Deserialize, FromInt, Serialize;
    CursorRoundTrip(c);
  }

  lemma SerializedNotZero(c: ScanCursor)
    requires !c.completed
    ensures Serialize(c) != "0"
  {
    assert ':' in Serialize(c) by {
      assert Serialize(c)[|FromInt(c.shardIndex)|] == ':';
    }
    assert ':' !in "0";
  }

  /** db: the database selected when the call comes; nothing ties a remembered cursor to it. */
  datatype Call = Call(db: Order, arg: string, match_: string -> bool, count: Option<int>)

  /** start: where the call began. */
  datatype Answer = Answer(start: ScanCursor, reply: string, keys: seq<string>)

  /** The names given are a front part of those that match from the start on. */
  ghost predicate ServedFrom(call: Call, answer: Answer) {
    Walks(answer.start) && exists found, rest ::
      answer.keys == Names(found) && Covered(Matching(Remaining(call.db, answer.start), call.match_), found, rest)
  }

  /** SCAN 0 starts over after a reply of 0 or at the beginning of the connection; after any
      other reply it goes on as if the client had sent that reply back. */
  ghost predicate ZeroServed(answers: seq<Answer>, i: nat)
    requires i < |answers|
  {
    if i == 0 || answers[i - 1].reply == "0" then answers[i].start == FRESH
    else answers[i].start != FRESH && Serialize(answers[i].start) == answers[i - 1].reply
  }

  /** A cursor that the client sends is where the call starts, whatever came before; with any
      other argument it is served like SCAN 0. */
  ghost predicate SentServed(calls: seq<Call>, answers: seq<Answer>, i: nat)
    requires i < |answers| && i < |calls|
  {
    && (forall c :: ReadsAs(calls[i].arg, c) ==> answers[i].start == c)
    && (!IsCursor(calls[i].arg) ==> ZeroServed(answers, i))
  }

  ghost predicate Served(calls: seq<Call>, answers: seq<Answer>) {
    && |answers| <= |calls|
    && (forall i :: 0 <= i < |answers| ==> ServedFrom(calls[i], answers[i]))
    && (forall i :: 0 <= i < |answers| ==> SentServed(calls, answers, i))
  }

  /** The connection remembers the scan of the last reply, unless that was 0. */
  ghost predicate Remembers(saved: Option<ScanCursor>, answers: seq<Answer>) {
    if answers == [] || answers[|answers| - 1].reply == "0" then saved.None?
    else
      && saved.Some? && Walks(saved.value) && !saved.value.completed && saved.value != FRESH
      && answers[|answers| - 1].reply == Serialize(saved.value)
  }

  /** Any calls on one connection, up to the first one that is not defined. */
  method Session(calls: seq<Call>) returns (answers: seq<Answer>)
    ensures Served(calls, answers)
    ensures |answers| < |calls| ==> exists c :: ReadsAs(calls[|answers|].arg, c) && c.shardIndex < 0
  {
    hide Served, Remembers, Matching, Covered, Names, Remaining, Serialize, Deserialize, DbRest, Midway, StartCursor, Walks, ReadsAs;
    answers := [];
    var saved: Option<ScanCursor> := None;
    NothingServed(calls);
    while |answers| < |calls|
      invariant |answers| <= |calls| && Served(calls, answers) && Remembers(saved, answers)
      decreases |calls| - |answers|
    {
      var call := calls[|answers|];
      ghost var found, rest;
      var defined, reply, keys, next;
      defined, reply, keys, next, found, rest := HandleScan(call.db, saved, call.arg, call.match_, call.count);
      RememberedWalks(saved, answers);
      if !defined {
        return;
      }
      var answer := Answer(StartCursor(saved, call.arg), reply, keys);
      ServedOneMore(calls, answers, saved, answer, found, rest);
      StillRemembers(call.db, call.match_, next, answers, answer, rest);
      saved, answers := next, answers + [answer];
    }
  }

  lemma NothingServed(calls: seq<Call>)
    ensures Served(calls, []) && Remembers(None, [])
  {
  }

  lemma RememberedWalks(saved: Option<ScanCursor>, answers: seq<Answer>)
    requires Remembers(saved, answers)
    ensures saved.Some? ==> !saved.value.completed && saved.value.shardIndex >= 0
  {
    hide Serialize;
  }

  lemma ServedOneMore(calls: seq<Call>, answers: seq<Answer>, saved: Option<ScanCursor>, answer: Answer,
                      found: seq<Entry>, rest: seq<Entry>)
    requires Served(calls, answers) && Remembers(saved, answers) && |answers| < |calls|
    requires StartsAt(saved, calls[|answers|].arg, answer.start) && Walks(answer.start) && answer.keys == Names(found)
    requires Covered(Matching(Remaining(calls[|answers|].db, answer.start), calls[|answers|].match_), found, rest)
    ensures Served(calls, answers + [answer])
  {
    hide Matching, Covered, Names, Remaining, Remembers, StartsAt, Walks, SentServed;
    assert ServedFrom(calls[|answers|], answer);
    hide ServedFrom;
    var more := answers + [answer];
    forall i | 0 <= i < |more|
      ensures SentServed(calls, more, i)
    {
      if i < |answers| {
        SentServedBefore(calls, answers, answer, i);
      } else {
        SentServedLast(calls, answers, saved, answer);
      }
    }
  }

  lemma SentServedBefore(calls: seq<Call>, answers: seq<Answer>, last: Answer, i: nat)
    requires i < |answers| && i < |calls| && SentServed(calls, answers, i)
    ensures SentServed(calls, answers + [last], i)
  {
    hide Serialize, ReadsAs;
  }

  lemma SentServedLast(calls: seq<Call>, answers: seq<Answer>, saved: Option<ScanCursor>, last: Answer)
    requires |answers| < |calls| && Remembers(saved, answers) && StartsAt(saved, calls[|answers|].arg, last.start)
    ensures SentServed(calls, answers + [last], |answers|)
  {
    hide Serialize, ReadsAs, Walks;
  }

  lemma StillRemembers(db: Order, match_: string -> bool, saved: Option<ScanCursor>, answers: seq<Answer>, answer: Answer,
                       rest: seq<Entry>)
    requires answer.reply == "0" <==> saved.None?
    requires saved.Some? ==> Midway(db, match_, saved.value, answer.reply, rest)
    ensures Remembers(saved, answers + [answer])
  {
    hide Matching, Remaining, Serialize;
  }

  lemma FromTheTop(db: Order)
    ensures StartCursor(None, "0") == FRESH && Walks(FRESH) && Remaining(db, FRESH) == AllEntries(db)
  {
    ScanZeroRestartsIff(None);
  }

  /** A client that begins with 0 on a connection with no scan under way, and then sends
      back each cursor it gets until it gets 0, sees every matching name. */
  method Conversation(db: Order, pattern: string, regex: (string, string) -> Option<bool>, counts: nat -> Option<int>)
    returns (all: seq<string>)
    requires forall i, kind :: 0 <= i < SHARDS && 0 <= kind < KINDS ==> |db[i][kind]| < SIZE_LIMIT
    ensures all == Names(Matching(AllEntries(db), Pattern(pattern, regex)))
  {
    hide Pattern, StartsAt, ReadsAs, IsCursor, StartCursor, Walks, Matching, DbRest, Remaining, Covered, Deserialize, Serialize,
         BatchSize, Midway;
    var match_ := Pattern(pattern, regex);
    ghost var found: seq<Entry>;
    ghost var whole, rest := Matching(AllEntries(db), match_), [];
    FromTheTop(db);
    var arg, saved, call := "0", None, 1;
    var defined;
    defined, arg, all, saved, found, rest := HandleScan(db, None, "0", match_, counts(0));
    while arg != "0"
      invariant arg == "0" <==> saved.None?
      invariant saved.Some? ==> Midway(db, match_, saved.value, arg, rest)
      invariant saved.None? ==> rest == []
      invariant all == Names(found) && Covered(whole, found, rest)
      decreases saved.Some?, |rest|
    {
      Resumes(db, match_, saved.value, arg, rest);
      ghost var before := rest;
      var keys;
      ghost var more;
      defined, arg, keys, saved, more, rest := HandleScan(db, saved, arg, match_, counts(call));
      CoveredSplit(before, more, rest);
      CoveredStep(whole, found, more, rest);
      NamesConcat([], found, more);
      all, found, call := all + keys, found + more, call + 1;
    }
    CoveredNothing(whole, found);
  }
}
