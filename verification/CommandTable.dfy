/** The command table: built and sorted by hash, searched by halving. */
module CommandTable {
  import opened Text

  datatype Entry = Entry(name: string, handler: int, hash: nat, isWrite: bool)

  predicate Ordered(s: seq<Entry>) {
    forall i, j :: 0 <= i < j < |s| ==> s[i].hash <= s[j].hash
  }

  predicate DistinctHashes(s: seq<Entry>) {
    forall i, j :: 0 <= i < j < |s| ==> s[i].hash != s[j].hash
  }

  ghost predicate Permutes(s: seq<Entry>, t: seq<Entry>) {
    |s| == |t| && multiset(s) == multiset(t)
  }

  predicate AllBelow(s: seq<Entry>, h: nat) {
    forall i :: 0 <= i < |s| ==> s[i].hash < h
  }

  predicate AllFrom(s: seq<Entry>, h: nat) {
    forall i :: 0 <= i < |s| ==> h <= s[i].hash
  }

  lemma PermutesElements(s: seq<Entry>, t: seq<Entry>)
    requires Permutes(s, t)
    ensures forall e :: e in s <==> e in t
  {
    forall e
      ensures e in s <==> e in t
    {
      assert e in s <==> e in multiset(s);
      assert e in t <==> e in multiset(t);
    }
  }

  lemma PermutesBounds(s: seq<Entry>, t: seq<Entry>, h: nat)
    requires Permutes(s, t)
    ensures AllBelow(s, h) ==> AllBelow(t, h)
    ensures AllFrom(s, h) ==> AllFrom(t, h)
  {
    PermutesElements(s, t);
    forall i | 0 <= i < |t|
      ensures AllBelow(s, h) ==> t[i].hash < h
      ensures AllFrom(s, h) ==> h <= t[i].hash
    {
      assert t[i] in s;
    }
  }

  lemma PermutesConcat(a: seq<Entry>, b: seq<Entry>, c: seq<Entry>, d: seq<Entry>)
    requires Permutes(a, b) && Permutes(c, d)
    ensures Permutes(a + c, b + d)
  {
  }

  lemma LeastSame(s: seq<Entry>, t: seq<Entry>)
    requires Ordered(s) && Ordered(t) && DistinctHashes(s) && Permutes(s, t) && s != []
    ensures s[0] == t[0]
  {
    PermutesElements(s, t);
    hide Permutes;
    assert s[0] in t && t[0] in s;
    var i :| 0 <= i < |t| && t[i] == s[0];
    var j :| 0 <= j < |s| && s[j] == t[0];
    assert t[0].hash <= s[0].hash && s[0].hash <= t[0].hash;
  }

  lemma RestPermutes(s: seq<Entry>, t: seq<Entry>)
    requires Permutes(s, t) && s != [] && s[0] == t[0]
    ensures Permutes(s[1..], t[1..])
  {
    assert s == [s[0]] + s[1..] && t == [t[0]] + t[1..];
    assert multiset(s[1..]) == multiset(s) - multiset{s[0]};
    assert multiset(t[1..]) == multiset(t) - multiset{t[0]};
  }

  /** Two ordered arrangements of the same distinct entries are the same. */
  lemma {:induction false} OrderedUnique(s: seq<Entry>, t: seq<Entry>)
    requires Ordered(s) && Ordered(t) && DistinctHashes(s) && Permutes(s, t)
    ensures s == t
  {
    if s != [] {
      LeastSame(s, t);
      RestPermutes(s, t);
      OrderedUnique(s[1..], t[1..]);
      assert s == [s[0]] + s[1..] && t == [t[0]] + t[1..];
    }
  }

  // ---------- what one partition leaves on its left ----------

  /** choosePivot: the position of the median of first, middle and last. */
  function PivotIndex(s: seq<Entry>): (k: nat)
    requires s != []
    ensures k < |s|
  {
    var mid, last := (|s| - 1) / 2, |s| - 1;
    if s[0].hash > s[mid].hash then
      if s[mid].hash > s[last].hash then mid
      else if s[0].hash > s[last].hash then last
      else 0
    else
      if s[0].hash > s[last].hash then 0
      else if s[mid].hash > s[last].hash then last
      else mid
  }

  function Swapped(s: seq<Entry>, i: nat, j: nat): (r: seq<Entry>)
    requires i < |s| && j < |s|
    ensures |r| == |s|
  {
    s[i := s[j]][j := s[i]]
  }

  function Below(s: seq<Entry>, h: nat): (r: seq<Entry>)
    ensures |r| <= |s| && AllBelow(r, h)
  {
    if s == [] then []
    else
      var e := s[|s| - 1];
      Below(s[..|s| - 1], h) + (if e.hash < h then [e] else [])
  }

  /** The entries below the pivot, in the order partition leaves them. */
  function LowPart(s: seq<Entry>): (r: seq<Entry>)
    requires s != []
    ensures |r| < |s|
  {
    var k := PivotIndex(s);
    Below(Swapped(s, k, |s| - 1)[..|s| - 1], s[k].hash)
  }

  /** Whether sorting s at the start of the table passes index -1 as an unsigned bound. */
  predicate Wraps(s: seq<Entry>)
    decreases |s|
  {
    |s| >= 2 && (LowPart(s) == [] || Wraps(LowPart(s)))
  }

  lemma {:induction false} BelowHas(s: seq<Entry>, h: nat, i: nat)
    requires i < |s| && s[i].hash < h
    ensures Below(s, h) != []
  {
    if i < |s| - 1 {
      BelowHas(s[..|s| - 1], h, i);
    }
  }

  lemma {:induction false} BelowMisses(s: seq<Entry>, h: nat, i: nat)
    requires i < |s| && s[i].hash >= h
    ensures |Below(s, h)| < |s|
  {
    if i < |s| - 1 {
      BelowMisses(s[..|s| - 1], h, i);
    }
  }

  /** With distinct hashes the median of three or more entries lands strictly inside. */
  lemma PivotInside(s: seq<Entry>)
    requires DistinctHashes(s) && |s| >= 3
    ensures 1 <= |LowPart(s)| <= |s| - 2
  {
    var k, last, mid := PivotIndex(s), |s| - 1, (|s| - 1) / 2;
    var t := Swapped(s, k, last)[..last];
    var h := s[k].hash;
    assert 0 < mid < last;
    var (lo, hi) := MedianWitness(s);
    var i, j := if lo == last then k else lo, if hi == last then k else hi;
    assert t[i] == s[lo] && t[j] == s[hi];
    BelowHas(t, h, i);
    BelowMisses(t, h, j);
  }

  /** One of first, middle and last is smaller than the pivot, one is greater. */
  ghost function MedianWitness(s: seq<Entry>): (r: (nat, nat))
    requires DistinctHashes(s) && |s| >= 3
    ensures r.0 < |s| && r.1 < |s| && r.0 != PivotIndex(s) && r.1 != PivotIndex(s)
    ensures s[r.0].hash < s[PivotIndex(s)].hash < s[r.1].hash
  {
    var mid, last := (|s| - 1) / 2, |s| - 1;
    assert 0 < mid < last;
    assert s[0].hash != s[mid].hash && s[mid].hash != s[last].hash && s[0].hash != s[last].hash;
    var k := PivotIndex(s);
    var a, b := if k == 0 then mid else 0, if k == last then mid else last;
    if s[a].hash < s[b].hash then (a, b) else (b, a)
  }

  /** With distinct hashes the bound wraps only at an ordered pair. */
  lemma LowPartEmptyIff(s: seq<Entry>)
    requires DistinctHashes(s) && |s| >= 2
    ensures LowPart(s) == [] <==> |s| == 2 && s[0].hash < s[1].hash
  {
    if |s| >= 3 {
      PivotInside(s);
    } else {
      var k := PivotIndex(s);
      var t := Swapped(s, k, 1)[..1];
      assert t[..0] == [];
      assert Below(t, s[k].hash) == Below([], s[k].hash) + (if t[0].hash < s[k].hash then [t[0]] else []);
      assert s[0].hash != s[1].hash;
    }
  }

  // ---------- the builder ----------

  class CommandTableBuilder {
    const entries: array<Entry>
    var count: nat

    ghost predicate Valid()
      reads this
    {
      count <= entries.Length
    }

    ghost function Contents(): (s: seq<Entry>)
      requires Valid()
      reads this, entries
      ensures |s| == count
    {
      entries[..count]
    }

    constructor (capacity: nat)
      ensures Valid() && Contents() == [] && entries.Length == capacity && fresh(entries)
    {
      entries := new Entry[capacity](_ => Entry("", 0, 0, false));
      count := 0;
    }

    method Add(e: Entry)
      requires Valid() && count < entries.Length
      modifies this, entries
      ensures Valid() && Contents() == old(Contents()) + [e]
    {
      entries[count] := e;
      count := count + 1;
    }

    /** Entry i moves down past all greater ones before it. */
    method Sift(i: nat)
      requires i < entries.Length && Ordered(entries[..i])
      modifies entries
      ensures Ordered(entries[..i + 1]) && entries[i + 1..] == old(entries[i + 1..])
      ensures Permutes(entries[..i + 1], old(entries[..i]) + [old(entries[i])])
    {
      hide Permutes, Ordered;
      ghost var done, rest := entries[..i], entries[i + 1..];
      var key := entries[i];
      ghost var hole := key;
      ghost var all := entries[..];
      assert done == all[..i] && rest == all[i + 1..] && hole == all[i];
      HoleAt(all, i);
      var j := i;
      while j > 0 && entries[j - 1].hash > key.hash
        invariant 0 <= j <= i && entries[..] == done[..j] + [hole] + done[j..] + rest
        invariant j < i ==> done[j].hash > key.hash
      {
        Shifted(done, j, hole, rest);
        assert entries[j - 1] == entries[..][j - 1];
        entries[j] := entries[j - 1];
        j, hole := j - 1, done[j - 1];
      }
      Filled(done, j, hole, key, rest);
      if j > 0 {
        Shifted(done, j, hole, rest);
        assert entries[j - 1] == entries[..][j - 1];
      }
      entries[j] := key;
      assert entries[..i + 1] == entries[..][..i + 1] && entries[i + 1..] == entries[..][i + 1..];
      InsertedOrdered(done, j, key);
      InsertedPermutes(done, j, key);
    }

    /** The insertion sort. */
    method Sort()
      requires Valid()
      modifies entries
      ensures Ordered(Contents()) && Permutes(Contents(), old(Contents()))
      ensures entries[count..] == old(entries[count..])
    {
      hide Permutes, Ordered;
      PermutesSelf(entries[..0]);
      ghost var was := entries[..];
      var i := 0;
      while i < count
        invariant 0 <= i <= count
        invariant Ordered(entries[..i]) && Permutes(entries[..i], was[..i])
        invariant entries[i..] == was[i..]
      {
        ghost var before := entries[..i];
        assert entries[i] == was[i..][0];
        Sift(i);
        PermutesSnoc(before, was[..i], was[i]);
        assert was[..i + 1] == was[..i] + [was[i]];
        PermutesTrans(entries[..i + 1], before + [was[i]], was[..i + 1]);
        i := i + 1;
      }
    }

    method Swap(i: nat, j: nat)
      requires i < entries.Length && j < entries.Length
      modifies entries
      ensures entries[..] == Swapped(old(entries[..]), i, j)
    {
      entries[i], entries[j] := entries[j], entries[i];
    }

    method ChoosePivot(left: nat, right: nat) returns (k: nat)
      requires left <= right < entries.Length
      ensures left <= k <= right && k - left == PivotIndex(entries[left..right + 1])
    {
      ghost var s := entries[left..right + 1];
      var mid := left + (right - left) / 2;
      assert s[0] == entries[left] && s[mid - left] == entries[mid] && s[right - left] == entries[right];
      if entries[left].hash > entries[mid].hash {
        if entries[mid].hash > entries[right].hash {
          return mid;
        }
        if entries[left].hash > entries[right].hash {
          return right;
        }
        return left;
      } else {
        if entries[left].hash > entries[right].hash {
          return left;
        }
        if entries[mid].hash > entries[right].hash {
          return right;
        }
        return mid;
      }
    }

    /** The scan of partition over t: the entries below h go to the front, in order. */
    method Sweep(left: nat, right: nat, h: nat, ghost before: seq<Entry>, ghost t: seq<Entry>, ghost after: seq<Entry>)
      returns (i: nat, ghost low: seq<Entry>, ghost high: seq<Entry>)
      requires entries[..] == before + t + after && left == |before| && right == |before| + |t|
      modifies entries
      ensures entries[..] == before + low + high + after && i == left + |low|
      ensures Swept(t, low, high, h)
    {
      hide Swept, Swapped, Rotated;
      SweptNone(h);
      low, high := [], [];
      ghost var rest := t;
      i := left;
      var j := left;
      assert before + t + after == before + [] + [] + t + after;
      while j < right
        invariant i == left + |low| && j == i + |high| && right == j + |rest| && rest == t[j - left..]
        invariant entries[..] == before + low + high + rest + after
        invariant Swept(t[..j - left], low, high, h)
      {
        ghost var e := rest[0];
        ScanNext(before, low, high, rest, after);
        assert entries[j] == entries[..][j];
        assert t[..j - left + 1] == t[..j - left] + [e];
        if entries[j].hash < h {
          SweptLow(t[..j - left], low, high, e, h);
          SwapStep(before, low, high, rest, after);
          Swap(i, j);
          low, high := low + [e], Rotated(high);
          i := i + 1;
        } else {
          SweptHigh(t[..j - left], low, high, e, h);
          high := high + [e];
        }
        rest := rest[1..];
        j := j + 1;
      }
      assert t[..j - left] == t;
      assert before + low + high + [] + after == before + low + high + after;
    }

    method PivotLast(left: nat, right: nat, ghost before: seq<Entry>, ghost s: seq<Entry>, ghost after: seq<Entry>)
      returns (pivot: Entry)
      requires entries[..] == before + s + after && left == |before| && right + 1 == |before| + |s| && |s| >= 2
      modifies entries
      ensures pivot == s[PivotIndex(s)]
      ensures entries[..] == before + SwappedLast(s, PivotIndex(s)) + ([pivot] + after)
    {
      hide PivotIndex, Swapped, Permutes;
      assert entries[left..right + 1] == entries[..][left..right + 1] == s;
      var k := ChoosePivot(left, right);
      pivot := entries[k];
      assert pivot == entries[..][k] == s[k - left];
      SwapInside(before, s, after, k - left, |s| - 1);
      Swap(k, right);
      ghost var t := SwappedLast(s, k - left);
      assert before + (t + [pivot]) + after == before + t + ([pivot] + after);
    }

    method Partition(left: nat, right: nat, ghost before: seq<Entry>, ghost s: seq<Entry>, ghost after: seq<Entry>)
      returns (p: nat, ghost low: seq<Entry>, ghost e: Entry, ghost high: seq<Entry>)
      requires entries[..] == before + s + after && left == |before| && right + 1 == |before| + |s| && |s| >= 2
      modifies entries
      ensures entries[..] == before + low + [e] + high + after && p == left + |low|
      ensures Parted(s, low, e, high)
    {
      hide Swept, PivotIndex, Swapped, Parted, Permutes, SwappedLast, Rotated;
      var pivot := PivotLast(left, right, before, s, after);
      ghost var t := SwappedLast(s, PivotIndex(s));
      p, low, high := Sweep(left, right, pivot.hash, before, t, [pivot] + after);
      SweptCount(t, low, high, pivot.hash);
      PivotBack(before, low, high, pivot, after);
      Swap(p, right);
      PartedBy(s, PivotIndex(s), t, low, high);
      e, high := pivot, Rotated(high);
    }

    /** process: ok is false when the bound wraps, from where on nothing is promised.
        Only the start of the table is in danger. */
    method Process(left: nat, right: nat, ghost before: seq<Entry>, ghost s: seq<Entry>, ghost after: seq<Entry>)
      returns (ok: bool, ghost r: seq<Entry>)
      requires entries[..] == before + s + after && left == |before| && right + 1 == |before| + |s|
      modifies entries
      ensures ok <==> left > 0 || !Wraps(s)
      ensures ok ==> entries[..] == before + r + after && Ordered(r) && Permutes(r, s)
      decreases |s|
    {
      hide Permutes, Ordered, LowPart;
      r := s;
      if left >= right {
        PermutesSelf(s);
        return true, s;
      }
      var pivot;
      ghost var low, e, high;
      pivot, low, e, high := Partition(left, right, before, s, after);
      PartedCount(s, low, e, high);
      if pivot == 0 {
        return false, s;
      }
      ghost var lower, upper;
      if pivot - left < right - pivot {
        ok, lower := Process(left, pivot - 1, before, low, [e] + high + after);
        if ok {
          assert entries[..] == (before + lower + [e]) + high + after;
          ok, upper := Process(pivot + 1, right, before + lower + [e], high, after);
        }
      } else {
        assert entries[..] == (before + low + [e]) + high + after;
        ok, upper := Process(pivot + 1, right, before + low + [e], high, after);
        assert entries[..] == before + low + ([e] + upper + after);
        ok, lower := Process(left, pivot - 1, before, low, [e] + upper + after);
      }
      if ok {
        SortedParts(s, low, e, high, lower, upper);
        r := lower + [e] + upper;
        assert entries[..] == before + r + after;
      }
    }

    /** build: the sorted table, unless sorting ran out of the array. */
    method Build() returns (ok: bool, table: seq<Entry>)
      requires Valid()
      modifies entries
      ensures ok <==> !Wraps(old(Contents()))
      ensures ok ==> Ordered(table) && Permutes(table, old(Contents()))
    {
      hide Permutes, Ordered, LowPart;
      ghost var s, after := Contents(), entries[count..];
      PermutesSelf(s);
      ok := true;
      if count > 1 {
        assert entries[..] == [] + s + after;
        ghost var r;
        ok, r := Process(0, count - 1, [], s, after);
        if ok {
          PermutesLength(r, s);
          FrontOf(r, after);
          assert entries[..count] == entries[..][..count];
        }
      }
      table := entries[..count];
    }
  }

  // ---------- the lookup ----------

  /** The reference: the first entry with the hash. */
  function LinearFind(s: seq<Entry>, hash: nat): Option<Entry> {
    if s == [] then None else if s[0].hash == hash then Some(s[0]) else LinearFind(s[1..], hash)
  }

  lemma {:induction false} LinearFindNone(s: seq<Entry>, hash: nat)
    requires forall i :: 0 <= i < |s| ==> s[i].hash != hash
    ensures LinearFind(s, hash) == None
  {
    if s != [] {
      LinearFindNone(s[1..], hash);
    }
  }

  lemma {:induction false} LinearFindFirst(s: seq<Entry>, hash: nat, i: nat)
    requires i < |s| && s[i].hash == hash && forall j :: 0 <= j < i ==> s[j].hash != hash
    ensures LinearFind(s, hash) == Some(s[i])
  {
    if i > 0 {
      LinearFindFirst(s[1..], hash, i - 1);
    }
  }

  lemma {:induction false} LinearFindSound(s: seq<Entry>, hash: nat)
    ensures match LinearFind(s, hash)
      case Some(e) => e in s && e.hash == hash
      case None => forall e :: e in s ==> e.hash != hash
  {
    if s != [] {
      LinearFindSound(s[1..], hash);
      assert s == [s[0]] + s[1..];
    }
  }

  method LowerBound(table: seq<Entry>, hash: nat) returns (r: nat)
    requires Ordered(table)
    ensures r <= |table| && AllBelow(table[..r], hash) && AllFrom(table[r..], hash)
  {
    var l := 0;
    r := |table|;
    while l < r
      invariant 0 <= l <= r <= |table|
      invariant forall i :: 0 <= i < l ==> table[i].hash < hash
      invariant forall i :: r <= i < |table| ==> hash <= table[i].hash
    {
      var mid := l + (r - l) / 2;
      if table[mid].hash < hash {
        l := mid + 1;
      } else {
        r := mid;
      }
    }
  }

  method FindLowerBound(table: seq<Entry>, hash: nat) returns (e: Option<Entry>)
    requires Ordered(table)
    ensures e == LinearFind(table, hash)
  {
    if |table| == 0 {
      return None;
    }
    var l := LowerBound(table, hash);
    if l == |table| || table[l].hash != hash {
      forall i | 0 <= i < |table|
        ensures table[i].hash != hash
      {
        if i < l {
          assert table[..l][i].hash < hash;
        } else {
          assert table[l..][0].hash > hash && table[l].hash <= table[i].hash;
        }
      }
      LinearFindNone(table, hash);
      return None;
    }
    assert forall i :: 0 <= i < l ==> table[..l][i].hash == table[i].hash;
    LinearFindFirst(table, hash, l);
    return Some(table[l]);
  }

  /** Sorting does not change what a lookup finds, when hashes are distinct. */
  lemma LookupIgnoresOrder(s: seq<Entry>, t: seq<Entry>, hash: nat)
    requires DistinctHashes(s) && Permutes(t, s)
    ensures LinearFind(t, hash) == LinearFind(s, hash)
  {
    LinearFindSound(s, hash);
    LinearFindSound(t, hash);
    PermutesElements(t, s);
    hide Permutes, LinearFind;
  }

  /** The whole table: what build returns is what the insertion sort would have left, and a
      lookup in it is a scan of the entries as they were inserted. */
  lemma BuiltTable(inserted: seq<Entry>, built: seq<Entry>, sorted: seq<Entry>, hash: nat)
    requires DistinctHashes(inserted)
    requires Ordered(built) && Permutes(built, inserted) && Ordered(sorted) && Permutes(sorted, inserted)
    ensures built == sorted && LinearFind(built, hash) == LinearFind(inserted, hash)
  {
    LookupIgnoresOrder(inserted, built, hash);
    DistinctPermutes(inserted, built);
    PermutesSym(sorted, inserted);
    PermutesTrans(built, inserted, sorted);
    OrderedUnique(built, sorted);
  }

  lemma DistinctPermutes(s: seq<Entry>, t: seq<Entry>)
    requires DistinctHashes(s) && Permutes(t, s)
    ensures DistinctHashes(t)
  {
    forall i, j | 0 <= i < j < |t|
      ensures t[i].hash != t[j].hash
    {
      TwoOf(s, t, i, j);
    }
  }

  /** Two places of t are two places of s. */
  lemma TwoOf(s: seq<Entry>, t: seq<Entry>, i: nat, j: nat)
    requires DistinctHashes(s) && Permutes(t, s) && i < j < |t|
    ensures t[i].hash != t[j].hash
  {
    PermutesElements(t, s);
    assert t[i] in s && t[j] in s;
    var a :| 0 <= a < |s| && s[a] == t[i];
    var b :| 0 <= b < |s| && s[b] == t[j];
    if t[i] == t[j] {
      CountTwice(t, i, j);
      CountOnce(s, t[i]);
    }
  }

  lemma CountTwice(t: seq<Entry>, i: nat, j: nat)
    requires i < j < |t| && t[i] == t[j]
    ensures multiset(t)[t[i]] >= 2
  {
    assert t == t[..j] + [t[j]] + t[j + 1..];
    assert t[i] in t[..j];
  }

  lemma {:induction false} CountOnce(s: seq<Entry>, e: Entry)
    requires DistinctHashes(s)
    ensures multiset(s)[e] <= 1
  {
    if s != [] {
      CountOnce(s[1..], e);
      assert s == [s[0]] + s[1..];
      assert s[0] !in s[1..];
    }
  }

  /** A table of three distinct entries is always sorted; a pair in order never is. */
  lemma WrapsSmall(s: seq<Entry>)
    requires DistinctHashes(s)
    ensures |s| == 3 ==> !Wraps(s)
    ensures |s| == 2 ==> (Wraps(s) <==> s[0].hash < s[1].hash)
    ensures |s| >= 3 ==> (Wraps(s) <==> Wraps(LowPart(s)))
  {
    if |s| >= 2 {
      LowPartEmptyIff(s);
      if |s| >= 3 {
        PivotInside(s);
      }
    }
    hide LowPart;
  }

  lemma FrontOf(r: seq<Entry>, after: seq<Entry>)
    ensures ([] + r + after)[..|r|] == r
  {
  }

  lemma PermutesLength(s: seq<Entry>, t: seq<Entry>)
    requires Permutes(s, t)
    ensures |s| == |t|
  {
  }

  function Rotated(s: seq<Entry>): (r: seq<Entry>)
    ensures |r| == |s|
  {
    if s == [] then [] else s[1..] + [s[0]]
  }

  lemma RotatedKeeps(s: seq<Entry>, h: nat)
    ensures Permutes(Rotated(s), s)
    ensures AllFrom(s, h) ==> AllFrom(Rotated(s), h)
  {
    if s != [] {
      assert s == [s[0]] + s[1..];
    }
  }

  /** low and high are what the scan has made of t. */
  ghost predicate Swept(t: seq<Entry>, low: seq<Entry>, high: seq<Entry>, h: nat) {
    low == Below(t, h) && AllFrom(high, h) && Permutes(low + high, t)
  }

  lemma SweptNone(h: nat)
    ensures Swept([], [], [], h)
  {
  }

  lemma BelowSnoc(t: seq<Entry>, e: Entry, h: nat)
    ensures Below(t + [e], h) == Below(t, h) + (if e.hash < h then [e] else [])
  {
    assert (t + [e])[..|t|] == t;
  }

  lemma FromSnoc(high: seq<Entry>, e: Entry, h: nat)
    requires AllFrom(high, h) && e.hash >= h
    ensures AllFrom(high + [e], h)
  {
  }

  lemma SweptLow(t: seq<Entry>, low: seq<Entry>, high: seq<Entry>, e: Entry, h: nat)
    requires Swept(t, low, high, h) && e.hash < h
    ensures Swept(t + [e], low + [e], Rotated(high), h)
  {
    hide Below, AllFrom, Permutes, Rotated;
    BelowSnoc(t, e, h);
    RotatedKeeps(high, h);
    Shuffle(low, high, e, Rotated(high), t);
  }

  lemma SweptHigh(t: seq<Entry>, low: seq<Entry>, high: seq<Entry>, e: Entry, h: nat)
    requires Swept(t, low, high, h) && e.hash >= h
    ensures Swept(t + [e], low, high + [e], h)
  {
    hide Below, AllFrom, Permutes;
    BelowSnoc(t, e, h);
    FromSnoc(high, e, h);
    PermutesSnoc(low + high, t, e);
    assert low + (high + [e]) == low + high + [e];
  }

  lemma Shuffle(low: seq<Entry>, high: seq<Entry>, e: Entry, turned: seq<Entry>, t: seq<Entry>)
    requires Permutes(low + high, t) && Permutes(turned, high)
    ensures Permutes(low + [e] + turned, t + [e])
  {
  }

  /** The next entry of the scan, and the same table with it counted among the high ones. */
  lemma ScanNext(before: seq<Entry>, low: seq<Entry>, high: seq<Entry>, rest: seq<Entry>, after: seq<Entry>)
    requires rest != []
    ensures var s := before + low + high + rest + after;
      && |s| > |before| + |low| + |high| && s[|before| + |low| + |high|] == rest[0]
      && s == before + low + (high + [rest[0]]) + rest[1..] + after
  {
  }

  lemma SwapStep(before: seq<Entry>, low: seq<Entry>, high: seq<Entry>, rest: seq<Entry>, after: seq<Entry>)
    requires rest != []
    ensures var i := |before| + |low|;
      Swapped(before + low + high + rest + after, i, i + |high|)
        == before + (low + [rest[0]]) + Rotated(high) + rest[1..] + after
  {
  }

  lemma PivotBack(before: seq<Entry>, low: seq<Entry>, high: seq<Entry>, e: Entry, after: seq<Entry>)
    ensures var i, s := |before| + |low|, before + low + high + ([e] + after);
      i + |high| < |s| && Swapped(s, i, i + |high|) == before + low + [e] + Rotated(high) + after
  {
  }

  lemma SweptCount(t: seq<Entry>, low: seq<Entry>, high: seq<Entry>, h: nat)
    requires Swept(t, low, high, h)
    ensures |t| == |low| + |high|
  {
  }

  lemma SwapInside(before: seq<Entry>, s: seq<Entry>, after: seq<Entry>, i: nat, j: nat)
    requires i < |s| && j < |s|
    ensures Swapped(before + s + after, |before| + i, |before| + j) == before + Swapped(s, i, j) + after
  {
  }

  /** What partition makes of s. */
  ghost predicate Parted(s: seq<Entry>, low: seq<Entry>, pivot: Entry, high: seq<Entry>) {
    && s != [] && low == LowPart(s) && AllFrom(high, pivot.hash) && AllBelow(low, pivot.hash)
    && Permutes(low + [pivot] + high, s)
  }

  /** What the scan sees once the pivot has gone to the end. */
  ghost function SwappedLast(s: seq<Entry>, k: nat): (t: seq<Entry>)
    requires k < |s|
    ensures Swapped(s, k, |s| - 1) == t + [s[k]] && |t| == |s| - 1
    ensures Permutes(t + [s[k]], s)
  {
    var t := Swapped(s, k, |s| - 1)[..|s| - 1];
    assert Swapped(s, k, |s| - 1) == t + [s[k]];
    t
  }

  lemma PartedBy(s: seq<Entry>, k: nat, t: seq<Entry>, low: seq<Entry>, high: seq<Entry>)
    requires s != [] && k == PivotIndex(s) && t == SwappedLast(s, k) && Swept(t, low, high, s[k].hash)
    ensures Parted(s, low, s[k], Rotated(high))
  {
    RotatedKeeps(high, s[k].hash);
    Shuffle(low, high, s[k], Rotated(high), t);
    PermutesTrans(low + [s[k]] + Rotated(high), t + [s[k]], s);
    hide Permutes, Swapped, PivotIndex, AllFrom;
    assert t == (t + [s[k]])[..|t|];
  }

  lemma PartedCount(s: seq<Entry>, low: seq<Entry>, e: Entry, high: seq<Entry>)
    requires Parted(s, low, e, high)
    ensures |s| == |low| + 1 + |high| && low == LowPart(s)
  {
  }

  lemma SortedParts(s: seq<Entry>, low: seq<Entry>, e: Entry, high: seq<Entry>, lower: seq<Entry>, upper: seq<Entry>)
    requires Parted(s, low, e, high)
    requires Ordered(lower) && Permutes(lower, low) && Ordered(upper) && Permutes(upper, high)
    ensures Ordered(lower + [e] + upper) && Permutes(lower + [e] + upper, s)
  {
    PermutesSym(lower, low);
    PermutesSym(upper, high);
    PermutesBounds(low, lower, e.hash);
    PermutesBounds(high, upper, e.hash);
    PermutesSnoc(lower, low, e);
    PermutesConcat(lower + [e], low + [e], upper, high);
    PermutesTrans(lower + [e] + upper, low + [e] + high, s);
    hide Permutes, LowPart;
  }

  lemma PermutesSym(s: seq<Entry>, t: seq<Entry>)
    requires Permutes(s, t)
    ensures Permutes(t, s)
  {
  }

  lemma HoleAt(all: seq<Entry>, i: nat)
    requires i < |all|
    ensures var done := all[..i]; all == done[..i] + [all[i]] + done[i..] + all[i + 1..]
  {
  }

  /** The hole at j, and what moving the entry before it up leaves. */
  lemma Shifted(done: seq<Entry>, j: nat, hole: Entry, rest: seq<Entry>)
    requires 0 < j <= |done|
    ensures var s := done[..j] + [hole] + done[j..] + rest;
      && s[j - 1] == done[j - 1]
      && s[j := done[j - 1]] == done[..j - 1] + [done[j - 1]] + done[j - 1..] + rest
  {
  }

  lemma Filled(done: seq<Entry>, j: nat, hole: Entry, key: Entry, rest: seq<Entry>)
    requires j <= |done|
    ensures var s := (done[..j] + [hole] + done[j..] + rest)[j := key];
      s[..|done| + 1] == done[..j] + [key] + done[j..] && s[|done| + 1..] == rest
  {
  }

  lemma InsertedOrdered(s: seq<Entry>, j: nat, key: Entry)
    requires Ordered(s) && j <= |s|
    requires j > 0 ==> s[j - 1].hash <= key.hash
    requires j < |s| ==> s[j].hash > key.hash
    ensures Ordered(s[..j] + [key] + s[j..])
  {
  }

  lemma InsertedPermutes(s: seq<Entry>, j: nat, key: Entry)
    requires j <= |s|
    ensures Permutes(s[..j] + [key] + s[j..], s + [key])
  {
    assert s == s[..j] + s[j..];
  }

  lemma PermutesSelf(s: seq<Entry>)
    ensures Permutes(s, s) && (|s| <= 1 ==> Ordered(s))
  {
  }

  lemma PermutesSnoc(s: seq<Entry>, t: seq<Entry>, e: Entry)
    requires Permutes(s, t)
    ensures Permutes(s + [e], t + [e])
  {
  }

  lemma PermutesTrans(s: seq<Entry>, t: seq<Entry>, u: seq<Entry>)
    requires Permutes(s, t) && Permutes(t, u)
    ensures Permutes(s, u)
  {
  }
}
