/** The skip list behind a sorted set: towers of links with the distance each link spans. */
module SkipList {
  import opened Text
  import opened Tally
  import opened SortedSet

  const MAX_LEVEL: nat := 16

  type Ref = nat
  const HEAD: Ref := 0

  datatype Node = Node(key: ZKey, forward: seq<Option<Ref>>, span: seq<int>)

  type Memory = map<Ref, Node>

  // ---------- positions, heights and the next tower ----------

  /** The first position from q on whose tower is higher than l, or the end. */
  function Next(hs: seq<nat>, q: nat, l: nat): (r: nat)
    requires q <= |hs|
    ensures q <= r <= |hs|
    decreases |hs| - q
  {
    if q == |hs| || hs[q] > l then q else Next(hs, q + 1, l)
  }

  lemma {:induction false} NextSpec(hs: seq<nat>, q: nat, l: nat)
    requires q <= |hs|
    ensures var r := Next(hs, q, l);
      (forall j :: q <= j < r ==> hs[j] <= l) && (r < |hs| ==> hs[r] > l)
    decreases |hs| - q
  {
    if q < |hs| && hs[q] <= l {
      NextSpec(hs, q + 1, l);
    }
  }

  lemma {:induction false} NextIs(hs: seq<nat>, q: nat, l: nat, r: nat)
    requires q <= r <= |hs| && forall j :: q <= j < r ==> hs[j] <= l
    requires r < |hs| ==> hs[r] > l
    ensures Next(hs, q, l) == r
    decreases r - q
  {
    if q < r {
      NextIs(hs, q + 1, l, r);
    }
  }

  function With<T>(s: seq<T>, p: nat, x: T): (r: seq<T>)
    requires p <= |s|
    ensures |r| == |s| + 1
    ensures forall j {:trigger r[j]} :: 0 <= j < |r| ==> r[j] == if j < p then s[j] else if j == p then x else s[j - 1]
  {
    s[..p] + [x] + s[p..]
  }

  function Less1<T>(s: seq<T>, p: nat): (r: seq<T>)
    requires p < |s|
    ensures |r| == |s| - 1
    ensures forall j {:trigger r[j]} :: 0 <= j < |r| ==> r[j] == if j < p then s[j] else s[j + 1]
  {
    s[..p] + s[p + 1..]
  }

  /** A new tower of height h at p: where the links now lead. */
  lemma NextWith(hs: seq<nat>, p: nat, h: nat, q: nat, l: nat)
    requires p <= |hs| && q <= |hs|
    ensures var r := Next(hs, q, l);
      && (q <= p && r < p ==> Next(With(hs, p, h), q, l) == r)
      && (q <= p <= r ==> Next(With(hs, p, h), q, l) == if h > l then p else r + 1)
      && (q >= p ==> Next(With(hs, p, h), q + 1, l) == r + 1)
  {
    var r := Next(hs, q, l);
    NextSpec(hs, q, l);
    hide Next;
    var t := With(hs, p, h);
    if q <= p {
      NextIs(t, q, l, if r < p then r else if h > l then p else r + 1);
    }
    if q >= p {
      NextIs(t, q + 1, l, r + 1);
    }
  }

  lemma NextLess1(hs: seq<nat>, p: nat, q: nat, l: nat)
    requires p < |hs| && q <= |hs|
    ensures var r := Next(hs, q, l);
      && (q <= p && r < p ==> Next(Less1(hs, p), q, l) == r)
      && (q <= p < r ==> Next(Less1(hs, p), q, l) == r - 1)
      && (q <= p == r ==> Next(Less1(hs, p), q, l) == Next(hs, p + 1, l) - 1)
      && (q > p ==> Next(Less1(hs, p), q - 1, l) == r - 1)
  {
    var r := Next(hs, q, l);
    NextSpec(hs, q, l);
    NextSpec(hs, p + 1, l);
    hide Next;
    var t := Less1(hs, p);
    if q <= p {
      NextIs(t, q, l, if r < p then r else if p < r then r - 1 else Next(hs, p + 1, l) - 1);
    } else {
      NextIs(t, q - 1, l, r - 1);
    }
  }

  // ---------- one level of links ----------

  datatype Link = Link(to: Option<Ref>, span: int)

  /** The link of level l at a node. */
  function LinkOf(mem: Memory, x: Ref, l: nat): Option<Link> {
    if x in mem && l < |mem[x].forward| && l < |mem[x].span|
    then Some(Link(mem[x].forward[l], mem[x].span[l]))
    else None
  }

  /** The link a node should have: to the next tower above l, spanning the way there; a
      link into nothing spans the nodes that follow. */
  function LinkFrom(refs: seq<Ref>, hs: seq<nat>, l: nat, p: nat): Link
    requires |hs| == |refs| && p < |refs|
  {
    var q := Next(hs, p + 1, l);
    if q == |refs| then Link(None, |refs| - 1 - p) else Link(Some(refs[q]), q - p)
  }

  ghost predicate Level(mem: Memory, refs: seq<Ref>, hs: seq<nat>, l: nat)
    requires |hs| == |refs|
  {
    forall p :: 0 <= p < |refs| && hs[p] > l ==> LinkOf(mem, refs[p], l) == Some(LinkFrom(refs, hs, l, p))
  }

  /** Position r is the last one before p whose tower is higher than l. */
  ghost predicate LastBefore(hs: seq<nat>, p: nat, l: nat, r: nat) {
    r < p <= |hs| && hs[r] > l && Next(hs, r + 1, l) >= p
  }

  /** No tower between the last one and p. */
  lemma Earlier(hs: seq<nat>, p: nat, l: nat, r: nat, j: nat)
    requires LastBefore(hs, p, l, r) && j < p && hs[j] > l && j != r
    ensures j < r && Next(hs, j + 1, l) <= r
  {
    NextSpec(hs, j + 1, l);
    NextSpec(hs, r + 1, l);
  }

  lemma NextFrom(hs: seq<nat>, q: nat, p: nat, l: nat)
    requires q <= p <= |hs| && Next(hs, q, l) >= p
    ensures Next(hs, p, l) == Next(hs, q, l)
  {
    NextSpec(hs, q, l);
    NextIs(hs, p, l, Next(hs, q, l));
  }

  /** A tower is put in at p: the links elsewhere do not change. */
  lemma KeptWith(refs: seq<Ref>, hs: seq<nat>, l: nat, p: nat, h: nat, x: Ref, r: nat, j: nat)
    requires |hs| == |refs| && LastBefore(hs, p, l, r) && j < |hs| && hs[j] > l && j != r
    ensures LinkFrom(With(refs, p, x), With(hs, p, h), l, if j < p then j else j + 1) == LinkFrom(refs, hs, l, j)
  {
    NextWith(hs, p, h, j + 1, l);
    if j < p {
      Earlier(hs, p, l, r, j);
    }
    hide Next;
  }

  /** The link over p is cut in two where the new tower reaches, and grows by one above it. */
  lemma CutWith(refs: seq<Ref>, hs: seq<nat>, l: nat, p: nat, h: nat, x: Ref, r: nat)
    requires |hs| == |refs| && LastBefore(hs, p, l, r)
    ensures var was, refs', hs' := LinkFrom(refs, hs, l, r), With(refs, p, x), With(hs, p, h);
      if h > l then
        && LinkFrom(refs', hs', l, r) == Link(Some(x), p - r)
        && LinkFrom(refs', hs', l, p) == Link(was.to, was.span - (p - 1 - r))
      else LinkFrom(refs', hs', l, r) == Link(was.to, was.span + 1)
  {
    NextWith(hs, p, h, r + 1, l);
    NextWith(hs, p, h, p, l);
    NextFrom(hs, r + 1, p, l);
    hide Next;
  }

  lemma KeptLess1(refs: seq<Ref>, hs: seq<nat>, l: nat, p: nat, r: nat, j: nat)
    requires |hs| == |refs| && LastBefore(hs, p, l, r) && p < |hs| && j < |hs| && hs[j] > l && j != r && j != p
    ensures LinkFrom(Less1(refs, p), Less1(hs, p), l, if j < p then j else j - 1) == LinkFrom(refs, hs, l, j)
  {
    NextLess1(hs, p, j + 1, l);
    if j < p {
      Earlier(hs, p, l, r, j);
    }
    hide Next;
  }

  /** The links before and after the removed tower become one; a link over it shrinks. */
  lemma JoinLess1(refs: seq<Ref>, hs: seq<nat>, l: nat, p: nat, r: nat)
    requires |hs| == |refs| && LastBefore(hs, p, l, r) && p < |hs| && Distinct(refs)
    ensures var was, over := LinkFrom(refs, hs, l, r), LinkFrom(refs, hs, l, p);
      LinkFrom(Less1(refs, p), Less1(hs, p), l, r)
        == (if hs[p] > l then Link(over.to, was.span + over.span - 1) else Link(was.to, was.span - 1))
    ensures hs[p] > l <==> LinkFrom(refs, hs, l, r).to == Some(refs[p])
  {
    NextLess1(hs, p, r + 1, l);
    NextSpec(hs, r + 1, l);
    if hs[p] > l {
      NextIs(hs, r + 1, l, p);
    }
    hide Next;
  }

  /** The links of level l are the same in both memories, except at one node. */
  ghost predicate SameLinks(mem: Memory, was: Memory, refs: seq<Ref>, l: nat, except: Ref) {
    forall i :: 0 <= i < |refs| && refs[i] != except ==> LinkOf(mem, refs[i], l) == LinkOf(was, refs[i], l)
  }

  lemma InsertLevel(mem: Memory, was: Memory, refs: seq<Ref>, hs: seq<nat>, l: nat, p: nat, h: nat, x: Ref, r: nat)
    requires |hs| == |refs| && Distinct(refs) && Level(was, refs, hs, l) && LastBefore(hs, p, l, r)
    requires SameLinks(mem, was, refs, l, refs[r])
    requires var link := LinkFrom(refs, hs, l, r);
      if h > l then
        && LinkOf(mem, refs[r], l) == Some(Link(Some(x), p - r))
        && LinkOf(mem, x, l) == Some(Link(link.to, link.span - (p - 1 - r)))
      else LinkOf(mem, refs[r], l) == Some(Link(link.to, link.span + 1))
    ensures Level(mem, With(refs, p, x), With(hs, p, h), l)
  {
    hide Next, LinkOf, LinkFrom;
    var refs', hs' := With(refs, p, x), With(hs, p, h);
    CutWith(refs, hs, l, p, h, x, r);
    forall i | 0 <= i < |refs'| && hs'[i] > l
      ensures LinkOf(mem, refs'[i], l) == Some(LinkFrom(refs', hs', l, i))
    {
      if i != p && i != r {
        var j := if i < p then i else i - 1;
        KeptWith(refs, hs, l, p, h, x, r, j);
        assert refs[j] != refs[r];
      }
    }
  }

  lemma RemoveLevel(mem: Memory, was: Memory, refs: seq<Ref>, hs: seq<nat>, l: nat, p: nat, r: nat)
    requires |hs| == |refs| && Distinct(refs) && Level(was, refs, hs, l) && LastBefore(hs, p, l, r) && p < |hs|
    requires SameLinks(mem, was, refs, l, refs[r])
    requires var link, over := LinkFrom(refs, hs, l, r), LinkFrom(refs, hs, l, p);
      LinkOf(mem, refs[r], l)
        == Some(if hs[p] > l then Link(over.to, link.span + over.span - 1) else Link(link.to, link.span - 1))
    ensures Level(mem, Less1(refs, p), Less1(hs, p), l)
  {
    hide Next, LinkOf, LinkFrom;
    var refs', hs' := Less1(refs, p), Less1(hs, p);
    JoinLess1(refs, hs, l, p, r);
    forall i | 0 <= i < |refs'| && hs'[i] > l
      ensures LinkOf(mem, refs'[i], l) == Some(LinkFrom(refs', hs', l, i))
    {
      if i != r {
        var j := if i < p then i else i + 1;
        KeptLess1(refs, hs, l, p, r, j);
        assert refs[j] != refs[r];
      }
    }
  }

  // ---------- changing one link ----------

  predicate HasTower(mem: Memory, x: Ref) {
    x in mem && |mem[x].forward| == MAX_LEVEL && |mem[x].span| == MAX_LEVEL
  }

  function SetLink(mem: Memory, x: Ref, l: nat, link: Link): Memory
    requires HasTower(mem, x) && l < MAX_LEVEL
  {
    mem[x := mem[x].(forward := mem[x].forward[l := link.to], span := mem[x].span[l := link.span])]
  }

  lemma SetLinkSets(mem: Memory, x: Ref, l: nat, link: Link)
    requires HasTower(mem, x) && l < MAX_LEVEL
    ensures SameNodes(SetLink(mem, x, l, link), mem)
    ensures LinkOf(SetLink(mem, x, l, link), x, l) == Some(link)
    ensures forall y: Ref, k: nat :: y != x || k != l ==> LinkOf(SetLink(mem, x, l, link), y, k) == LinkOf(mem, y, k)
  {
  }

  /** Same nodes and keys; only links may differ. */
  ghost predicate SameNodes(mem: Memory, was: Memory) {
    && mem.Keys == was.Keys
    && (forall x :: x in was ==> mem[x].key == was[x].key)
    && (forall x :: HasTower(was, x) ==> HasTower(mem, x))
  }

  /** From level l on, the links are as they were. */
  ghost predicate SameFrom(mem: Memory, was: Memory, l: nat) {
    forall y: Ref, k: nat :: k >= l ==> LinkOf(mem, y, k) == LinkOf(was, y, k)
  }

  lemma LevelKept(mem: Memory, was: Memory, refs: seq<Ref>, hs: seq<nat>, l: nat)
    requires |hs| == |refs| && Level(was, refs, hs, l)
    requires forall i :: 0 <= i < |refs| ==> LinkOf(mem, refs[i], l) == LinkOf(was, refs[i], l)
    ensures Level(mem, refs, hs, l)
  {
    hide LinkOf, LinkFrom;
  }

  // ---------- the whole list ----------

  /** refs lists the nodes in order, the head first; hs gives the heights of their towers. */
  ghost predicate Shape(mem: Memory, refs: seq<Ref>, hs: seq<nat>, level: nat) {
    && 1 <= level <= MAX_LEVEL && |hs| == |refs| >= 1 && refs[0] == HEAD && hs[0] == MAX_LEVEL && Distinct(refs)
    && (forall p :: 0 <= p < |refs| ==> HasTower(mem, refs[p]))
    && (forall p :: 1 <= p < |refs| ==> 1 <= hs[p] <= level)
  }

  ghost predicate Levels(mem: Memory, refs: seq<Ref>, hs: seq<nat>, n: nat)
    requires |hs| == |refs|
  {
    forall l :: 0 <= l < n ==> Level(mem, refs, hs, l)
  }

  ghost predicate NothingAbove(mem: Memory, level: nat)
    requires HasTower(mem, HEAD)
  {
    forall l :: level <= l < MAX_LEVEL ==> mem[HEAD].forward[l] == None
  }

  ghost function Keys(mem: Memory, refs: seq<Ref>): (keys: seq<ZKey>)
    requires |refs| >= 1 && forall p :: 0 <= p < |refs| ==> refs[p] in mem
    ensures |keys| == |refs| - 1 && forall i :: 0 <= i < |keys| ==> keys[i] == mem[refs[i + 1]].key
  {
    seq(|refs| - 1, i requires 0 <= i < |refs| - 1 => mem[refs[i + 1]].key)
  }

  ghost predicate Good(mem: Memory, refs: seq<Ref>, hs: seq<nat>, level: nat) {
    Shape(mem, refs, hs, level) && Levels(mem, refs, hs, level) && NothingAbove(mem, level) && Sorted(Keys(mem, refs))
  }

  function CountLess(z: seq<ZKey>, k: ZKey): (n: nat)
    ensures n <= |z|
  {
    if z == [] || !Less(z[0], k) then 0 else 1 + CountLess(z[1..], k)
  }

  lemma {:induction false} CountLessSplits(z: seq<ZKey>, k: ZKey)
    requires Sorted(z)
    ensures forall i :: 0 <= i < |z| ==> (Less(z[i], k) <==> i < CountLess(z, k))
  {
    if z != [] {
      CountLessSplits(z[1..], k);
      forall i | 0 <= i < |z|
        ensures Less(z[i], k) <==> i < CountLess(z, k)
      {
        if i > 0 {
          assert z[i] == z[1..][i - 1];
          if Less(z[i], k) {
            Transitive(z[0], z[i], k);
          }
        }
      }
    }
  }

  lemma {:induction false} InsertAtCount(z: seq<ZKey>, k: ZKey)
    requires Sorted(z) && k !in z
    ensures Insert(z, k) == With(z, CountLess(z, k), k)
  {
    if z != [] && Less(z[0], k) {
      InsertAtCount(z[1..], k);
      assert z == [z[0]] + z[1..];
    } else if z != [] {
      assert z[0] in z;
    }
  }

  lemma {:induction false} RemoveAtCount(z: seq<ZKey>, k: ZKey)
    requires Sorted(z) && k in z
    ensures CountLess(z, k) < |z| && z[CountLess(z, k)] == k
    ensures Remove(z, k) == Less1(z, CountLess(z, k))
  {
    Trichotomy(z[0], k);
    var i :| 0 <= i < |z| && z[i] == k;
    if z[0] == k {
      assert Less1(z, 0) == z[1..];
    } else {
      assert Less(z[0], k);
      assert z[1..][i - 1] == k;
      hide Less;
      RemoveAtCount(z[1..], k);
      var n := CountLess(z[1..], k);
      assert Less1(z, n + 1) == [z[0]] + Less1(z[1..], n);
    }
  }

  // ---------- the search ----------

  /** On level l the search for rank R stops at u, which is at position r. */
  ghost predicate Stops(refs: seq<Ref>, hs: seq<nat>, l: nat, R: nat, u: Ref, r: nat) {
    LastBefore(hs, R + 1, l, r) && r < |refs| && u == refs[r]
  }

  /** The keys below `key` are those at positions 1 to R. */
  ghost predicate Ranked(mem: Memory, refs: seq<Ref>, key: ZKey, R: nat) {
    R < |refs| && forall p :: 1 <= p < |refs| ==> HasTower(mem, refs[p]) && (Less(mem[refs[p]].key, key) <==> p <= R)
  }

  /** curr->forward[l] && curr->forward[l]->key < key */
  predicate Ahead(mem: Memory, curr: Ref, l: nat, key: ZKey)
    requires HasTower(mem, curr) && l < MAX_LEVEL
  {
    var to := mem[curr].forward[l];
    to.Some? && to.value in mem && Less(mem[to.value].key, key)
  }

  /** A step forward stays at or before the rank sought; no step means the stop is found. */
  lemma WalkStep(mem: Memory, refs: seq<Ref>, hs: seq<nat>, key: ZKey, l: nat, R: nat, r: nat)
    requires |hs| == |refs| && Ranked(mem, refs, key, R) && Level(mem, refs, hs, l)
    requires r <= R && hs[r] > l && l < MAX_LEVEL && HasTower(mem, refs[r])
    ensures var node := mem[refs[r]];
      var q := r + node.span[l];
      if Ahead(mem, refs[r], l, key) then
        r < q <= R && hs[q] > l && node.forward[l] == Some(refs[q]) && HasTower(mem, refs[q])
      else LastBefore(hs, R + 1, l, r)
  {
    assert LinkOf(mem, refs[r], l) == Some(LinkFrom(refs, hs, l, r));
    NextSpec(hs, r + 1, l);
    hide Next, Less, Level;
    var q := Next(hs, r + 1, l);
    if q < |refs| {
      assert HasTower(mem, refs[q]);
    }
  }

  method Walk(mem: Memory, key: ZKey, l: nat, start: Ref, from: nat, ghost refs: seq<Ref>, ghost hs: seq<nat>, ghost R: nat)
    returns (curr: Ref, r: nat)
    requires |hs| == |refs| && Ranked(mem, refs, key, R) && Level(mem, refs, hs, l) && l < MAX_LEVEL
    requires from <= R && start == refs[from] && hs[from] > l && HasTower(mem, start)
    ensures r <= R && curr == refs[r] && LastBefore(hs, R + 1, l, r) && HasTower(mem, curr)
  {
    hide Less, Level, LastBefore, Next, LinkOf, LinkFrom, Ahead;
    curr, r := start, from;
    WalkStep(mem, refs, hs, key, l, R, r);
    while Ahead(mem, curr, l, key)
      invariant r <= R && curr == refs[r] && hs[r] > l && HasTower(mem, curr)
      invariant var q := r + mem[curr].span[l];
        if Ahead(mem, curr, l, key) then
          r < q <= R && hs[q] > l && mem[curr].forward[l] == Some(refs[q]) && HasTower(mem, refs[q])
        else LastBefore(hs, R + 1, l, r)
      decreases R - r
    {
      r, curr := r + mem[curr].span[l], mem[curr].forward[l].value;
      WalkStep(mem, refs, hs, key, l, R, r);
    }
  }

  /** Where the search stopped on the levels from lo up. */
  ghost predicate Found(refs: seq<Ref>, hs: seq<nat>, R: nat, update: seq<Ref>, rank: seq<nat>, lo: nat) {
    |update| == |rank| && forall l :: lo <= l < |rank| ==> Stops(refs, hs, l, R, update[l], rank[l])
  }

  lemma FoundNext(refs: seq<Ref>, hs: seq<nat>, R: nat, update: seq<Ref>, rank: seq<nat>, i: nat, u: Ref, r: nat)
    requires Found(refs, hs, R, update, rank, i + 1) && i < |rank| && Stops(refs, hs, i, R, u, r)
    ensures Found(refs, hs, R, update[i := u], rank[i := r], i)
  {
    hide Stops;
  }

  /** The search that insert, remove, find and getRank share: the node before the key on
      every level, and its rank. */
  method Search(mem: Memory, level: nat, key: ZKey, ghost refs: seq<Ref>, ghost hs: seq<nat>)
    returns (update: seq<Ref>, rank: seq<nat>)
    requires Good(mem, refs, hs, level)
    ensures |update| == |rank| == level && rank[0] == CountLess(Keys(mem, refs), key)
    ensures Found(refs, hs, rank[0], update, rank, 0)
  {
    ghost var R := CountLess(Keys(mem, refs), key);
    GoodRanked(mem, refs, hs, level, key);
    assert R < |refs|;
    hide Level, LastBefore, Ranked, NothingAbove, Keys, CountLess, Sorted, Less, Found, Distinct;
    var curr, r := HEAD, 0;
    update, rank := seq(level, _ => HEAD), seq(level, _ => 0);
    assert Found(refs, hs, R, update, rank, level) by {
      FoundNone(refs, hs, R, update, rank);
    }
    var i := level;
    while i > 0
      invariant 0 <= i <= level && |update| == |rank| == level
      invariant 0 <= r <= R && curr == refs[r] && HasTower(mem, curr) && (i > 0 ==> hs[r] > i - 1)
      invariant Found(refs, hs, R, update, rank, i)
      invariant i < level ==> rank[i] == r && LastBefore(hs, R + 1, i, r)
    {
      i := i - 1;
      curr, r := Walk(mem, key, i, curr, r, refs, hs, R);
      StopTower(hs, R, i, r);
      FoundNext(refs, hs, R, update, rank, i, curr, r);
      update, rank := update[i := curr], rank[i := r];
    }
    StopAtZero(mem, refs, hs, level, R, r);
  }

  lemma FoundNone(refs: seq<Ref>, hs: seq<nat>, R: nat, update: seq<Ref>, rank: seq<nat>)
    requires |update| == |rank|
    ensures Found(refs, hs, R, update, rank, |rank|)
  {
  }

  lemma StopTower(hs: seq<nat>, R: nat, l: nat, r: nat)
    requires LastBefore(hs, R + 1, l, r)
    ensures r < |hs| && hs[r] > l
  {
  }

  lemma StopAtZero(mem: Memory, refs: seq<Ref>, hs: seq<nat>, level: nat, R: nat, r: nat)
    requires Shape(mem, refs, hs, level) && LastBefore(hs, R + 1, 0, r)
    ensures r == R
  {
    NextSpec(hs, r + 1, 0);
  }

  lemma GoodRanked(mem: Memory, refs: seq<Ref>, hs: seq<nat>, level: nat, key: ZKey)
    requires Good(mem, refs, hs, level)
    ensures Ranked(mem, refs, key, CountLess(Keys(mem, refs), key))
  {
    var keys := Keys(mem, refs);
    CountLessSplits(keys, key);
    forall p | 1 <= p < |refs|
      ensures HasTower(mem, refs[p]) && (Less(mem[refs[p]].key, key) <==> p <= CountLess(keys, key))
    {
      assert keys[p - 1] == mem[refs[p]].key;
    }
  }

  // ---------- insertion ----------

  lemma LevelsKept(mem: Memory, was: Memory, refs: seq<Ref>, hs: seq<nat>, n: nat)
    requires |hs| == |refs| && Levels(was, refs, hs, n)
    requires forall y: Ref, k: nat :: k < n ==> LinkOf(mem, y, k) == LinkOf(was, y, k)
    ensures Levels(mem, refs, hs, n)
  {
    forall l | 0 <= l < n
      ensures Level(mem, refs, hs, l)
    {
      LevelKept(mem, was, refs, hs, l);
    }
  }

  /** A level that was not in use yet: the head spans the whole list. */
  lemma RaiseLevel(mem: Memory, refs: seq<Ref>, hs: seq<nat>, level: nat, l: nat, R: nat)
    requires Shape(mem, refs, hs, level) && level <= l < MAX_LEVEL && R < |refs|
    requires LinkOf(mem, HEAD, l) == Some(Link(None, |refs| - 1))
    ensures Level(mem, refs, hs, l) && Stops(refs, hs, l, R, HEAD, 0)
  {
    NextIs(hs, 1, l, |hs|);
    hide Next, LinkOf;
  }

  method Raise(mem0: Memory, level: nat, newLevel: nat, size: nat, update0: seq<Ref>, rank0: seq<nat>,
               ghost refs: seq<Ref>, ghost hs: seq<nat>, ghost R: nat)
    returns (mem: Memory, update: seq<Ref>, rank: seq<nat>)
    requires Good(mem0, refs, hs, level) && size == |refs| - 1 && R < |refs|
    requires |update0| == level && Found(refs, hs, R, update0, rank0, 0)
    requires newLevel <= MAX_LEVEL
    ensures SameNodes(mem, mem0) && |update| == |rank| == (if newLevel > level then newLevel else level)
    ensures Levels(mem, refs, hs, |rank|) && Found(refs, hs, R, update, rank, 0)
    ensures mem[HEAD].forward == mem0[HEAD].forward && rank[..level] == rank0
  {
    hide Keys, Sorted, LinkOf, Level, Stops, Distinct;
    mem, update, rank := mem0, update0, rank0;
    var i := level;
    while i < newLevel
      invariant level <= i && (i <= newLevel || i == level)
      invariant SameNodes(mem, mem0) && |update| == |rank| == i
      invariant Levels(mem, refs, hs, i) && Found(refs, hs, R, update, rank, 0)
      invariant mem[HEAD].forward == mem0[HEAD].forward && rank[..level] == rank0
    {
      ghost var before := mem;
      assert HasTower(mem, HEAD) && mem[HEAD].forward[i] == None;
      SetLinkSets(mem, HEAD, i, Link(None, size));
      mem := SetLink(mem, HEAD, i, Link(None, size));
      LevelsKept(mem, before, refs, hs, i);
      RaiseLevel(mem, refs, hs, level, i, R);
      update, rank := update + [HEAD], rank + [0];
      i := i + 1;
    }
  }

  /** Level i of the insertion of x after u, which is d places before it. */
  function SpliceAt(mem: Memory, u: Ref, x: Ref, i: nat, d: int, h: nat): Memory
    requires HasTower(mem, u) && HasTower(mem, x) && i < MAX_LEVEL
  {
    var link := Link(mem[u].forward[i], mem[u].span[i]);
    if i < h then SetLink(SetLink(mem, x, i, Link(link.to, link.span - d)), u, i, Link(Some(x), d + 1))
    else SetLink(mem, u, i, Link(link.to, link.span + 1))
  }

  /** Only the links of level i at u and x may differ. */
  ghost predicate OnlyAt(mem: Memory, was: Memory, i: nat, u: Ref, x: Ref) {
    && SameNodes(mem, was)
    && forall y: Ref, k: nat :: k != i || (y != u && y != x) ==> LinkOf(mem, y, k) == LinkOf(was, y, k)
  }

  lemma SetOnlyAt(mem: Memory, u: Ref, x: Ref, i: nat, link: Link)
    requires HasTower(mem, u) && i < MAX_LEVEL
    ensures OnlyAt(SetLink(mem, u, i, link), mem, i, u, x) && LinkOf(SetLink(mem, u, i, link), u, i) == Some(link)
  {
    SetLinkSets(mem, u, i, link);
    hide LinkOf, SetLink, HasTower, SameNodes;
  }

  lemma OnlyAtBoth(a: Memory, b: Memory, c: Memory, i: nat, u: Ref, x: Ref)
    requires OnlyAt(a, b, i, u, u) && OnlyAt(b, c, i, x, x)
    ensures OnlyAt(a, c, i, u, x)
  {
    SameNodesTrans(a, b, c);
    hide LinkOf, SameNodes;
  }

  lemma SameNodesTrans(a: Memory, b: Memory, c: Memory)
    requires SameNodes(a, b) && SameNodes(b, c)
    ensures SameNodes(a, c)
  {
    hide HasTower;
  }

  lemma SpliceSets(mem: Memory, u: Ref, x: Ref, i: nat, d: int, h: nat)
    requires HasTower(mem, u) && HasTower(mem, x) && i < MAX_LEVEL && u != x
    ensures var link, r := Link(mem[u].forward[i], mem[u].span[i]), SpliceAt(mem, u, x, i, d, h);
      && OnlyAt(r, mem, i, u, x)
      && LinkOf(mem, u, i) == Some(link)
      && LinkOf(r, u, i) == Some(if i < h then Link(Some(x), d + 1) else Link(link.to, link.span + 1))
      && (i < h ==> LinkOf(r, x, i) == Some(Link(link.to, link.span - d)))
  {
    hide LinkOf, SetLink, OnlyAt;
    LinkIs(mem, u, i);
    var link := Link(mem[u].forward[i], mem[u].span[i]);
    if i < h {
      SetTwo(mem, u, x, i, Link(Some(x), d + 1), Link(link.to, link.span - d));
    } else {
      SetOnlyAt(mem, u, x, i, Link(link.to, link.span + 1));
    }
  }

  lemma SetTwo(mem: Memory, u: Ref, x: Ref, i: nat, a: Link, b: Link)
    requires HasTower(mem, u) && HasTower(mem, x) && i < MAX_LEVEL && u != x
    ensures HasTower(SetLink(mem, x, i, b), u)
    ensures var r := SetLink(SetLink(mem, x, i, b), u, i, a);
      OnlyAt(r, mem, i, u, x) && LinkOf(r, u, i) == Some(a) && LinkOf(r, x, i) == Some(b)
  {
    SetOnlyAt(mem, x, x, i, b);
    var mid := SetLink(mem, x, i, b);
    TowerKept(mid, mem, u);
    hide LinkOf, SetLink, SameNodes, HasTower;
    SetOnlyAt(mid, u, u, i, a);
    var r := SetLink(mid, u, i, a);
    OnlyAtBoth(r, mid, mem, i, u, x);
    assert LinkOf(r, x, i) == LinkOf(mid, x, i);
  }

  lemma LinkIs(mem: Memory, u: Ref, i: nat)
    requires HasTower(mem, u) && i < MAX_LEVEL
    ensures LinkOf(mem, u, i) == Some(Link(mem[u].forward[i], mem[u].span[i]))
  {
  }

  lemma TowerKept(mem: Memory, was: Memory, u: Ref)
    requires SameNodes(mem, was) && HasTower(was, u)
    ensures HasTower(mem, u)
  {
  }

  /** The levels below i have the new node, the others do not know of it yet. */
  ghost predicate Spliced(mem: Memory, was: Memory, refs: seq<Ref>, hs: seq<nat>, R: nat, x: Ref, h: nat, i: nat)
    requires |hs| == |refs| && R < |refs|
  {
    && SameNodes(mem, was) && SameFrom(mem, was, i)
    && Levels(mem, With(refs, R + 1, x), With(hs, R + 1, h), i)
  }

  lemma SpliceSame(next: Memory, mem: Memory, was: Memory, refs: seq<Ref>, i: nat, u: Ref, x: Ref)
    requires OnlyAt(next, mem, i, u, x) && SameFrom(mem, was, i) && x !in refs
    ensures SameLinks(next, was, refs, i, u) && SameFrom(next, was, i + 1)
  {
    hide LinkOf, SameNodes;
  }

  lemma LevelsPlus(next: Memory, mem: Memory, refs: seq<Ref>, hs: seq<nat>, i: nat, u: Ref, x: Ref)
    requires |hs| == |refs| && Levels(mem, refs, hs, i) && OnlyAt(next, mem, i, u, x) && Level(next, refs, hs, i)
    ensures Levels(next, refs, hs, i + 1)
  {
    hide LinkOf, Level, SameNodes;
    LevelsKept(next, mem, refs, hs, i);
  }

  lemma StopLink(was: Memory, refs: seq<Ref>, hs: seq<nat>, l: nat, R: nat, u: Ref, r: nat)
    requires |hs| == |refs| && Level(was, refs, hs, l) && Stops(refs, hs, l, R, u, r)
    ensures LinkOf(was, u, l) == Some(LinkFrom(refs, hs, l, r)) && u in refs
  {
  }

  lemma SameFromAt(mem: Memory, was: Memory, i: nat, u: Ref)
    requires SameFrom(mem, was, i)
    ensures LinkOf(mem, u, i) == LinkOf(was, u, i)
  {
  }

  lemma SpliceLevel(mem: Memory, was: Memory, refs: seq<Ref>, hs: seq<nat>, R: nat, x: Ref, h: nat, i: nat, u: Ref, r: nat)
    requires |hs| == |refs| && R < |refs| && Distinct(refs) && x !in refs && HasTower(mem, u) && HasTower(mem, x)
    requires SameFrom(mem, was, i) && i < MAX_LEVEL
    requires Level(was, refs, hs, i) && Stops(refs, hs, i, R, u, r)
    ensures var next := SpliceAt(mem, u, x, i, R - r, h);
      && OnlyAt(next, mem, i, u, x) && SameFrom(next, was, i + 1)
      && Level(next, With(refs, R + 1, x), With(hs, R + 1, h), i)
  {
    hide LinkOf, LinkFrom, SpliceAt, Level, Next, With, SameNodes, SameLinks, SameFrom, Distinct, OnlyAt;
    StopLink(was, refs, hs, i, R, u, r);
    var next := SpliceAt(mem, u, x, i, R - r, h);
    SpliceSets(mem, u, x, i, R - r, h);
    SpliceSame(next, mem, was, refs, i, u, x);
    SameFromAt(mem, was, i, u);
    InsertLevel(next, was, refs, hs, i, R + 1, h, x, r);
  }

  lemma SpliceStep(mem: Memory, was: Memory, refs: seq<Ref>, hs: seq<nat>, R: nat, x: Ref, h: nat, i: nat, u: Ref, r: nat)
    requires |hs| == |refs| && R < |refs| && Distinct(refs) && x !in refs && HasTower(mem, u) && HasTower(mem, x)
    requires Spliced(mem, was, refs, hs, R, x, h, i) && i < MAX_LEVEL
    requires Level(was, refs, hs, i) && Stops(refs, hs, i, R, u, r)
    ensures Spliced(SpliceAt(mem, u, x, i, R - r, h), was, refs, hs, R, x, h, i + 1)
  {
    hide LinkOf, HasTower, SpliceAt, Level, Levels, Next, With, SameNodes, SameFrom, Distinct, OnlyAt, Stops;
    SpliceLevel(mem, was, refs, hs, R, x, h, i, u, r);
    var next := SpliceAt(mem, u, x, i, R - r, h);
    OnlyAtNodes(next, mem, i, u, x);
    SameNodesTrans(next, mem, was);
    LevelsPlus(next, mem, With(refs, R + 1, x), With(hs, R + 1, h), i, u, x);
  }

  lemma OnlyAtNodes(mem: Memory, was: Memory, i: nat, u: Ref, x: Ref)
    requires OnlyAt(mem, was, i, u, x)
    ensures SameNodes(mem, was)
  {
  }

  ghost predicate Towers(mem: Memory, refs: seq<Ref>) {
    forall p :: 0 <= p < |refs| ==> HasTower(mem, refs[p])
  }

  lemma TowersKept(mem: Memory, was: Memory, refs: seq<Ref>)
    requires Towers(was, refs) && SameNodes(mem, was)
    ensures Towers(mem, refs)
  {
    hide HasTower;
  }

  lemma FoundAt(mem: Memory, refs: seq<Ref>, hs: seq<nat>, R: nat, update: seq<Ref>, rank: seq<nat>, i: nat)
    requires Found(refs, hs, R, update, rank, 0) && i < |rank| && Towers(mem, refs)
    ensures Stops(refs, hs, i, R, update[i], rank[i]) && HasTower(mem, update[i]) && rank[i] <= R
  {
  }

  lemma SplicedStart(mem: Memory, refs: seq<Ref>, hs: seq<nat>, R: nat, x: Ref, h: nat)
    requires |hs| == |refs| && R < |refs|
    ensures Spliced(mem, mem, refs, hs, R, x, h, 0)
  {
  }

  /** The two loops of insert: up to the new tower's height, and above it. */
  method Splice(was: Memory, update: seq<Ref>, rank: seq<nat>, x: Ref, h: nat, oldLevel: nat,
                ghost refs: seq<Ref>, ghost hs: seq<nat>)
    returns (mem: Memory)
    requires |hs| == |refs| && |update| == |rank| <= MAX_LEVEL && |rank| == (if h > oldLevel then h else oldLevel) && 1 <= oldLevel
    requires rank[0] < |refs| && Found(refs, hs, rank[0], update, rank, 0)
    requires Distinct(refs) && x !in refs && HasTower(was, x) && Towers(was, refs) && Levels(was, refs, hs, |rank|)
    ensures Spliced(mem, was, refs, hs, rank[0], x, h, |rank|)
  {
    hide HasTower, Distinct, Towers, Found, Spliced, Level, SpliceAt, Stops, SameNodes;
    mem := was;
    ghost var R := rank[0];
    SplicedStart(was, refs, hs, R, x, h);
    var i := 0;
    while i < h
      invariant 0 <= i <= |rank| && (i <= h || i == 0) && Spliced(mem, was, refs, hs, R, x, h, i)
    {
      mem := SpliceNext(mem, was, update, rank, x, h, i, refs, hs);
      i := i + 1;
    }
    i := h;
    while i < oldLevel
      invariant h <= i <= |rank| && (i <= oldLevel || i == h) && Spliced(mem, was, refs, hs, R, x, h, i)
    {
      mem := SpliceNext(mem, was, update, rank, x, h, i, refs, hs);
      i := i + 1;
    }
  }

  lemma SplicedNodes(mem: Memory, was: Memory, refs: seq<Ref>, hs: seq<nat>, R: nat, x: Ref, h: nat, i: nat)
    requires |hs| == |refs| && R < |refs| && Spliced(mem, was, refs, hs, R, x, h, i)
    ensures SameNodes(mem, was) && SameFrom(mem, was, i)
    ensures Levels(mem, With(refs, R + 1, x), With(hs, R + 1, h), i)
  {
  }

  lemma LevelsAt(mem: Memory, refs: seq<Ref>, hs: seq<nat>, n: nat, i: nat)
    requires |hs| == |refs| && Levels(mem, refs, hs, n) && i < n
    ensures Level(mem, refs, hs, i)
  {
  }

  method SpliceNext(mem: Memory, ghost was: Memory, update: seq<Ref>, rank: seq<nat>, x: Ref, h: nat, i: nat,
                    ghost refs: seq<Ref>, ghost hs: seq<nat>)
    returns (next: Memory)
    requires |hs| == |refs| && |update| == |rank| <= MAX_LEVEL && i < |rank|
    requires rank[0] < |refs| && Found(refs, hs, rank[0], update, rank, 0)
    requires Distinct(refs) && x !in refs && HasTower(was, x) && Towers(was, refs) && Levels(was, refs, hs, |rank|)
    requires Spliced(mem, was, refs, hs, rank[0], x, h, i)
    ensures Spliced(next, was, refs, hs, rank[0], x, h, i + 1)
  {
    hide HasTower, Distinct, Towers, Found, Spliced, Level, Levels, SpliceAt, Stops, SameNodes;
    SplicedNodes(mem, was, refs, hs, rank[0], x, h, i);
    LevelsAt(was, refs, hs, |rank|, i);
    TowerKept(mem, was, x);
    TowersKept(mem, was, refs);
    FoundAt(mem, refs, hs, rank[0], update, rank, i);
    SpliceStep(mem, was, refs, hs, rank[0], x, h, i, update[i], rank[i]);
    next := SpliceAt(mem, update[i], x, i, rank[0] - rank[i], h);
  }

  /** Putting the pieces together: the list with the new node in its place. */
  lemma InsertGood(mem: Memory, was: Memory, refs: seq<Ref>, hs: seq<nat>, level: nat, top: nat, key: ZKey, x: Ref, h: nat)
    requires Good(was, refs, hs, level) && key !in Keys(was, refs) && x !in refs
    requires 1 <= h <= top <= MAX_LEVEL && level <= top
    requires Towers(mem, refs) && HasTower(mem, x) && mem[x].key == key
    requires forall p :: 0 <= p < |refs| ==> mem[refs[p]].key == was[refs[p]].key
    requires var R := CountLess(Keys(was, refs), key);
      Levels(mem, With(refs, R + 1, x), With(hs, R + 1, h), top)
    requires NothingAbove(mem, top)
    ensures var R := CountLess(Keys(was, refs), key);
      var refs', hs' := With(refs, R + 1, x), With(hs, R + 1, h);
      Good(mem, refs', hs', top) && Keys(mem, refs') == Insert(Keys(was, refs), key)
  {
    hide Levels, NothingAbove, Sorted, Insert, CountLess, Keys, Distinct;
    var R := CountLess(Keys(was, refs), key);
    InsertAtCount(Keys(was, refs), key);
    InsertSorted(Keys(was, refs), key);
    InsertShape(mem, was, refs, hs, level, top, R + 1, x, h);
    InsertKeys(mem, was, refs, R, key, x);
  }

  lemma InsertShape(mem: Memory, was: Memory, refs: seq<Ref>, hs: seq<nat>, level: nat, top: nat, p: nat, x: Ref, h: nat)
    requires Shape(was, refs, hs, level) && 1 <= p <= |refs| && x !in refs
    requires 1 <= h <= top <= MAX_LEVEL && level <= top && Towers(mem, refs) && HasTower(mem, x)
    ensures Shape(mem, With(refs, p, x), With(hs, p, h), top)
  {
    hide HasTower;
    assert Distinct(With(refs, p, x)) by {
      DistinctWith(refs, p, x);
    }
    hide Distinct;
  }

  lemma DistinctWith(refs: seq<Ref>, p: nat, x: Ref)
    requires Distinct(refs) && p <= |refs| && x !in refs
    ensures Distinct(With(refs, p, x))
  {
  }

  lemma InsertKeys(mem: Memory, was: Memory, refs: seq<Ref>, R: nat, key: ZKey, x: Ref)
    requires R < |refs| && (forall p :: 0 <= p < |refs| ==> refs[p] in was)
    requires Towers(mem, refs) && HasTower(mem, x) && mem[x].key == key
    requires forall p :: 0 <= p < |refs| ==> mem[refs[p]].key == was[refs[p]].key
    ensures Towers(mem, With(refs, R + 1, x))
    ensures Keys(mem, With(refs, R + 1, x)) == With(Keys(was, refs), R, key)
  {
    var refs' := With(refs, R + 1, x);
    assert Towers(mem, refs') by {
      hide HasTower;
    }
    forall i | 0 <= i < |refs|
      ensures Keys(mem, refs')[i] == With(Keys(was, refs), R, key)[i]
    {
      assert refs'[i + 1] == if i < R then refs[i + 1] else if i == R then x else refs[i];
    }
  }

  // ---------- removal ----------

  /** Level i of the removal of c, with u before it. */
  function UnlinkAt(mem: Memory, u: Ref, c: Ref, i: nat): Memory
    requires HasTower(mem, u) && HasTower(mem, c) && i < MAX_LEVEL
  {
    if mem[u].forward[i] != Some(c) then SetLink(mem, u, i, Link(mem[u].forward[i], mem[u].span[i] - 1))
    else SetLink(mem, u, i, Link(mem[c].forward[i], mem[u].span[i] + mem[c].span[i] - 1))
  }

  /** The levels below i no longer have the node at position p, the others still do. */
  ghost predicate Unlinked(mem: Memory, was: Memory, refs: seq<Ref>, hs: seq<nat>, p: nat, i: nat)
    requires |hs| == |refs| && p < |refs|
  {
    SameNodes(mem, was) && SameFrom(mem, was, i) && Levels(mem, Less1(refs, p), Less1(hs, p), i)
  }

  lemma UnlinkSets(mem: Memory, u: Ref, c: Ref, i: nat, link: Link, over: Link)
    requires HasTower(mem, u) && HasTower(mem, c) && i < MAX_LEVEL
    requires LinkOf(mem, u, i) == Some(link) && (link.to == Some(c) ==> LinkOf(mem, c, i) == Some(over))
    ensures var r := UnlinkAt(mem, u, c, i);
      && OnlyAt(r, mem, i, u, u)
      && LinkOf(r, u, i) == Some(if link.to == Some(c) then Link(over.to, link.span + over.span - 1) else Link(link.to, link.span - 1))
  {
    hide LinkOf, SetLink, OnlyAt;
    LinkIs(mem, u, i);
    LinkIs(mem, c, i);
    SetOnlyAt(mem, u, u, i, if link.to == Some(c) then Link(over.to, link.span + over.span - 1) else Link(link.to, link.span - 1));
  }

  lemma UnlinkSame(next: Memory, mem: Memory, was: Memory, refs: seq<Ref>, i: nat, u: Ref)
    requires OnlyAt(next, mem, i, u, u) && SameFrom(mem, was, i)
    ensures SameLinks(next, was, refs, i, u) && SameFrom(next, was, i + 1)
  {
    hide LinkOf, SameNodes;
  }

  lemma LevelLink(was: Memory, refs: seq<Ref>, hs: seq<nat>, l: nat, p: nat)
    requires |hs| == |refs| && Level(was, refs, hs, l) && p < |refs| && hs[p] > l
    ensures LinkOf(was, refs[p], l) == Some(LinkFrom(refs, hs, l, p))
  {
  }

  lemma UnlinkLevel(mem: Memory, was: Memory, refs: seq<Ref>, hs: seq<nat>, R: nat, i: nat, u: Ref, r: nat)
    requires |hs| == |refs| && R + 1 < |refs| && Distinct(refs) && HasTower(mem, u) && HasTower(mem, refs[R + 1])
    requires SameFrom(mem, was, i) && i < MAX_LEVEL
    requires Level(was, refs, hs, i) && Stops(refs, hs, i, R, u, r)
    ensures var next := UnlinkAt(mem, u, refs[R + 1], i);
      && OnlyAt(next, mem, i, u, u) && SameFrom(next, was, i + 1)
      && Level(next, Less1(refs, R + 1), Less1(hs, R + 1), i)
  {
    hide LinkOf, LinkFrom, UnlinkAt, Level, Next, Less1, SameNodes, SameLinks, SameFrom, Distinct, OnlyAt;
    var p := R + 1;
    StopLink(was, refs, hs, i, R, u, r);
    JoinLess1(refs, hs, i, p, r);
    SameFromAt(mem, was, i, u);
    SameFromAt(mem, was, i, refs[p]);
    if hs[p] > i {
      LevelLink(was, refs, hs, i, p);
    }
    UnlinkSets(mem, u, refs[p], i, LinkFrom(refs, hs, i, r), LinkFrom(refs, hs, i, p));
    var next := UnlinkAt(mem, u, refs[p], i);
    UnlinkSame(next, mem, was, refs, i, u);
    RemoveLevel(next, was, refs, hs, i, p, r);
  }

  lemma UnlinkStep(mem: Memory, was: Memory, refs: seq<Ref>, hs: seq<nat>, R: nat, i: nat, u: Ref, r: nat)
    requires |hs| == |refs| && R + 1 < |refs| && Distinct(refs) && HasTower(mem, u) && HasTower(mem, refs[R + 1])
    requires Unlinked(mem, was, refs, hs, R + 1, i) && i < MAX_LEVEL
    requires Level(was, refs, hs, i) && Stops(refs, hs, i, R, u, r)
    ensures Unlinked(UnlinkAt(mem, u, refs[R + 1], i), was, refs, hs, R + 1, i + 1)
  {
    hide LinkOf, HasTower, UnlinkAt, Level, Levels, Next, Less1, SameNodes, SameFrom, Distinct, OnlyAt, Stops;
    UnlinkLevel(mem, was, refs, hs, R, i, u, r);
    var next := UnlinkAt(mem, u, refs[R + 1], i);
    OnlyAtNodes(next, mem, i, u, u);
    SameNodesTrans(next, mem, was);
    LevelsPlus(next, mem, Less1(refs, R + 1), Less1(hs, R + 1), i, u, u);
  }

  lemma UnlinkedStart(mem: Memory, refs: seq<Ref>, hs: seq<nat>, p: nat)
    requires |hs| == |refs| && p < |refs|
    ensures Unlinked(mem, mem, refs, hs, p, 0)
  {
  }

  lemma UnlinkedNodes(mem: Memory, was: Memory, refs: seq<Ref>, hs: seq<nat>, p: nat, i: nat)
    requires |hs| == |refs| && p < |refs| && Unlinked(mem, was, refs, hs, p, i)
    ensures SameNodes(mem, was) && SameFrom(mem, was, i) && Levels(mem, Less1(refs, p), Less1(hs, p), i)
  {
  }

  method Unlink(was: Memory, update: seq<Ref>, rank: seq<nat>, c: Ref, ghost refs: seq<Ref>, ghost hs: seq<nat>)
    returns (mem: Memory)
    requires |hs| == |refs| && |update| == |rank| <= MAX_LEVEL && |rank| >= 1
    requires rank[0] + 1 < |refs| && c == refs[rank[0] + 1] && Found(refs, hs, rank[0], update, rank, 0)
    requires Distinct(refs) && Towers(was, refs) && Levels(was, refs, hs, |rank|)
    ensures Unlinked(mem, was, refs, hs, rank[0] + 1, |rank|)
  {
    hide HasTower, Distinct, Found, Unlinked, Level, Levels, UnlinkAt, Stops, SameNodes;
    mem := was;
    ghost var p := rank[0] + 1;
    UnlinkedStart(was, refs, hs, p);
    var i := 0;
    while i < |rank|
      invariant 0 <= i <= |rank| && Unlinked(mem, was, refs, hs, p, i)
    {
      UnlinkedNodes(mem, was, refs, hs, p, i);
      LevelsAt(was, refs, hs, |rank|, i);
      TowersKept(mem, was, refs);
      FoundAt(mem, refs, hs, rank[0], update, rank, i);
      UnlinkStep(mem, was, refs, hs, rank[0], i, update[i], rank[i]);
      mem := UnlinkAt(mem, update[i], c, i);
      i := i + 1;
    }
  }

  lemma RemoveShape(mem: Memory, was: Memory, refs: seq<Ref>, hs: seq<nat>, level: nat, p: nat)
    requires Shape(was, refs, hs, level) && 1 <= p < |refs| && Towers(mem, Less1(refs, p))
    ensures Shape(mem, Less1(refs, p), Less1(hs, p), level)
  {
    hide HasTower;
  }

  lemma RemoveKeys(mem: Memory, was: Memory, refs: seq<Ref>, R: nat)
    requires R + 1 < |refs| && (forall p :: 0 <= p < |refs| ==> refs[p] in was)
    requires Towers(mem, Less1(refs, R + 1))
    requires forall p :: 0 <= p < |refs| && refs[p] in mem ==> mem[refs[p]].key == was[refs[p]].key
    ensures Keys(mem, Less1(refs, R + 1)) == Less1(Keys(was, refs), R)
  {
    var refs' := Less1(refs, R + 1);
    forall i | 0 <= i < |refs| - 2
      ensures Keys(mem, refs')[i] == Less1(Keys(was, refs), R)[i]
    {
      assert refs'[i + 1] == refs[if i < R then i + 1 else i + 2];
    }
  }

  /** The list without the node at position R + 1. Its level may still be too high. */
  lemma RemoveGood(mem: Memory, was: Memory, refs: seq<Ref>, hs: seq<nat>, level: nat, key: ZKey)
    requires Good(was, refs, hs, level) && key in Keys(was, refs)
    requires var R := CountLess(Keys(was, refs), key);
      R + 1 < |refs| && Levels(mem, Less1(refs, R + 1), Less1(hs, R + 1), level) && Towers(mem, Less1(refs, R + 1))
    requires forall p :: 0 <= p < |refs| && refs[p] in mem ==> mem[refs[p]].key == was[refs[p]].key
    requires HasTower(mem, HEAD) && NothingAbove(mem, level)
    ensures var R := CountLess(Keys(was, refs), key);
      var refs', hs' := Less1(refs, R + 1), Less1(hs, R + 1);
      Good(mem, refs', hs', level) && Keys(mem, refs') == Remove(Keys(was, refs), key)
  {
    hide Levels, NothingAbove, Sorted, Remove, CountLess, Less1, Keys, Distinct;
    var R := CountLess(Keys(was, refs), key);
    RemoveAtCount(Keys(was, refs), key);
    RemoveSorted(Keys(was, refs), key);
    RemoveShape(mem, was, refs, hs, level, R + 1);
    RemoveKeys(mem, was, refs, R);
  }

  /** A level on which the head leads nowhere has no towers. */
  lemma LowerGood(mem: Memory, refs: seq<Ref>, hs: seq<nat>, level: nat)
    requires Good(mem, refs, hs, level) && level > 1 && mem[HEAD].forward[level - 1] == None
    ensures Good(mem, refs, hs, level - 1)
  {
    LevelLink(mem, refs, hs, level - 1, 0);
    NextSpec(hs, 1, level - 1);
    hide Next, Level, Keys, Sorted;
  }

  /** What follows the node where the search stopped on the lowest level. */
  lemma NodeAfter(mem: Memory, refs: seq<Ref>, hs: seq<nat>, level: nat, R: nat, u: Ref)
    requires Good(mem, refs, hs, level) && R < |refs| && u == refs[R]
    ensures HasTower(mem, u) && mem[u].forward[0] == (if R + 1 == |refs| then None else Some(refs[R + 1]))
  {
    assert hs[R] > 0;
    LevelLink(mem, refs, hs, 0, R);
    NextIs(hs, R + 1, 0, R + 1);
    hide Next, Level, Keys, Sorted;
  }

  lemma MemberAtCount(z: seq<ZKey>, key: ZKey)
    requires Sorted(z)
    ensures key in z <==> CountLess(z, key) < |z| && z[CountLess(z, key)] == key
  {
    if key in z {
      RemoveAtCount(z, key);
    }
  }

  lemma GoodSorted(mem: Memory, refs: seq<Ref>, hs: seq<nat>, level: nat)
    requires Good(mem, refs, hs, level)
    ensures Sorted(Keys(mem, refs))
  {
  }

  lemma GoodCounts(mem: Memory, refs: seq<Ref>, hs: seq<nat>, level: nat)
    requires Good(mem, refs, hs, level)
    ensures 1 <= level <= MAX_LEVEL && |hs| == |refs| >= 1 && refs[0] == HEAD && Distinct(refs) && Towers(mem, refs)
    ensures Levels(mem, refs, hs, level) && NothingAbove(mem, level)
  {
  }

  lemma {:induction false} RemoveAbsent(z: seq<ZKey>, key: ZKey)
    requires key !in z
    ensures Remove(z, key) == z
  {
    if z != [] {
      RemoveAbsent(z[1..], key);
      assert z[0] in z;
    }
  }

  lemma Allocated(mem: Memory, x: Ref, key: ZKey, refs: seq<Ref>, hs: seq<nat>, n: nat)
    requires |hs| == |refs| && x !in mem && Towers(mem, refs) && Levels(mem, refs, hs, n)
    ensures var m := mem[x := Node(key, seq(MAX_LEVEL, _ => None), seq(MAX_LEVEL, _ => 0))];
      x !in refs && HasTower(m, x) && Towers(m, refs) && Levels(m, refs, hs, n)
  {
    var m := mem[x := Node(key, seq(MAX_LEVEL, _ => None), seq(MAX_LEVEL, _ => 0))];
    forall l | 0 <= l < n
      ensures Level(m, refs, hs, l)
    {
      assert Level(mem, refs, hs, l);
      LevelKept(m, mem, refs, hs, l);
    }
  }

  method InsertNode(mem: Memory, level: nat, size: nat, x: Ref, key: ZKey, newLevel: nat,
                    update0: seq<Ref>, rank0: seq<nat>, ghost refs: seq<Ref>, ghost hs: seq<nat>)
    returns (m: Memory, top: nat)
    requires Good(mem, refs, hs, level) && size == |refs| - 1 && key !in Keys(mem, refs) && x !in mem
    requires 1 <= newLevel <= MAX_LEVEL && |update0| == |rank0| == level
    requires rank0[0] == CountLess(Keys(mem, refs), key) && Found(refs, hs, rank0[0], update0, rank0, 0)
    ensures var p := CountLess(Keys(mem, refs), key) + 1;
      && Good(m, With(refs, p, x), With(hs, p, newLevel), top)
      && Keys(m, With(refs, p, x)) == Insert(Keys(mem, refs), key)
      && m.Keys == mem.Keys + {x}
  {
    GoodCounts(mem, refs, hs, level);
    hide CountLess, Less, Found, Good, Insert, Levels, NothingAbove, Distinct, Towers, HasTower, Spliced, SameNodes, SameFrom;
    var update, rank;
    m, update, rank := Raise(mem, level, newLevel, size, update0, rank0, refs, hs, rank0[0]);
    assert rank[0] == rank[..level][0];
    ghost var raised := m;
    TowersKept(m, mem, refs);
    SameNodesKeys(m, mem);
    Allocated(m, x, key, refs, hs, |rank|);
    m := m[x := Node(key, seq(MAX_LEVEL, _ => None), seq(MAX_LEVEL, _ => 0))];
    ghost var was := m;
    m := Splice(m, update, rank, x, newLevel, level, refs, hs);
    top := |rank|;
    InsertedAll(m, was, raised, mem, refs, hs, level, top, key, x, newLevel);
  }

  lemma SameNodesKeys(mem: Memory, was: Memory)
    requires SameNodes(mem, was)
    ensures mem.Keys == was.Keys && forall x :: x in was ==> mem[x].key == was[x].key
  {
  }

  lemma InsertedAll(m: Memory, was: Memory, raised: Memory, mem: Memory, refs: seq<Ref>, hs: seq<nat>,
                    level: nat, top: nat, key: ZKey, x: Ref, h: nat)
    requires Good(mem, refs, hs, level) && key !in Keys(mem, refs) && x !in mem && x !in refs
    requires level <= top <= MAX_LEVEL && 1 <= h <= top
    requires SameNodes(raised, mem) && raised[HEAD].forward == mem[HEAD].forward
    requires was == raised[x := Node(key, seq(MAX_LEVEL, _ => None), seq(MAX_LEVEL, _ => 0))]
    requires CountLess(Keys(mem, refs), key) < |refs|
    requires Spliced(m, was, refs, hs, CountLess(Keys(mem, refs), key), x, h, top)
    ensures var p := CountLess(Keys(mem, refs), key) + 1;
      && Good(m, With(refs, p, x), With(hs, p, h), top)
      && Keys(m, With(refs, p, x)) == Insert(Keys(mem, refs), key)
      && m.Keys == mem.Keys + {x}
  {
    hide CountLess, Less, Insert, Levels, Keys, Sorted, Distinct, With;
    SplicedNodes(m, was, refs, hs, CountLess(Keys(mem, refs), key), x, h, top);
    assert HasTower(was, x) && HasTower(raised, HEAD);
    forall p | 0 <= p < |refs|
      ensures HasTower(m, refs[p]) && m[refs[p]].key == mem[refs[p]].key
    {
      assert HasTower(mem, refs[p]);
      assert HasTower(raised, refs[p]);
      assert HasTower(was, refs[p]);
    }
    HeadAbove(m, was, top);
    InsertGood(m, mem, refs, hs, level, top, key, x, h);
  }

  lemma HeadAbove(m: Memory, was: Memory, top: nat)
    requires HasTower(m, HEAD) && HasTower(was, HEAD) && SameFrom(m, was, top) && NothingAbove(was, top)
    ensures NothingAbove(m, top)
  {
    forall l | top <= l < MAX_LEVEL
      ensures m[HEAD].forward[l] == None
    {
      assert LinkOf(m, HEAD, l) == LinkOf(was, HEAD, l);
    }
  }

  method RemoveNode(mem: Memory, level: nat, key: ZKey, c: Ref, update: seq<Ref>, rank: seq<nat>,
                    ghost refs: seq<Ref>, ghost hs: seq<nat>)
    returns (m: Memory, top: nat)
    requires Good(mem, refs, hs, level) && key in Keys(mem, refs) && |update| == |rank| == level
    requires rank[0] == CountLess(Keys(mem, refs), key) && rank[0] + 1 < |refs| && c == refs[rank[0] + 1]
    requires Found(refs, hs, rank[0], update, rank, 0)
    ensures var p := rank[0] + 1;
      && Good(m, Less1(refs, p), Less1(hs, p), top)
      && Keys(m, Less1(refs, p)) == Remove(Keys(mem, refs), key)
      && m.Keys <= mem.Keys
  {
    GoodCounts(mem, refs, hs, level);
    hide CountLess, Less, Found, Good, Remove, Levels, Distinct, Towers, Unlinked, SameNodes, SameFrom;
    m := Unlink(mem, update, rank, c, refs, hs);
    RemovedAll(m, mem, refs, hs, level, key, c);
    m := m - {c};
    top := level;
    GoodCounts(m, Less1(refs, rank[0] + 1), Less1(hs, rank[0] + 1), top);
    while top > 1 && m[HEAD].forward[top - 1] == None
      invariant 1 <= top <= MAX_LEVEL && HasTower(m, HEAD)
      invariant Good(m, Less1(refs, rank[0] + 1), Less1(hs, rank[0] + 1), top)
    {
      LowerGood(m, Less1(refs, rank[0] + 1), Less1(hs, rank[0] + 1), top);
      top := top - 1;
    }
  }

  lemma RemovedAll(m: Memory, mem: Memory, refs: seq<Ref>, hs: seq<nat>, level: nat, key: ZKey, c: Ref)
    requires Good(mem, refs, hs, level) && key in Keys(mem, refs)
    requires var R := CountLess(Keys(mem, refs), key);
      R + 1 < |refs| && c == refs[R + 1] && Unlinked(m, mem, refs, hs, R + 1, level)
    ensures var p := CountLess(Keys(mem, refs), key) + 1;
      && Good(m - {c}, Less1(refs, p), Less1(hs, p), level)
      && Keys(m - {c}, Less1(refs, p)) == Remove(Keys(mem, refs), key)
      && (m - {c}).Keys <= mem.Keys && HasTower(m - {c}, HEAD)
  {
    hide CountLess, Less, Remove, Keys, Sorted;
    var p := CountLess(Keys(mem, refs), key) + 1;
    var refs', hs' := Less1(refs, p), Less1(hs, p);
    UnlinkedNodes(m, mem, refs, hs, p, level);
    forall i | 0 <= i < |refs'|
      ensures HasTower(m - {c}, refs'[i])
    {
      assert refs'[i] == refs[if i < p then i else i + 1];
      assert HasTower(mem, refs'[i]);
    }
    forall l | 0 <= l < level
      ensures Level(m - {c}, refs', hs', l)
    {
      LevelsAt(m, refs', hs', level, l);
      hide Level;
      LevelKept(m - {c}, m, refs', hs', l);
    }
    assert refs'[0] == HEAD;
    HeadAbove(m, mem, level);
    RemoveGood(m - {c}, mem, refs, hs, level, key);
  }

  // ---------- the object ----------

  class SkipList {
    var mem: Memory
    var level: nat
    var size: nat
    /** The allocator's next address. */
    var nextRef: Ref
    ghost var refs: seq<Ref>
    ghost var hs: seq<nat>

    ghost predicate Valid()
      reads this
    {
      Good(mem, refs, hs, level) && size == |refs| - 1 && forall y :: y in mem ==> y < nextRef
    }

    ghost function Contents(): (keys: seq<ZKey>)
      requires Valid()
      reads this
    {
      Keys(mem, refs)
    }

    constructor ()
      ensures Valid() && Contents() == []
    {
      mem := map[HEAD := Node(ZKey(0, ""), seq(MAX_LEVEL, _ => None), seq(MAX_LEVEL, _ => 0))];
      level, size, nextRef := 1, 0, 1;
      refs, hs := [HEAD], [MAX_LEVEL];
    }

    /** The key just after the search position, if it is the key sought. */
    method Locate(key: ZKey) returns (update: seq<Ref>, rank: seq<nat>, node: Option<Ref>)
      requires Valid()
      ensures |update| == |rank| == level >= 1 && rank[0] == CountLess(Contents(), key) < |refs| == |hs|
      ensures Found(refs, hs, rank[0], update, rank, 0)
      ensures key in Contents() ==> rank[0] + 1 < |refs|
      ensures node == if key in Contents() then Some(refs[rank[0] + 1]) else None
    {
      hide CountLess, Sorted, Less, Levels, NothingAbove;
      update, rank := Search(mem, level, key, refs, hs);
      SearchEnd(mem, refs, hs, level, key, update, rank);
      MemberAtCount(Keys(mem, refs), key);
      var curr := mem[update[0]].forward[0];
      node := if curr.Some? && mem[curr.value].key == key then curr else None;
    }

    /** insert; newLevel is what randomLevel drew. */
    method Add(key: ZKey, newLevel: nat)
      requires Valid() && 1 <= newLevel <= MAX_LEVEL
      modifies this
      ensures Valid() && Contents() == Insert(old(Contents()), key)
    {
      hide CountLess, Less, Found, Good, Insert;
      var update, rank, node := Locate(key);
      if node.Some? {
        GoodSorted(mem, refs, hs, level);
        InsertSame(Contents(), key);
        return;
      }
      ghost var p := rank[0] + 1;
      mem, level := InsertNode(mem, level, size, nextRef, key, newLevel, update, rank, refs, hs);
      refs, hs := With(refs, p, nextRef), With(hs, p, newLevel);
      size, nextRef := size + 1, nextRef + 1;
    }

    method Delete(key: ZKey) returns (found: bool)
      requires Valid()
      modifies this
      ensures Valid() && Contents() == Remove(old(Contents()), key)
      ensures found <==> key in old(Contents())
    {
      hide CountLess, Less, Found, Good, Remove;
      var update, rank, node := Locate(key);
      if node.None? {
        RemoveAbsent(Contents(), key);
        return false;
      }
      ghost var p := rank[0] + 1;
      mem, level := RemoveNode(mem, level, key, node.value, update, rank, refs, hs);
      refs, hs := Less1(refs, p), Less1(hs, p);
      size := size - 1;
      return true;
    }

    method Contains(key: ZKey) returns (found: bool)
      requires Valid()
      ensures found <==> key in Contents()
    {
      hide Good, Found;
      var update, rank, node := Locate(key);
      found := node.Some?;
    }

    method GetByIndex(index: int) returns (key: Option<ZKey>)
      requires Valid()
      ensures key == if 0 <= index < |Contents()| then Some(Contents()[index]) else None
    {
      hide Good;
      GoodCounts(mem, refs, hs, level);
      if index < 0 || index >= size {
        return None;
      }
      NodeAfter(mem, refs, hs, level, 0, HEAD);
      var curr := mem[HEAD].forward[0];
      var i := 0;
      while i < index
        invariant 0 <= i <= index && curr == Some(refs[i + 1])
      {
        NodeAfter(mem, refs, hs, level, i + 1, refs[i + 1]);
        curr := mem[curr.value].forward[0];
        i := i + 1;
      }
      return Some(mem[curr.value].key);
    }

    /** The position of the key, or -1. */
    method GetRank(key: ZKey) returns (r: int)
      requires Valid()
      ensures key in Contents() ==> 0 <= r < |Contents()| && Contents()[r] == key
      ensures key !in Contents() ==> r == -1
    {
      GoodSorted(mem, refs, hs, level);
      hide Good, Found, CountLess, Sorted;
      MemberAtCount(Contents(), key);
      var update, rank, node := Locate(key);
      r := if node.Some? then rank[0] else -1;
    }
  }

  lemma SearchEnd(mem: Memory, refs: seq<Ref>, hs: seq<nat>, level: nat, key: ZKey, update: seq<Ref>, rank: seq<nat>)
    requires Good(mem, refs, hs, level) && |update| == |rank| == level
    requires rank[0] == CountLess(Keys(mem, refs), key) && Found(refs, hs, rank[0], update, rank, 0)
    ensures var R := rank[0];
      && R < |refs| && update[0] == refs[R] && HasTower(mem, update[0])
      && mem[update[0]].forward[0] == (if R + 1 == |refs| then None else Some(refs[R + 1]))
  {
    assert Stops(refs, hs, 0, rank[0], update[0], rank[0]);
    hide LastBefore, CountLess, Levels, NothingAbove, Sorted, Found;
    NodeAfter(mem, refs, hs, level, rank[0], update[0]);
  }
}
