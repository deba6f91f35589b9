/** The order of sorted-set entries and the sequence a sorted-set index holds. */
module SortedSet {

  /** Scores are a total order with addition; not-a-number does not occur. */
  type Score = int

  datatype ZKey = ZKey(score: Score, member: string)

  predicate StringLess(a: string, b: string) {
    if b == [] then false
    else if a == [] then true
    else if a[0] == b[0] then StringLess(a[1..], b[1..])
    else a[0] < b[0]
  }

  /** ZSetKey::operator<. */
  predicate Less(a: ZKey, b: ZKey) {
    if a.score != b.score then a.score < b.score else StringLess(a.member, b.member)
  }

  lemma {:induction false} StringTrichotomy(a: string, b: string)
    ensures a == b || StringLess(a, b) || StringLess(b, a)
    ensures StringLess(a, b) ==> a != b && !StringLess(b, a)
  {
    if a != [] && b != [] && a[0] == b[0] {
      StringTrichotomy(a[1..], b[1..]);
      assert a == [a[0]] + a[1..] && b == [b[0]] + b[1..];
    }
  }

  lemma {:induction false} StringTransitive(a: string, b: string, c: string)
    requires StringLess(a, b) && StringLess(b, c)
    ensures StringLess(a, c)
  {
    if a != [] && a[0] == b[0] && b[0] == c[0] {
      StringTransitive(a[1..], b[1..], c[1..]);
    }
  }

  lemma Trichotomy(a: ZKey, b: ZKey)
    ensures a == b || Less(a, b) || Less(b, a)
    ensures Less(a, b) ==> a != b && !Less(b, a)
  {
    StringTrichotomy(a.member, b.member);
  }

  lemma Transitive(a: ZKey, b: ZKey, c: ZKey)
    requires Less(a, b) && Less(b, c)
    ensures Less(a, c)
  {
    if a.score == b.score == c.score {
      StringTransitive(a.member, b.member, c.member);
    }
  }

  ghost predicate Sorted(z: seq<ZKey>) {
    forall i, j :: 0 <= i < j < |z| ==> Less(z[i], z[j])
  }

  function Insert(z: seq<ZKey>, k: ZKey): seq<ZKey> {
    if z == [] then [k]
    else if Less(z[0], k) then [z[0]] + Insert(z[1..], k)
    else if z[0] == k then z
    else [k] + z
  }

  function Remove(z: seq<ZKey>, k: ZKey): seq<ZKey> {
    if z == [] then []
    else if z[0] == k then z[1..]
    else [z[0]] + Remove(z[1..], k)
  }

  lemma {:induction false} InsertElements(z: seq<ZKey>, k: ZKey, x: ZKey)
    ensures x in Insert(z, k) <==> x in z || x == k
  {
    if z != [] && Less(z[0], k) {
      InsertElements(z[1..], k, x);
      assert z == [z[0]] + z[1..];
    }
  }

  lemma {:induction false} InsertSorted(z: seq<ZKey>, k: ZKey)
    requires Sorted(z)
    ensures Sorted(Insert(z, k))
  {
    if z != [] {
      Trichotomy(z[0], k);
      var r := Insert(z, k);
      if Less(z[0], k) {
        InsertSorted(z[1..], k);
        forall j | 0 < j < |r|
          ensures Less(r[0], r[j])
        {
          InsertElements(z[1..], k, r[j]);
          assert r[j] == Insert(z[1..], k)[j - 1];
        }
      } else if z[0] != k {
        forall j | 0 < j < |r|
          ensures Less(r[0], r[j])
        {
          if j > 1 {
            Transitive(k, z[0], z[j - 1]);
          }
        }
      }
    }
  }

  lemma {:induction false} InsertSame(z: seq<ZKey>, k: ZKey)
    requires Sorted(z) && k in z
    ensures Insert(z, k) == z
  {
    var i :| 0 <= i < |z| && z[i] == k;
    Trichotomy(z[0], k);
    if i > 0 {
      assert Less(z[0], k);
      assert z[1..][i - 1] == k;
      InsertSame(z[1..], k);
    }
  }

  lemma {:induction false} RemoveElements(z: seq<ZKey>, k: ZKey, x: ZKey)
    requires Sorted(z)
    ensures x in Remove(z, k) <==> x in z && x != k
  {
    if z != [] {
      assert z == [z[0]] + z[1..];
      if z[0] == k {
        forall j | 0 < j < |z|
          ensures z[j] != k
        {
          Trichotomy(z[0], z[j]);
        }
      } else {
        RemoveElements(z[1..], k, x);
      }
    }
  }

  lemma {:induction false} RemoveSorted(z: seq<ZKey>, k: ZKey)
    requires Sorted(z)
    ensures Sorted(Remove(z, k))
  {
    if z != [] && z[0] != k {
      RemoveSorted(z[1..], k);
      var r := Remove(z, k);
      forall j | 0 < j < |r|
        ensures Less(r[0], r[j])
      {
        assert r[j] == Remove(z[1..], k)[j - 1];
        RemoveElements(z[1..], k, r[j]);
      }
    }
  }

  /** A sorted sequence is determined by its elements. */
  lemma {:induction false} SortedUnique(a: seq<ZKey>, b: seq<ZKey>)
    requires Sorted(a) && Sorted(b)
    requires forall x :: x in a <==> x in b
    ensures a == b
  {
    assert b != [] ==> b[0] in b;
    if a != [] {
      assert a[0] in a;
      var i :| 0 <= i < |b| && b[i] == a[0];
      assert b[0] in a;
      var j :| 0 <= j < |a| && a[j] == b[0];
      Trichotomy(a[0], b[0]);
      assert a[0] == b[0];
      forall x
        ensures x in a[1..] <==> x in b[1..]
      {
        Trichotomy(x, a[0]);
        if x in a[1..] {
          var m :| 0 <= m < |a[1..]| && a[1..][m] == x;
          assert Less(a[0], a[m + 1]);
          assert x in a;
          assert b == [b[0]] + b[1..];
        }
        if x in b[1..] {
          var m :| 0 <= m < |b[1..]| && b[1..][m] == x;
          assert Less(b[0], b[m + 1]);
          assert x in b;
          assert a == [a[0]] + a[1..];
        }
      }
      SortedUnique(a[1..], b[1..]);
      assert a == [a[0]] + a[1..] && b == [b[0]] + b[1..];
    }
  }

  /** The index holds exactly the entries of the score map. */
  ghost predicate Agrees(z: seq<ZKey>, scores: map<string, Score>) {
    Sorted(z) && forall k :: k in z <==> k.member in scores && scores[k.member] == k.score
  }

  lemma AgreesUnique(a: seq<ZKey>, b: seq<ZKey>, scores: map<string, Score>)
    requires Agrees(a, scores) && Agrees(b, scores)
    ensures a == b
  {
    SortedUnique(a, b);
  }

  lemma InsertAgrees(z: seq<ZKey>, scores: map<string, Score>, member: string, score: Score)
    requires Agrees(z, scores) && member !in scores
    ensures Agrees(Insert(z, ZKey(score, member)), scores[member := score])
  {
    var k := ZKey(score, member);
    InsertSorted(z, k);
    forall x
      ensures x in Insert(z, k) <==> x in z || x == k
    {
      InsertElements(z, k, x);
    }
  }

  lemma RemoveAgrees(z: seq<ZKey>, scores: map<string, Score>, member: string)
    requires Agrees(z, scores) && member in scores
    ensures Agrees(Remove(z, ZKey(scores[member], member)), scores - {member})
  {
    var k := ZKey(scores[member], member);
    RemoveSorted(z, k);
    forall x
      ensures x in Remove(z, k) <==> x in z && x != k
    {
      RemoveElements(z, k, x);
    }
  }

  /** Dropping the old entry and adding the new one is an update of the score map. */
  lemma ReplaceAgrees(z: seq<ZKey>, scores: map<string, Score>, member: string, score: Score)
    requires Agrees(z, scores) && member in scores
    ensures Agrees(Insert(Remove(z, ZKey(scores[member], member)), ZKey(score, member)), scores[member := score])
  {
    RemoveAgrees(z, scores, member);
    InsertAgrees(Remove(z, ZKey(scores[member], member)), scores - {member}, member, score);
    assert (scores - {member})[member := score] == scores[member := score];
  }

  lemma EmptyAgrees(z: seq<ZKey>, scores: map<string, Score>)
    requires Agrees(z, scores)
    ensures z == [] <==> scores == map[]
  {
    if z != [] {
      assert z[0] in z;
    }
    if scores != map[] {
      var m :| m in scores;
      assert ZKey(scores[m], m) in z;
    }
  }

  function Without(z: seq<ZKey>, members: set<string>): seq<ZKey> {
    if z == [] then []
    else if z[0].member in members then Without(z[1..], members)
    else [z[0]] + Without(z[1..], members)
  }

  lemma {:induction false} WithoutElements(z: seq<ZKey>, members: set<string>, x: ZKey)
    ensures x in Without(z, members) <==> x in z && x.member !in members
  {
    if z != [] {
      WithoutElements(z[1..], members, x);
      assert z == [z[0]] + z[1..];
    }
  }

  lemma {:induction false} WithoutSorted(z: seq<ZKey>, members: set<string>)
    requires Sorted(z)
    ensures Sorted(Without(z, members))
  {
    if z != [] {
      WithoutSorted(z[1..], members);
      var r := Without(z[1..], members);
      forall j | 0 <= j < |r|
        ensures Less(z[0], r[j])
      {
        WithoutElements(z[1..], members, r[j]);
      }
    }
  }

  lemma WithoutAgrees(z: seq<ZKey>, scores: map<string, Score>, members: set<string>)
    requires Agrees(z, scores)
    ensures Agrees(Without(z, members), scores - members)
  {
    WithoutSorted(z, members);
    forall x
      ensures x in Without(z, members) <==> x in z && x.member !in members
    {
      WithoutElements(z, members, x);
    }
  }

  /** However the entries were taken out, what is left is the filtered index. */
  lemma DropIsFilter(z: seq<ZKey>, scores: map<string, Score>, members: set<string>, index: seq<ZKey>)
    requires Agrees(z, scores) && Agrees(index, scores - members)
    ensures index == Without(z, members)
  {
    WithoutAgrees(z, scores, members);
    AgreesUnique(index, Without(z, members), scores - members);
  }
}
