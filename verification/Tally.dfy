/** Totals over a list of threads or objects, and how one change moves them. */
module Tally {

  ghost predicate Distinct<T(!new)>(s: seq<T>) {
    forall i, j :: 0 <= i < j < |s| ==> s[i] != s[j]
  }

  function Sum<W>(ws: seq<W>, f: W -> int): int {
    if ws == [] then 0 else f(ws[0]) + Sum(ws[1..], f)
  }

  function Bag<W, T>(ws: seq<W>, f: W -> multiset<T>): multiset<T> {
    if ws == [] then multiset{} else f(ws[0]) + Bag(ws[1..], f)
  }

  lemma {:induction false} SumUpdate<W>(ws: seq<W>, i: nat, w: W, f: W -> int)
    requires i < |ws|
    ensures Sum(ws[i := w], f) == Sum(ws, f) - f(ws[i]) + f(w)
  {
    if i > 0 {
      SumUpdate(ws[1..], i - 1, w, f);
      assert ws[i := w][1..] == ws[1..][i - 1 := w];
    } else {
      assert ws[0 := w][1..] == ws[1..];
    }
  }

  lemma {:induction false} SumBounds<W>(ws: seq<W>, f: W -> int)
    requires forall w :: 0 <= f(w)
    ensures 0 <= Sum(ws, f)
    ensures forall i :: 0 <= i < |ws| ==> f(ws[i]) <= Sum(ws, f)
  {
    if ws != [] {
      SumBounds(ws[1..], f);
      forall i | 0 <= i < |ws|
        ensures f(ws[i]) <= Sum(ws, f)
      {
        assert i > 0 ==> ws[i] == ws[1..][i - 1];
      }
    }
  }

  lemma {:induction false} SumZero<W>(ws: seq<W>, f: W -> int)
    requires forall i :: 0 <= i < |ws| ==> f(ws[i]) == 0
    ensures Sum(ws, f) == 0
  {
    if ws != [] {
      SumZero(ws[1..], f);
    }
  }

  lemma {:induction false} SumSnoc<W>(ws: seq<W>, w: W, f: W -> int)
    ensures Sum(ws + [w], f) == Sum(ws, f) + f(w)
  {
    if ws != [] {
      SumSnoc(ws[1..], w, f);
      assert (ws + [w])[1..] == ws[1..] + [w];
    } else {
      assert ws + [w] == [w];
    }
  }

  lemma {:induction false} BagUpdate<W, T>(ws: seq<W>, i: nat, w: W, f: W -> multiset<T>)
    requires i < |ws|
    ensures f(ws[i]) <= Bag(ws, f)
    ensures Bag(ws[i := w], f) == Bag(ws, f) - f(ws[i]) + f(w)
  {
    if i > 0 {
      BagUpdate(ws[1..], i - 1, w, f);
      assert ws[i := w][1..] == ws[1..][i - 1 := w];
    } else {
      assert ws[0 := w][1..] == ws[1..];
    }
  }

  lemma {:induction false} BagSnoc<W, T>(ws: seq<W>, w: W, f: W -> multiset<T>)
    ensures Bag(ws + [w], f) == Bag(ws, f) + f(w)
  {
    if ws != [] {
      BagSnoc(ws[1..], w, f);
      assert (ws + [w])[1..] == ws[1..] + [w];
    } else {
      assert ws + [w] == [w];
    }
  }

  lemma {:induction false} BagEmpty<W, T>(ws: seq<W>, f: W -> multiset<T>)
    requires forall i :: 0 <= i < |ws| ==> f(ws[i]) == multiset{}
    ensures Bag(ws, f) == multiset{}
  {
    if ws != [] {
      BagEmpty(ws[1..], f);
    }
  }

  lemma {:induction false} BagSize<W, T>(ws: seq<W>, f: W -> multiset<T>)
    requires forall w :: |f(w)| == 1
    ensures |Bag(ws, f)| == |ws|
  {
    if ws != [] {
      BagSize(ws[1..], f);
    }
  }

  lemma BagHead<W, T>(ws: seq<W>, f: W -> multiset<T>)
    requires ws != []
    ensures Bag(ws, f) == f(ws[0]) + Bag(ws[1..], f)
  {
  }

  lemma BagNone<W, T>(ws: seq<W>, f: W -> multiset<T>)
    ensures ws == [] ==> Bag(ws, f) == multiset{}
  {
  }

  // ---------- occurrences in a list ----------

  function Occurs(s: seq<nat>, id: nat): (n: nat) {
    if s == [] then 0 else (if s[0] == id then 1 else 0) + Occurs(s[1..], id)
  }

  lemma {:induction false} OccursConcat(a: seq<nat>, b: seq<nat>, id: nat)
    ensures Occurs(a + b, id) == Occurs(a, id) + Occurs(b, id)
  {
    if a == [] {
      assert a + b == b;
    } else {
      OccursConcat(a[1..], b, id);
      assert (a + b)[1..] == a[1..] + b;
    }
  }

  lemma OccursOne(x: nat, id: nat)
    ensures Occurs([x], id) == if x == id then 1 else 0
    ensures Occurs([], id) == 0
  {
    var none: seq<nat> := [];
    assert [x][1..] == none;
  }

  lemma {:induction false} OccursThere(s: seq<nat>, i: nat)
    requires i < |s|
    ensures Occurs(s, s[i]) >= 1
  {
    if i > 0 {
      OccursThere(s[1..], i - 1);
    }
  }

  lemma {:induction false} OccursTwice(s: seq<nat>, i: nat, j: nat)
    requires i < j < |s|
    ensures s[i] == s[j] ==> Occurs(s, s[i]) >= 2
  {
    if i > 0 {
      OccursTwice(s[1..], i - 1, j - 1);
    } else {
      OccursThere(s[1..], j - 1);
    }
  }

  lemma OccursHead(s: seq<nat>, id: nat)
    requires s != []
    ensures Occurs(s, id) == (if s[0] == id then 1 else 0) + Occurs(s[1..], id)
  {
  }

  lemma OccursSnoc(s: seq<nat>, x: nat, id: nat)
    ensures Occurs(s + [x], id) == Occurs(s, id) + (if x == id then 1 else 0)
  {
    OccursConcat(s, [x], id);
    OccursOne(x, id);
  }

  lemma OccursCut(s: seq<nat>, i: nat, id: nat)
    requires i < |s|
    ensures Occurs(s[..i] + s[i + 1..], id) == Occurs(s, id) - (if s[i] == id then 1 else 0)
  {
    assert s == s[..i] + [s[i]] + s[i + 1..];
    OccursConcat(s[..i] + [s[i]], s[i + 1..], id);
    OccursSnoc(s[..i], s[i], id);
    OccursConcat(s[..i], s[i + 1..], id);
  }

  lemma {:induction false} OccursMember(s: seq<nat>, id: nat)
    ensures Occurs(s, id) > 0 <==> id in s
  {
    if s != [] {
      OccursMember(s[1..], id);
    }
  }

  /** std::list::remove. */
  function Removed(s: seq<nat>, x: nat): seq<nat> {
    if s == [] then [] else (if s[0] == x then [] else [s[0]]) + Removed(s[1..], x)
  }

  lemma {:induction false} OccursRemoved(s: seq<nat>, x: nat, id: nat)
    ensures Occurs(Removed(s, x), id) == if id == x then 0 else Occurs(s, id)
  {
    if s != [] {
      OccursRemoved(s[1..], x, id);
      OccursConcat(if s[0] == x then [] else [s[0]], Removed(s[1..], x), id);
      OccursOne(s[0], id);
    }
  }
}
