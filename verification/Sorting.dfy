/**
 Python's stable sort by a key.  `Sort` is characterised independently by
 `SortIsTheStableSort`: the only ordered list that keeps each key's elements in place.
 */
module Sorting {
  /** A sort key: a coarse tier, then a value. */
  datatype Rank = Rank(tier: int, value: real)

  predicate Leq(a: Rank, b: Rank) {
    a.tier < b.tier || (a.tier == b.tier && a.value <= b.value)
  }

  function Insert<T>(s: seq<T>, x: T, key: T -> Rank): seq<T> {
    if s == [] || Leq(key(x), key(s[0])) then [x] + s else [s[0]] + Insert(s[1..], x, key)
  }

  function Sort<T>(s: seq<T>, key: T -> Rank): seq<T> {
    if s == [] then [] else Insert(Sort(s[1..], key), s[0], key)
  }

  predicate Sorted<T>(s: seq<T>, key: T -> Rank) {
    forall i, j :: 0 <= i < j < |s| ==> Leq(key(s[i]), key(s[j]))
  }

  /** The elements of one rank, in their order. */
  function OfRank<T>(s: seq<T>, key: T -> Rank, r: Rank): seq<T> {
    if s == [] then []
    else (if key(s[0]) == r then [s[0]] else []) + OfRank(s[1..], key, r)
  }

  ghost predicate SameRanks<T>(s: seq<T>, t: seq<T>, key: T -> Rank) {
    forall r :: OfRank(s, key, r) == OfRank(t, key, r)
  }

  lemma {:induction false} InsertContents<T>(s: seq<T>, x: T, key: T -> Rank)
    ensures multiset(Insert(s, x, key)) == multiset(s) + multiset{x}
    ensures |Insert(s, x, key)| == |s| + 1
  {
    if s != [] && !Leq(key(x), key(s[0])) {
      InsertContents(s[1..], x, key);
      assert s == [s[0]] + s[1..];
    }
  }

  lemma {:induction false} SortContents<T>(s: seq<T>, key: T -> Rank)
    ensures multiset(Sort(s, key)) == multiset(s)
    ensures |Sort(s, key)| == |s|
  {
    if s != [] {
      SortContents(s[1..], key);
      InsertContents(Sort(s[1..], key), s[0], key);
      assert s == [s[0]] + s[1..];
    }
  }

  lemma {:induction false} InsertSorted<T>(s: seq<T>, x: T, key: T -> Rank)
    requires Sorted(s, key)
    ensures Sorted(Insert(s, x, key), key)
  {
    if s != [] && !Leq(key(x), key(s[0])) {
      var rest := Insert(s[1..], x, key);
      InsertSorted(s[1..], x, key);
      InsertContents(s[1..], x, key);
      forall j | 0 <= j < |rest| ensures Leq(key(s[0]), key(rest[j])) {
        assert rest[j] in multiset(rest);
        assert rest[j] == x || rest[j] in s[1..];
      }
    }
  }

  lemma {:induction false} SortSorted<T>(s: seq<T>, key: T -> Rank)
    ensures Sorted(Sort(s, key), key)
  {
    if s != [] {
      SortSorted(s[1..], key);
      InsertSorted(Sort(s[1..], key), s[0], key);
    }
  }

  lemma {:induction false} InsertStable<T>(s: seq<T>, x: T, key: T -> Rank, r: Rank)
    ensures OfRank(Insert(s, x, key), key, r) == OfRank([x] + s, key, r)
  {
    assert ([x] + s)[1..] == s;
    if s != [] && !Leq(key(x), key(s[0])) {
      var rest := Insert(s[1..], x, key);
      InsertStable(s[1..], x, key, r);
      assert ([s[0]] + rest)[1..] == rest;
      assert ([x] + s[1..])[1..] == s[1..];
    }
  }

  lemma {:induction false} SortStable<T>(s: seq<T>, key: T -> Rank, r: Rank)
    ensures OfRank(Sort(s, key), key, r) == OfRank(s, key, r)
  {
    if s != [] {
      var rest := Sort(s[1..], key);
      SortStable(s[1..], key, r);
      InsertStable(rest, s[0], key, r);
      assert ([s[0]] + rest)[1..] == rest;
    }
  }

  lemma {:induction false} OfRankMembers<T>(s: seq<T>, key: T -> Rank, r: Rank)
    ensures forall x :: x in OfRank(s, key, r) <==> x in s && key(x) == r
  {
    if s != [] {
      OfRankMembers(s[1..], key, r);
      assert s == [s[0]] + s[1..];
    }
  }

  /** The head of a sorted list ranks no lower than any element of a list with the same ranks. */
  lemma HeadRanksFirst<T>(s: seq<T>, t: seq<T>, key: T -> Rank)
    requires Sorted(t, key) && SameRanks(s, t, key) && s != []
    ensures t != [] && Leq(key(t[0]), key(s[0]))
  {
    var r := key(s[0]);
    OfRankMembers(s, key, r);
    OfRankMembers(t, key, r);
    assert s[0] in OfRank(s, key, r);
  }

  lemma TailsSameRanks<T>(s: seq<T>, t: seq<T>, key: T -> Rank)
    requires SameRanks(s, t, key) && s != [] && t != [] && key(s[0]) == key(t[0])
    ensures s[0] == t[0] && SameRanks(s[1..], t[1..], key)
  {
    var r := key(s[0]);
    assert OfRank(s, key, r)[0] == s[0] && OfRank(t, key, r)[0] == t[0];
    forall w ensures OfRank(s[1..], key, w) == OfRank(t[1..], key, w) {
      var a, b := OfRank(s, key, w), OfRank(t, key, w);
      if w == r {
        assert a[1..] == OfRank(s[1..], key, w) && b[1..] == OfRank(t[1..], key, w);
      } else {
        assert a == OfRank(s[1..], key, w) && b == OfRank(t[1..], key, w);
      }
    }
  }

  /** Two ordered lists that agree on every rank are equal. */
  lemma {:induction false} SortedByRanksUnique<T>(s: seq<T>, t: seq<T>, key: T -> Rank)
    requires Sorted(s, key) && Sorted(t, key)
    requires SameRanks(s, t, key)
    ensures s == t
  {
    if s != [] {
      HeadRanksFirst(s, t, key);
    }
    if t != [] {
      HeadRanksFirst(t, s, key);
    }
    if s != [] && t != [] {
      TailsSameRanks(s, t, key);
      SortedByRanksUnique(s[1..], t[1..], key);
      assert s == [s[0]] + s[1..] && t == [t[0]] + t[1..];
    }
  }

  /** `Sort(s)` is the one ordered list that keeps the elements of every rank, in their order. */
  lemma SortIsTheStableSort<T>(s: seq<T>, t: seq<T>, key: T -> Rank)
    ensures t == Sort(s, key) <==> Sorted(t, key) && SameRanks(t, s, key)
  {
    if t == Sort(s, key) {
      SortSorted(s, key);
      forall r ensures OfRank(t, key, r) == OfRank(s, key, r) {
        SortStable(s, key, r);
      }
    } else if Sorted(t, key) && SameRanks(t, s, key) {
      SortSorted(s, key);
      forall r ensures OfRank(t, key, r) == OfRank(Sort(s, key), key, r) {
        SortStable(s, key, r);
      }
      SortedByRanksUnique(t, Sort(s, key), key);
      assert false;
    }
  }

  // ----- single elements and pairs -----

  /** The sort begins with the first of the least elements. */
  lemma {:induction false} SortHead<T>(s: seq<T>, key: T -> Rank) returns (k: nat)
    requires s != []
    ensures k < |s| && Sort(s, key) != [] && Sort(s, key)[0] == s[k]
    ensures forall i :: 0 <= i < |s| ==> Leq(key(s[k]), key(s[i])) && (i < k ==> !Leq(key(s[i]), key(s[k])))
  {
    if |s| == 1 {
      k := 0;
    } else {
      var m := SortHead(s[1..], key);
      k := if Leq(key(s[0]), key(s[1..][m])) then 0 else m + 1;
      forall i | 0 <= i < |s| ensures Leq(key(s[k]), key(s[i])) && (i < k ==> !Leq(key(s[i]), key(s[k]))) {
        assert i > 0 ==> s[i] == s[1..][i - 1];
      }
    }
  }

  lemma {:induction false} InsertAt<T>(s: seq<T>, x: T, key: T -> Rank) returns (k: nat)
    ensures k <= |s| && Insert(s, x, key) == s[..k] + [x] + s[k..]
    ensures forall i :: 0 <= i < k ==> !Leq(key(x), key(s[i]))
  {
    if s == [] || Leq(key(x), key(s[0])) {
      k := 0;
    } else {
      var m := InsertAt(s[1..], x, key);
      k := m + 1;
      assert [s[0]] + (s[1..][..m] + [x] + s[1..][m..]) == s[..k] + [x] + s[k..];
      forall i | 0 <= i < k ensures !Leq(key(x), key(s[i])) {
        assert i > 0 ==> s[i] == s[1..][i - 1];
      }
    }
  }

  lemma SortedFrom<T>(s: seq<T>, key: T -> Rank, i: nat) returns (p: nat)
    requires i < |Sort(s, key)|
    ensures p < |s| && s[p] == Sort(s, key)[i]
  {
    SortContents(s, key);
    assert Sort(s, key)[i] in multiset(Sort(s, key));
    p :| 0 <= p < |s| && s[p] == Sort(s, key)[i];
  }

  lemma AfterInsertion<T>(z: seq<T>, x: T, k: nat, m: nat)
    requires k <= |z| && m <= |z|
    ensures (z[..k] + [x] + z[k..])[m] == if m < k then z[m] else if m == k then x else z[m - 1]
  {
  }

  /** Two elements of equal keys stand in the sort as they stood in the list. */
  lemma {:induction false} SortPair<T>(s: seq<T>, key: T -> Rank, i: nat, j: nat) returns (p: nat, q: nat)
    requires i < j < |Sort(s, key)| && key(Sort(s, key)[i]) == key(Sort(s, key)[j])
    ensures p < q < |s| && s[p] == Sort(s, key)[i] && s[q] == Sort(s, key)[j]
  {
    var z, x := Sort(s[1..], key), s[0];
    var k := InsertAt(z, x, key);
    AfterInsertion(z, x, k, i);
    AfterInsertion(z, x, k, j);
    if i == k {
      var m := SortedFrom(s[1..], key, j - 1);
      p, q := 0, m + 1;
    } else {
      var a, b := SortPair(s[1..], key, if i < k then i else i - 1, if j < k then j else j - 1);
      p, q := a + 1, b + 1;
    }
  }
}
