/** Small shared vocabulary. */
module Common {
  datatype Option<+T> = None | Some(value: T)

  function Max(a: int, b: int): int {
    if a < b then b else a
  }

  /** The operations seen before the last one. */
  function Front<T>(s: seq<T>): seq<T>
    requires s != []
  {
    s[..|s| - 1]
  }

  function Last<T>(s: seq<T>): T
    requires s != []
  {
    s[|s| - 1]
  }

  /** A Redis key is gone once the clock has passed its deadline; without one it stays. */
  predicate Expired(deadline: Option<int>, now: int) {
    deadline.Some? && now > deadline.value
  }

  // ----- what the elements of a sequence contribute, in order -----

  function Collect<S, T>(s: seq<S>, f: S -> seq<T>): seq<T> {
    if s == [] then [] else Collect(Front(s), f) + f(Last(s))
  }

  lemma CollectSnoc<S, T>(s: seq<S>, x: S, f: S -> seq<T>)
    ensures Collect(s + [x], f) == Collect(s, f) + f(x)
  {
    assert Front(s + [x]) == s;
  }

  lemma CollectOne<S, T>(x: S, f: S -> seq<T>)
    ensures Collect([x], f) == f(x)
  {
    assert Front([x]) == [];
  }

  lemma Assoc<T>(a: seq<T>, b: seq<T>, c: seq<T>)
    ensures a + (b + c) == a + b + c
  {
  }

  lemma {:induction false} CollectAppend<S, T>(a: seq<S>, b: seq<S>, f: S -> seq<T>)
    ensures Collect(a + b, f) == Collect(a, f) + Collect(b, f)
  {
    if b == [] {
      assert a + b == a;
    } else {
      var c, x := Front(b), Last(b);
      CollectAppend(a, c, f);
      assert b == c + [x];
      Assoc(a, c, [x]);
      CollectSnoc(a + c, x, f);
      Assoc(Collect(a, f), Collect(c, f), f(x));
    }
  }

  lemma {:induction false} CollectNone<S, T>(s: seq<S>, f: S -> seq<T>)
    requires forall x :: x in s ==> f(x) == []
    ensures Collect(s, f) == []
  {
    if s != [] {
      assert Last(s) in s;
      CollectNone(Front(s), f);
    }
  }

  /** Whatever was collected came from some element. */
  lemma {:induction false} CollectMember<S, T(!new)>(s: seq<S>, f: S -> seq<T>, y: T) returns (i: nat)
    requires y in Collect(s, f)
    ensures i < |s| && y in f(s[i])
  {
    if y in f(Last(s)) {
      i := |s| - 1;
    } else {
      i := CollectMember(Front(s), f, y);
    }
  }

  lemma {:induction false} CollectKeeps<S, T>(s: seq<S>, f: S -> seq<T>, i: nat, y: T)
    requires i < |s| && y in f(s[i])
    ensures y in Collect(s, f)
  {
    if i < |s| - 1 {
      CollectKeeps(Front(s), f, i, y);
    }
  }

  lemma TwiceMeansTwo<T>(s: seq<T>, i: nat, j: nat)
    requires i < j < |s| && s[i] == s[j]
    ensures multiset(s)[s[i]] >= 2
  {
    var before, after := s[..j], s[j + 1..];
    assert s == before + [s[j]] + after;
    assert before[i] in before;
  }

  // ----- sums over sequences -----

  function Total<T>(s: seq<T>, f: T -> int): int {
    if s == [] then 0 else Total(Front(s), f) + f(Last(s))
  }

  lemma TotalOne<T>(x: T, f: T -> int)
    ensures Total([x], f) == f(x)
  {
    assert Front([x]) == [];
  }

  lemma TotalSnoc<T>(s: seq<T>, x: T, f: T -> int)
    ensures Total(s + [x], f) == Total(s, f) + f(x)
  {
    assert Front(s + [x]) == s;
  }

  lemma {:induction false} TotalAppend<T>(a: seq<T>, b: seq<T>, f: T -> int)
    ensures Total(a + b, f) == Total(a, f) + Total(b, f)
  {
    if b == [] {
      assert a + b == a;
    } else {
      var c, x := Front(b), Last(b);
      TotalAppend(a, c, f);
      assert b == c + [x];
      Assoc(a, c, [x]);
      TotalSnoc(a + c, x, f);
    }
  }

  lemma {:induction false} TotalZero<T>(s: seq<T>, f: T -> int)
    requires forall x :: x in s ==> f(x) == 0
    ensures Total(s, f) == 0
  {
    if s != [] {
      assert Last(s) in s;
      TotalZero(Front(s), f);
    }
  }

  /** Two positive terms of a nonnegative sum make it two at least, one makes it one. */
  lemma {:induction false} TotalAtLeast<T>(s: seq<T>, i: nat, j: nat, f: T -> int)
    requires (forall x :: f(x) >= 0) && i <= j < |s| && f(s[i]) >= 1 && f(s[j]) >= 1
    ensures Total(s, f) >= if i < j then 2 else 1
  {
    if j < |s| - 1 {
      TotalAtLeast(Front(s), i, j, f);
    } else if i < j {
      TotalAtLeast(Front(s), i, i, f);
    } else {
      TotalNonnegative(Front(s), f);
    }
  }

  lemma {:induction false} TotalNonnegative<T>(s: seq<T>, f: T -> int)
    requires forall x :: f(x) >= 0
    ensures Total(s, f) >= 0
  {
    if s != [] {
      TotalNonnegative(Front(s), f);
    }
  }
}
