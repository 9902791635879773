/**
 Go's string order and its library sort. `slices.Sort` and `slices.SortFunc` are calls into code
 outside the repository; `SortBy` stands for them, and is used only through what is proved here:
 the result is sorted, is a permutation, and is the only one when keys are distinct.
 */
module Ordering {
  import opened Common

  /** `strings.Compare(a, b) <= 0`. */
  predicate LexLe(a: string, b: string) {
    a == [] || (b != [] && (a[0] < b[0] || (a[0] == b[0] && LexLe(a[1..], b[1..]))))
  }

  lemma {:induction false} LexTotal(a: string, b: string)
    ensures LexLe(a, b) || LexLe(b, a)
  {
    if a != [] && b != [] && a[0] == b[0] {
      LexTotal(a[1..], b[1..]);
    }
  }

  lemma {:induction false} LexAntisymmetric(a: string, b: string)
    requires LexLe(a, b) && LexLe(b, a)
    ensures a == b
  {
    if a != [] && b != [] {
      LexAntisymmetric(a[1..], b[1..]);
      assert a == [a[0]] + a[1..] && b == [b[0]] + b[1..];
    }
  }

  lemma {:induction false} LexTransitive(a: string, b: string, c: string)
    requires LexLe(a, b) && LexLe(b, c)
    ensures LexLe(a, c)
  {
    if a != [] && a[0] == b[0] && b[0] == c[0] {
      LexTransitive(a[1..], b[1..], c[1..]);
    }
  }

  ghost predicate SortedBy<T>(xs: seq<T>, key: T -> string) {
    forall i, j :: 0 <= i < j < |xs| ==> LexLe(key(xs[i]), key(xs[j]))
  }

  function Insert<T>(x: T, xs: seq<T>, key: T -> string): seq<T> {
    if xs == [] || LexLe(key(x), key(xs[0])) then [x] + xs
    else [xs[0]] + Insert(x, xs[1..], key)
  }

  function SortBy<T>(xs: seq<T>, key: T -> string): seq<T> {
    if xs == [] then [] else Insert(xs[0], SortBy(xs[1..], key), key)
  }

  lemma {:induction false} InsertKeeps<T>(x: T, xs: seq<T>, key: T -> string)
    requires SortedBy(xs, key)
    ensures SortedBy(Insert(x, xs, key), key)
    ensures multiset(Insert(x, xs, key)) == multiset(xs) + multiset{x}
    decreases xs
  {
    if xs == [] {
    } else if LexLe(key(x), key(xs[0])) {
      forall j | 0 <= j < |xs|
        ensures LexLe(key(x), key(xs[j]))
      {
        if j > 0 { LexTransitive(key(x), key(xs[0]), key(xs[j])); }
      }
    } else {
      LexTotal(key(x), key(xs[0]));
      var rest := Insert(x, xs[1..], key);
      InsertKeeps(x, xs[1..], key);
      assert xs == [xs[0]] + xs[1..];
      forall j | 0 <= j < |rest|
        ensures LexLe(key(xs[0]), key(rest[j]))
      {
        assert rest[j] in multiset(rest);
        assert rest[j] == x || rest[j] in xs[1..];
      }
    }
  }

  lemma {:induction false} SortByKeeps<T>(xs: seq<T>, key: T -> string)
    ensures SortedBy(SortBy(xs, key), key)
    ensures multiset(SortBy(xs, key)) == multiset(xs)
  {
    if xs != [] {
      SortByKeeps(xs[1..], key);
      InsertKeeps(xs[0], SortBy(xs[1..], key), key);
      assert xs == [xs[0]] + xs[1..];
    }
  }

  lemma SortByMembers<T>(xs: seq<T>, key: T -> string)
    ensures |SortBy(xs, key)| == |xs|
    ensures forall x :: x in SortBy(xs, key) <==> x in xs
  {
    SortByKeeps(xs, key);
    PermutationMembers(SortBy(xs, key), xs);
  }

  lemma PermutationMembers<T>(xs: seq<T>, ys: seq<T>)
    requires multiset(xs) == multiset(ys)
    ensures |xs| == |ys|
    ensures forall x :: x in xs <==> x in ys
  {
    assert |multiset(xs)| == |xs| && |multiset(ys)| == |ys|;
    forall x
      ensures x in xs <==> x in ys
    {
      assert x in xs <==> x in multiset(xs);
      assert x in ys <==> x in multiset(ys);
    }
  }

  ghost predicate DistinctKeys<T>(xs: seq<T>, key: T -> string) {
    forall i, j :: 0 <= i < j < |xs| ==> key(xs[i]) != key(xs[j])
  }

  /** The least key stands first, so two sorted permutations start alike. */
  lemma SortedHeads<T>(xs: seq<T>, ys: seq<T>, key: T -> string)
    requires SortedBy(xs, key) && SortedBy(ys, key) && xs != [] && ys != []
    requires multiset(xs) == multiset(ys) && DistinctKeys(xs, key)
    ensures xs[0] == ys[0]
  {
    PermutationMembers(xs, ys);
    assert xs[0] in xs && ys[0] in ys;
    var i :| 0 <= i < |ys| && ys[i] == xs[0];
    var j :| 0 <= j < |xs| && xs[j] == ys[0];
    LexTotal(key(xs[0]), key(xs[0]));
    assert LexLe(key(xs[0]), key(xs[j])) && LexLe(key(ys[0]), key(ys[i]));
    LexAntisymmetric(key(xs[0]), key(ys[0]));
  }

  lemma TailMultiset<T>(xs: seq<T>)
    requires xs != []
    ensures multiset(xs[1..]) == multiset(xs) - multiset{xs[0]}
  {
    assert xs == [xs[0]] + xs[1..];
  }

  /** With distinct keys there is one sorted arrangement only. */
  lemma {:induction false} SortedUnique<T(!new)>(xs: seq<T>, ys: seq<T>, key: T -> string)
    requires SortedBy(xs, key) && SortedBy(ys, key)
    requires multiset(xs) == multiset(ys) && DistinctKeys(xs, key)
    ensures xs == ys
  {
    PermutationMembers(xs, ys);
    if xs != [] {
      SortedHeads(xs, ys, key);
      TailMultiset(xs);
      TailMultiset(ys);
      SortedUnique(xs[1..], ys[1..], key);
      assert xs == [xs[0]] + xs[1..] && ys == [ys[0]] + ys[1..];
    }
  }

  /** Sorting forgets the order of its input when keys are distinct. */
  lemma SortForgetsOrder<T(!new)>(xs: seq<T>, ys: seq<T>, key: T -> string)
    requires multiset(xs) == multiset(ys) && DistinctKeys(xs, key)
    ensures SortBy(xs, key) == SortBy(ys, key)
  {
    SortByKeeps(xs, key);
    SortByKeeps(ys, key);
    SortKeepsDistinctKeys(xs, key);
    SortedUnique(SortBy(xs, key), SortBy(ys, key), key);
  }

  /** Distinctness of keys survives any permutation. */
  lemma {:induction false} PermutationKeepsDistinctKeys<T>(xs: seq<T>, ys: seq<T>, key: T -> string)
    requires multiset(xs) == multiset(ys) && DistinctKeys(xs, key)
    ensures DistinctKeys(ys, key)
  {
    forall i, j | 0 <= i < j < |ys|
      ensures key(ys[i]) != key(ys[j])
    {
      if key(ys[i]) == key(ys[j]) {
        assert ys[i] in multiset(xs) && ys[j] in multiset(xs);
        var a :| 0 <= a < |xs| && xs[a] == ys[i];
        var b :| 0 <= b < |xs| && xs[b] == ys[j];
        assert a == b;
        CountTwice(ys, i, j);
        CountOnce(xs, a);
        assert false;
      }
    }
  }

  lemma {:induction false} CountTwice<T>(xs: seq<T>, i: nat, j: nat)
    requires i < j < |xs| && xs[i] == xs[j]
    ensures multiset(xs)[xs[i]] >= 2
  {
    assert xs == xs[..i] + [xs[i]] + xs[i + 1..j] + [xs[j]] + xs[j + 1..];
  }

  lemma {:induction false} CountOnce<T>(xs: seq<T>, i: nat)
    requires i < |xs| && (forall j :: 0 <= j < |xs| && j != i ==> xs[j] != xs[i])
    ensures multiset(xs)[xs[i]] == 1
  {
    assert xs == xs[..i] + [xs[i]] + xs[i + 1..];
    assert xs[i] !in xs[..i] && xs[i] !in xs[i + 1..];
  }

  lemma SortKeepsDistinctKeys<T(!new)>(xs: seq<T>, key: T -> string)
    requires DistinctKeys(xs, key)
    ensures DistinctKeys(SortBy(xs, key), key)
  {
    SortByKeeps(xs, key);
    PermutationKeepsDistinctKeys(xs, SortBy(xs, key), key);
  }
}
