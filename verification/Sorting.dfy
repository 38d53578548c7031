// Sorting a slice in place by a string key, and what makes the result
// independent of the order the slice came in.
module Sorting {
  import opened Text

  // Inserts x behind every element whose key is not greater.
  function Insert<T>(xs: seq<T>, x: T, key: T -> string): seq<T> {
    if xs == [] then [x]
    else if Less(key(x), key(xs[0])) then [x] + xs
    else [xs[0]] + Insert(xs[1..], x, key)
  }

  function Sort<T>(xs: seq<T>, key: T -> string): seq<T> {
    if xs == [] then [] else Insert(Sort(xs[..|xs| - 1], key), xs[|xs| - 1], key)
  }

  ghost predicate SortedBy<T>(xs: seq<T>, key: T -> string) {
    forall i, j | 0 <= i < j < |xs| :: !Less(key(xs[j]), key(xs[i]))
  }

  ghost predicate DistinctKeys<T>(xs: seq<T>, key: T -> string) {
    forall i, j | 0 <= i < j < |xs| :: key(xs[i]) != key(xs[j])
  }

  lemma {:induction false} InsertPermutes<T>(xs: seq<T>, x: T, key: T -> string)
    ensures multiset(Insert(xs, x, key)) == multiset(xs) + multiset{x}
  {
    if xs != [] {
      assert xs == [xs[0]] + xs[1..];
      if !Less(key(x), key(xs[0])) {
        InsertPermutes(xs[1..], x, key);
      }
    }
  }

  lemma {:induction false} SortPermutes<T>(xs: seq<T>, key: T -> string)
    ensures multiset(Sort(xs, key)) == multiset(xs)
    ensures |Sort(xs, key)| == |xs|
  {
    if xs != [] {
      var before, x := xs[..|xs| - 1], xs[|xs| - 1];
      SortPermutes(before, key);
      InsertPermutes(Sort(before, key), x, key);
      assert xs == before + [x];
    }
    assert |multiset(Sort(xs, key))| == |multiset(xs)|;
  }

  lemma NotLessTransitive(a: string, b: string, c: string)
    requires !Less(b, a) && !Less(c, b)
    ensures !Less(c, a)
  {
    LessTotal(a, b);
    if Less(c, a) && a != b {
      LessTransitive(c, a, b);
    }
  }

  // In a sorted sequence the place of x is where the greater keys begin.
  lemma {:induction false} InsertAt<T>(xs: seq<T>, x: T, key: T -> string, at: nat)
    requires at <= |xs|
    requires forall k | 0 <= k < at :: !Less(key(x), key(xs[k]))
    requires at < |xs| ==> Less(key(x), key(xs[at]))
    ensures Insert(xs, x, key) == xs[..at] + [x] + xs[at..]
  {
    if at == 0 {
      assert xs[..0] + [x] + xs[0..] == [x] + xs;
    } else {
      InsertAt(xs[1..], x, key, at - 1);
      assert xs[..at] + [x] + xs[at..] == [xs[0]] + (xs[1..][..at - 1] + [x] + xs[1..][at - 1..]);
    }
  }

  lemma {:induction false} PlaceOf<T>(xs: seq<T>, x: T, key: T -> string) returns (at: nat)
    requires SortedBy(xs, key)
    ensures at <= |xs|
    ensures forall k | 0 <= k < at :: !Less(key(x), key(xs[k]))
    ensures forall k | at <= k < |xs| :: Less(key(x), key(xs[k]))
  {
    if xs == [] || !Less(key(x), key(xs[|xs| - 1])) {
      at := |xs|;
      forall k | 0 <= k < at ensures !Less(key(x), key(xs[k])) {
        LessIrreflexive(key(xs[k]));
        NotLessTransitive(key(xs[k]), key(xs[|xs| - 1]), key(x));
      }
    } else {
      at := PlaceOf(xs[..|xs| - 1], x, key);
    }
  }

  lemma {:induction false} SortSorts<T>(xs: seq<T>, key: T -> string)
    ensures SortedBy(Sort(xs, key), key)
  {
    if xs != [] {
      var sorted, x := Sort(xs[..|xs| - 1], key), xs[|xs| - 1];
      SortSorts(xs[..|xs| - 1], key);
      var at := PlaceOf(sorted, x, key);
      InsertAt(sorted, x, key, at);
      forall k | at <= k < |sorted| ensures !Less(key(sorted[k]), key(x)) {
        if Less(key(sorted[k]), key(x)) {
          LessTransitive(key(x), key(sorted[k]), key(x));
          LessIrreflexive(key(x));
        }
      }
    }
  }

  lemma SameHead<T>(a: seq<T>, b: seq<T>, key: T -> string)
    requires a != [] && b != [] && multiset(a) == multiset(b)
    requires SortedBy(a, key) && SortedBy(b, key) && DistinctKeys(a, key)
    ensures a[0] == b[0]
  {
    assert a[0] in multiset(b) && b[0] in multiset(a);
    var i :| 0 <= i < |a| && a[i] == b[0];
    var j :| 0 <= j < |b| && b[j] == a[0];
    if i > 0 {
      LessTotal(key(a[0]), key(a[i]));
    }
  }

  // Two sorted arrangements of the same elements with distinct keys are equal.
  lemma {:induction false} SortedIsUnique<T>(a: seq<T>, b: seq<T>, key: T -> string)
    requires multiset(a) == multiset(b)
    requires SortedBy(a, key) && SortedBy(b, key) && DistinctKeys(a, key)
    ensures a == b
  {
    assert |multiset(a)| == |a| && |multiset(b)| == |b|;
    if a != [] {
      SameHead(a, b, key);
      assert a == [a[0]] + a[1..] && b == [b[0]] + b[1..];
      assert multiset(a[1..]) == multiset(a) - multiset{a[0]};
      assert multiset(b[1..]) == multiset(b) - multiset{b[0]};
      SortedIsUnique(a[1..], b[1..], key);
    }
  }

  lemma DistinctKeysPermute<T>(a: seq<T>, b: seq<T>, key: T -> string)
    requires multiset(a) == multiset(b) && DistinctKeys(a, key)
    ensures DistinctKeys(b, key)
  {
    forall i, j | 0 <= i < j < |b| ensures key(b[i]) != key(b[j]) {
      if key(b[i]) == key(b[j]) {
        SameKeySameElement(a, b[i], b[j], key);
        RepeatedElement(b, i, j);
        RepeatedTwice(a, b[i]);
      }
    }
  }

  lemma SameKeySameElement<T>(a: seq<T>, x: T, y: T, key: T -> string)
    requires DistinctKeys(a, key) && x in multiset(a) && y in multiset(a) && key(x) == key(y)
    ensures x == y
  {}

  lemma RepeatedElement<T>(b: seq<T>, i: nat, j: nat)
    requires i < j < |b| && b[i] == b[j]
    ensures multiset(b)[b[i]] >= 2
  {
    assert b == b[..j] + [b[j]] + b[j + 1..];
    assert b[i] in multiset(b[..j]);
  }

  lemma {:induction false} RepeatedTwice<T>(a: seq<T>, x: T)
    requires multiset(a)[x] >= 2
    ensures exists i, j :: 0 <= i < j < |a| && a[i] == x && a[j] == x
  {
    var j := |a| - 1;
    assert a == a[..j] + [a[j]];
    if a[j] == x {
      assert x in multiset(a[..j]);
      var i :| 0 <= i < |a[..j]| && a[..j][i] == x;
      assert a[i] == x;
    } else {
      RepeatedTwice(a[..j], x);
      var i, k :| 0 <= i < k < |a[..j]| && a[..j][i] == x && a[..j][k] == x;
      assert a[i] == x && a[k] == x;
    }
  }

  lemma DistinctMultiplicity<T>(a: seq<T>, x: T, key: T -> string)
    requires DistinctKeys(a, key)
    ensures multiset(a)[x] == if x in a then 1 else 0
  {
    if multiset(a)[x] >= 2 {
      RepeatedTwice(a, x);
    }
    assert x in a <==> x in multiset(a);
  }

  function Mapped<T>(xs: seq<T>, f: T -> T): seq<T> {
    seq(|xs|, i requires 0 <= i < |xs| => f(xs[i]))
  }

  lemma {:induction false} InsertMapped<T>(xs: seq<T>, x: T, f: T -> T, key: T -> string)
    requires key(f(x)) == key(x) && forall i | 0 <= i < |xs| :: key(f(xs[i])) == key(xs[i])
    ensures Insert(Mapped(xs, f), f(x), key) == Mapped(Insert(xs, x, key), f)
  {
    if xs != [] && !Less(key(x), key(xs[0])) {
      InsertMapped(xs[1..], x, f, key);
      assert Mapped(xs, f)[1..] == Mapped(xs[1..], f);
    }
  }

  // A change of the elements that leaves their keys alone commutes with sorting.
  lemma {:induction false} SortMapped<T>(xs: seq<T>, f: T -> T, key: T -> string)
    requires forall i | 0 <= i < |xs| :: key(f(xs[i])) == key(xs[i])
    ensures Sort(Mapped(xs, f), key) == Mapped(Sort(xs, key), f)
  {
    if xs != [] {
      var before, x := xs[..|xs| - 1], xs[|xs| - 1];
      assert Mapped(xs, f)[..|xs| - 1] == Mapped(before, f);
      SortMapped(before, f, key);
      SortPermutes(before, key);
      forall i | 0 <= i < |Sort(before, key)|
        ensures key(f(Sort(before, key)[i])) == key(Sort(before, key)[i])
      {
        assert Sort(before, key)[i] in multiset(before);
      }
      InsertMapped(Sort(before, key), x, f, key);
    }
  }

  // The order of the input never reaches the output.
  lemma SortIsCanonical<T>(xs: seq<T>, ys: seq<T>, key: T -> string)
    requires multiset(xs) == multiset(ys) && DistinctKeys(xs, key)
    ensures Sort(xs, key) == Sort(ys, key)
  {
    SortPermutes(xs, key);
    SortPermutes(ys, key);
    SortSorts(xs, key);
    SortSorts(ys, key);
    DistinctKeysPermute(xs, Sort(xs, key), key);
    SortedIsUnique(Sort(xs, key), Sort(ys, key), key);
  }

  // Moves a[i] down to its place among the sorted elements before it.
  method InsertInPlace<T>(a: array<T>, i: nat, key: T -> string)
    requires i < a.Length && SortedBy(a[..i], key)
    modifies a
    ensures a[..i + 1] == Insert(old(a[..i]), old(a[i]), key)
    ensures forall k | i < k < a.Length :: a[k] == old(a[k])
  {
    ghost var sorted := a[..i];
    var x := a[i];
    var j := i;
    while j > 0 && Less(key(x), key(a[j - 1]))
      invariant 0 <= j <= i
      invariant forall k | 0 <= k < j :: a[k] == sorted[k]
      invariant forall k | j < k <= i :: a[k] == sorted[k - 1]
      invariant forall k | i < k < a.Length :: a[k] == old(a[k])
      invariant j < i ==> Less(key(x), key(sorted[j]))
    {
      a[j] := a[j - 1];
      j := j - 1;
    }
    a[j] := x;
    forall k | 0 <= k < j ensures !Less(key(x), key(sorted[k])) {
      LessIrreflexive(key(sorted[k]));
      NotLessTransitive(key(sorted[k]), key(sorted[j - 1]), key(x));
    }
    InsertAt(sorted, x, key, j);
    assert a[..i + 1] == sorted[..j] + [x] + sorted[j..];
  }

  // sort.Strings and sort.Slice, in place.
  method SortInPlace<T>(a: array<T>, key: T -> string)
    modifies a
    ensures a[..] == Sort(old(a[..]), key)
  {
    ghost var was := a[..];
    for i := 0 to a.Length
      invariant a[..i] == Sort(was[..i], key)
      invariant forall k | i <= k < a.Length :: a[k] == was[k]
    {
      SortSorts(was[..i], key);
      InsertInPlace(a, i, key);
      assert was[..i + 1][..i] == was[..i];
    }
    assert a[..] == a[..a.Length] && was == was[..a.Length];
  }
}
