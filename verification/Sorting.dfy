/** sort.Strings and sort.Ints: the sorted permutation of a list, which is unique. */
module Sorting {

  /** A total order on T. */
  ghost predicate TotalOrder<T(!new)>(le: (T, T) -> bool) {
    && (forall x, y :: le(x, y) || le(y, x))
    && (forall x, y :: le(x, y) && le(y, x) ==> x == y)
    && (forall x, y, z :: le(x, y) && le(y, z) ==> le(x, z))
  }

  predicate IntLe(x: int, y: int) { x <= y }

  /** Go compares strings element by element. */
  predicate StringLe(x: string, y: string) {
    x == "" || (y != "" && (x[0] < y[0] || (x[0] == y[0] && StringLe(x[1..], y[1..]))))
  }

  ghost predicate Sorted<T>(xs: seq<T>, le: (T, T) -> bool) {
    forall i, j :: 0 <= i < j < |xs| ==> le(xs[i], xs[j])
  }

  function Insert<T>(x: T, xs: seq<T>, le: (T, T) -> bool): seq<T> {
    if xs == [] || le(x, xs[0]) then [x] + xs else [xs[0]] + Insert(x, xs[1..], le)
  }

  function Sort<T>(xs: seq<T>, le: (T, T) -> bool): seq<T> {
    if xs == [] then [] else Insert(xs[0], Sort(xs[1..], le), le)
  }

  lemma {:induction false} InsertElements<T>(x: T, xs: seq<T>, le: (T, T) -> bool)
    ensures multiset(Insert(x, xs, le)) == multiset{x} + multiset(xs)
  {
    if xs != [] {
      assert xs == [xs[0]] + xs[1..];
      InsertElements(x, xs[1..], le);
    }
  }

  lemma {:induction false} InsertSorted<T(!new)>(x: T, xs: seq<T>, le: (T, T) -> bool)
    requires TotalOrder(le) && Sorted(xs, le)
    ensures Sorted(Insert(x, xs, le), le)
  {
    if xs != [] && !le(x, xs[0]) {
      InsertSorted(x, xs[1..], le);
      var rest := Insert(x, xs[1..], le);
      forall j | 0 <= j < |rest| ensures le(xs[0], rest[j]) {
        InsertElements(x, xs[1..], le);
        assert rest[j] in multiset(rest);
        assert rest[j] == x || rest[j] in xs[1..];
      }
    }
  }

  /** Sorting meets the library's contract. */
  lemma {:induction false} SortCorrect<T(!new)>(xs: seq<T>, le: (T, T) -> bool)
    requires TotalOrder(le)
    ensures Sorted(Sort(xs, le), le) && multiset(Sort(xs, le)) == multiset(xs)
  {
    if xs != [] {
      SortCorrect(xs[1..], le);
      InsertSorted(xs[0], Sort(xs[1..], le), le);
      InsertElements(xs[0], Sort(xs[1..], le), le);
      assert xs == [xs[0]] + xs[1..];
    }
  }

  lemma {:induction false} InsertCommutes<T(!new)>(x: T, y: T, xs: seq<T>, le: (T, T) -> bool)
    requires TotalOrder(le)
    ensures Insert(x, Insert(y, xs, le), le) == Insert(y, Insert(x, xs, le), le)
  {
    if x != y && xs != [] && !le(x, xs[0]) && !le(y, xs[0]) {
      InsertCommutes(x, y, xs[1..], le);
    }
  }

  function Without<T>(xs: seq<T>, i: nat): seq<T>
    requires i < |xs|
  {
    xs[..i] + xs[i + 1..]
  }

  lemma {:induction false} WithoutElements<T>(xs: seq<T>, i: nat)
    requires i < |xs|
    ensures multiset(Without(xs, i)) == multiset(xs) - multiset{xs[i]}
    ensures xs[i] in multiset(xs)
  {
    assert xs == xs[..i] + [xs[i]] + xs[i + 1..];
  }

  /** Any element can be sorted in last. */
  lemma {:induction false} SortLast<T(!new)>(xs: seq<T>, i: nat, le: (T, T) -> bool)
    requires TotalOrder(le) && i < |xs|
    ensures Sort(xs, le) == Insert(xs[i], Sort(Without(xs, i), le), le)
  {
    if i == 0 {
      assert Without(xs, 0) == xs[1..];
    } else {
      SortLast(xs[1..], i - 1, le);
      InsertCommutes(xs[0], xs[i], Sort(Without(xs[1..], i - 1), le), le);
      assert Without(xs, i)[1..] == Without(xs[1..], i - 1);
    }
  }

  /** Sorting forgets the order of its input. */
  lemma {:induction false} SortForgetsOrder<T(!new)>(xs: seq<T>, ys: seq<T>, le: (T, T) -> bool)
    requires TotalOrder(le) && multiset(xs) == multiset(ys)
    ensures Sort(xs, le) == Sort(ys, le)
    decreases |xs|
  {
    if xs == [] {
      assert |multiset(ys)| == 0;
    } else {
      WithoutElements(xs, 0);
      assert xs[0] in multiset(ys);
      var i :| 0 <= i < |ys| && ys[i] == xs[0];
      WithoutElements(ys, i);
      SortForgetsOrder(Without(xs, 0), Without(ys, i), le);
      SortLast(xs, 0, le);
      SortLast(ys, i, le);
    }
  }

  lemma {:induction false} SortOfSorted<T(!new)>(xs: seq<T>, le: (T, T) -> bool)
    requires Sorted(xs, le)
    ensures Sort(xs, le) == xs
  {
    if xs != [] {
      SortOfSorted(xs[1..], le);
    }
  }

  /** The library's contract leaves no choice: any sorted list of the same elements is this one. */
  lemma {:induction false} SortIsDetermined<T(!new)>(xs: seq<T>, ys: seq<T>, le: (T, T) -> bool)
    requires TotalOrder(le)
    ensures ys == Sort(xs, le) <==> Sorted(ys, le) && multiset(ys) == multiset(xs)
  {
    SortCorrect(xs, le);
    if Sorted(ys, le) && multiset(ys) == multiset(xs) {
      SortForgetsOrder(xs, ys, le);
      SortOfSorted(ys, le);
    }
  }

  /** Lists sort alike exactly when they have the same elements. */
  lemma {:induction false} SortsAlike<T(!new)>(xs: seq<T>, ys: seq<T>, le: (T, T) -> bool)
    requires TotalOrder(le)
    ensures Sort(xs, le) == Sort(ys, le) <==> multiset(xs) == multiset(ys)
  {
    SortCorrect(xs, le);
    SortCorrect(ys, le);
    if multiset(xs) == multiset(ys) {
      SortForgetsOrder(xs, ys, le);
    }
  }

  lemma {:induction false} StringLeTotal(x: string, y: string)
    ensures StringLe(x, y) || StringLe(y, x)
    ensures StringLe(x, y) && StringLe(y, x) ==> x == y
  {
    if x != "" && y != "" && x[0] == y[0] {
      StringLeTotal(x[1..], y[1..]);
      assert x == [x[0]] + x[1..] && y == [y[0]] + y[1..];
    }
  }

  lemma {:induction false} StringLeTransitive(x: string, y: string, z: string)
    requires StringLe(x, y) && StringLe(y, z)
    ensures StringLe(x, z)
  {
    if x != "" && x[0] == y[0] && y[0] == z[0] {
      StringLeTransitive(x[1..], y[1..], z[1..]);
    }
  }

  /** Numbers are sorted upwards. */
  lemma {:induction false} IntsAscend(xs: seq<int>)
    ensures forall i, j :: 0 <= i < j < |Sort(xs, IntLe)| ==> Sort(xs, IntLe)[i] <= Sort(xs, IntLe)[j]
  {
    IntOrder();
    SortCorrect(xs, IntLe);
    forall i, j | 0 <= i < j < |Sort(xs, IntLe)| ensures Sort(xs, IntLe)[i] <= Sort(xs, IntLe)[j] {
      assert IntLe(Sort(xs, IntLe)[i], Sort(xs, IntLe)[j]);
    }
  }

  /** A common first character does not matter. */
  lemma {:induction false} StringLeCons(c: char, x: string, y: string)
    ensures StringLe([c] + x, [c] + y) <==> StringLe(x, y)
  {
    assert ([c] + x)[1..] == x && ([c] + y)[1..] == y;
  }

  /** Nor does a common prefix. */
  lemma {:induction false} StringLeAppend(p: string, x: string, y: string)
    ensures StringLe(p + x, p + y) <==> StringLe(x, y)
  {
    Uncons(p, x);
    Uncons(p, y);
    if p != "" {
      StringLeAppend(p[1..], x, y);
      StringLeCons(p[0], p[1..] + x, p[1..] + y);
    }
  }

  lemma {:induction false} Uncons(p: string, x: string)
    ensures p + x == if p == "" then x else [p[0]] + (p[1..] + x)
  {
  }

  /** Strings are compared at their first difference, and a prefix comes first. */
  lemma {:induction false} StringLeDifference(p: string, x: string, y: string)
    ensures x != "" && y != "" && x[0] != y[0] ==> (StringLe(p + x, p + y) <==> x[0] < y[0])
    ensures StringLe(p, p + y)
  {
    StringLeAppend(p, x, y);
    StringLeAppend(p, "", y);
    assert p + "" == p;
  }

  lemma {:induction false} StringOrder()
    ensures TotalOrder(StringLe)
  {
    forall x, y ensures (StringLe(x, y) || StringLe(y, x)) && (StringLe(x, y) && StringLe(y, x) ==> x == y) {
      StringLeTotal(x, y);
    }
    forall x, y, z | StringLe(x, y) && StringLe(y, z) ensures StringLe(x, z) {
      StringLeTransitive(x, y, z);
    }
  }

  lemma {:induction false} IntOrder()
    ensures TotalOrder(IntLe)
  {
  }
}
