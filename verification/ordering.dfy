/** Stable sorting by a key order, as the scripts' `sorted` does, and when its result is unique. */
module Ordering {

  ghost predicate TotalPreorder<T(!new)>(le: (T, T) -> bool) {
    && (forall x, y :: le(x, y) || le(y, x))
    && (forall x, y, z :: le(x, y) && le(y, z) ==> le(x, z))
  }

  ghost predicate SortedBy<T>(xs: seq<T>, le: (T, T) -> bool) {
    forall i, j :: 0 <= i < j < |xs| ==> le(xs[i], xs[j])
  }

  /** Puts `x` before the first element that is not strictly smaller. */
  function Insert<T>(x: T, xs: seq<T>, le: (T, T) -> bool): seq<T> {
    if xs == [] || le(x, xs[0]) then [x] + xs else [xs[0]] + Insert(x, xs[1..], le)
  }

  function SortBy<T>(xs: seq<T>, le: (T, T) -> bool): seq<T> {
    if xs == [] then [] else Insert(xs[0], SortBy(xs[1..], le), le)
  }

  lemma {:induction false} InsertPermutes<T>(x: T, xs: seq<T>, le: (T, T) -> bool)
    ensures multiset(Insert(x, xs, le)) == multiset{x} + multiset(xs)
  {
    if !(xs == [] || le(x, xs[0])) {
      InsertPermutes(x, xs[1..], le);
      assert xs == [xs[0]] + xs[1..];
    }
  }

  lemma {:induction false} SortPermutes<T>(xs: seq<T>, le: (T, T) -> bool)
    ensures multiset(SortBy(xs, le)) == multiset(xs) && |SortBy(xs, le)| == |xs|
  {
    if xs != [] {
      SortPermutes(xs[1..], le);
      InsertPermutes(xs[0], SortBy(xs[1..], le), le);
      assert xs == [xs[0]] + xs[1..];
    }
    assert |multiset(SortBy(xs, le))| == |SortBy(xs, le)|;
  }

  lemma SortMembers<T>(xs: seq<T>, le: (T, T) -> bool, x: T)
    ensures x in SortBy(xs, le) <==> x in xs
  {
    SortPermutes(xs, le);
    assert x in SortBy(xs, le) <==> x in multiset(SortBy(xs, le));
    assert x in xs <==> x in multiset(xs);
  }

  lemma {:induction false} InsertSorts<T(!new)>(x: T, xs: seq<T>, le: (T, T) -> bool)
    requires TotalPreorder(le) && SortedBy(xs, le)
    ensures SortedBy(Insert(x, xs, le), le)
  {
    if xs == [] {
    } else if le(x, xs[0]) {
      ConsSorted(x, xs, le);
    } else {
      var rest := Insert(x, xs[1..], le);
      InsertSorts(x, xs[1..], le);
      InsertPermutes(x, xs[1..], le);
      assert le(xs[0], x);
      forall y | y in rest ensures le(xs[0], y) {
        assert y in multiset(rest);
        if y != x {
          assert y in xs[1..];
        }
      }
      forall j | 0 <= j < |rest| ensures le(xs[0], rest[j]) { assert rest[j] in rest; }
    }
  }

  lemma ConsSorted<T(!new)>(x: T, xs: seq<T>, le: (T, T) -> bool)
    requires TotalPreorder(le) && SortedBy(xs, le) && xs != [] && le(x, xs[0])
    ensures SortedBy([x] + xs, le)
  {
    forall j | 0 <= j < |xs| ensures le(x, xs[j]) {
      if j > 0 { assert le(xs[0], xs[j]); }
    }
  }

  lemma {:induction false} SortSorts<T(!new)>(xs: seq<T>, le: (T, T) -> bool)
    requires TotalPreorder(le)
    ensures SortedBy(SortBy(xs, le), le)
  {
    if xs != [] {
      SortSorts(xs[1..], le);
      InsertSorts(xs[0], SortBy(xs[1..], le), le);
    }
  }

  /** Members that the order cannot separate are equal. */
  ghost predicate Separates<T>(xs: seq<T>, le: (T, T) -> bool) {
    forall x, y :: x in xs && y in xs && le(x, y) && le(y, x) ==> x == y
  }

  lemma FirstIsLeast<T(!new)>(xs: seq<T>, le: (T, T) -> bool, x: T)
    requires TotalPreorder(le) && SortedBy(xs, le) && x in xs
    ensures le(xs[0], x)
  {
    var i :| 0 <= i < |xs| && xs[i] == x;
    if i == 0 { assert le(x, x); }
  }

  lemma SameFirst<T(!new)>(xs: seq<T>, ys: seq<T>, le: (T, T) -> bool)
    requires TotalPreorder(le) && SortedBy(xs, le) && SortedBy(ys, le)
    requires multiset(xs) == multiset(ys) && Separates(xs, le) && xs != []
    ensures ys != [] && xs[0] == ys[0]
  {
    assert |multiset(xs)| == |xs| && |multiset(ys)| == |ys|;
    assert xs[0] in multiset(ys) && ys[0] in multiset(xs);
    FirstIsLeast(xs, le, ys[0]);
    FirstIsLeast(ys, le, xs[0]);
  }

  lemma TailSorted<T>(xs: seq<T>, le: (T, T) -> bool)
    requires xs != [] && SortedBy(xs, le)
    ensures SortedBy(xs[1..], le) && multiset(xs[1..]) == multiset(xs) - multiset{xs[0]}
  {
    var rest := xs[1..];
    assert xs == [xs[0]] + rest;
    forall i, j | 0 <= i < j < |rest| ensures le(rest[i], rest[j]) {
      assert rest[i] == xs[i + 1] && rest[j] == xs[j + 1];
    }
  }

  /** Two sorted arrangements of the same elements are equal when the order separates them. */
  lemma {:induction false} SortedUnique<T(!new)>(xs: seq<T>, ys: seq<T>, le: (T, T) -> bool)
    requires TotalPreorder(le) && SortedBy(xs, le) && SortedBy(ys, le)
    requires multiset(xs) == multiset(ys) && Separates(xs, le)
    ensures xs == ys
  {
    if xs == [] {
      assert |multiset(ys)| == |ys|;
    } else {
      SameFirst(xs, ys, le);
      TailSorted(xs, le);
      TailSorted(ys, le);
      SortedUnique(xs[1..], ys[1..], le);
      assert xs == [xs[0]] + xs[1..] && ys == [ys[0]] + ys[1..];
    }
  }

  /** Sorting forgets the order of its input when the order separates the elements. */
  lemma SortForgetsOrder<T(!new)>(xs: seq<T>, ys: seq<T>, le: (T, T) -> bool)
    requires TotalPreorder(le) && multiset(xs) == multiset(ys) && Separates(xs, le)
    ensures SortBy(xs, le) == SortBy(ys, le)
  {
    SortPermutes(xs, le);
    SortPermutes(ys, le);
    SortSorts(xs, le);
    SortSorts(ys, le);
    forall x | x in SortBy(xs, le) ensures x in xs { SortMembers(xs, le, x); }
    SortedUnique(SortBy(xs, le), SortBy(ys, le), le);
  }

  // ----- stability -----

  /** The elements that the order cannot separate from `x`, as they stand. */
  function Tied<T>(xs: seq<T>, le: (T, T) -> bool, x: T): seq<T> {
    if xs == [] then []
    else (if le(xs[0], x) && le(x, xs[0]) then [xs[0]] else []) + Tied(xs[1..], le, x)
  }

  lemma TiedCons<T>(y: T, xs: seq<T>, le: (T, T) -> bool, x: T)
    ensures Tied([y] + xs, le, x) == (if le(y, x) && le(x, y) then [y] else []) + Tied(xs, le, x)
  {
    assert ([y] + xs)[1..] == xs;
  }

  lemma {:induction false} InsertIsStable<T(!new)>(y: T, xs: seq<T>, le: (T, T) -> bool, x: T)
    requires TotalPreorder(le)
    ensures Tied(Insert(y, xs, le), le, x) == Tied([y] + xs, le, x)
  {
    if !(xs == [] || le(y, xs[0])) {
      InsertIsStable(y, xs[1..], le, x);
      TiedCons(y, xs, le, x);
      TiedCons(y, xs[1..], le, x);
      TiedCons(xs[0], Insert(y, xs[1..], le), le, x);
    }
  }

  /** Elements that the order cannot separate keep their order. */
  lemma {:induction false} SortIsStable<T(!new)>(xs: seq<T>, le: (T, T) -> bool, x: T)
    requires TotalPreorder(le)
    ensures Tied(SortBy(xs, le), le, x) == Tied(xs, le, x)
  {
    if xs != [] {
      SortIsStable(xs[1..], le, x);
      InsertIsStable(xs[0], SortBy(xs[1..], le), le, x);
      TiedCons(xs[0], SortBy(xs[1..], le), le, x);
    }
  }

  // ----- multiplicities -----

  ghost predicate Distinct<T>(xs: seq<T>) {
    forall i, j :: 0 <= i < j < |xs| ==> xs[i] != xs[j]
  }

  lemma {:induction false} DistinctOnce<T>(xs: seq<T>)
    requires Distinct(xs)
    ensures forall x :: x in xs ==> multiset(xs)[x] == 1
  {
    if xs != [] {
      var rest := xs[1..];
      assert xs == [xs[0]] + rest;
      forall i, j | 0 <= i < j < |rest| ensures rest[i] != rest[j] {
        assert rest[i] == xs[i + 1] && rest[j] == xs[j + 1];
      }
      DistinctOnce(rest);
      forall k | 0 <= k < |rest| ensures rest[k] != xs[0] { assert rest[k] == xs[k + 1]; }
    }
  }

  lemma RepeatedTwice<T>(xs: seq<T>, i: nat, j: nat)
    requires i < j < |xs| && xs[i] == xs[j]
    ensures multiset(xs)[xs[i]] >= 2
  {
    assert xs == xs[..i] + [xs[i]] + xs[i + 1..j] + [xs[j]] + xs[j + 1..];
  }

  /** Two lists without repetition that have the same members are permutations of each other. */
  lemma SameMembers<T>(xs: seq<T>, ys: seq<T>)
    requires Distinct(xs) && Distinct(ys)
    requires forall x :: x in xs <==> x in ys
    ensures multiset(xs) == multiset(ys)
  {
    DistinctOnce(xs);
    DistinctOnce(ys);
    forall x ensures multiset(xs)[x] == multiset(ys)[x] {
      assert x in xs <==> x in multiset(xs);
      assert x in ys <==> x in multiset(ys);
    }
  }

  // ----- strings compare by code point, the shorter prefix first -----

  predicate LexLe(a: string, b: string) {
    if a == [] then true
    else if b == [] then false
    else a[0] < b[0] || (a[0] == b[0] && LexLe(a[1..], b[1..]))
  }

  lemma {:induction false} LexTotal(a: string, b: string)
    ensures LexLe(a, b) || LexLe(b, a)
    ensures LexLe(a, b) && LexLe(b, a) ==> a == b
  {
    if a != [] && b != [] && a[0] == b[0] {
      LexTotal(a[1..], b[1..]);
      assert a == [a[0]] + a[1..] && b == [b[0]] + b[1..];
    }
  }

  lemma {:induction false} LexTransitive(a: string, b: string, c: string)
    requires LexLe(a, b) && LexLe(b, c)
    ensures LexLe(a, c)
  {
    if a != [] && b != [] && c != [] && a[0] == b[0] == c[0] {
      LexTransitive(a[1..], b[1..], c[1..]);
    }
  }

  /** Names compare at the first place where they differ; a name comes before its extensions. */
  lemma {:induction false} LexMeans(a: string, b: string)
    ensures LexLe(a, b) <==> a <= b || exists k :: 0 <= k < |a| && k < |b| && a[..k] == b[..k] && a[k] < b[k]
  {
    forall k | 0 < k <= |a| && k <= |b| && a[..k] == b[..k] ensures a[0] == b[0] {
      assert a[..k][0] == b[..k][0];
    }
    if a != [] && b != [] && a[0] == b[0] {
      var c, d := a[1..], b[1..];
      LexMeans(c, d);
      assert a == [a[0]] + c && b == [b[0]] + d;
      if k :| 0 <= k < |c| && k < |d| && c[..k] == d[..k] && c[k] < d[k] {
        assert a[..k + 1] == [a[0]] + c[..k] && b[..k + 1] == [b[0]] + d[..k];
      }
      if k :| 0 <= k < |a| && k < |b| && a[..k] == b[..k] && a[k] < b[k] {
        assert k > 0 && c[..k - 1] == a[..k][1..] && d[..k - 1] == b[..k][1..];
      }
    } else if a != [] && b != [] && a[0] < b[0] {
      assert a[..0] == b[..0];
    }
  }

  lemma LexOrders()
    ensures TotalPreorder(LexLe)
  {
    forall a, b ensures LexLe(a, b) || LexLe(b, a) { LexTotal(a, b); }
    forall a, b, c | LexLe(a, b) && LexLe(b, c) ensures LexLe(a, c) { LexTransitive(a, b, c); }
  }

  /** Two lists of names with the same members and no repetition sort alike. */
  lemma NamesSortAlike(xs: seq<string>, ys: seq<string>)
    requires Distinct(xs) && Distinct(ys) && forall x :: x in xs <==> x in ys
    ensures SortBy(xs, LexLe) == SortBy(ys, LexLe)
  {
    SameMembers(xs, ys);
    LexOrders();
    forall a, b | LexLe(a, b) && LexLe(b, a) ensures a == b { LexTotal(a, b); }
    SortForgetsOrder(xs, ys, LexLe);
  }
}
