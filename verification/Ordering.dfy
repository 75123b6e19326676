/** Distinct whole numbers in order. */
module Ordering {

  predicate Ascending(xs: seq<int>) {
    forall i, j :: 0 <= i < j < |xs| ==> xs[i] < xs[j]
  }

  predicate Descending(xs: seq<int>) {
    forall i, j :: 0 <= i < j < |xs| ==> xs[i] > xs[j]
  }

  function InsertAscending(xs: seq<int>, x: int): seq<int> {
    if xs == [] then [x]
    else if x < xs[0] then [x] + xs
    else if x == xs[0] then xs
    else [xs[0]] + InsertAscending(xs[1..], x)
  }

  function InsertDescending(xs: seq<int>, x: int): seq<int> {
    if xs == [] then [x]
    else if x > xs[0] then [x] + xs
    else if x == xs[0] then xs
    else [xs[0]] + InsertDescending(xs[1..], x)
  }

  lemma {:induction false} InsertAscendingKeeps(xs: seq<int>, x: int)
    requires Ascending(xs)
    ensures Ascending(InsertAscending(xs, x))
    ensures forall y :: y in InsertAscending(xs, x) <==> y == x || y in xs
  {
    if xs != [] && x > xs[0] {
      InsertAscendingKeeps(xs[1..], x);
      var rest := InsertAscending(xs[1..], x);
      forall i | 0 <= i < |rest|
        ensures xs[0] < rest[i]
      {
        assert rest[i] in rest;
      }
    }
  }

  lemma {:induction false} InsertDescendingKeeps(xs: seq<int>, x: int)
    requires Descending(xs)
    ensures Descending(InsertDescending(xs, x))
    ensures forall y :: y in InsertDescending(xs, x) <==> y == x || y in xs
  {
    if xs != [] && x < xs[0] {
      InsertDescendingKeeps(xs[1..], x);
      var rest := InsertDescending(xs[1..], x);
      forall i | 0 <= i < |rest|
        ensures xs[0] > rest[i]
      {
        assert rest[i] in rest;
      }
    }
  }

  method AnyOf<T>(xs: set<T>) returns (x: T)
    requires xs != {}
    ensures x in xs
  {
    x :| x in xs;
  }

  method AscendingOrder(xs: set<int>) returns (ordered: seq<int>)
    ensures Ascending(ordered) && forall x :: x in ordered <==> x in xs
  {
    ordered := [];
    var rest := xs;
    while rest != {}
      invariant rest <= xs && Ascending(ordered)
      invariant forall x :: x in ordered <==> x in xs && x !in rest
      decreases |rest|
    {
      var x := AnyOf(rest);
      rest := rest - {x};
      InsertAscendingKeeps(ordered, x);
      ordered := InsertAscending(ordered, x);
    }
  }

  method DescendingOrder(xs: set<int>) returns (ordered: seq<int>)
    ensures Descending(ordered) && forall x :: x in ordered <==> x in xs
  {
    ordered := [];
    var rest := xs;
    while rest != {}
      invariant rest <= xs && Descending(ordered)
      invariant forall x :: x in ordered <==> x in xs && x !in rest
      decreases |rest|
    {
      var x := AnyOf(rest);
      rest := rest - {x};
      InsertDescendingKeeps(ordered, x);
      ordered := InsertDescending(ordered, x);
    }
  }

  /** There is only one way to put the same numbers in descending order. */
  lemma {:induction false} DescendingUnique(xs: seq<int>, ys: seq<int>)
    requires Descending(xs) && Descending(ys)
    requires forall x :: x in xs <==> x in ys
    ensures xs == ys
  {
    assert ys != [] ==> ys[0] in ys;
    if xs != [] {
      assert xs[0] in xs && xs[0] in ys;
      assert ys[0] in ys && ys[0] in xs;
      assert xs[0] == ys[0];
      forall x
        ensures x in xs[1..] <==> x in ys[1..]
      {
        assert x in xs[1..] <==> x in xs && x != xs[0];
        assert x in ys[1..] <==> x in ys && x != ys[0];
      }
      DescendingUnique(xs[1..], ys[1..]);
    }
  }
}
