/** Sets of ids as lists in increasing order. */
module Sorting {
  function Elems(xs: seq<nat>): set<nat> {
    set x | x in xs
  }

  predicate NoDup(xs: seq<nat>) {
    forall i, j | 0 <= i < j < |xs| :: xs[i] != xs[j]
  }

  predicate Increasing(xs: seq<nat>) {
    forall i, j | 0 <= i < j < |xs| :: xs[i] < xs[j]
  }

  ghost predicate IsLeast(x: nat, s: set<nat>) {
    x in s && forall y | y in s :: x <= y
  }

  lemma LeastExists(s: set<nat>) returns (x: nat)
    requires s != {}
    ensures IsLeast(x, s)
    decreases s
  {
    x :| x in s;
    if s != {x} {
      var y := LeastExists(s - {x});
      assert forall z | z in s :: z == x || z in s - {x};
      if y < x { x := y; }
    }
  }

  /** The ids of a set in increasing order. */
  function Sorted(s: set<nat>): seq<nat>
    decreases s
  {
    if s == {} then []
    else
      assert exists x :: IsLeast(x, s) by { var x := LeastExists(s); }
      var x :| x in s && forall y | y in s :: x <= y;
      [x] + Sorted(s - {x})
  }

  lemma SortedStarts(s: set<nat>) returns (x: nat)
    requires s != {}
    ensures IsLeast(x, s) && Sorted(s) == [x] + Sorted(s - {x})
  {
    x := Sorted(s)[0];
  }

  lemma Prepend(x: nat, xs: seq<nat>)
    requires Increasing(xs) && forall y | y in Elems(xs) :: x < y
    ensures Increasing([x] + xs) && Elems([x] + xs) == {x} + Elems(xs)
  {
    forall j | 0 <= j < |xs| ensures x < xs[j] {
      assert xs[j] in Elems(xs);
    }
  }

  lemma {:induction false} SortedIs(s: set<nat>)
    ensures Increasing(Sorted(s)) && NoDup(Sorted(s)) && Elems(Sorted(s)) == s
    decreases s
  {
    if s != {} {
      hide Sorted, Increasing, Elems;
      var x := SortedStarts(s);
      SortedIs(s - {x});
      Prepend(x, Sorted(s - {x}));
      IncreasingNoDup([x] + Sorted(s - {x}));
    }
  }

  lemma IncreasingNoDup(xs: seq<nat>)
    requires Increasing(xs)
    ensures NoDup(xs)
  {
  }
}
