/** Shared vocabulary: optional values, and sequence functions used by several components. */
module Prelude {

  /** A value that the source may leave undefined or null. */
  datatype Option<+T> = None | Some(value: T)

  /** An optional string that is present and not empty. */
  predicate Truthy(s: Option<string>) {
    s.Some? && s.value != ""
  }

  /** No value occurs at two positions. */
  ghost predicate Distinct<T(!new)>(xs: seq<T>) {
    forall i, j :: 0 <= i < j < |xs| ==> xs[i] != xs[j]
  }

  function Last<T>(xs: seq<T>): (r: T)
    requires xs != []
  {
    xs[|xs| - 1]
  }

  /** Array.prototype.findIndex, with the length for -1. */
  function FindIndex<T>(xs: seq<T>, p: T -> bool): (i: nat)
    ensures i <= |xs|
    ensures i < |xs| ==> p(xs[i])
    ensures forall j :: 0 <= j < i ==> !p(xs[j])
  {
    if xs == [] || p(xs[0]) then 0 else 1 + FindIndex(xs[1..], p)
  }

  lemma {:induction false} FindIndexConcat<T>(xs: seq<T>, ys: seq<T>, p: T -> bool)
    ensures FindIndex(xs + ys, p) == if FindIndex(xs, p) < |xs| then FindIndex(xs, p) else |xs| + FindIndex(ys, p)
  {
    if xs == [] {
      assert xs + ys == ys;
    } else if !p(xs[0]) {
      FindIndexConcat(xs[1..], ys, p);
      assert (xs + ys)[1..] == xs[1..] + ys;
    }
  }

  /** Array.prototype.filter. */
  function Filter<T>(xs: seq<T>, p: T -> bool): seq<T> {
    if xs == [] then [] else (if p(xs[0]) then [xs[0]] else []) + Filter(xs[1..], p)
  }

  lemma {:induction false} FilterConcat<T>(xs: seq<T>, ys: seq<T>, p: T -> bool)
    ensures Filter(xs + ys, p) == Filter(xs, p) + Filter(ys, p)
  {
    if xs == [] {
      assert xs + ys == ys;
    } else {
      var head := if p(xs[0]) then [xs[0]] else [];
      calc {
        Filter(xs + ys, p);
        { assert (xs + ys)[0] == xs[0] && (xs + ys)[1..] == xs[1..] + ys; }
        head + Filter(xs[1..] + ys, p);
        { FilterConcat(xs[1..], ys, p); }
        head + (Filter(xs[1..], p) + Filter(ys, p));
        (head + Filter(xs[1..], p)) + Filter(ys, p);
        Filter(xs, p) + Filter(ys, p);
      }
    }
  }

  lemma {:induction false} FilterSnoc<T>(xs: seq<T>, p: T -> bool)
    requires xs != []
    ensures Filter(xs, p) == if p(Last(xs)) then Filter(xs[..|xs| - 1], p) + [Last(xs)] else Filter(xs[..|xs| - 1], p)
  {
    FilterConcat(xs[..|xs| - 1], [Last(xs)], p);
    assert xs == xs[..|xs| - 1] + [Last(xs)];
    assert Filter([Last(xs)], p) == if p(Last(xs)) then [Last(xs)] else [];
  }

  /** Filtering twice is filtering by both, and tests that agree on the elements filter alike. */
  lemma {:induction false} FilterTwice<T(!new)>(xs: seq<T>, p: T -> bool, q: T -> bool, both: T -> bool)
    requires forall x :: x in xs ==> both(x) == (p(x) && q(x))
    ensures Filter(Filter(xs, p), q) == Filter(xs, both)
  {
    if xs != [] {
      FilterTwice(xs[1..], p, q, both);
      FilterConcat(if p(xs[0]) then [xs[0]] else [], Filter(xs[1..], p), q);
      assert xs[0] in xs;
      assert Filter([xs[0]], q) == if q(xs[0]) then [xs[0]] else [];
    }
  }

  /** Filtering selects by membership. */
  lemma {:induction false} FilterMember<T(!new)>(xs: seq<T>, p: T -> bool, x: T)
    ensures x in Filter(xs, p) <==> x in xs && p(x)
  {
    if xs != [] { FilterMember(xs[1..], p, x); }
  }

  lemma {:induction false} FilterNone<T(!new)>(xs: seq<T>, p: T -> bool)
    requires forall x :: x in xs ==> !p(x)
    ensures Filter(xs, p) == []
  {
    if xs != [] { FilterNone(xs[1..], p); }
  }
}
