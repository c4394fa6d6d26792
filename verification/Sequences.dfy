/** Sequence functions the dashboard and script models share. */
module Sequences {

  datatype Option<+T> = None | Some(value: T) {
    function UnwrapOr(default: T): T {
      if Some? then value else default
    }
  }

  function Join(parts: seq<string>, separator: string): string {
    if parts == [] then ""
    else if |parts| == 1 then parts[0]
    else parts[0] + separator + Join(parts[1..], separator)
  }

  function Map<A, B>(f: A -> B, xs: seq<A>): (ys: seq<B>)
    ensures |ys| == |xs|
    ensures forall i :: 0 <= i < |xs| ==> ys[i] == f(xs[i])
  {
    if xs == [] then [] else [f(xs[0])] + Map(f, xs[1..])
  }

  function Filter<T>(p: T -> bool, xs: seq<T>): (ys: seq<T>)
    ensures |ys| <= |xs|
    ensures forall i :: 0 <= i < |ys| ==> ys[i] in xs && p(ys[i])
  {
    if xs == [] then [] else (if p(xs[0]) then [xs[0]] else []) + Filter(p, xs[1..])
  }

  lemma {:induction false} FilterConcat<T>(p: T -> bool, xs: seq<T>, ys: seq<T>)
    ensures Filter(p, xs + ys) == Filter(p, xs) + Filter(p, ys)
  {
    if xs == [] {
      assert xs + ys == ys;
    } else {
      assert (xs + ys)[1..] == xs[1..] + ys;
      FilterConcat(p, xs[1..], ys);
    }
  }

  lemma {:induction false} FilterAgrees<T>(p: T -> bool, q: T -> bool, xs: seq<T>)
    requires forall x :: x in xs ==> (p(x) <==> q(x))
    ensures Filter(p, xs) == Filter(q, xs)
  {
    if xs != [] { FilterAgrees(p, q, xs[1..]); }
  }

  lemma {:induction false} FilterFinds<T>(p: T -> bool, xs: seq<T>, x: T)
    requires x in xs && p(x)
    ensures x in Filter(p, xs)
  {
    if x != xs[0] { FilterFinds(p, xs[1..], x); }
  }

  lemma {:induction false} FilterNone<T>(p: T -> bool, xs: seq<T>)
    requires forall i :: 0 <= i < |xs| ==> !p(xs[i])
    ensures Filter(p, xs) == []
  {
    if xs != [] { FilterNone(p, xs[1..]); }
  }

  lemma {:induction false} FilterAll<T>(p: T -> bool, xs: seq<T>)
    requires forall i :: 0 <= i < |xs| ==> p(xs[i])
    ensures Filter(p, xs) == xs
  {
    if xs != [] { FilterAll(p, xs[1..]); }
  }

  lemma {:induction false} MapInit<A, B>(f: A -> B, xs: seq<A>)
    requires xs != []
    ensures Map(f, xs)[..|xs| - 1] == Map(f, xs[..|xs| - 1]) && Map(f, xs)[|xs| - 1] == f(xs[|xs| - 1])
  {
  }

  lemma {:induction false} MapConcat<A, B>(f: A -> B, xs: seq<A>, ys: seq<A>)
    ensures Map(f, xs + ys) == Map(f, xs) + Map(f, ys)
  {
  }

  /** First occurrences, in order. */
  function Distinct<T(==)>(xs: seq<T>): seq<T> {
    if xs == [] then []
    else
      var earlier, last := Distinct(xs[..|xs| - 1]), xs[|xs| - 1];
      if last in earlier then earlier else earlier + [last]
  }

  /** What is distinct in a sequence is each of its elements once, in the order in which they
      first occur. */
  lemma {:induction false} DistinctExactly<T>(xs: seq<T>) returns (firsts: seq<nat>)
    ensures |firsts| == |Distinct(xs)|
    ensures forall k :: 0 <= k < |firsts| ==>
      && firsts[k] < |xs| && xs[firsts[k]] == Distinct(xs)[k]
      && forall j :: 0 <= j < firsts[k] ==> xs[j] != Distinct(xs)[k]
    ensures forall k, l :: 0 <= k < l < |firsts| ==> firsts[k] < firsts[l] && Distinct(xs)[k] != Distinct(xs)[l]
    ensures forall x :: x in Distinct(xs) <==> x in xs
  {
    firsts := [];
    if xs != [] {
      var n := |xs| - 1;
      firsts := DistinctExactly(xs[..n]);
      assert xs == xs[..n] + [xs[n]];
      if xs[n] !in Distinct(xs[..n]) { firsts := firsts + [n]; }
    }
  }
}
