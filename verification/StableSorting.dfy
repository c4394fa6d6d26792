/** Stable sorting by a comparator, as `Array.prototype.sort` promises it: any
    list that is sorted and keeps equal elements in order is the same list. */
module StableSorting {
  import opened Sequences

  type Comparator<!T> = (T, T) -> int

  /** The comparator orders the elements: a total preorder, with opposite signs both ways round. */
  ghost predicate Consistent<T(!new)>(compare: Comparator<T>) {
    && (forall a, b :: compare(a, b) < 0 <==> compare(b, a) > 0)
    && (forall a, b, c :: compare(a, b) <= 0 && compare(b, c) <= 0 ==> compare(a, c) <= 0)
  }

  ghost predicate Sorted<T>(compare: Comparator<T>, xs: seq<T>) {
    forall i, j :: 0 <= i < j < |xs| ==> compare(xs[i], xs[j]) <= 0
  }

  function Ties<T>(compare: Comparator<T>, a: T): T -> bool {
    b => compare(a, b) == 0
  }

  /** ys lists the elements of xs in order, those that tie in the order they had. */
  ghost predicate StableSortOf<T(!new)>(compare: Comparator<T>, xs: seq<T>, ys: seq<T>) {
    && Sorted(compare, ys)
    && multiset(ys) == multiset(xs)
    && forall a :: Filter(Ties(compare, a), ys) == Filter(Ties(compare, a), xs)
  }

  /** Puts x after everything that does not come after it. */
  function Insert<T>(compare: Comparator<T>, x: T, ys: seq<T>): seq<T> {
    if ys == [] || compare(ys[|ys| - 1], x) <= 0 then ys + [x]
    else Insert(compare, x, ys[..|ys| - 1]) + [ys[|ys| - 1]]
  }

  function Sort<T>(compare: Comparator<T>, xs: seq<T>): seq<T> {
    if xs == [] then [] else Insert(compare, xs[|xs| - 1], Sort(compare, xs[..|xs| - 1]))
  }

  lemma {:induction false} InsertKeepsElements<T>(compare: Comparator<T>, x: T, ys: seq<T>)
    ensures multiset(Insert(compare, x, ys)) == multiset(ys) + multiset{x}
  {
    if ys != [] && compare(ys[|ys| - 1], x) > 0 {
      InsertKeepsElements(compare, x, ys[..|ys| - 1]);
      assert ys == ys[..|ys| - 1] + [ys[|ys| - 1]];
    }
  }

  lemma {:induction false} InsertedOnlyThese<T>(compare: Comparator<T>, x: T, ys: seq<T>)
    ensures forall i :: 0 <= i < |Insert(compare, x, ys)| ==>
      Insert(compare, x, ys)[i] == x || Insert(compare, x, ys)[i] in ys
  {
    if ys != [] && compare(ys[|ys| - 1], x) > 0 {
      InsertedOnlyThese(compare, x, ys[..|ys| - 1]);
    }
  }

  lemma {:induction false} SortedAppend<T>(compare: Comparator<T>, ys: seq<T>, x: T)
    requires Sorted(compare, ys) && forall i :: 0 <= i < |ys| ==> compare(ys[i], x) <= 0
    ensures Sorted(compare, ys + [x])
  {
  }

  lemma {:induction false} InsertKeepsSorted<T(!new)>(compare: Comparator<T>, x: T, ys: seq<T>)
    requires Consistent(compare) && Sorted(compare, ys)
    ensures Sorted(compare, Insert(compare, x, ys))
  {
    if ys == [] {
    } else if compare(ys[|ys| - 1], x) <= 0 {
      forall i | 0 <= i < |ys|
        ensures compare(ys[i], x) <= 0
      {
        assert i < |ys| - 1 ==> compare(ys[i], ys[|ys| - 1]) <= 0;
      }
      SortedAppend(compare, ys, x);
    } else {
      var init, last := ys[..|ys| - 1], ys[|ys| - 1];
      InsertKeepsSorted(compare, x, init);
      InsertedOnlyThese(compare, x, init);
      assert forall y :: y in init ==> compare(y, last) <= 0;
      assert compare(x, last) <= 0;
      hide Consistent;
      SortedAppend(compare, Insert(compare, x, init), last);
    }
  }

  lemma {:induction false} FilterOne<T>(p: T -> bool, x: T)
    ensures Filter(p, [x]) == if p(x) then [x] else []
  {
  }

  lemma {:induction false} NeverBothSwap<T>(p: T -> bool, ys: seq<T>, a: T, b: T)
    requires !(p(a) && p(b))
    ensures Filter(p, ys) + Filter(p, [a]) + Filter(p, [b]) == Filter(p, ys + [b] + [a])
  {
    FilterConcat(p, ys + [b], [a]);
    FilterConcat(p, ys, [b]);
    FilterOne(p, a);
    FilterOne(p, b);
  }

  lemma {:induction false} InsertKeepsTies<T(!new)>(compare: Comparator<T>, x: T, ys: seq<T>, a: T)
    requires Consistent(compare)
    ensures Filter(Ties(compare, a), Insert(compare, x, ys)) == Filter(Ties(compare, a), ys + [x])
  {
    hide Consistent, Filter;
    if ys != [] && compare(ys[|ys| - 1], x) > 0 {
      var p, init, last := Ties(compare, a), ys[..|ys| - 1], ys[|ys| - 1];
      InsertKeepsTies(compare, x, init, a);
      TiesAgree(compare, a, last, x);
      FilterConcat(p, Insert(compare, x, init), [last]);
      FilterConcat(p, init, [x]);
      NeverBothSwap(p, init, x, last);
      assert ys == init + [last];
    }
  }

  lemma {:induction false} TiesAgree<T(!new)>(compare: Comparator<T>, a: T, b: T, c: T)
    requires Consistent(compare) && compare(b, c) != 0
    ensures !(compare(a, b) == 0 && compare(a, c) == 0)
  {
    assert compare(a, b) == 0 ==> compare(b, a) <= 0;
    assert compare(a, c) == 0 ==> compare(c, a) <= 0;
  }

  lemma {:induction false} SortIsStable<T(!new)>(compare: Comparator<T>, xs: seq<T>)
    requires Consistent(compare)
    ensures StableSortOf(compare, xs, Sort(compare, xs))
  {
    if xs != [] {
      var init, last := xs[..|xs| - 1], xs[|xs| - 1];
      SortIsStable(compare, init);
      InsertKeepsElements(compare, last, Sort(compare, init));
      InsertKeepsSorted(compare, last, Sort(compare, init));
      assert xs == init + [last];
      forall a
        ensures Filter(Ties(compare, a), Sort(compare, xs)) == Filter(Ties(compare, a), xs)
      {
        InsertKeepsTies(compare, last, Sort(compare, init), a);
        FilterConcat(Ties(compare, a), Sort(compare, init), [last]);
        FilterConcat(Ties(compare, a), init, [last]);
      }
    }
  }

  lemma {:induction false} FirstTie<T(!new)>(compare: Comparator<T>, ys: seq<T>, zs: seq<T>)
    requires Consistent(compare) && Sorted(compare, zs) && ys != []
    requires Filter(Ties(compare, ys[0]), ys) == Filter(Ties(compare, ys[0]), zs)
    ensures zs != [] && compare(zs[0], ys[0]) <= 0
  {
    assert compare(ys[0], ys[0]) == 0;
    var ties := Filter(Ties(compare, ys[0]), zs);
    assert ties[0] == ys[0];
    assert ys[0] in zs;
    var k :| 0 <= k < |zs| && zs[k] == ys[0];
  }

  lemma {:induction false} FilterTails<T>(p: T -> bool, ys: seq<T>, zs: seq<T>)
    requires ys != [] && zs != [] && ys[0] == zs[0] && Filter(p, ys) == Filter(p, zs)
    ensures Filter(p, ys[1..]) == Filter(p, zs[1..])
  {
    var head := if p(ys[0]) then [ys[0]] else [];
    assert Filter(p, ys)[|head|..] == Filter(p, ys[1..]) && Filter(p, zs)[|head|..] == Filter(p, zs[1..]);
  }

  lemma {:induction false} HeadsAgree<T(!new)>(compare: Comparator<T>, ys: seq<T>, zs: seq<T>)
    requires Consistent(compare) && Sorted(compare, ys) && Sorted(compare, zs) && ys != [] && zs != []
    requires forall a :: Filter(Ties(compare, a), ys) == Filter(Ties(compare, a), zs)
    ensures ys[0] == zs[0]
  {
    FirstTie(compare, ys, zs);
    FirstTie(compare, zs, ys);
    var p := Ties(compare, ys[0]);
    assert p(ys[0]) && p(zs[0]);
    assert Filter(p, ys)[0] == ys[0] && Filter(p, zs)[0] == zs[0];
  }

  /** Two sorted lists whose ties agree are the same list. */
  lemma {:induction false} StableIsUnique<T(!new)>(compare: Comparator<T>, ys: seq<T>, zs: seq<T>)
    requires Consistent(compare) && Sorted(compare, ys) && Sorted(compare, zs)
    requires forall a :: Filter(Ties(compare, a), ys) == Filter(Ties(compare, a), zs)
    ensures ys == zs
    decreases |ys|
  {
    if ys == [] {
      if zs != [] { FirstTie(compare, zs, ys); }
    } else {
      FirstTie(compare, ys, zs);
      HeadsAgree(compare, ys, zs);
      assert Sorted(compare, ys[1..]) && Sorted(compare, zs[1..]);
      hide Consistent, Sorted, Filter, Ties;
      forall a
        ensures Filter(Ties(compare, a), ys[1..]) == Filter(Ties(compare, a), zs[1..])
      {
        FilterTails(Ties(compare, a), ys, zs);
      }
      StableIsUnique(compare, ys[1..], zs[1..]);
      assert ys == [ys[0]] + ys[1..] && zs == [zs[0]] + zs[1..];
    }
  }

  lemma {:induction false} FilterCommutes<T>(p: T -> bool, q: T -> bool, xs: seq<T>)
    ensures Filter(p, Filter(q, xs)) == Filter(q, Filter(p, xs))
  {
    if xs != [] {
      FilterCommutes(p, q, xs[1..]);
      FilterConcat(p, if q(xs[0]) then [xs[0]] else [], Filter(q, xs[1..]));
      FilterConcat(q, if p(xs[0]) then [xs[0]] else [], Filter(p, xs[1..]));
    }
  }

  lemma {:induction false} FilterKeepsSorted<T(!new)>(compare: Comparator<T>, p: T -> bool, xs: seq<T>)
    requires Sorted(compare, xs)
    ensures Sorted(compare, Filter(p, xs))
  {
    if xs != [] {
      FilterKeepsSorted(compare, p, xs[1..]);
      var rest := Filter(p, xs[1..]);
      forall i | 0 <= i < |rest|
        ensures compare(xs[0], rest[i]) <= 0
      {
        var k :| 0 <= k < |xs[1..]| && xs[1..][k] == rest[i];
        assert xs[1 + k] == rest[i];
      }
    }
  }

  /** Sorting what is filtered is filtering what is sorted. */
  lemma {:induction false} SortAndFilterCommute<T(!new)>(compare: Comparator<T>, p: T -> bool, xs: seq<T>)
    requires Consistent(compare)
    ensures Sort(compare, Filter(p, xs)) == Filter(p, Sort(compare, xs))
  {
    SortIsStable(compare, xs);
    SortIsStable(compare, Filter(p, xs));
    FilterKeepsSorted(compare, p, Sort(compare, xs));
    forall a
      ensures Filter(Ties(compare, a), Filter(p, Sort(compare, xs)))
              == Filter(Ties(compare, a), Sort(compare, Filter(p, xs)))
    {
      FilterCommutes(Ties(compare, a), p, Sort(compare, xs));
      FilterCommutes(Ties(compare, a), p, xs);
    }
    StableIsUnique(compare, Filter(p, Sort(compare, xs)), Sort(compare, Filter(p, xs)));
  }
}
