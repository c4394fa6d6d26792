/** Ranking RPC endpoints by latency. */
module LatencyRanking {
  import opened Sequences
  import opened StableSorting

  datatype Status = Ok | Failed | TimedOut

  datatype Result = Result(endpointId: string, latencyMs: Option<int>, status: Status)

  datatype Rank = Rank(n: nat) | Unranked

  datatype Ranked = Ranked(result: Result, rank: Rank)

  predicate Successful(r: Result) {
    r.status == Ok && r.latencyMs.Some?
  }

  predicate NotOk(r: Result) {
    r.status != Ok
  }

  /** Ok, yet without a latency: in neither list. */
  predicate Unmeasured(r: Result) {
    r.status == Ok && r.latencyMs.None?
  }

  function Unrank(r: Result): Ranked {
    Ranked(r, Unranked)
  }

  function Latency(r: Result): int {
    if r.latencyMs.Some? then r.latencyMs.value else 0
  }

  function CompareLatency(a: Result, b: Result): int {
    Latency(a) - Latency(b)
  }

  function Fastest(results: seq<Result>): seq<Result> {
    Sort(CompareLatency, Filter(Successful, results))
  }

  // ----- the ranks

  /** How many of the first i results are strictly faster than the i-th, in sorted order. */
  function Faster(sorted: seq<Result>, i: nat): (k: nat)
    requires i < |sorted|
    ensures k <= i
  {
    if i == 0 || Latency(sorted[i]) != Latency(sorted[i - 1]) then i else Faster(sorted, i - 1)
  }

  /** The rank the loop gives: 1 to the fastest; to any other, 2 plus the number strictly faster
      than the next faster latency. */
  function RankAt(sorted: seq<Result>, i: nat): nat
    requires i < |sorted|
  {
    var k := Faster(sorted, i);
    if k == 0 then 1 else 2 + Faster(sorted, k - 1)
  }

  /** One plus the number of distinct faster latencies. */
  function DenseRank(sorted: seq<Result>, i: nat): nat
    requires i < |sorted|
  {
    if i == 0 then 1
    else DenseRank(sorted, i - 1) + if Latency(sorted[i]) != Latency(sorted[i - 1]) then 1 else 0
  }

  lemma {:induction false} RankAtLoop(sorted: seq<Result>, i: nat)
    requires i < |sorted|
    ensures if i > 0 && Latency(sorted[i]) == Latency(sorted[i - 1])
            then RankAt(sorted, i) == RankAt(sorted, i - 1) && Faster(sorted, i) == Faster(sorted, i - 1)
            else RankAt(sorted, i) == (if i == 0 then 1 else 2 + Faster(sorted, i - 1)) && Faster(sorted, i) == i
  {
  }

  method RankResults(results: seq<Result>) returns (ranking: seq<Ranked>)
    ensures var fastest, others := Fastest(results), Filter(NotOk, results);
      && |ranking| == |fastest| + |others|
      && (forall i :: 0 <= i < |fastest| ==> ranking[i] == Ranked(fastest[i], Rank(RankAt(fastest, i))))
      && (forall i :: 0 <= i < |others| ==> ranking[|fastest| + i] == Ranked(others[i], Unranked))
  {
    hide Sort, Filter, Map, RankAt, Faster, Fastest, Latency;
    var successful := Fastest(results);
    var failed := Filter(NotOk, results);
    ranking := [];
    var currentRank := 1;
    for i := 0 to |successful|
      invariant |ranking| == i
      invariant forall j :: 0 <= j < i ==> ranking[j] == Ranked(successful[j], Rank(RankAt(successful, j)))
      invariant currentRank == if i == 0 then 1 else 2 + Faster(successful, i - 1)
    {
      RankAtLoop(successful, i);
      if i > 0 && Latency(successful[i]) == Latency(successful[i - 1]) {
        ranking := ranking + [Ranked(successful[i], ranking[i - 1].rank)];
      } else {
        ranking := ranking + [Ranked(successful[i], Rank(currentRank))];
        currentRank := i + 2;
      }
    }
    ranking := ranking + Map(Unrank, failed);
  }

  // ----- what the ranks mean

  ghost predicate ByLatency(sorted: seq<Result>) {
    forall i, j :: 0 <= i < j < |sorted| ==> Latency(sorted[i]) <= Latency(sorted[j])
  }

  lemma {:induction false} FastestSorted(results: seq<Result>)
    ensures ByLatency(Fastest(results))
    ensures multiset(Fastest(results)) == multiset(Filter(Successful, results))
  {
    SortIsStable(CompareLatency, Filter(Successful, results));
    assert forall i, j :: 0 <= i < j < |Fastest(results)| ==>
      CompareLatency(Fastest(results)[i], Fastest(results)[j]) <= 0;
  }

  /** Faster counts exactly the strictly faster results. */
  lemma {:induction false} FasterIsFaster(sorted: seq<Result>, i: nat)
    requires ByLatency(sorted) && i < |sorted|
    ensures forall j :: 0 <= j < |sorted| ==> (Latency(sorted[j]) < Latency(sorted[i]) <==> j < Faster(sorted, i))
  {
    if i > 0 && Latency(sorted[i]) == Latency(sorted[i - 1]) {
      FasterIsFaster(sorted, i - 1);
    } else if i > 0 {
      assert forall j :: 0 <= j < i ==> Latency(sorted[j]) <= Latency(sorted[i - 1]);
    }
  }

  /** What is ranked: exactly the ok results that have a latency, the lower latencies first. */
  lemma {:induction false} FastestExactly(results: seq<Result>)
    ensures forall r :: r in Fastest(results) <==> r in results && r.status == Ok && r.latencyMs.Some?
    ensures forall i, j :: 0 <= i < j < |Fastest(results)| ==>
      && Fastest(results)[i].latencyMs.Some? && Fastest(results)[j].latencyMs.Some?
      && Fastest(results)[i].latencyMs.value <= Fastest(results)[j].latencyMs.value
  {
    FastestSorted(results);
    var fastest, successful := Fastest(results), Filter(Successful, results);
    hide Fastest, Filter;
    assert forall r :: r in fastest <==> r in multiset(fastest);
    assert forall r :: r in successful <==> r in multiset(successful);
    forall r | r in results && Successful(r) { FilterFinds(Successful, results, r); }
    assert forall i :: 0 <= i < |fastest| ==> fastest[i] in fastest;
  }

  /** The fastest results are ranked 1; any other is ranked 2 plus the number of results strictly
      faster than the slowest of those faster than it. */
  lemma {:induction false} RankExactly(sorted: seq<Result>, i: nat, p: nat)
    requires ByLatency(sorted) && i < |sorted|
    ensures RankAt(sorted, i) == 1 <==> forall j :: 0 <= j < |sorted| ==> Latency(sorted[i]) <= Latency(sorted[j])
    ensures (&& p < |sorted| && Latency(sorted[p]) < Latency(sorted[i])
             && (forall j :: 0 <= j < |sorted| && Latency(sorted[j]) < Latency(sorted[i]) ==>
                   Latency(sorted[j]) <= Latency(sorted[p]))) ==>
      && 2 <= RankAt(sorted, i) < |sorted| + 2
      && forall j :: 0 <= j < |sorted| ==> (j < RankAt(sorted, i) - 2 <==> Latency(sorted[j]) < Latency(sorted[p]))
  {
    FasterIsFaster(sorted, i);
    var f := Faster(sorted, i);
    if f > 0 {
      FasterIsFaster(sorted, f - 1);
      assert Latency(sorted[f - 1]) < Latency(sorted[i]);
      if && p < |sorted| && Latency(sorted[p]) < Latency(sorted[i])
         && (forall j :: 0 <= j < |sorted| && Latency(sorted[j]) < Latency(sorted[i]) ==>
               Latency(sorted[j]) <= Latency(sorted[p])) {
        assert Latency(sorted[f - 1]) == Latency(sorted[p]);
      }
    }
  }

  /** Equal latencies share a rank, and a slower result ranks strictly higher. */
  lemma {:induction false} RanksFollowLatency(sorted: seq<Result>, i: nat, j: nat)
    requires ByLatency(sorted) && i < |sorted| && j < |sorted|
    ensures RankAt(sorted, i) == RankAt(sorted, j) <==> Latency(sorted[i]) == Latency(sorted[j])
    ensures RankAt(sorted, i) < RankAt(sorted, j) <==> Latency(sorted[i]) < Latency(sorted[j])
  {
    FasterIsFaster(sorted, i);
    FasterIsFaster(sorted, j);
    var a, b := Faster(sorted, i), Faster(sorted, j);
    if a > 0 { FasterIsFaster(sorted, a - 1); }
    if b > 0 { FasterIsFaster(sorted, b - 1); }
  }

  lemma {:induction false} DenseAtGroup(sorted: seq<Result>, i: nat)
    requires i < |sorted|
    ensures DenseRank(sorted, i) == if Faster(sorted, i) == 0 then 1 else DenseRank(sorted, Faster(sorted, i) - 1) + 1
    ensures DenseRank(sorted, i) <= Faster(sorted, i) + 1
  {
    if i > 0 {
      DenseAtGroup(sorted, i - 1);
    }
  }

  /** No two neighbours up to the n-th share a latency. */
  predicate NoTieBefore(sorted: seq<Result>, n: nat)
    requires n <= |sorted|
  {
    forall j :: 0 < j < n ==> Latency(sorted[j]) != Latency(sorted[j - 1])
  }

  lemma {:induction false} DenseIsPosition(sorted: seq<Result>, i: nat)
    requires i < |sorted|
    ensures DenseRank(sorted, i) <= i + 1
    ensures DenseRank(sorted, i) == i + 1 <==> NoTieBefore(sorted, i + 1)
  {
    if i > 0 { DenseIsPosition(sorted, i - 1); }
  }

  /** Every rank lies between the dense and the competition rank. It is the competition rank
      exactly when no two results share the next faster latency, and the dense rank exactly
      when no two share a latency that is faster still. */
  lemma {:induction false} RankBetween(sorted: seq<Result>, i: nat)
    requires ByLatency(sorted) && i < |sorted|
    ensures DenseRank(sorted, i) <= RankAt(sorted, i) <= 1 + Faster(sorted, i)
    ensures RankAt(sorted, i) == 1 + Faster(sorted, i)
            <==> Faster(sorted, i) <= 1
                 || Latency(sorted[Faster(sorted, i) - 1]) != Latency(sorted[Faster(sorted, i) - 2])
    ensures RankAt(sorted, i) == DenseRank(sorted, i)
            <==> Faster(sorted, i) == 0 || NoTieBefore(sorted, Faster(sorted, Faster(sorted, i) - 1))
  {
    DenseAtGroup(sorted, i);
    var k := Faster(sorted, i);
    if k > 0 {
      DenseAtGroup(sorted, k - 1);
      var m := Faster(sorted, k - 1);
      if m > 0 { DenseIsPosition(sorted, m - 1); }
    }
  }

  function Timed(latency: int): Result {
    Result("", Some(latency), Ok)
  }

  /** Latencies 1, 1, 2 and 3 are ranked 1, 1, 2 and 4: the third is not the competition rank,
      3, and the fourth is not the dense rank, 3. */
  lemma {:induction false} NeitherDenseNorCompetition()
    ensures var sorted := [Timed(1), Timed(1), Timed(2), Timed(3)];
      && ByLatency(sorted)
      && RankAt(sorted, 0) == RankAt(sorted, 1) == 1 && RankAt(sorted, 2) == 2 && RankAt(sorted, 3) == 4
      && DenseRank(sorted, 2) == 2 && 1 + Faster(sorted, 2) == 3
      && DenseRank(sorted, 3) == 3 && 1 + Faster(sorted, 3) == 4
  {
    var sorted := [Timed(1), Timed(1), Timed(2), Timed(3)];
    assert DenseRank(sorted, 0) == 1;
    assert DenseRank(sorted, 1) == 1;
    assert DenseRank(sorted, 2) == 2;
    assert Faster(sorted, 0) == 0 && Faster(sorted, 1) == 0 && Faster(sorted, 2) == 2 && Faster(sorted, 3) == 3;
  }

  /** Without ties the three ranks are one. */
  lemma {:induction false} NoTiesOneRank(sorted: seq<Result>, i: nat)
    requires i < |sorted| && forall j :: 0 < j < |sorted| ==> Latency(sorted[j]) != Latency(sorted[j - 1])
    ensures RankAt(sorted, i) == DenseRank(sorted, i) == 1 + Faster(sorted, i) == i + 1
  {
    if i > 0 { NoTiesOneRank(sorted, i - 1); }
  }

  /** The ranking lists exactly the results given, each once, when and only when every Ok
      result has a latency. */
  lemma {:induction false} RankingIsPermutation(results: seq<Result>)
    ensures multiset(Fastest(results)) + multiset(Filter(NotOk, results)) == multiset(results)
            <==> forall r :: r in results ==> !Unmeasured(r)
  {
    hide Filter, Fastest, ByLatency;
    FastestSorted(results);
    SplitsResults(results);
    var dropped := Filter(Unmeasured, results);
    if r :| r in results && Unmeasured(r) {
      FilterFinds(Unmeasured, results, r);
      assert r in multiset(dropped);
      assert multiset(Fastest(results)) + multiset(Filter(NotOk, results)) == multiset(results) - multiset(dropped);
      assert multiset(results)[r] == (multiset(results) - multiset(dropped))[r] + multiset(dropped)[r];
    } else {
      FilterNone(Unmeasured, results);
    }
  }

  lemma {:induction false} FilteredHead(p: Result -> bool, xs: seq<Result>)
    requires xs != []
    ensures multiset(Filter(p, xs)) == (if p(xs[0]) then multiset{xs[0]} else multiset{}) + multiset(Filter(p, xs[1..]))
  {
  }

  lemma {:induction false} SplitsResults(results: seq<Result>)
    ensures multiset(Filter(Successful, results)) + multiset(Filter(NotOk, results))
            + multiset(Filter(Unmeasured, results)) == multiset(results)
  {
    hide Filter;
    if results == [] {
      EmptyFilters(results);
    } else {
      SplitsResults(results[1..]);
      FilteredHead(Successful, results);
      FilteredHead(NotOk, results);
      FilteredHead(Unmeasured, results);
      assert results == [results[0]] + results[1..];
      assert multiset(results) == multiset{results[0]} + multiset(results[1..]);
      assert if Successful(results[0]) then !NotOk(results[0]) && !Unmeasured(results[0])
             else NotOk(results[0]) != Unmeasured(results[0]);
      hide Successful, NotOk, Unmeasured;
    }
  }

  lemma {:induction false} EmptyFilters(xs: seq<Result>)
    requires xs == []
    ensures Filter(Successful, xs) == [] && Filter(NotOk, xs) == [] && Filter(Unmeasured, xs) == []
  {
  }
}
