/** The dashboard's time charts: counting events into buckets of the activity
    chart, the webhook chart and the heatmap, and the latency percentile. */
module TimeBuckets {
  import opened Numbers
  import opened Sequences

  // ----- tallies

  /** How many elements fall in slot i. */
  function Tally<T>(slot: T -> int, xs: seq<T>, i: int): nat {
    if xs == [] then 0 else Tally(slot, xs[..|xs| - 1], i) + if slot(xs[|xs| - 1]) == i then 1 else 0
  }

  function InSlots<T>(slot: T -> int, n: nat): T -> bool {
    x => 0 <= slot(x) < n
  }

  lemma {:induction false} TallyNext<T>(slot: T -> int, xs: seq<T>, k: nat)
    requires k < |xs|
    ensures forall i :: Tally(slot, xs[..k + 1], i) == Tally(slot, xs[..k], i) + if slot(xs[k]) == i then 1 else 0
  {
    assert xs[..k + 1][..k] == xs[..k];
  }

  lemma {:induction false} TallyNone<T>(slot: T -> int, xs: seq<T>)
    ensures forall i :: Tally(slot, xs[..0], i) == 0
  {
  }

  ghost function TallyTo<T>(slot: T -> int, xs: seq<T>, n: nat): nat {
    if n == 0 then 0 else TallyTo(slot, xs, n - 1) + Tally(slot, xs, n - 1)
  }

  function Count<T>(p: T -> bool, xs: seq<T>): nat {
    if xs == [] then 0 else Count(p, xs[..|xs| - 1]) + if p(xs[|xs| - 1]) then 1 else 0
  }

  lemma {:induction false} TallyToGrows<T>(slot: T -> int, xs: seq<T>, n: nat)
    requires xs != []
    ensures TallyTo(slot, xs, n) == TallyTo(slot, xs[..|xs| - 1], n) + if 0 <= slot(xs[|xs| - 1]) < n then 1 else 0
  {
    if n > 0 { TallyToGrows(slot, xs, n - 1); }
  }

  /** The slots 0 to n lose nothing and count nothing twice. */
  lemma {:induction false} TalliesAddUp<T>(slot: T -> int, xs: seq<T>, n: nat)
    ensures TallyTo(slot, xs, n) == Count(InSlots(slot, n), xs)
  {
    if xs == [] {
      EmptyTallies(slot, n);
    } else {
      TalliesAddUp(slot, xs[..|xs| - 1], n);
      TallyToGrows(slot, xs, n);
    }
  }

  lemma {:induction false} EmptyTallies<T>(slot: T -> int, n: nat)
    ensures TallyTo(slot, [], n) == 0
  {
    if n > 0 { EmptyTallies(slot, n - 1); }
  }

  function InSlot<T>(slot: T -> int, i: int): T -> bool {
    x => slot(x) == i
  }

  /** A tally is how many elements are left of a list filtered for the slot, each once. */
  lemma {:induction false} TallyIsCount<T>(slot: T -> int, xs: seq<T>, i: int)
    ensures Tally(slot, xs, i) == |Filter(InSlot(slot, i), xs)|
  {
    if xs != [] {
      var n := |xs| - 1;
      TallyIsCount(slot, xs[..n], i);
      FilterConcat(InSlot(slot, i), xs[..n], [xs[n]]);
      assert xs == xs[..n] + [xs[n]];
    }
  }

  lemma {:induction false} CountIsFiltered<T>(p: T -> bool, xs: seq<T>)
    ensures Count(p, xs) == |Filter(p, xs)|
  {
    if xs != [] {
      var n := |xs| - 1;
      CountIsFiltered(p, xs[..n]);
      FilterConcat(p, xs[..n], [xs[n]]);
      assert xs == xs[..n] + [xs[n]];
    }
  }

  function SumOf(counts: seq<nat>): nat {
    if counts == [] then 0 else SumOf(counts[..|counts| - 1]) + counts[|counts| - 1]
  }

  lemma {:induction false} SumOfTallies<T>(slot: T -> int, xs: seq<T>, counts: seq<nat>)
    requires forall i :: 0 <= i < |counts| ==> counts[i] == Tally(slot, xs, i)
    ensures SumOf(counts) == Count(InSlots(slot, |counts|), xs)
  {
    SumIsTallyTo(slot, xs, counts);
    TalliesAddUp(slot, xs, |counts|);
  }

  lemma {:induction false} SumIsTallyTo<T>(slot: T -> int, xs: seq<T>, counts: seq<nat>)
    requires forall i :: 0 <= i < |counts| ==> counts[i] == Tally(slot, xs, i)
    ensures SumOf(counts) == TallyTo(slot, xs, |counts|)
  {
    if counts != [] { SumIsTallyTo(slot, xs, counts[..|counts| - 1]); }
  }

  function LargestOf(counts: seq<nat>): (m: nat)
    ensures forall i :: 0 <= i < |counts| ==> counts[i] <= m
    ensures m in counts || (m == 0 && forall i :: 0 <= i < |counts| ==> counts[i] == 0)
  {
    if counts == [] then 0
    else
      var earlier, last := LargestOf(counts[..|counts| - 1]), counts[|counts| - 1];
      if last > earlier then last else earlier
  }

  // ----- the activity chart

  datatype ActivityRange = OneHour | SixHours | OneDay | SevenDays

  const HOUR_MS := 3_600_000

  function WindowMs(range: ActivityRange): (w: int)
    ensures w > 0
  {
    match range
    case OneHour => HOUR_MS
    case SixHours => 6 * HOUR_MS
    case OneDay => 24 * HOUR_MS
    case SevenDays => 168 * HOUR_MS
  }

  function BucketMs(range: ActivityRange): (b: int)
    ensures b > 0
  {
    match range
    case OneHour => 900_000
    case SixHours => HOUR_MS
    case OneDay => HOUR_MS
    case SevenDays => 6 * HOUR_MS
  }

  /** The window is a whole number of buckets. */
  function NumBuckets(range: ActivityRange): (n: nat)
    ensures n > 0 && n * BucketMs(range) == WindowMs(range)
  {
    match range
    case OneHour => 4
    case SixHours => 6
    case OneDay => 24
    case SevenDays => 28
  }

  predicate InWindow(range: ActivityRange, now: int, receivedAt: int) {
    now - WindowMs(range) <= receivedAt < now
  }

  function BucketStart(range: ActivityRange, now: int, i: int): int {
    now - WindowMs(range) + i * BucketMs(range)
  }

  function Within(range: ActivityRange, now: int): int -> bool {
    receivedAt => InWindow(range, now, receivedAt)
  }

  /** The bucket the placement arithmetic picks, -1 for an event outside the window. */
  function ActivitySlot(range: ActivityRange, now: int): int -> int {
    receivedAt =>
      if !InWindow(range, now, receivedAt) then -1
      else
        var fromEnd := (now - receivedAt) / BucketMs(range);
        Min(NumBuckets(range) - 1, Max(0, NumBuckets(range) - 1 - fromEnd))
  }

  /** The four windows and their buckets in milliseconds: an hour in quarters, six hours and a day
      in hours, a week in quarter days; each from its start up to now, now excluded. */
  lemma {:induction false} WindowsInMilliseconds(now: int, receivedAt: int, i: int)
    ensures InWindow(OneHour, now, receivedAt) <==> now - 3_600_000 <= receivedAt < now
    ensures InWindow(SixHours, now, receivedAt) <==> now - 21_600_000 <= receivedAt < now
    ensures InWindow(OneDay, now, receivedAt) <==> now - 86_400_000 <= receivedAt < now
    ensures InWindow(SevenDays, now, receivedAt) <==> now - 604_800_000 <= receivedAt < now
    ensures NumBuckets(OneHour) == 4 && BucketStart(OneHour, now, i) == now - 3_600_000 + 900_000 * i
    ensures NumBuckets(SixHours) == 6 && BucketStart(SixHours, now, i) == now - 21_600_000 + 3_600_000 * i
    ensures NumBuckets(OneDay) == 24 && BucketStart(OneDay, now, i) == now - 86_400_000 + 3_600_000 * i
    ensures NumBuckets(SevenDays) == 28 && BucketStart(SevenDays, now, i) == now - 604_800_000 + 21_600_000 * i
  {
  }

  method ComputeEventActivity(received: seq<int>, range: ActivityRange, now: int)
    returns (counts: seq<nat>, totalCount: nat, maxCount: nat)
    ensures |counts| == NumBuckets(range)
    ensures forall i :: 0 <= i < |counts| ==> counts[i] == Tally(ActivitySlot(range, now), received, i)
    ensures totalCount == SumOf(counts) == Count(Within(range, now), received)
    ensures maxCount == LargestOf(counts)
  {
    var n := NumBuckets(range);
    hide Tally, SumOf, LargestOf, Count;
    ghost var slot := ActivitySlot(range, now);
    TallyNone(slot, received);
    var buckets := new nat[n](_ => 0);
    for k := 0 to |received|
      invariant forall i :: 0 <= i < n ==> buckets[i] == Tally(slot, received[..k], i)
    {
      TallyNext(slot, received, k);
      if InWindow(range, now, received[k]) {
        var elapsed := now - received[k];
        var fromEnd := elapsed / BucketMs(range);
        var index := Min(n - 1, Max(0, n - 1 - fromEnd));
        buckets[index] := buckets[index] + 1;
      }
    }
    assert received[..|received|] == received;
    counts := buckets[..];
    totalCount := SumOf(counts);
    maxCount := LargestOf(counts);
    SumOfTallies(slot, received, counts);
    ActivitySlotsCover(received, range, now);
  }

  lemma {:induction false} ActivitySlotsCover(received: seq<int>, range: ActivityRange, now: int)
    ensures Count(InSlots(ActivitySlot(range, now), NumBuckets(range)), received) == Count(Within(range, now), received)
  {
    if received != [] { ActivitySlotsCover(received[..|received| - 1], range, now); }
  }

  lemma {:induction false} DivideBounds(a: int, b: int)
    requires b > 0
    ensures a / b * b <= a < a / b * b + b
  {
  }

  lemma {:induction false} MultipliesLess(x: int, y: int, b: int)
    requires x <= y && 0 <= b
    ensures x * b <= y * b
  {
  }

  lemma {:induction false} QuotientBelow(a: int, b: int, q: int)
    requires b > 0
    ensures a / b < q <==> a < q * b
  {
    DivideBounds(a, b);
    if a / b < q {
      MultipliesLess(a / b + 1, q, b);
    } else {
      MultipliesLess(q, a / b, b);
    }
  }

  lemma {:induction false} QuotientIs(a: int, b: int, q: int)
    requires b > 0
    ensures a / b == q <==> q * b <= a < q * b + b
  {
    QuotientBelow(a, b, q);
    QuotientBelow(a, b, q + 1);
    assert (q + 1) * b == q * b + b;
  }

  /** Bucket i counts the in-window events of (start, end], and the first also its start. */
  lemma {:induction false} ActivityPlacement(range: ActivityRange, now: int, receivedAt: int, i: int)
    requires InWindow(range, now, receivedAt) && 0 <= i < NumBuckets(range)
    ensures ActivitySlot(range, now)(receivedAt) == i
            <==> BucketStart(range, now, i) < receivedAt <= BucketStart(range, now, i + 1)
                 || (i == 0 && receivedAt == BucketStart(range, now, 0))
  {
    var b, n := BucketMs(range), NumBuckets(range);
    var elapsed := now - receivedAt;
    QuotientIs(elapsed, b, n - 1 - i);
    QuotientBelow(elapsed, b, n);
    QuotientBelow(elapsed, b, n + 1);
    QuotientBelow(elapsed, b, 0);
    assert (n - 1 - i) * b == WindowMs(range) - i * b - b;
  }

  /** The documented bucket of an event, [start, end), is the one it is placed in exactly when
      it is not on a boundary between two buckets. */
  lemma {:induction false} DocumentedBucketExactly(range: ActivityRange, now: int, receivedAt: int)
    requires InWindow(range, now, receivedAt)
    ensures var i := (receivedAt - BucketStart(range, now, 0)) / BucketMs(range);
      && 0 <= i < NumBuckets(range)
      && BucketStart(range, now, i) <= receivedAt < BucketStart(range, now, i + 1)
      && (ActivitySlot(range, now)(receivedAt) == i <==> i == 0 || receivedAt != BucketStart(range, now, i))
  {
    var b, n := BucketMs(range), NumBuckets(range);
    var offset := receivedAt - BucketStart(range, now, 0);
    var i := offset / b;
    DivideBounds(offset, b);
    QuotientBelow(offset, b, n);
    QuotientBelow(offset, b, 0);
    assert (i + 1) * b == i * b + b;
    ActivityPlacement(range, now, receivedAt, i);
  }

  /** An event on an inner boundary is placed in the bucket before its documented one. */
  lemma {:induction false} BoundaryEventMisplaced(range: ActivityRange, now: int)
    ensures var receivedAt := BucketStart(range, now, 1);
      && InWindow(range, now, receivedAt)
      && BucketStart(range, now, 1) <= receivedAt < BucketStart(range, now, 2)
      && ActivitySlot(range, now)(receivedAt) == 0
  {
    assert InWindow(range, now, BucketStart(range, now, 1)) by {
      match range
      case OneHour =>
      case SixHours =>
      case OneDay =>
      case SevenDays =>
    }
    ActivityPlacement(range, now, BucketStart(range, now, 1), 0);
  }

  // ----- the webhook chart

  datatype Delivery = Delivery(success: bool, latencyMs: Option<int>, attemptedAt: int)

  datatype WebhookBucket = WebhookBucket(successCount: nat, failedCount: nat, totalCount: nat)

  function WebhookWidth(rangeHours: nat): (w: int)
    ensures w > 0
  {
    (if rangeHours <= 24 then 1 else 6) * HOUR_MS
  }

  /** The range divided into buckets, rounded up. */
  function WebhookBuckets(rangeHours: nat): nat {
    if rangeHours <= 24 then rangeHours else (rangeHours + 5) / 6
  }

  /** Buckets are an hour wide for up to a day and six hours beyond; together they reach back as
      far as asked, and by less than one bucket further. */
  lemma {:induction false} WebhookReach(rangeHours: nat)
    ensures WebhookWidth(rangeHours) == if rangeHours <= 24 then 3_600_000 else 21_600_000
    ensures var reach := WebhookBuckets(rangeHours) * WebhookWidth(rangeHours);
      rangeHours * 3_600_000 <= reach < rangeHours * 3_600_000 + WebhookWidth(rangeHours)
  {
    if rangeHours > 24 {
      assert (rangeHours + 5) / 6 * 6 <= rangeHours + 5 < (rangeHours + 5) / 6 * 6 + 6;
    }
  }

  function WebhookSlot(rangeHours: nat, now: int): Delivery -> int {
    (d: Delivery) => WebhookBuckets(rangeHours) - 1 - (now - d.attemptedAt) / WebhookWidth(rangeHours)
  }

  /** The slot of a successful delivery, -1 for any other. */
  function SuccessSlot(rangeHours: nat, now: int): Delivery -> int {
    (d: Delivery) => if d.success then WebhookSlot(rangeHours, now)(d) else -1
  }

  function SuccessIn(rangeHours: nat, now: int, i: nat): Delivery -> bool {
    (d: Delivery) => d.success && WebhookSlot(rangeHours, now)(d) == i
  }

  /** Counted as a success of a bucket is each delivery that is one and falls in it. */
  lemma {:induction false} SuccessesCounted(rangeHours: nat, now: int, deliveries: seq<Delivery>, i: nat)
    ensures Tally(SuccessSlot(rangeHours, now), deliveries, i)
            == |Filter(SuccessIn(rangeHours, now, i), deliveries)|
  {
    TallyIsCount(SuccessSlot(rangeHours, now), deliveries, i);
    FilterAgrees(InSlot(SuccessSlot(rangeHours, now), i), SuccessIn(rangeHours, now, i), deliveries);
  }

  method BucketDeliveriesByTime(deliveries: seq<Delivery>, rangeHours: nat, now: int)
    returns (result: seq<WebhookBucket>)
    ensures |result| == WebhookBuckets(rangeHours)
    ensures forall i :: 0 <= i < |result| ==>
      && result[i].totalCount == Tally(WebhookSlot(rangeHours, now), deliveries, i)
      && result[i].successCount == Tally(SuccessSlot(rangeHours, now), deliveries, i)
      && result[i].totalCount == result[i].successCount + result[i].failedCount
  {
    var n := WebhookBuckets(rangeHours);
    hide Tally;
    ghost var slot, good := WebhookSlot(rangeHours, now), SuccessSlot(rangeHours, now);
    TallyNone(slot, deliveries);
    TallyNone(good, deliveries);
    var buckets := new WebhookBucket[n](_ => WebhookBucket(0, 0, 0));
    for k := 0 to |deliveries|
      invariant forall i :: 0 <= i < n ==>
        && buckets[i].totalCount == Tally(slot, deliveries[..k], i)
        && buckets[i].successCount == Tally(good, deliveries[..k], i)
        && buckets[i].totalCount == buckets[i].successCount + buckets[i].failedCount
    {
      TallyNext(slot, deliveries, k);
      TallyNext(good, deliveries, k);
      var bucketIndex := (now - deliveries[k].attemptedAt) / WebhookWidth(rangeHours);
      var idx := n - 1 - bucketIndex;
      if 0 <= idx < n {
        var bucket := buckets[idx].(totalCount := buckets[idx].totalCount + 1);
        buckets[idx] := if deliveries[k].success then bucket.(successCount := bucket.successCount + 1)
                        else bucket.(failedCount := bucket.failedCount + 1);
      }
    }
    assert deliveries[..|deliveries|] == deliveries;
    result := buckets[..];
  }

  /** The buckets together count exactly the deliveries of (now - N x width, now]; bucket i counts
      those of (end - width, end]. */
  lemma {:induction false} WebhookPlacement(deliveries: seq<Delivery>, rangeHours: nat, now: int, d: Delivery, i: int)
    ensures TallyTo(WebhookSlot(rangeHours, now), deliveries, WebhookBuckets(rangeHours))
            == Count(InSlots(WebhookSlot(rangeHours, now), WebhookBuckets(rangeHours)), deliveries)
    ensures WebhookSlot(rangeHours, now)(d) == i
            <==> (var end := now - (WebhookBuckets(rangeHours) - 1 - i) * WebhookWidth(rangeHours);
                  end - WebhookWidth(rangeHours) < d.attemptedAt <= end)
    ensures 0 <= WebhookSlot(rangeHours, now)(d) < WebhookBuckets(rangeHours)
            <==> now - WebhookBuckets(rangeHours) * WebhookWidth(rangeHours) < d.attemptedAt <= now
  {
    var w, n := WebhookWidth(rangeHours), WebhookBuckets(rangeHours);
    TalliesAddUp(WebhookSlot(rangeHours, now), deliveries, n);
    var elapsed := now - d.attemptedAt;
    QuotientIs(elapsed, w, n - 1 - i);
    QuotientBelow(elapsed, w, n);
    QuotientBelow(elapsed, w, 0);
  }

  /** The successes whose latencies are averaged for bucket i: those of [start, end). */
  predicate AveragedIn(rangeHours: nat, now: int, d: Delivery, i: int) {
    var end := now - (WebhookBuckets(rangeHours) - 1 - i) * WebhookWidth(rangeHours);
    d.success && d.latencyMs.Some? && end - WebhookWidth(rangeHours) <= d.attemptedAt < end
  }

  /** A success with a latency is averaged in just one bucket: the one it is counted in, or the
      next when it is a whole number of widths before now. So the averages together are of the
      successes of [now - N x width, now), where the counts are of (now - N x width, now]. */
  lemma {:induction false} AveragedExactly(rangeHours: nat, now: int, d: Delivery, i: int)
    ensures AveragedIn(rangeHours, now, d, i)
            <==> d.success && d.latencyMs.Some?
                 && i == WebhookSlot(rangeHours, now)(d)
                         + if (now - d.attemptedAt) % WebhookWidth(rangeHours) == 0 then 1 else 0
    ensures (exists b :: 0 <= b < WebhookBuckets(rangeHours) && AveragedIn(rangeHours, now, d, b))
            <==> d.success && d.latencyMs.Some?
                 && now - WebhookBuckets(rangeHours) * WebhookWidth(rangeHours) <= d.attemptedAt < now
  {
    var w, n := WebhookWidth(rangeHours), WebhookBuckets(rangeHours);
    AveragedWhere(rangeHours, now, d, i);
    var b := WebhookSlot(rangeHours, now)(d) + if (now - d.attemptedAt) % w == 0 then 1 else 0;
    AveragedWhere(rangeHours, now, d, b);
    AveragedInWindow(rangeHours, now, d, b);
    forall other | 0 <= other < n && AveragedIn(rangeHours, now, d, other)
      ensures other == b
    {
      AveragedWhere(rangeHours, now, d, other);
    }
  }

  lemma {:induction false} AveragedWhere(rangeHours: nat, now: int, d: Delivery, i: int)
    ensures AveragedIn(rangeHours, now, d, i)
            <==> d.success && d.latencyMs.Some?
                 && i == WebhookSlot(rangeHours, now)(d)
                         + if (now - d.attemptedAt) % WebhookWidth(rangeHours) == 0 then 1 else 0
  {
    var elapsed, w, k := now - d.attemptedAt, WebhookWidth(rangeHours), WebhookBuckets(rangeHours) - 1 - i;
    QuotientIs(elapsed, w, k);
    QuotientIs(elapsed, w, k + 1);
    assert (k + 1) * w == k * w + w;
    RemainderIs(elapsed, w, elapsed / w);
  }

  lemma {:induction false} AveragedInWindow(rangeHours: nat, now: int, d: Delivery, b: int)
    requires b == WebhookSlot(rangeHours, now)(d)
                  + if (now - d.attemptedAt) % WebhookWidth(rangeHours) == 0 then 1 else 0
    ensures 0 <= b < WebhookBuckets(rangeHours)
            <==> now - WebhookBuckets(rangeHours) * WebhookWidth(rangeHours) <= d.attemptedAt < now
  {
    var elapsed, w, n := now - d.attemptedAt, WebhookWidth(rangeHours), WebhookBuckets(rangeHours);
    QuotientBelow(elapsed, w, n);
    QuotientBelow(elapsed, w, 0);
    QuotientBelow(elapsed, w, 1);
    QuotientBelow(elapsed, w, n + 1);
    RemainderIs(elapsed, w, elapsed / w);
    assert (n + 1) * w == n * w + w;
    QuotientIs(elapsed, w, n);
    QuotientIs(elapsed, w, 0);
  }

  /** A success at the window's edge is averaged in the oldest bucket and counted in none; one
      made just now is counted in the newest and averaged in none. */
  lemma {:induction false} EdgesCountedOrAveraged(rangeHours: nat, now: int, latency: int)
    requires rangeHours > 0
    ensures var n, w := WebhookBuckets(rangeHours), WebhookWidth(rangeHours);
            var edge, late := Delivery(true, Some(latency), now - n * w), Delivery(true, Some(latency), now);
      && AveragedIn(rangeHours, now, edge, 0) && WebhookSlot(rangeHours, now)(edge) == -1
      && WebhookSlot(rangeHours, now)(late) == n - 1 && forall b :: 0 <= b < n ==> !AveragedIn(rangeHours, now, late, b)
  {
    var n, w := WebhookBuckets(rangeHours), WebhookWidth(rangeHours);
    var late := Delivery(true, Some(latency), now);
    QuotientIs(n * w, w, n);
    AveragedExactly(rangeHours, now, late, 0);
  }

  lemma {:induction false} RemainderIs(a: int, b: int, q: int)
    requires b > 0 && a / b == q
    ensures a % b == a - q * b && 0 <= a % b < b
  {
  }

  // ----- the percentile

  ghost predicate Ascending(xs: seq<int>) {
    forall i, j :: 0 <= i < j < |xs| ==> xs[i] <= xs[j]
  }

  /** The nearest-rank 95th percentile of sorted latencies. */
  function P95(latencies: seq<int>): int
    requires latencies != []
  {
    latencies[Max(0, (95 * |latencies| + 99) / 100 - 1)]
  }

  lemma {:induction false} CountFrom(xs: seq<int>, k: int, bound: int)
    requires 0 <= k <= |xs|
    requires forall i :: 0 <= i < |xs| ==> (xs[i] <= bound <==> i < k)
    ensures Count(x => x <= bound, xs) == k
  {
    if xs != [] {
      if k == |xs| { CountFrom(xs[..|xs| - 1], k - 1, bound); } else { CountFrom(xs[..|xs| - 1], k, bound); }
    }
  }

  lemma {:induction false} CountSplit(xs: seq<int>, bound: int) returns (k: int)
    requires Ascending(xs)
    ensures 0 <= k <= |xs| && forall i :: 0 <= i < |xs| ==> (xs[i] <= bound <==> i < k)
  {
    k := |xs|;
    while k > 0 && xs[k - 1] > bound
      invariant 0 <= k <= |xs| && forall i :: k <= i < |xs| ==> xs[i] > bound
    {
      k := k - 1;
    }
  }

  /** At least 95% of the latencies are no higher than the percentile, and no lower value
      among them, or anywhere, has that many at or below it. */
  lemma {:induction false} P95IsNearestRank(latencies: seq<int>, lower: int)
    requires latencies != [] && Ascending(latencies) && lower < P95(latencies)
    ensures P95(latencies) in latencies
    ensures 100 * Count(x => x <= P95(latencies), latencies) >= 95 * |latencies|
    ensures 100 * Count(x => x <= lower, latencies) < 95 * |latencies|
  {
    var k := CountSplit(latencies, P95(latencies));
    CountFrom(latencies, k, P95(latencies));
    var j := CountSplit(latencies, lower);
    CountFrom(latencies, j, lower);
  }

  // ----- the heatmap

  datatype HeatmapCell = HeatmapCell(count: nat, intensity: real)

  datatype Heatmap = Heatmap(maxCount: nat, totalCount: nat, span: Option<(int, int)>)

  /** The weekday and hour of a time, as the host's calendar gives them. */
  datatype Calendar = Calendar(day: int -> int, hour: int -> int) {
    ghost predicate Valid() {
      forall t :: 0 <= day(t) < 7 && 0 <= hour(t) < 24
    }

    function Cell(): int -> int {
      t => day(t) * 24 + hour(t)
    }
  }

  /** The times within the chosen dates, both ends included; an absent end does not bound. */
  function Chosen(start: Option<int>, end: Option<int>): int -> bool {
    t => (start.Some? ==> start.value <= t) && (end.Some? ==> t <= end.value)
  }

  /** The chosen times are those given that are neither before the start nor after the end. */
  lemma {:induction false} ChosenExactly(times: seq<int>, start: Option<int>, end: Option<int>, t: int)
    ensures t in Filter(Chosen(start, end), times)
            <==> t in times && t >= start.UnwrapOr(t) && t <= end.UnwrapOr(t)
  {
    if t in times && Chosen(start, end)(t) { FilterFinds(Chosen(start, end), times, t); }
  }

  /** The earliest and the latest time. */
  function SpanOf(times: seq<int>): (span: Option<(int, int)>)
    ensures match span
            case None => times == []
            case Some((first, last)) => first in times && last in times && forall t :: t in times ==> first <= t <= last
  {
    if times == [] then None
    else
      var earlier, t := SpanOf(times[..|times| - 1]), times[|times| - 1];
      assert times == times[..|times| - 1] + [t];
      if earlier.None? then Some((t, t)) else Some((Min(t, earlier.value.0), Max(t, earlier.value.1)))
  }

  lemma {:induction false} SpanNext(times: seq<int>, k: nat)
    requires k < |times|
    ensures var earlier, t := SpanOf(times[..k]), times[k];
      SpanOf(times[..k + 1]) == if earlier.None? then Some((t, t))
        else Some((Min(t, earlier.value.0), Max(t, earlier.value.1)))
  {
    assert times[..k + 1][..k] == times[..k];
  }

  /** The cell's intensity is its share of the maximum, or nothing where there is none. */
  predicate Scaled(cell: HeatmapCell, maxCount: nat) {
    && cell.intensity * maxCount as real == cell.count as real
    && (maxCount == 0 ==> cell.intensity == 0.0)
  }

  function Intensity(count: nat, maxCount: nat): real {
    if maxCount > 0 then count as real / maxCount as real else 0.0
  }

  /** The colour step of an intensity. */
  function IntensityLevel(intensity: real): nat {
    if intensity == 0.0 then 0
    else if intensity < 0.25 then 1
    else if intensity < 0.5 then 2
    else if intensity < 0.75 then 3
    else 4
  }

  method CellsOf(counts: array2<nat>, maxCount: nat) returns (cells: array2<HeatmapCell>)
    requires forall d, h :: 0 <= d < counts.Length0 && 0 <= h < counts.Length1 ==> counts[d, h] <= maxCount
    ensures fresh(cells) && cells.Length0 == counts.Length0 && cells.Length1 == counts.Length1
    ensures forall d, h :: 0 <= d < counts.Length0 && 0 <= h < counts.Length1 ==>
      cells[d, h].count == counts[d, h] && Scaled(cells[d, h], maxCount)
  {
    cells := new HeatmapCell[counts.Length0, counts.Length1]((_, _) => HeatmapCell(0, 0.0));
    forall d, h | 0 <= d < counts.Length0 && 0 <= h < counts.Length1 {
      cells[d, h] := HeatmapCell(counts[d, h], Intensity(counts[d, h], maxCount));
    }
  }

  /** The single pass: the grid of counts, its running maximum, and the earliest and latest time. */
  method CountTimes(times: seq<int>, calendar: Calendar)
    returns (counts: array2<nat>, maxCount: nat, span: Option<(int, int)>)
    requires calendar.Valid()
    ensures fresh(counts) && counts.Length0 == 7 && counts.Length1 == 24
    ensures forall d, h :: 0 <= d < 7 && 0 <= h < 24 ==>
      counts[d, h] == Tally(calendar.Cell(), times, d * 24 + h) && counts[d, h] <= maxCount
    ensures exists d, h :: 0 <= d < 7 && 0 <= h < 24 && counts[d, h] == maxCount
    ensures span == SpanOf(times)
  {
    hide Tally, SpanOf;
    TallyNone(calendar.Cell(), times);
    counts := new nat[7, 24]((_, _) => 0);
    maxCount := 0;
    ghost var maxDay, maxHour := 0, 0;
    span := None;
    for k := 0 to |times|
      invariant forall d, h :: 0 <= d < 7 && 0 <= h < 24 ==>
        counts[d, h] == Tally(calendar.Cell(), times[..k], d * 24 + h) && counts[d, h] <= maxCount
      invariant 0 <= maxDay < 7 && 0 <= maxHour < 24 && counts[maxDay, maxHour] == maxCount
      invariant span == SpanOf(times[..k])
    {
      var t := times[k];
      TallyNext(calendar.Cell(), times, k);
      SpanNext(times, k);
      var day, hour := calendar.day(t), calendar.hour(t);
      counts[day, hour] := counts[day, hour] + 1;
      if counts[day, hour] > maxCount {
        maxCount := counts[day, hour];
        maxDay, maxHour := day, hour;
      }
      span := if span.None? then Some((t, t)) else Some((Min(t, span.value.0), Max(t, span.value.1)));
    }
    assert times[..|times|] == times;
  }

  method AggregateHeatmap(received: seq<int>, start: Option<int>, end: Option<int>, calendar: Calendar)
    returns (cells: array2<HeatmapCell>, summary: Heatmap)
    requires calendar.Valid()
    ensures fresh(cells) && cells.Length0 == 7 && cells.Length1 == 24
    ensures forall d, h :: 0 <= d < 7 && 0 <= h < 24 ==>
      && cells[d, h].count == Tally(calendar.Cell(), Filter(Chosen(start, end), received), d * 24 + h)
      && cells[d, h].count <= summary.maxCount
      && Scaled(cells[d, h], summary.maxCount)
    ensures exists d, h :: 0 <= d < 7 && 0 <= h < 24 && cells[d, h].count == summary.maxCount
    ensures var times := Filter(Chosen(start, end), received);
      && summary.totalCount == |times|
      && summary.span == SpanOf(times)
  {
    hide Tally, Filter, SpanOf, Scaled;
    var times := Filter(Chosen(start, end), received);
    var counts, maxCount, span := CountTimes(times, calendar);
    cells := CellsOf(counts, maxCount);
    summary := Heatmap(maxCount, |times|, span);
    ghost var d, h :| 0 <= d < 7 && 0 <= h < 24 && counts[d, h] == maxCount;
    assert cells[d, h].count == maxCount;
  }

  /** The level of a cell is 0 iff nothing happened in it, 4 iff at least three quarters of the
      busiest cell's count did, and between them the quarter its count is in; a busier cell has
      no lower level. */
  lemma {:induction false} LevelExactly(count: nat, more: nat, maxCount: nat)
    requires count <= more <= maxCount
    ensures var level := IntensityLevel(Intensity(count, maxCount));
      && (level == 0 <==> count == 0)
      && (level == 4 <==> count > 0 && 4 * count >= 3 * maxCount)
      && (1 <= level < 4 ==> (level - 1) * maxCount <= 4 * count < level * maxCount)
      && level <= IntensityLevel(Intensity(more, maxCount)) <= 4
  {
    if maxCount > 0 {
      IntensityAgainst(count, maxCount);
      IntensityAgainst(more, maxCount);
    }
  }

  /** Comparing an intensity with quarters is comparing four times the count. */
  lemma {:induction false} IntensityAgainst(count: nat, maxCount: nat)
    requires maxCount > 0
    ensures Intensity(count, maxCount) == 0.0 <==> count == 0
    ensures Intensity(count, maxCount) < 0.25 <==> 4 * count < maxCount
    ensures Intensity(count, maxCount) < 0.5 <==> 4 * count < 2 * maxCount
    ensures Intensity(count, maxCount) < 0.75 <==> 4 * count < 3 * maxCount
  {
    ShareBelow(count, maxCount, 0.25);
    ShareBelow(count, maxCount, 0.5);
    ShareBelow(count, maxCount, 0.75);
    assert Intensity(count, maxCount) * maxCount as real == count as real;
    hide Intensity;
    assert count as real < 0.25 * maxCount as real <==> 4 * count < maxCount;
    assert count as real < 0.5 * maxCount as real <==> 4 * count < 2 * maxCount;
    assert count as real < 0.75 * maxCount as real <==> 4 * count < 3 * maxCount;
  }

  lemma {:induction false} ShareBelow(count: nat, maxCount: nat, share: real)
    requires maxCount > 0
    ensures Intensity(count, maxCount) < share <==> count as real < share * maxCount as real
  {
    assert Intensity(count, maxCount) * maxCount as real == count as real;
    ProductsOrdered(Intensity(count, maxCount), share, maxCount as real);
  }

  lemma {:induction false} ProductsOrdered(x: real, y: real, m: real)
    requires m > 0.0
    ensures x < y <==> x * m < y * m
  {
  }

  function DuringHour(calendar: Calendar, d: nat, h: nat): int -> bool {
    t => calendar.day(t) == d && calendar.hour(t) == h
  }

  /** A cell counts the times of its day and its hour. */
  lemma {:induction false} CellsCounted(times: seq<int>, calendar: Calendar, d: nat, h: nat)
    requires calendar.Valid() && d < 7 && h < 24
    ensures Tally(calendar.Cell(), times, d * 24 + h)
            == |Filter(DuringHour(calendar, d, h), times)|
  {
    TallyIsCount(calendar.Cell(), times, d * 24 + h);
    forall t | t in times
      ensures InSlot(calendar.Cell(), d * 24 + h)(t) <==> DuringHour(calendar, d, h)(t)
    {
      assert 0 <= calendar.day(t) < 7 && 0 <= calendar.hour(t) < 24;
    }
    FilterAgrees(InSlot(calendar.Cell(), d * 24 + h), DuringHour(calendar, d, h), times);
  }

  /** The cells of the grid add up to the number of events. */
  lemma {:induction false} HeatmapAddsUp(times: seq<int>, calendar: Calendar)
    requires calendar.Valid()
    ensures TallyTo(calendar.Cell(), times, 7 * 24) == |times|
  {
    TalliesAddUp(calendar.Cell(), times, 168);
    assert forall t :: InSlots(calendar.Cell(), 168)(t);
    CountAll(InSlots(calendar.Cell(), 168), times);
  }

  lemma {:induction false} CountAll<T>(p: T -> bool, xs: seq<T>)
    requires forall i :: 0 <= i < |xs| ==> p(xs[i])
    ensures Count(p, xs) == |xs|
  {
    if xs != [] { CountAll(p, xs[..|xs| - 1]); }
  }
}
