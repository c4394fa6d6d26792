/** The four orders of the event list, and filtering with sorting. */
module EventSorting {
  import opened Sequences
  import opened Events
  import opened StableSorting

  datatype SortOption = Newest | Oldest | Priority | DeliveryStatus

  function StatusRank(event: Event): int {
    match event.notificationStatus
    case Some(Active) => 0
    case Some(Expired) => 1
    case Some(Revoked) => 2
    case Some(Inherited(_)) => 3
    case None => 3
  }

  function CompareNewest(a: Event, b: Event): int {
    b.receivedAt - a.receivedAt
  }

  function CompareOldest(a: Event, b: Event): int {
    a.receivedAt - b.receivedAt
  }

  function ComparePriority(a: Event, b: Event): int {
    if a.ledger - b.ledger != 0 then a.ledger - b.ledger else b.receivedAt - a.receivedAt
  }

  function CompareDeliveryStatus(a: Event, b: Event): int {
    if StatusRank(a) != StatusRank(b) then StatusRank(a) - StatusRank(b) else b.receivedAt - a.receivedAt
  }

  function Compare(sortBy: SortOption): Comparator<Event> {
    match sortBy
    case Newest => CompareNewest
    case Oldest => CompareOldest
    case Priority => ComparePriority
    case DeliveryStatus => CompareDeliveryStatus
  }

  function SortEvents(events: seq<Event>, sortBy: SortOption): seq<Event> {
    Sort(Compare(sortBy), events)
  }

  /** The events the filters let through, in the chosen order. */
  function FilterEvents(events: seq<Event>, matches: Event -> bool, sortBy: SortOption): seq<Event> {
    SortEvents(Filter(matches, events), sortBy)
  }

  lemma {:induction false} ComparatorsConsistent(sortBy: SortOption)
    ensures Consistent(Compare(sortBy))
  {
    match sortBy
    case Newest =>
    case Oldest =>
    case Priority =>
    case DeliveryStatus =>
  }

  /** Under each order the sorted events are a stable sort of the input, and the only one. */
  lemma {:induction false} SortEventsIsTheStableSort(events: seq<Event>, sortBy: SortOption, other: seq<Event>)
    ensures StableSortOf(Compare(sortBy), events, other) <==> other == SortEvents(events, sortBy)
  {
    ComparatorsConsistent(sortBy);
    SortIsStable(Compare(sortBy), events);
    if StableSortOf(Compare(sortBy), events, other) {
      StableIsUnique(Compare(sortBy), other, SortEvents(events, sortBy));
    }
  }

  /** What each order shows: the newest or the oldest first; the lowest ledger first, or active,
      expired, revoked and the rest in turn, and the newest first within. */
  lemma {:induction false} OrdersMeanWhatTheySay(events: seq<Event>, i: int, j: int)
    requires 0 <= i < j < |events|
    ensures forall o :: |SortEvents(events, o)| == |events|
    ensures SortEvents(events, Newest)[i].receivedAt >= SortEvents(events, Newest)[j].receivedAt
    ensures SortEvents(events, Oldest)[i].receivedAt <= SortEvents(events, Oldest)[j].receivedAt
    ensures var a, b := SortEvents(events, Priority)[i], SortEvents(events, Priority)[j];
      a.ledger < b.ledger || (a.ledger == b.ledger && a.receivedAt >= b.receivedAt)
    ensures var a, b := SortEvents(events, DeliveryStatus)[i], SortEvents(events, DeliveryStatus)[j];
      && (b.notificationStatus == Some(Active) ==> a.notificationStatus == Some(Active))
      && (b.notificationStatus == Some(Expired) ==>
            a.notificationStatus == Some(Active) || a.notificationStatus == Some(Expired))
      && (b.notificationStatus == Some(Revoked) ==>
            a.notificationStatus.Some? && !a.notificationStatus.value.Inherited?)
      && (StatusRank(a) == StatusRank(b) ==> a.receivedAt >= b.receivedAt)
  {
    hide Sort;
    forall o: SortOption
      ensures |SortEvents(events, o)| == |events| && Compare(o)(SortEvents(events, o)[i], SortEvents(events, o)[j]) <= 0
    {
      ComparatorsConsistent(o);
      SortIsStable(Compare(o), events);
      assert |multiset(SortEvents(events, o))| == |multiset(events)|;
    }
  }

  /** Filtering then sorting, as the list does, is sorting then filtering, whatever the filter;
      and doing both again changes nothing. */
  lemma {:induction false} FilterThenSort(events: seq<Event>, matches: Event -> bool, sortBy: SortOption)
    ensures FilterEvents(events, matches, sortBy) == Filter(matches, SortEvents(events, sortBy))
    ensures FilterEvents(FilterEvents(events, matches, sortBy), matches, sortBy)
            == FilterEvents(events, matches, sortBy)
  {
    ComparatorsConsistent(sortBy);
    SortAndFilterCommute(Compare(sortBy), matches, events);
    var shown := FilterEvents(events, matches, sortBy);
    SortIsStable(Compare(sortBy), Filter(matches, events));
    FilterAll(matches, shown);
    SortEventsIsTheStableSort(shown, sortBy, shown);
  }
}
