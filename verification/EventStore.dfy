/** The dashboard's event store: events deduplicated by id as they stream in. */
module EventStore {
  import opened Sequences
  import opened Events

  // ----- the insertion-ordered map

  /** Where the id is kept, or the length when it is not. */
  function Position(kept: seq<Event>, id: string): (i: nat)
    ensures i <= |kept| && (i < |kept| ==> kept[i].eventId == id)
    ensures forall j :: 0 <= j < i ==> kept[j].eventId != id
  {
    if kept == [] || kept[0].eventId == id then 0 else 1 + Position(kept[1..], id)
  }

  /** Setting a key already there keeps its place; a new one goes to the end. */
  function Put(kept: seq<Event>, event: Event): seq<Event> {
    var i := Position(kept, event.eventId);
    if i < |kept| then kept[i := event] else kept + [event]
  }

  function PutAll(kept: seq<Event>, events: seq<Event>): seq<Event> {
    if events == [] then kept else Put(PutAll(kept, events[..|events| - 1]), events[|events| - 1])
  }

  function Deduped(events: seq<Event>): seq<Event> {
    PutAll([], events)
  }

  method DedupeEventsById(events: seq<Event>) returns (kept: seq<Event>)
    ensures kept == Deduped(events)
  {
    kept := [];
    for i := 0 to |events|
      invariant kept == Deduped(events[..i])
    {
      kept := Put(kept, events[i]);
      assert events[..i + 1][..i] == events[..i];
    }
    assert events[..|events|] == events;
  }

  class Store {
    var events: seq<Event>
    var lastFetchedAt: int

    constructor ()
      ensures events == [] && lastFetchedAt == 0
    {
      events, lastFetchedAt := [], 0;
    }

    method SetEvents(fetched: seq<Event>, now: int)
      modifies this
      ensures events == Deduped(fetched) && lastFetchedAt == now
    {
      events := DedupeEventsById(fetched);
      lastFetchedAt := now;
    }

    method AppendEvents(more: seq<Event>)
      modifies this`events
      ensures events == Deduped(old(events) + more)
    {
      events := DedupeEventsById(events + more);
    }

    method UpdateEventStatus(targetId: string, status: LifecycleStatus)
      modifies this`events
      ensures StatusSet(old(events), events, targetId, status)
      ensures DistinctIds(old(events)) ==> DistinctIds(events)
    {
      events := Map(e => Patched(e, targetId, status), events);
    }
  }

  // ----- what deduplication keeps

  ghost predicate DistinctIds(events: seq<Event>) {
    forall i, j :: 0 <= i < j < |events| ==> events[i].eventId != events[j].eventId
  }

  predicate HasId(events: seq<Event>, id: string) {
    exists i :: 0 <= i < |events| && events[i].eventId == id
  }

  /** The ids in the order they first occur. */
  function FirstIds(events: seq<Event>): seq<string> {
    if events == [] then []
    else
      var earlier, id := FirstIds(events[..|events| - 1]), events[|events| - 1].eventId;
      if id in earlier then earlier else earlier + [id]
  }

  function LastWith(events: seq<Event>, id: string): Option<Event> {
    if events == [] then None
    else if events[|events| - 1].eventId == id then Some(events[|events| - 1])
    else LastWith(events[..|events| - 1], id)
  }

  /** Deduplication keeps each id once, in the order of first occurrence, with the event that
      occurred last. */
  lemma {:induction false} DedupedKeeps(events: seq<Event>)
    ensures var kept, ids := Deduped(events), FirstIds(events);
      && |kept| == |ids|
      && (forall k :: 0 <= k < |kept| ==> kept[k].eventId == ids[k] && LastWith(events, ids[k]) == Some(kept[k]))
      && DistinctIds(kept)
      && (forall id :: id in ids <==> HasId(events, id))
  {
    if events != [] {
      var init, last := events[..|events| - 1], events[|events| - 1];
      DedupedKeeps(init);
      var kept, ids := Deduped(init), FirstIds(init);
      assert forall id :: HasId(events, id) <==> HasId(init, id) || id == last.eventId by {
        assert events[|events| - 1].eventId == last.eventId;
        assert forall i :: 0 <= i < |init| ==> events[i] == init[i];
      }
      assert forall k :: 0 <= k < |ids| ==> kept[k].eventId == ids[k];
      assert Position(kept, last.eventId) < |kept| ==> ids[Position(kept, last.eventId)] == last.eventId;
    }
  }

  function IdOf(event: Event): string {
    event.eventId
  }

  /** The ids of the deduplicated events are those of the events, each once, in the order in which
      they first occur. */
  lemma {:induction false} DedupedIds(events: seq<Event>)
    ensures Map(IdOf, Deduped(events)) == Distinct(Map(IdOf, events))
  {
    DedupedKeeps(events);
    FirstIdsAreDistinct(events);
  }

  lemma {:induction false} FirstIdsAreDistinct(events: seq<Event>)
    ensures FirstIds(events) == Distinct(Map(IdOf, events))
  {
    if events != [] {
      FirstIdsAreDistinct(events[..|events| - 1]);
      MapInit(IdOf, events);
    }
  }

  /** A deduplicated event is the last of the events with its id. */
  lemma {:induction false} DedupedAreLast(events: seq<Event>, k: nat) returns (n: nat)
    requires k < |Deduped(events)|
    ensures n < |events| && events[n] == Deduped(events)[k]
    ensures forall m :: n < m < |events| ==> events[m].eventId != events[n].eventId
  {
    DedupedKeeps(events);
    n := LastIsLast(events, FirstIds(events)[k]);
  }

  lemma {:induction false} LastIsLast(events: seq<Event>, id: string) returns (n: nat)
    requires LastWith(events, id).Some?
    ensures n < |events| && events[n] == LastWith(events, id).value && events[n].eventId == id
    ensures forall m :: n < m < |events| ==> events[m].eventId != id
  {
    n := |events| - 1;
    if events[n].eventId != id {
      n := LastIsLast(events[..n], id);
    }
  }

  lemma {:induction false} PutAllConcat(kept: seq<Event>, xs: seq<Event>, ys: seq<Event>)
    ensures PutAll(kept, xs + ys) == PutAll(PutAll(kept, xs), ys)
    decreases |ys|
  {
    if ys == [] {
      assert xs + ys == xs;
    } else {
      var init := ys[..|ys| - 1];
      PutAllConcat(kept, xs, init);
      assert (xs + ys)[..|xs + ys| - 1] == xs + init;
    }
  }

  lemma {:induction false} DistinctUnchanged(events: seq<Event>)
    requires DistinctIds(events)
    ensures Deduped(events) == events
  {
    if events != [] {
      var init := events[..|events| - 1];
      DistinctUnchanged(init);
      assert events == init + [events[|events| - 1]];
    }
  }

  /** Appending to what is stored is deduplicating all there ever was. */
  lemma {:induction false} AppendIsBatch(xs: seq<Event>, ys: seq<Event>)
    ensures Deduped(Deduped(xs) + ys) == Deduped(xs + ys)
  {
    DedupedKeeps(xs);
    DistinctUnchanged(Deduped(xs));
    PutAllConcat([], Deduped(xs), ys);
    PutAllConcat([], xs, ys);
  }

  /** The store after a first fetch and any further chunks. */
  function Streamed(first: seq<Event>, chunks: seq<seq<Event>>): seq<Event> {
    if chunks == [] then Deduped(first)
    else Deduped(Streamed(first, chunks[..|chunks| - 1]) + chunks[|chunks| - 1])
  }

  function Flat(chunks: seq<seq<Event>>): seq<Event> {
    if chunks == [] then [] else Flat(chunks[..|chunks| - 1]) + chunks[|chunks| - 1]
  }

  /** However the events are cut into chunks, streaming them in gives the batch result. */
  lemma {:induction false} StreamingIsBatch(first: seq<Event>, chunks: seq<seq<Event>>)
    ensures Streamed(first, chunks) == Deduped(first + Flat(chunks))
  {
    if chunks == [] {
      assert first + [] == first;
    } else {
      var init, last := chunks[..|chunks| - 1], chunks[|chunks| - 1];
      StreamingIsBatch(first, init);
      AppendIsBatch(first + Flat(init), last);
      assert first + Flat(init) + last == first + Flat(chunks);
    }
  }

  // ----- patching and hydrating

  lemma {:induction false} PutCommutes(f: Event -> Event, kept: seq<Event>, event: Event)
    requires forall e :: f(e).eventId == e.eventId
    ensures Map(f, Put(kept, event)) == Put(Map(f, kept), f(event))
  {
    PositionKept(f, kept, event.eventId);
  }

  lemma {:induction false} PositionKept(f: Event -> Event, kept: seq<Event>, id: string)
    requires forall e :: f(e).eventId == e.eventId
    ensures Position(Map(f, kept), id) == Position(kept, id)
  {
    if kept != [] { PositionKept(f, kept[1..], id); }
  }

  /** A change of events that leaves ids alone can be made before or after deduplication. */
  lemma {:induction false} IdPreservingCommutes(f: Event -> Event, events: seq<Event>)
    requires forall e :: f(e).eventId == e.eventId
    ensures Map(f, Deduped(events)) == Deduped(Map(f, events))
  {
    hide Put, Map;
    if events != [] {
      var init, last := events[..|events| - 1], events[|events| - 1];
      IdPreservingCommutes(f, init);
      PutCommutes(f, Deduped(init), last);
      MapInit(f, events);
    }
  }

  lemma {:induction false} StatusSetIsPatching(events: seq<Event>, updated: seq<Event>, targetId: string,
        status: LifecycleStatus)
    ensures StatusSet(events, updated, targetId, status) <==> updated == Map(e => Patched(e, targetId, status), events)
  {
    if StatusSet(events, updated, targetId, status) {
      forall i | 0 <= i < |events|
        ensures updated[i] == Patched(events[i], targetId, status)
      {
        var bare := updated[i].(notificationStatus := None);
        assert updated[i] == bare.(notificationStatus := updated[i].notificationStatus);
      }
    }
  }

  /** Hydration keeps ids and their order, and can be done before or after deduplication. */
  lemma {:induction false} HydrationCommutes(events: seq<Event>)
    ensures FirstIds(Map(Hydrated, events)) == FirstIds(events)
    ensures Map(Hydrated, Deduped(events)) == Deduped(Map(Hydrated, events))
  {
    IdPreservingCommutes(Hydrated, events);
    FirstIdsKept(Hydrated, events);
  }

  /** Setting a status keeps ids and their order, and can be done before or after deduplication. */
  lemma {:induction false} StatusChangeCommutes(events: seq<Event>, updated: seq<Event>, targetId: string,
        status: LifecycleStatus)
    requires StatusSet(events, updated, targetId, status)
    ensures FirstIds(updated) == FirstIds(events)
    ensures StatusSet(Deduped(events), Deduped(updated), targetId, status)
  {
    StatusSetIsPatching(events, updated, targetId, status);
    StatusSetIsPatching(Deduped(events), Deduped(updated), targetId, status);
    IdPreservingCommutes(e => Patched(e, targetId, status), events);
    FirstIdsKept(e => Patched(e, targetId, status), events);
  }

  lemma {:induction false} FirstIdsKept(f: Event -> Event, events: seq<Event>)
    requires forall e :: f(e).eventId == e.eventId
    ensures FirstIds(Map(f, events)) == FirstIds(events)
  {
    if events != [] {
      FirstIdsKept(f, events[..|events| - 1]);
      assert Map(f, events)[..|events| - 1] == Map(f, events[..|events| - 1]);
    }
  }
}
