/** The dashboard's event record. */
module Events {
  import opened Sequences
  import opened JsText

  /** A status, or what an event has been given for one that is none: the function or object
      every object of the language has under that name. */
  datatype LifecycleStatus = Active | Expired | Revoked | Inherited(name: string)

  datatype Event = Event(
    eventId: string, contractAddress: string, eventName: Option<string>, ledger: int, value: string,
    txHash: Option<string>, receivedAt: int, notificationStatus: Option<LifecycleStatus>,
    relatedNotificationId: Option<string>, read: Option<bool>)

  /** The lifecycle status an event name announces, if any. */
  function StatusAnnounced(eventName: string): Option<LifecycleStatus> {
    if eventName == "notification_scheduled" then Some(Active)
    else if eventName == "notification_expired" then Some(Expired)
    else if eventName == "notification_revoked" then Some(Revoked)
    else if eventName in INHERITED then Some(Inherited(eventName))
    else None
  }

  function Hydrated(event: Event): Event {
    if event.eventName.None? || StatusAnnounced(event.eventName.value).None? then event
    else event.(notificationStatus := StatusAnnounced(event.eventName.value))
  }

  /** Hydration gives the three announced statuses to the three event names that announce them. */
  lemma {:induction false} HydrationAnnounces(event: Event)
    ensures var status := Hydrated(event).notificationStatus;
      && (event.eventName == Some("notification_scheduled") ==> status == Some(Active))
      && (event.eventName == Some("notification_expired") ==> status == Some(Expired))
      && (event.eventName == Some("notification_revoked") ==> status == Some(Revoked))
      && (event.eventName.None? ==> status == event.notificationStatus)
      && (forall name ::
            (&& event.eventName == Some(name) && name !in INHERITED
             && name !in {"notification_scheduled", "notification_expired", "notification_revoked"}) ==>
            status == event.notificationStatus)
    ensures Hydrated(event).(notificationStatus := None) == event.(notificationStatus := None)
  {
  }

  function Patched(event: Event, targetId: string, status: LifecycleStatus): Event {
    if Concerns(event, targetId) then event.(notificationStatus := Some(status)) else event
  }

  /** The event is the notification itself or refers to it. */
  predicate Concerns(event: Event, targetId: string) {
    event.eventId == targetId || event.relatedNotificationId == Some(targetId)
  }

  /** Every event is still in its place, with every field but the status; the status is the
      given one where the event concerns the target, and elsewhere what it was. */
  ghost predicate StatusSet(events: seq<Event>, updated: seq<Event>, targetId: string, status: LifecycleStatus) {
    && |updated| == |events|
    && forall i :: 0 <= i < |events| ==>
         && updated[i].eventId == events[i].eventId
         && updated[i].(notificationStatus := None) == events[i].(notificationStatus := None)
         && updated[i].notificationStatus
            == if events[i].eventId == targetId || events[i].relatedNotificationId == Some(targetId) then Some(status)
               else events[i].notificationStatus
  }
}
