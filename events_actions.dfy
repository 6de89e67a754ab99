/**
 * The community event server actions (app/actions/community/events.ts)
 * over an in-memory copy of the event tables.
 */
module EventsActions {
  import opened Wrappers
  import opened Text
  import opened Response
  import opened Permissions
  import opened Ordering
  import opened EventsSchema

  const EventNotFound: string := "Event not found"
  const AlreadyRegistered: string := "Already registered"
  /** The default of getEvents' publishedOnly parameter. */
  const DefaultPublishedOnly: bool := true

  /** The columns of an event an update may set; `None` leaves a column alone. */
  datatype EventPatch = EventPatch(
    title: Option<string>, description: Option<string>, slug: Option<string>, date: Option<int>,
    capacity: Option<Option<int>>, registrationRequired: Option<bool>, startAt: Option<int>,
    endAt: Option<int>, timezone: Option<string>, cancelled: Option<bool>,
    visibility: Option<Visibility>, coverImageUrl: Option<Option<string>>, published: Option<bool>,
    location: Option<string>, locationType: Option<LocationType>, flagship: Option<bool>,
    createdBy: Option<string>, createdAt: Option<nat>)

  /** `set({ ...data, updatedAt: new Date() })` on an event row. */
  function PatchEvent(e: Event, d: EventPatch, now: nat): Event {
    e.(title := d.title.GetOr(e.title), description := d.description.GetOr(e.description),
       slug := d.slug.GetOr(e.slug), date := d.date.GetOr(e.date), capacity := d.capacity.GetOr(e.capacity),
       registrationRequired := d.registrationRequired.GetOr(e.registrationRequired),
       startAt := d.startAt.GetOr(e.startAt), endAt := d.endAt.GetOr(e.endAt),
       timezone := d.timezone.GetOr(e.timezone), cancelled := d.cancelled.GetOr(e.cancelled),
       visibility := d.visibility.GetOr(e.visibility), coverImageUrl := d.coverImageUrl.GetOr(e.coverImageUrl),
       published := d.published.GetOr(e.published), location := d.location.GetOr(e.location),
       locationType := d.locationType.GetOr(e.locationType), flagship := d.flagship.GetOr(e.flagship),
       createdBy := d.createdBy.GetOr(e.createdBy), createdAt := d.createdAt.GetOr(e.createdAt),
       updatedAt := now)
  }

  /** An update keeps the id, the publisher and the creation time, and leaves unset columns alone. */
  lemma PatchEventKeepsIdentity(e: Event, d: EventPatch, now: nat)
    ensures PatchEvent(e, d, now).id == e.id && PatchEvent(e, d, now).updatedAt == now
    ensures d.createdBy.None? ==> PatchEvent(e, d, now).createdBy == e.createdBy
    ensures d.createdBy.Some? ==> PatchEvent(e, d, now).createdBy == d.createdBy.value
    ensures d.createdAt.None? ==> PatchEvent(e, d, now).createdAt == e.createdAt
    ensures d.createdAt.Some? ==> PatchEvent(e, d, now).createdAt == d.createdAt.value
    ensures d.slug.None? ==> PatchEvent(e, d, now).slug == e.slug
    ensures d.published.None? ==> PatchEvent(e, d, now).published == e.published
    ensures d == EventPatch(None, None, None, None, None, None, None, None, None, None, None, None, None, None, None, None, None, None)
      ==> PatchEvent(e, d, now) == e.(updatedAt := now)
  {
  }

  /** `publishedOnly ? eq(published, true) : undefined`. */
  function EventFilter(publishedOnly: bool): Event -> bool {
    if publishedOnly then (e: Event) => e.published else (e: Event) => true
  }

  function EventDate(e: Event): int { e.date }

  /** The published-only listing admits exactly the published events; the full one admits every event. */
  lemma EventFilterCases(e: Event)
    ensures EventFilter(true)(e) <==> e.published
    ensures EventFilter(false)(e)
  {
  }

  /** No event in `events` has this slug. */
  predicate EventSlugFree(events: map<int, Event>, slug: string) {
    forall k :: k in events ==> events[k].slug != slug
  }

  /** An event with the rows `with: { sessions, speakers, sponsors }` attaches. */
  datatype EventDetail = EventDetail(event: Event, sessions: set<Session>, speakers: set<Speaker>, sponsors: set<Sponsor>)

  /** The row a registration insert produces. */
  function RegistrationRow(id: int, eventId: int, userId: string, now: nat): (r: Registration)
    ensures r.status == Confirmed && r.status != DefaultRegistrationStatus
    ensures r.eventId == eventId && r.userId == userId && r.id == id
  {
    Registration(id, eventId, userId, now, Confirmed, None, None)
  }

  class EventStore {
    var events: map<int, Event>
    /** Sessions, speakers, sponsors, feedback, tags, tag links and invitations. */
    var children: EventChildren
    var registrations: map<int, Registration>
    var nextEventId: int
    var nextRegistrationId: int
    /** The paths handed to `revalidatePath`, in order. */
    ghost var revalidated: seq<string>

    ghost predicate Valid()
      reads this
    {
      && EventsOk(events, nextEventId)
      && ChildrenOk(children, events)
      && RegistrationsOk(registrations, nextRegistrationId, events)
    }

    constructor ()
      ensures Valid()
      ensures events == map[] && children == NoChildren && registrations == map[] && revalidated == []
    {
      events, children, registrations := map[], NoChildren, map[];
      nextEventId, nextRegistrationId := 1, 1;
      revalidated := [];
    }

    /** createEvent: an admin (or superadmin) inserts an event published by themselves. */
    method CreateEvent(caller: Option<User>, input: NewEvent, now: nat) returns (r: ServerResponse<Event>)
      requires Valid()
      modifies this
      ensures Valid()
      ensures !AdminGate(caller) ==> r == Failure(Unauthorized)
      ensures r.Success? <==> AdminGate(caller) && EventSlugFree(old(events), input.slug)
      ensures r.Failure? ==> events == old(events) && revalidated == old(revalidated)
      ensures r.Success? ==>
        && r.data == EventRow(r.data.id, caller.value.id, input, now) && r.data.id !in old(events)
        && events == old(events)[r.data.id := r.data]
        && revalidated == old(revalidated) + ["/events"]
      ensures registrations == old(registrations)
      ensures children == old(children)
    {
      if !AdminGate(caller) {
        return Failure(Unauthorized);
      }
      if !EventSlugFree(events, input.slug) {
        return Failure(DuplicateKey);
      }
      var event := EventRow(nextEventId, caller.value.id, input, now);
      ChildrenOkGrow(children, events, events[event.id := event], registrations, nextRegistrationId);
      events := events[event.id := event];
      nextEventId := nextEventId + 1;
      revalidated := revalidated + ["/events"];
      r := Success(event);
    }

    /**
     * getEvents: the published events, or all of them, latest date first.
     * An omitted argument defaults to published only.
     */
    method GetEvents(publishedOnly: Option<bool>) returns (r: ServerResponse<seq<Event>>)
      requires Valid()
      ensures r.Success? && Listing(r.data, events, EventFilter(publishedOnly.GetOr(DefaultPublishedOnly)), EventDate)
      ensures publishedOnly.None? ==> forall e :: e in r.data <==> e in events.Values && e.published
    {
      EventsInjective(events, nextEventId);
      var rows := SelectDesc(events, EventFilter(publishedOnly.GetOr(DefaultPublishedOnly)), EventDate);
      ListingMembers(rows, events, EventFilter(publishedOnly.GetOr(DefaultPublishedOnly)), EventDate);
      r := Success(rows);
    }

    /** getEventBySlug: the event with that slug and its sessions, speakers and sponsors, or "Event not found". */
    method GetEventBySlug(slug: string) returns (r: ServerResponse<EventDetail>)
      requires Valid()
      ensures r.Success? <==> exists k :: k in events && events[k].slug == slug
      ensures r.Failure? ==> r.message == EventNotFound
      ensures r.Success? ==>
        && r.data.event.id in events && events[r.data.event.id] == r.data.event && r.data.event.slug == slug
        && (forall s :: s in r.data.sessions <==> s in children.sessions.Values && s.eventId == r.data.event.id)
        && (forall s :: s in r.data.speakers <==> s in children.speakers.Values && s.eventId == r.data.event.id)
        && (forall s :: s in r.data.sponsors <==> s in children.sponsors.Values && s.eventId == r.data.event.id)
    {
      if exists k :: k in events && events[k].slug == slug {
        var k :| k in events && events[k].slug == slug;
        var e := events[k];
        r := Success(EventDetail(e,
          set s | s in children.sessions.Values && s.eventId == k,
          set s | s in children.speakers.Values && s.eventId == k,
          set s | s in children.sponsors.Values && s.eventId == k));
      } else {
        r := Failure(EventNotFound);
      }
    }

    /**
     * updateEvent: an admin patches the row with that id.  No such row is
     * not an error: the answer is a success without data.
     */
    method UpdateEvent(caller: Option<User>, id: int, patch: EventPatch, now: nat)
      returns (r: ServerResponse<Option<Event>>)
      requires Valid()
      modifies this
      ensures Valid()
      ensures !AdminGate(caller) ==> r == Failure(Unauthorized)
      ensures r.Failure? ==> events == old(events) && revalidated == old(revalidated)
      ensures AdminGate(caller) && id !in old(events) ==>
        r == Success(None) && events == old(events) && revalidated == old(revalidated) + ["/events"]
      ensures AdminGate(caller) && id in old(events) ==>
        (r.Success? <==> EventSlugFree(old(events) - {id}, PatchEvent(old(events)[id], patch, now).slug))
      ensures r.Success? && id in old(events) ==>
        && r.data == Some(PatchEvent(old(events)[id], patch, now))
        && events == old(events)[id := r.data.value]
        && revalidated == old(revalidated) + ["/events"]
      ensures registrations == old(registrations)
      ensures children == old(children)
    {
      if !AdminGate(caller) {
        return Failure(Unauthorized);
      }
      if id !in events {
        revalidated := revalidated + ["/events"];
        return Success(None);
      }
      var event := PatchEvent(events[id], patch, now);
      if !EventSlugFree(events - {id}, event.slug) {
        return Failure(DuplicateKey);
      }
      assert forall k :: k in events && k != id ==> k in events - {id};
      ChildrenOkGrow(children, events, events[id := event], registrations, nextRegistrationId);
      events := events[id := event];
      revalidated := revalidated + ["/events"];
      r := Success(Some(event));
    }

    /** The delete of one event row, with the rows of the seven child tables that cascade from it. */
    method RemoveEvent(id: int)
      requires Valid()
      modifies this
      ensures Valid()
      ensures events == old(events) - {id}
      ensures children == ChildrenWithout(old(children), id)
      ensures registrations == Without(old(registrations), RegistrationEvent, id)
      ensures revalidated == old(revalidated)
    {
      DeleteEventCascadeOk(events, nextEventId, children, id);
      DeleteEventRegistrationsOk(registrations, nextRegistrationId, events, id);
      children := ChildrenWithout(children, id);
      registrations := Without(registrations, RegistrationEvent, id);
      events := events - {id};
    }

    /** deleteEvent: an admin deletes the event and everything that hangs off it; a missing id still succeeds. */
    method DeleteEvent(caller: Option<User>, id: int) returns (r: ServerResponse<()>)
      requires Valid()
      modifies this
      ensures Valid()
      ensures r.Success? <==> AdminGate(caller)
      ensures r.Failure? ==> r == Failure(Unauthorized)
      ensures r.Failure? ==>
        && events == old(events) && children == old(children)
        && registrations == old(registrations) && revalidated == old(revalidated)
      ensures r.Success? ==>
        && id !in events && events == old(events) - {id}
        && children == ChildrenWithout(old(children), id)
        && registrations == Without(old(registrations), RegistrationEvent, id)
        && revalidated == old(revalidated) + ["/events"]
    {
      if !AdminGate(caller) {
        return Failure(Unauthorized);
      }
      RemoveEvent(id);
      revalidated := revalidated + ["/events"];
      r := Success(());
    }

    /**
     * registerForEvent: a signed-in caller with no registration row for the
     * event (whatever its status) gets a confirmed one.  Capacity plays no part.
     */
    method RegisterForEvent(caller: Option<User>, eventId: int, now: nat) returns (r: ServerResponse<()>)
      requires Valid()
      modifies this
      ensures Valid()
      ensures caller.None? ==> r == Failure(Unauthorized)
      ensures caller.Some? && HasRegistration(old(registrations), eventId, caller.value.id) ==> r == Failure(AlreadyRegistered)
      ensures r.Success? <==>
        caller.Some? && !HasRegistration(old(registrations), eventId, caller.value.id) && eventId in old(events)
      ensures r.Failure? ==> registrations == old(registrations) && revalidated == old(revalidated)
      ensures r.Success? ==>
        && old(nextRegistrationId) !in old(registrations)
        && registrations == old(registrations)[old(nextRegistrationId) := RegistrationRow(old(nextRegistrationId), eventId, caller.value.id, now)]
      ensures r.Success? ==> revalidated == old(revalidated) + ["/events/" + IntToString(eventId)]
      ensures events == old(events)
      ensures children == old(children)
    {
      if caller.None? {
        return Failure(Unauthorized);
      }
      var userId := caller.value.id;
      if HasRegistration(registrations, eventId, userId) {
        return Failure(AlreadyRegistered);
      }
      if eventId !in events {
        return Failure(ForeignKeyViolation);
      }
      var row := RegistrationRow(nextRegistrationId, eventId, userId, now);
      registrations := registrations[row.id := row];
      nextRegistrationId := nextRegistrationId + 1;
      revalidated := revalidated + ["/events/" + IntToString(eventId)];
      r := Success(());
    }

    /**
     * cancelRegistration: the caller's own registration for the event becomes
     * cancelled; no other row changes, and no matching row is still a success.
     */
    method CancelRegistration(caller: Option<User>, eventId: int) returns (r: ServerResponse<()>)
      requires Valid()
      modifies this
      ensures Valid()
      ensures r.Success? <==> caller.Some?
      ensures r.Failure? ==> r == Failure(Unauthorized) && registrations == old(registrations) && revalidated == old(revalidated)
      ensures r.Success? ==>
        && registrations == CancelFor(old(registrations), eventId, caller.value.id)
        && revalidated == old(revalidated) + ["/events/" + IntToString(eventId)]
      ensures events == old(events)
      ensures children == old(children)
    {
      if caller.None? {
        return Failure(Unauthorized);
      }
      CancelForOk(registrations, nextRegistrationId, events, eventId, caller.value.id);
      registrations := CancelFor(registrations, eventId, caller.value.id);
      revalidated := revalidated + ["/events/" + IntToString(eventId)];
      r := Success(());
    }
  }

  lemma EventsInjective(events: map<int, Event>, next: int)
    requires EventsOk(events, next)
    ensures Injective(events)
  {
  }

  /** A second registration attempt by the same caller for the same event is refused and changes nothing. */
  lemma RegisterTwiceRefused(registrations: map<int, Registration>, id: int, eventId: int, userId: string, now: nat)
    ensures HasRegistration(registrations[id := RegistrationRow(id, eventId, userId, now)], eventId, userId)
  {
    var m := registrations[id := RegistrationRow(id, eventId, userId, now)];
    assert m[id].eventId == eventId && m[id].userId == userId;
  }

  /** Cancelling leaves a row in place, so the caller cannot register again afterwards. */
  lemma CancelledStillRegistered(registrations: map<int, Registration>, eventId: int, userId: string)
    ensures HasRegistration(CancelFor(registrations, eventId, userId), eventId, userId)
        <==> HasRegistration(registrations, eventId, userId)
  {
    var c := CancelFor(registrations, eventId, userId);
    if HasRegistration(registrations, eventId, userId) {
      var k :| k in registrations && registrations[k].eventId == eventId && registrations[k].userId == userId;
      assert c[k].eventId == eventId && c[k].userId == userId;
    }
    if HasRegistration(c, eventId, userId) {
      var k :| k in c && c[k].eventId == eventId && c[k].userId == userId;
      assert registrations[k].eventId == eventId && registrations[k].userId == userId;
    }
  }
}
