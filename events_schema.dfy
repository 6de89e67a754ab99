/**
 * The community event tables (core/db/schemas/community/events.ts): the
 * event, its child tables, the enums, the insert defaults and the
 * registration unique index.
 */
module EventsSchema {
  import opened Wrappers

  datatype LocationType = Online | InPerson | Hybrid
  datatype Visibility = Public | Private | MembersOnly
  datatype InvitationStatus = InvitationPending | InvitationAccepted | InvitationDeclined
  datatype RegistrationStatus = Pending | Confirmed | Cancelled

  function RegistrationStatusName(s: RegistrationStatus): string {
    match s
    case Pending => "pending"
    case Confirmed => "confirmed"
    case Cancelled => "cancelled"
  }

  function InvitationStatusName(s: InvitationStatus): string {
    match s
    case InvitationPending => "pending"
    case InvitationAccepted => "accepted"
    case InvitationDeclined => "declined"
  }

  /** The column defaults of the two status enums. */
  const DefaultRegistrationStatus: RegistrationStatus := Pending
  const DefaultInvitationStatus: InvitationStatus := InvitationPending

  lemma StatusDefaults()
    ensures RegistrationStatusName(DefaultRegistrationStatus) == "pending"
    ensures InvitationStatusName(DefaultInvitationStatus) == "pending"
    ensures forall s, t :: RegistrationStatusName(s) == RegistrationStatusName(t) ==> s == t
  {
  }

  datatype Event = Event(
    id: int, createdBy: string, title: string, description: string, slug: string,
    date: int, capacity: Option<int>, registrationRequired: bool,
    startAt: int, endAt: int, timezone: string, cancelled: bool, visibility: Visibility,
    coverImageUrl: Option<string>, published: bool, location: string, locationType: LocationType,
    flagship: bool, createdAt: nat, updatedAt: nat)

  datatype Session = Session(
    id: int, eventId: int, title: string, description: Option<string>,
    startAt: int, endAt: int, locationLink: Option<string>)

  datatype Speaker = Speaker(id: int, eventId: int, name: string, bio: Option<string>, profileImageUrl: Option<string>)

  datatype Sponsor = Sponsor(id: int, eventId: int, name: string, logoUrl: Option<string>, websiteUrl: Option<string>)

  datatype Feedback = Feedback(id: int, eventId: int, userId: string, rating: int, comments: Option<string>, submittedAt: nat)

  /** A row of event_tags: nothing makes the tag text unique. */
  datatype EventTag = EventTag(id: int, tag: string)

  /** A row of event_tag_links.  The table has no key, so the same pair may occur twice. */
  datatype TagLink = TagLink(eventId: int, tagId: int)

  datatype Invitation = Invitation(
    id: string, eventId: int, email: string, invitedAt: nat, invitedBy: string,
    respondedAt: Option<nat>, status: InvitationStatus)

  datatype Registration = Registration(
    id: int, eventId: int, userId: string, registeredAt: nat, status: RegistrationStatus,
    checkedInAt: Option<nat>, source: Option<string>)

  /** The insertable columns of an event (`NewCommunityEvent`); `None` takes the column default. */
  datatype NewEvent = NewEvent(
    title: string, description: string, slug: string, date: int, capacity: Option<int>,
    registrationRequired: Option<bool>, startAt: int, endAt: int, timezone: string,
    cancelled: Option<bool>, visibility: Option<Visibility>, coverImageUrl: Option<string>,
    published: Option<bool>, location: string, locationType: LocationType, flagship: Option<bool>)

  /** The row an insert of `input` produces, with `createdBy` given and the column defaults filled in. */
  function EventRow(id: int, createdBy: string, input: NewEvent, now: nat): Event {
    Event(id, createdBy, input.title, input.description, input.slug, input.date, input.capacity,
          input.registrationRequired.GetOr(false), input.startAt, input.endAt, input.timezone,
          input.cancelled.GetOr(false), input.visibility.GetOr(Public), input.coverImageUrl,
          input.published.GetOr(false), input.location, input.locationType,
          input.flagship.GetOr(false), now, now)
  }

  /** An event inserted without those columns is unpublished, not cancelled, public, not flagship and needs no registration. */
  lemma EventDefaults(id: int, createdBy: string, input: NewEvent, now: nat)
    requires input.registrationRequired.None? && input.cancelled.None? && input.visibility.None?
    requires input.published.None? && input.flagship.None?
    ensures var e := EventRow(id, createdBy, input, now);
      !e.published && !e.cancelled && e.visibility == Public && !e.flagship && !e.registrationRequired
    ensures EventRow(id, createdBy, input, now).createdBy == createdBy
  {
  }

  // Constraints of the tables.  `next` is the serial sequence's next value.

  ghost predicate EventsOk(events: map<int, Event>, next: int) {
    && (forall k :: k in events ==> events[k].id == k && k < next)
    && (forall a, b :: a in events && b in events && events[a].slug == events[b].slug ==> a == b)
  }

  /**
   * The tables hanging off an event that no action writes directly: they only
   * change through the delete cascade.
   */
  datatype EventChildren = EventChildren(
    sessions: map<int, Session>, speakers: map<int, Speaker>, sponsors: map<int, Sponsor>,
    feedback: map<int, Feedback>, tags: map<int, EventTag>, tagLinks: map<int, TagLink>,
    invitations: map<string, Invitation>)

  const NoChildren := EventChildren(map[], map[], map[], map[], map[], map[], map[])

  /** Each child row carries its key and refers to an existing event (and tag links to an existing tag). */
  ghost predicate ChildrenOk(c: EventChildren, events: map<int, Event>) {
    && (forall k :: k in c.sessions ==> c.sessions[k].id == k && c.sessions[k].eventId in events)
    && (forall k :: k in c.speakers ==> c.speakers[k].id == k && c.speakers[k].eventId in events)
    && (forall k :: k in c.sponsors ==> c.sponsors[k].id == k && c.sponsors[k].eventId in events)
    && (forall k :: k in c.feedback ==> c.feedback[k].id == k && c.feedback[k].eventId in events)
    && EventTagsOk(c.tags)
    && (forall k :: k in c.tagLinks ==> c.tagLinks[k].eventId in events && c.tagLinks[k].tagId in c.tags)
    && (forall k :: k in c.invitations ==> c.invitations[k].id == k && c.invitations[k].eventId in events)
  }

  /** Registrations: keyed, referring to an event, and unique per (event, user). */
  ghost predicate RegistrationsOk(registrations: map<int, Registration>, next: int, events: map<int, Event>) {
    && (forall k :: k in registrations ==> registrations[k].id == k && k < next && registrations[k].eventId in events)
    && (forall a, b :: a in registrations && b in registrations ==> SamePair(registrations[a], registrations[b]) ==> a == b)
  }

  /** Two registrations for the same (event, user). */
  predicate SamePair(x: Registration, y: Registration) {
    x.eventId == y.eventId && x.userId == y.userId
  }

  /** Whether some registration row exists for (event, user), whatever its status. */
  predicate HasRegistration(registrations: map<int, Registration>, eventId: int, userId: string) {
    exists k :: k in registrations && registrations[k].eventId == eventId && registrations[k].userId == userId
  }

  /** The unique index allows at most one row per pair. */
  lemma AtMostOneRegistration(registrations: map<int, Registration>, next: int, events: map<int, Event>, eventId: int, userId: string)
    requires RegistrationsOk(registrations, next, events)
    ensures forall a, b :: a in registrations && b in registrations ==>
      registrations[a].eventId == eventId && registrations[a].userId == userId ==>
      registrations[b].eventId == eventId && registrations[b].userId == userId ==> a == b
  {
  }

  // ON DELETE CASCADE from community_events.

  function Without<K(!new), T>(m: map<K, T>, eventOf: T -> int, id: int): (r: map<K, T>)
    ensures forall k :: k in r <==> k in m && eventOf(m[k]) != id
    ensures forall k :: k in r ==> r[k] == m[k]
  {
    map k | k in m && eventOf(m[k]) != id :: m[k]
  }

  function SessionEvent(s: Session): int { s.eventId }
  function SpeakerEvent(s: Speaker): int { s.eventId }
  function SponsorEvent(s: Sponsor): int { s.eventId }
  function FeedbackEvent(f: Feedback): int { f.eventId }
  function LinkEvent(l: TagLink): int { l.eventId }
  function RegistrationEvent(r: Registration): int { r.eventId }
  function InvitationEvent(i: Invitation): int { i.eventId }

  /** The child rows left once event `id` is deleted; tags themselves stay. */
  function ChildrenWithout(c: EventChildren, id: int): (r: EventChildren)
    ensures r.sessions == Without(c.sessions, SessionEvent, id)
    ensures r.speakers == Without(c.speakers, SpeakerEvent, id)
    ensures r.sponsors == Without(c.sponsors, SponsorEvent, id)
    ensures r.feedback == Without(c.feedback, FeedbackEvent, id)
    ensures r.tags == c.tags
    ensures r.tagLinks == Without(c.tagLinks, LinkEvent, id)
    ensures r.invitations == Without(c.invitations, InvitationEvent, id)
  {
    EventChildren(Without(c.sessions, SessionEvent, id), Without(c.speakers, SpeakerEvent, id),
                  Without(c.sponsors, SponsorEvent, id), Without(c.feedback, FeedbackEvent, id),
                  c.tags, Without(c.tagLinks, LinkEvent, id), Without(c.invitations, InvitationEvent, id))
  }

  /** Deleting event `id` with everything that cascades from it leaves the event and child constraints intact. */
  lemma DeleteEventCascadeOk(events: map<int, Event>, nextEvent: int, c: EventChildren, id: int)
    requires EventsOk(events, nextEvent)
    requires ChildrenOk(c, events)
    ensures EventsOk(events - {id}, nextEvent)
    ensures ChildrenOk(ChildrenWithout(c, id), events - {id})
  {
  }

  /** The registrations of the deleted event go with it; the rest keep their constraints. */
  lemma DeleteEventRegistrationsOk(registrations: map<int, Registration>, next: int, events: map<int, Event>, id: int)
    requires RegistrationsOk(registrations, next, events)
    ensures RegistrationsOk(Without(registrations, RegistrationEvent, id), next, events - {id})
  {
  }

  /** Adding or changing events (with the same keys or more) keeps every child reference valid. */
  lemma ChildrenOkGrow(c: EventChildren, events: map<int, Event>, events': map<int, Event>,
                       registrations: map<int, Registration>, next: int)
    requires events.Keys <= events'.Keys
    requires ChildrenOk(c, events)
    requires RegistrationsOk(registrations, next, events)
    ensures ChildrenOk(c, events')
    ensures RegistrationsOk(registrations, next, events')
  {
  }

  /** event_tags rows carry their key; the tag text is not unique. */
  ghost predicate EventTagsOk(tags: map<int, EventTag>) {
    forall k :: k in tags ==> tags[k].id == k
  }

  /** Two tags may carry the same text. */
  lemma TagTextMayRepeat()
    ensures EventTagsOk(map[1 := EventTag(1, "meetup"), 2 := EventTag(2, "meetup")])
  {
  }

  /** `update registrations set status = 'cancelled' where event_id = eventId and user_id = userId`. */
  function CancelFor(registrations: map<int, Registration>, eventId: int, userId: string): (r: map<int, Registration>)
    ensures r.Keys == registrations.Keys
  {
    map k | k in registrations ::
      if registrations[k].eventId == eventId && registrations[k].userId == userId
      then registrations[k].(status := Cancelled) else registrations[k]
  }

  /**
   * The cancel touches only the status of the rows of that pair (at most one,
   * by the unique index) and keeps the table's constraints.
   */
  lemma CancelForOk(registrations: map<int, Registration>, next: int, events: map<int, Event>, eventId: int, userId: string)
    requires RegistrationsOk(registrations, next, events)
    ensures RegistrationsOk(CancelFor(registrations, eventId, userId), next, events)
    ensures forall k :: k in registrations && (registrations[k].eventId != eventId || registrations[k].userId != userId) ==>
      CancelFor(registrations, eventId, userId)[k] == registrations[k]
    ensures forall k :: k in registrations && registrations[k].eventId == eventId && registrations[k].userId == userId ==>
      CancelFor(registrations, eventId, userId)[k] == registrations[k].(status := Cancelled)
    ensures forall a, b :: a in registrations && b in registrations ==>
      CancelFor(registrations, eventId, userId)[a] != registrations[a] ==>
      CancelFor(registrations, eventId, userId)[b] != registrations[b] ==> a == b
  {
    var r := CancelFor(registrations, eventId, userId);
    forall a, b | a in r && b in r && SamePair(r[a], r[b]) ensures a == b {
      assert SamePair(registrations[a], registrations[b]);
    }
  }
}
