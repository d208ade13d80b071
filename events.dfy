/**
 * Events and their RSVPs: the listing with its `upcoming` and type filters, event
 * creation and update, and the RSVP upsert followed by a recount of the event's
 * attendees.  `Calendar.Counted` states that each event's `current_attendees` is
 * the number of its RSVPs with status "attending"; a successful RSVP restores it
 * for the event concerned by recounting, not by incrementing.
 */
module Events {

  import opened Wrappers
  import opened Tables
  import opened ObjectIds
  import Paging
  import Validator
  import Text

  datatype Event = Event(
    id: ObjectId,
    title: string,
    description: string,
    eventDate: int,
    location: string,
    eventType: string,
    maxAttendees: int,
    currentAttendees: int,
    createdBy: ObjectId,
    isActive: bool,
    createdAt: int,
    updatedAt: int)

  datatype EventRequest = EventRequest(
    title: string,
    description: string,
    eventDate: int,
    location: string,
    eventType: string,
    maxAttendees: int)

  /** The body of an event update: "" leaves a text field alone, `None` the date, 0 or less the capacity. */
  datatype EventUpdate = EventUpdate(
    title: string,
    description: string,
    eventDate: Option<int>,
    location: string,
    eventType: string,
    maxAttendees: int)

  datatype RsvpStatus = Attending | NotAttending | Maybe

  datatype Rsvp = Rsvp(id: ObjectId, eventId: ObjectId, userId: ObjectId, status: RsvpStatus, createdAt: int)

  /** Store operations whose failure changes what a handler does. */
  datatype Step = InsertEvent | UpdateDocument | FindRsvp | UpdateRsvp | InsertRsvp | CountAttendees | SetAttendees

  // ---------------------------------------------------------------------------
  // Listing

  /** The query string of `GET /events`; `upcoming` is the raw query value. */
  datatype EventQuery = EventQuery(page: int, limit: int, eventType: string, upcoming: string)

  /** The listing filter: active, of the requested type, and not yet begun when `upcoming=true`. */
  predicate Listed(e: Event, q: EventQuery, now: int)
  {
    && e.isActive
    && (q.eventType == "" || e.eventType == q.eventType)
    && (q.upcoming == "true" ==> e.eventDate >= now)
  }

  function ListedFilter(q: EventQuery, now: int): Event -> bool
  {
    (e: Event) => Listed(e, q, now)
  }

  /** The sort key of `event_date` ascending: soonest first. */
  function Soonest(e: Event): int
  {
    e.eventDate
  }

  /** `GetEvents`: the clamped page of listed events, soonest first. */
  function GetEvents(events: seq<Event>, q: EventQuery, now: int): (r: Paging.Listing<Event>)
    ensures r.total == CountWhere(events, ListedFilter(q, now))
    ensures 1 <= r.page && (q.page >= 1 ==> r.page == q.page)
    ensures 1 <= r.limit <= Paging.MaxLimit && |r.items| <= r.limit
    ensures r.totalPages == Paging.TotalPages(r.total, r.limit)
    ensures var w := Paging.Clamp(q.page, q.limit, Paging.DefaultLimit);
            r.page == w.page && r.limit == w.limit &&
            r.items == Paging.Slice(Paging.Ordered(events, ListedFilter(q, now), Soonest), Paging.Skip(w), w.limit)
    ensures forall i :: 0 <= i < |r.items| ==> r.items[i] in events && Listed(r.items[i], q, now)
    ensures forall i, k :: 0 <= i < k < |r.items| ==> r.items[i].eventDate <= r.items[k].eventDate
  {
    var w := Paging.Clamp(q.page, q.limit, Paging.DefaultLimit);
    Paging.ListedDocuments(events, ListedFilter(q, now), Soonest, w);
    Paging.List(events, ListedFilter(q, now), Soonest, w)
  }

  /** With `upcoming=true`, no listed event has already taken place. */
  lemma {:induction false} UpcomingListsNoPastEvent(events: seq<Event>, q: EventQuery, now: int, i: nat)
    requires q.upcoming == "true" && i < |GetEvents(events, q, now).items|
    ensures GetEvents(events, q, now).items[i].eventDate >= now
  {
  }

  // ---------------------------------------------------------------------------
  // Documents

  predicate EventIdsUnique(events: seq<Event>)
  {
    forall i, k :: 0 <= i < k < |events| ==> events[i].id != events[k].id
  }

  function WithEventId(id: ObjectId): Event -> bool
  {
    (e: Event) => e.id == id
  }

  function ActiveWithId(id: ObjectId): Event -> bool
  {
    (e: Event) => e.id == id && e.isActive
  }

  /** A new event: sanitised text, no attendees yet, active. */
  function NewEvent(req: EventRequest, id: ObjectId, creator: ObjectId, now: int): (e: Event)
    ensures e.id == id && e.createdBy == creator && e.currentAttendees == 0 && e.isActive
    ensures e.eventDate == req.eventDate && e.maxAttendees == req.maxAttendees
    ensures e.createdAt == now && e.updatedAt == now
    ensures Validator.NoMarkup(e.title) && Validator.NoMarkup(e.description)
    ensures Validator.NoMarkup(e.location) && Validator.NoMarkup(e.eventType)
    ensures e.title == Validator.SanitizeString(req.title) && e.description == Validator.SanitizeString(req.description)
    ensures e.location == Validator.SanitizeString(req.location) && e.eventType == Validator.SanitizeString(req.eventType)
    ensures Text.Trimmed(e.title) && Text.Trimmed(e.description) && Text.Trimmed(e.location) && Text.Trimmed(e.eventType)
  {
    Event(id, Validator.SanitizeString(req.title), Validator.SanitizeString(req.description),
          req.eventDate, Validator.SanitizeString(req.location), Validator.SanitizeString(req.eventType),
          req.maxAttendees, 0, creator, true, now, now)
  }

  /**
   * The `$set` of `UpdateEvent`: `updated_at`, the non-empty text fields sanitised,
   * a non-zero date, and the capacity only when it is positive.
   */
  function ReviseEvent(e: Event, u: EventUpdate, now: int): (r: Event)
    ensures r.id == e.id && r.createdBy == e.createdBy && r.currentAttendees == e.currentAttendees
    ensures r.isActive == e.isActive && r.createdAt == e.createdAt && r.updatedAt == now
    ensures Validator.TextSet(e.title, u.title, r.title)
    ensures Validator.TextSet(e.description, u.description, r.description)
    ensures Validator.TextSet(e.location, u.location, r.location)
    ensures Validator.TextSet(e.eventType, u.eventType, r.eventType)
    ensures r.eventDate == (if u.eventDate.Some? then u.eventDate.value else e.eventDate)
    ensures r.maxAttendees == (if u.maxAttendees > 0 then u.maxAttendees else e.maxAttendees)
  {
    e.(title := Validator.SetText(e.title, u.title),
       description := Validator.SetText(e.description, u.description),
       eventDate := if u.eventDate.Some? then u.eventDate.value else e.eventDate,
       location := Validator.SetText(e.location, u.location),
       eventType := Validator.SetText(e.eventType, u.eventType),
       maxAttendees := if u.maxAttendees > 0 then u.maxAttendees else e.maxAttendees,
       updatedAt := now)
  }

  /** A capacity of zero or less in an update never clears or lowers the stored one. */
  lemma {:induction false} NonPositiveCapacityIgnored(e: Event, u: EventUpdate, now: int)
    requires u.maxAttendees <= 0
    ensures ReviseEvent(e, u, now).maxAttendees == e.maxAttendees
  {
  }

  // ---------------------------------------------------------------------------
  // RSVPs

  function PairFilter(event: ObjectId, user: ObjectId): Rsvp -> bool
  {
    (r: Rsvp) => r.eventId == event && r.userId == user
  }

  function AttendingFor(event: ObjectId): Rsvp -> bool
  {
    (r: Rsvp) => r.eventId == event && r.status == Attending
  }

  /** The `CountDocuments` of `{event_id: event, status: "attending"}`. */
  function AttendeeCount(rsvps: seq<Rsvp>, event: ObjectId): nat
  {
    CountWhere(rsvps, AttendingFor(event))
  }

  predicate RsvpPairsUnique(rsvps: seq<Rsvp>)
  {
    forall i, k :: 0 <= i < k < |rsvps| ==>
      !(rsvps[i].eventId == rsvps[k].eventId && rsvps[i].userId == rsvps[k].userId)
  }

  /**
   * The RSVP table after a user answers: only the status of the pair's first RSVP
   * is overwritten if there is one, and a new RSVP is appended otherwise.
   */
  function Upsert(rsvps: seq<Rsvp>, event: ObjectId, user: ObjectId, status: RsvpStatus, id: ObjectId, now: int)
    : (r: seq<Rsvp>)
    ensures FirstWhere(rsvps, PairFilter(event, user)).Some? ==>
              var k := FirstWhere(rsvps, PairFilter(event, user)).value;
              |r| == |rsvps| && r[k] == rsvps[k].(status := status) &&
              forall i :: 0 <= i < |r| && i != k ==> r[i] == rsvps[i]
    ensures FirstWhere(rsvps, PairFilter(event, user)).None? ==> r == rsvps + [Rsvp(id, event, user, status, now)]
  {
    match FirstWhere(rsvps, PairFilter(event, user))
    case Some(k) => rsvps[k := rsvps[k].(status := status)]
    case None => rsvps + [Rsvp(id, event, user, status, now)]
  }

  /** After an upsert the pair has exactly one RSVP, and it carries the new status. */
  lemma {:induction false} UpsertLeavesOne(rsvps: seq<Rsvp>, event: ObjectId, user: ObjectId, status: RsvpStatus, id: ObjectId, now: int)
    requires RsvpPairsUnique(rsvps)
    ensures var r := Upsert(rsvps, event, user, status, id, now);
            RsvpPairsUnique(r) &&
            FirstWhere(r, PairFilter(event, user)).Some? &&
            r[FirstWhere(r, PairFilter(event, user)).value].status == status
  {
    var r := Upsert(rsvps, event, user, status, id, now);
    var found := FirstWhere(rsvps, PairFilter(event, user));
    if found.Some? {
      assert FirstWhere(r, PairFilter(event, user)) == found by {
        assert PairFilter(event, user)(r[found.value]);
        assert forall i :: 0 <= i < found.value ==> r[i] == rsvps[i];
      }
    } else {
      assert forall i :: 0 <= i < |rsvps| ==> !PairFilter(event, user)(rsvps[i]);
      assert forall i :: 0 <= i < |rsvps| ==> r[i] == rsvps[i];
      assert FirstWhere(r, PairFilter(event, user)) == Some(|rsvps|) by {
        assert PairFilter(event, user)(r[|rsvps|]);
      }
    }
  }

  /** Answering twice with the same status is the same as answering once. */
  lemma {:induction false} UpsertIdempotent(rsvps: seq<Rsvp>, event: ObjectId, user: ObjectId, status: RsvpStatus,
                         id1: ObjectId, t1: int, id2: ObjectId, t2: int)
    requires RsvpPairsUnique(rsvps)
    ensures var once := Upsert(rsvps, event, user, status, id1, t1);
            Upsert(once, event, user, status, id2, t2) == once
  {
    UpsertLeavesOne(rsvps, event, user, status, id1, t1);
    var once := Upsert(rsvps, event, user, status, id1, t1);
    var k := FirstWhere(once, PairFilter(event, user)).value;
    assert once[k := once[k].(status := status)] == once;
  }

  /**
   * The recount after an upsert: the event's attendees change by what the user's
   * old answer contributed and what the new one contributes, and no other event's
   * count changes.
   */
  lemma {:induction false} UpsertAttendees(rsvps: seq<Rsvp>, event: ObjectId, user: ObjectId, status: RsvpStatus,
                        id: ObjectId, now: int, other: ObjectId)
    ensures var found := FirstWhere(rsvps, PairFilter(event, user));
            var was := found.Some? && rsvps[found.value].status == Attending;
            AttendeeCount(Upsert(rsvps, event, user, status, id, now), other) ==
              AttendeeCount(rsvps, other)
              - (if other == event && was then 1 else 0)
              + (if other == event && status == Attending then 1 else 0)
  {
    match FirstWhere(rsvps, PairFilter(event, user))
    case Some(k) =>
      CountUpdate(rsvps, k, rsvps[k].(status := status), AttendingFor(other));
    case None =>
      CountAppend(rsvps, Rsvp(id, event, user, status, now), AttendingFor(other));
  }

  /**
   * The RSVP table after `RSVPEvent`'s write: an upsert when the read for an
   * earlier answer succeeds, a plain insert when that read fails.
   */
  function Answer(rsvps: seq<Rsvp>, event: ObjectId, user: ObjectId, status: RsvpStatus, id: ObjectId, now: int,
                  lookupOk: bool): seq<Rsvp>
  {
    if lookupOk then Upsert(rsvps, event, user, status, id, now) else rsvps + [Rsvp(id, event, user, status, now)]
  }

  /**
   * The recount after an answer: the event's attendees change by what the user's
   * earlier answer, if the read found one, contributed and what the new one
   * contributes; no other event's count changes.
   */
  lemma {:induction false} AnswerAttendees(rsvps: seq<Rsvp>, event: ObjectId, user: ObjectId, status: RsvpStatus,
                                           id: ObjectId, now: int, lookupOk: bool, other: ObjectId)
    ensures var found := if lookupOk then FirstWhere(rsvps, PairFilter(event, user)) else None;
            var was := found.Some? && rsvps[found.value].status == Attending;
            AttendeeCount(Answer(rsvps, event, user, status, id, now, lookupOk), other) ==
              AttendeeCount(rsvps, other)
              - (if other == event && was then 1 else 0)
              + (if other == event && status == Attending then 1 else 0)
  {
    if lookupOk {
      UpsertAttendees(rsvps, event, user, status, id, now, other);
    } else {
      CountAppend(rsvps, Rsvp(id, event, user, status, now), AttendingFor(other));
    }
  }

  /** `updateEventAttendeesCount`: the first event with that ID gets the recount, if there is one. */
  function SetCount(events: seq<Event>, event: ObjectId, count: int): (r: seq<Event>)
    ensures |r| == |events|
    ensures forall i :: 0 <= i < |events| ==> r[i] == events[i].(currentAttendees := r[i].currentAttendees)
    ensures forall i :: 0 <= i < |events| && events[i].id != event ==> r[i] == events[i]
    ensures forall i :: 0 <= i < |events| && EventIdsUnique(events) && events[i].id == event ==>
              r[i].currentAttendees == count
  {
    match FirstWhere(events, WithEventId(event))
    case None => events
    case Some(k) => events[k := events[k].(currentAttendees := count)]
  }

  // ---------------------------------------------------------------------------
  // The collections

  class Calendar {
    var events: seq<Event>
    var rsvps: seq<Rsvp>

    /** Event IDs are unique. */
    predicate Valid()
      reads this
    {
      EventIdsUnique(events)
    }

    /** A user has at most one RSVP per event. */
    predicate OnePerPair()
      reads this
    {
      RsvpPairsUnique(rsvps)
    }

    /** Every event's `current_attendees` is the number of its "attending" RSVPs. */
    predicate Counted()
      reads this
    {
      Valid() && forall k :: 0 <= k < |events| ==> events[k].currentAttendees == AttendeeCount(rsvps, events[k].id)
    }

    constructor ()
      ensures Counted() && OnePerPair() && events == [] && rsvps == []
    {
      events, rsvps := [], [];
    }

    /** `CreateEvent`: a valid request is stored as a new active event with no attendees. */
    method CreateEvent(req: Checked<EventRequest>, creator: ObjectId, id: ObjectId, now: int, fails: set<Step>)
      returns (reply: Reply)
      requires Valid()
      requires forall i :: 0 <= i < |events| ==> events[i].id != id
      modifies this`events
      ensures Valid() && (old(Counted()) && AttendeeCount(old(rsvps), id) == 0 ==> Counted())
      ensures events != old(events) && AttendeeCount(old(rsvps), id) != 0 ==> !Counted()
      ensures req.Invalid? ==> reply == Reply(400, req.message) && events == old(events)
      ensures req.Parsed? && InsertEvent in fails ==>
                reply == Reply(500, "Failed to create event") && events == old(events)
      ensures req.Parsed? && InsertEvent !in fails ==>
                reply == Reply(201, "Event created successfully") &&
                events == old(events) + [NewEvent(req.value, id, creator, now)]
    {
      if req.Invalid? {
        return Reply(400, req.message);
      }
      if InsertEvent in fails {
        return Reply(500, "Failed to create event");
      }
      InsertNew(NewEvent(req.value, id, creator, now));
      reply := Reply(201, "Event created successfully");
    }

    /** Appends an event with a fresh ID and no attendees. */
    method InsertNew(e: Event)
      requires Valid()
      requires forall i :: 0 <= i < |events| ==> events[i].id != e.id
      requires e.currentAttendees == 0
      modifies this`events
      ensures Valid() && (old(Counted()) && AttendeeCount(old(rsvps), e.id) == 0 ==> Counted())
      ensures AttendeeCount(old(rsvps), e.id) != 0 ==> !Counted()
      ensures events == old(events) + [e]
    {
      events := events + [e];
      assert events[|events| - 1] == e;
    }

    /**
     * `UpdateEvent`: `FindOneAndUpdate` on the active event with that ID; with no
     * such event, or when the store fails, the answer is 404.
     */
    method UpdateEvent(eventHex: string, req: Checked<EventUpdate>, now: int, fails: set<Step>)
      returns (reply: Reply)
      requires Valid()
      modifies this`events
      ensures Valid() && (old(Counted()) ==> Counted())
      ensures FromHex(eventHex).None? ==> reply == Reply(400, "Invalid event ID") && events == old(events)
      ensures FromHex(eventHex).Some? && req.Invalid? ==> reply == Reply(400, req.message) && events == old(events)
      ensures FromHex(eventHex).Some? && req.Parsed? ==>
                var found := FirstWhere(old(events), ActiveWithId(FromHex(eventHex).value));
                if found.None? || UpdateDocument in fails then
                  reply == Reply(404, "Event not found") && events == old(events)
                else
                  reply == Reply(200, "Event updated successfully") &&
                  events == old(events)[found.value := ReviseEvent(old(events)[found.value], req.value, now)]
    {
      var parsed := FromHex(eventHex);
      if parsed.None? {
        return Reply(400, "Invalid event ID");
      }
      if req.Invalid? {
        return Reply(400, req.message);
      }
      var found := FirstWhere(events, ActiveWithId(parsed.value));
      if found.None? || UpdateDocument in fails {
        return Reply(404, "Event not found");
      }
      var k := found.value;
      events := events[k := ReviseEvent(events[k], req.value, now)];
      reply := Reply(200, "Event updated successfully");
    }

    /**
     * `RSVPEvent`: upsert the caller's answer, then recount the event's attendees.
     * When the read that looks for an earlier answer fails, a new RSVP is inserted
     * even if one exists.  Neither the event's existence nor its capacity is
     * checked, so the count can pass `max_attendees`.  A failed recount is ignored.
     */
    method RsvpEvent(eventHex: string, user: ObjectId, req: Checked<RsvpStatus>, id: ObjectId, now: int,
                     fails: set<Step>)
      returns (reply: Reply)
      requires Valid()
      modifies this
      ensures Valid()
      ensures FromHex(eventHex).None? ==>
                reply == Reply(400, "Invalid event ID") && events == old(events) && rsvps == old(rsvps)
      ensures FromHex(eventHex).Some? && req.Invalid? ==>
                reply == Reply(400, req.message) && events == old(events) && rsvps == old(rsvps)
      ensures FromHex(eventHex).Some? && req.Parsed? ==>
                var event := FromHex(eventHex).value;
                var found := if FindRsvp in fails then None else FirstWhere(old(rsvps), PairFilter(event, user));
                if found.Some? && UpdateRsvp in fails then
                  reply == Reply(500, "Failed to update RSVP") && events == old(events) && rsvps == old(rsvps)
                else if found.None? && InsertRsvp in fails then
                  reply == Reply(500, "Failed to create RSVP") && events == old(events) && rsvps == old(rsvps)
                else
                  reply == Reply(200, "RSVP updated successfully") &&
                  rsvps == (if FindRsvp in fails then old(rsvps) + [Rsvp(id, event, user, req.value, now)]
                            else Upsert(old(rsvps), event, user, req.value, id, now)) &&
                  events == (if CountAttendees in fails || SetAttendees in fails then old(events)
                             else SetCount(old(events), event, AttendeeCount(rsvps, event)))
      ensures old(Counted()) && reply.status == 200 && CountAttendees !in fails && SetAttendees !in fails ==>
                Counted()
      ensures old(OnePerPair()) && FindRsvp !in fails ==> OnePerPair()
    {
      var parsed := FromHex(eventHex);
      if parsed.None? {
        return Reply(400, "Invalid event ID");
      }
      if req.Invalid? {
        return Reply(400, req.message);
      }
      var event := parsed.value;
      var found := if FindRsvp in fails then None else FirstWhere(rsvps, PairFilter(event, user));
      if found.Some? {
        if UpdateRsvp in fails {
          return Reply(500, "Failed to update RSVP");
        }
      } else if InsertRsvp in fails {
        return Reply(500, "Failed to create RSVP");
      }
      reply := Record(event, user, req.value, id, now, FindRsvp !in fails, fails);
    }

    /** Writes the answer, as `Answer` says, then sets the event's attendee count to the recount. */
    method Record(event: ObjectId, user: ObjectId, status: RsvpStatus, id: ObjectId, now: int, lookupOk: bool,
                  fails: set<Step>)
      returns (reply: Reply)
      requires Valid()
      modifies this
      ensures Valid()
      ensures reply == Reply(200, "RSVP updated successfully")
      ensures rsvps == Answer(old(rsvps), event, user, status, id, now, lookupOk)
      ensures events == (if CountAttendees in fails || SetAttendees in fails then old(events)
                         else SetCount(old(events), event, AttendeeCount(rsvps, event)))
      ensures old(Counted()) && CountAttendees !in fails && SetAttendees !in fails ==> Counted()
      ensures old(OnePerPair()) && lookupOk ==> OnePerPair()
    {
      if lookupOk && RsvpPairsUnique(rsvps) {
        UpsertLeavesOne(rsvps, event, user, status, id, now);
      }
      ghost var before := rsvps;
      rsvps := Answer(rsvps, event, user, status, id, now, lookupOk);
      if CountAttendees !in fails && SetAttendees !in fails {
        ghost var counted := old(Counted());
        events := SetCount(events, event, AttendeeCount(rsvps, event));
        if counted {
          forall k | 0 <= k < |events|
            ensures events[k].currentAttendees == AttendeeCount(rsvps, events[k].id)
          {
            AnswerAttendees(before, event, user, status, id, now, lookupOk, events[k].id);
          }
        }
      }
      reply := Reply(200, "RSVP updated successfully");
    }
  }
}
