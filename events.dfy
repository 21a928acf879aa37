/**
 * The events routes: `GET /` lists the events by start date, and `POST /:id/register`
 * checks the registration deadline, then the capacity, and then appends a participant to
 * the event document in place and counts it.
 */
module Events {
  import opened Wrappers
  import opened JsText
  import Ordering
  import ServerModels

  /** An entry of an event's `participants` array. */
  datatype Participant = Participant(userName: string, userEmail: Option<string>,
                                     userPhone: Option<string>, note: Option<string>)

  /** The fields read from the registration body. */
  datatype RegisterBody = RegisterBody(userName: Option<string>, userEmail: Option<string>,
                                       userPhone: Option<string>, note: Option<string>)

  /** An event document. Registration changes only the participant list and its count. */
  class Event {
    const id: string
    const title: string
    const startDate: int
    const registrationDeadline: Option<int>
    const maxParticipants: Option<int>
    var participantsCount: int
    var participants: seq<Participant>

    /** A new document with the schema's defaults: no participants and a cap of 100. */
    constructor (id: string, title: string, startDate: int, registrationDeadline: Option<int>)
      ensures this.id == id && this.title == title && this.startDate == startDate
      ensures this.registrationDeadline == registrationDeadline
      ensures maxParticipants == Some(DefaultMaxParticipants)
      ensures participantsCount == 0 && participants == []
    {
      this.id := id;
      this.title := title;
      this.startDate := startDate;
      this.registrationDeadline := registrationDeadline;
      maxParticipants := Some(DefaultMaxParticipants);
      participantsCount := 0;
      participants := [];
    }
  }

  const DefaultMaxParticipants: int := 100

  /** `Event.find().sort({ start_date: 1 })`: the stored events, earliest start first. */
  function ListEvents(events: seq<Event>): (r: seq<Event>)
    ensures multiset(r) == multiset(events)
    ensures forall i, j :: 0 <= i < j < |r| ==> r[i].startDate <= r[j].startDate
  {
    Ordering.SortByKey(events, (e: Event) => e.startDate)
  }

  /** The index of the event with `_id` `id`, if any. */
  function FindEvent(events: seq<Event>, id: string): (r: Option<nat>)
    ensures r.Some? ==> r.value < |events| && events[r.value].id == id
    ensures r.None? ==> forall i :: 0 <= i < |events| ==> events[i].id != id
  {
    if events == [] then None
    else if events[0].id == id then Some(0)
    else match FindEvent(events[1..], id)
      case None => None
      case Some(i) => Some(i + 1)
  }

  datatype RegisterStatus = NotFound | Expired | Full | Registered | Failed

  /** The HTTP status of each outcome. */
  function StatusCode(s: RegisterStatus): (code: int)
    ensures code in {200, 400, 404, 500}
    ensures code == 200 <==> s == Registered
  {
    match s
    case NotFound => 404
    case Expired => 400
    case Full => 400
    case Registered => 200
    case Failed => 500
  }

  /** The outcome of registering on a found event: past the deadline, then full while the
      cap is truthy, then a save that fails when `user_name` (required) is missing or empty. */
  function RegisterOutcome(deadline: Option<int>, maxParticipants: Option<int>, count: int,
                           body: RegisterBody, now: int): (r: RegisterStatus)
    ensures r != NotFound
  {
    if deadline.Some? && now > deadline.value then Expired
    else if TruthyNum(maxParticipants) && count >= maxParticipants.value then Full
    else if !Truthy(body.userName) then Failed
    else Registered
  }

  /** The deadline is inclusive and optional: at exactly the deadline, or with none, the
      deadline does not reject. */
  lemma {:induction false} DeadlineInclusive(deadline: Option<int>, maxParticipants: Option<int>, count: int,
                          body: RegisterBody, now: int)
    requires deadline.None? || now <= deadline.value
    ensures RegisterOutcome(deadline, maxParticipants, count, body, now) != Expired
  {
  }

  /** A cap of 0 (or none) disables the capacity check. */
  lemma {:induction false} ZeroCapIsNoCap(deadline: Option<int>, maxParticipants: Option<int>, count: int,
                       body: RegisterBody, now: int)
    requires maxParticipants.None? || maxParticipants.value == 0
    ensures RegisterOutcome(deadline, maxParticipants, count, body, now) != Full
  {
  }

  /** The deadline is checked before the capacity: an expired and full event reports the
      deadline. */
  lemma {:induction false} DeadlineBeforeCapacity(deadline: int, maxParticipants: int, count: int,
                               body: RegisterBody, now: int)
    requires now > deadline && maxParticipants != 0 && count >= maxParticipants
    ensures RegisterOutcome(Some(deadline), Some(maxParticipants), count, body, now) == Expired
  {
  }

  /** A registration succeeds exactly when the deadline has not passed, the event is not
      full and a user name is given. */
  lemma {:induction false} RegisteredIff(deadline: Option<int>, maxParticipants: Option<int>, count: int,
                      body: RegisterBody, now: int)
    ensures RegisterOutcome(deadline, maxParticipants, count, body, now) == Registered <==>
      (deadline.None? || now <= deadline.value) &&
      (!TruthyNum(maxParticipants) || count < maxParticipants.value) &&
      Truthy(body.userName)
  {
  }

  /** A positive cap is never exceeded: registering within it stays within it. */
  predicate WithinCap(maxParticipants: Option<int>, count: int) {
    maxParticipants.Some? && maxParticipants.value > 0 ==> 0 <= count <= maxParticipants.value
  }

  lemma {:induction false} RegisterKeepsCap(deadline: Option<int>, maxParticipants: Option<int>, count: int,
                         body: RegisterBody, now: int)
    ensures (WithinCap(maxParticipants, count) && count >= 0 &&
             RegisterOutcome(deadline, maxParticipants, count, body, now) == Registered) ==>
            WithinCap(maxParticipants, count + 1)
  {
  }

  /** `POST /:id/register`. An id that is not an ObjectId fails to cast (500); an unknown
      one gives 404. On success the participant is appended and the count incremented;
      otherwise no document changes. */
  method Register(events: seq<Event>, id: string, body: RegisterBody, now: int) returns (status: RegisterStatus)
    modifies set i | 0 <= i < |events| :: events[i]
    ensures !ServerModels.IsObjectId(id) ==> status == Failed
    ensures ServerModels.IsObjectId(id) && FindEvent(events, ToLower(id)).None? ==> status == NotFound
    ensures ServerModels.IsObjectId(id) && FindEvent(events, ToLower(id)).Some? ==>
      var e := events[FindEvent(events, ToLower(id)).value];
      status == RegisterOutcome(e.registrationDeadline, e.maxParticipants, old(e.participantsCount), body, now) &&
      (status == Registered ==>
         e.participants == old(e.participants) + [Participant(body.userName.value, body.userEmail, body.userPhone, body.note)] &&
         e.participantsCount == old(e.participantsCount) + 1)
    ensures forall i :: 0 <= i < |events| && (status != Registered || events[i].id != ToLower(id)) ==>
      unchanged(events[i])
    ensures forall i :: 0 <= i < |events| ==>
      (old(events[i].participantsCount) >= 0 &&
       old(WithinCap(events[i].maxParticipants, events[i].participantsCount)) ==>
       WithinCap(events[i].maxParticipants, events[i].participantsCount))
  {
    if !ServerModels.IsObjectId(id) {
      return Failed;
    }
    var found := FindEvent(events, ToLower(id));
    if found.None? {
      return NotFound;
    }
    var e := events[found.value];
    if e.registrationDeadline.Some? && now > e.registrationDeadline.value {
      return Expired;
    }
    if TruthyNum(e.maxParticipants) && e.participantsCount >= e.maxParticipants.value {
      return Full;
    }
    if !Truthy(body.userName) {
      return Failed;
    }
    RegisterKeepsCap(e.registrationDeadline, e.maxParticipants, e.participantsCount, body, now);
    e.participants := e.participants + [Participant(body.userName.value, body.userEmail, body.userPhone, body.note)];
    e.participantsCount := e.participantsCount + 1;
    status := Registered;
  }
}
