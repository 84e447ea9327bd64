/** The bookings route: POST claims one slot of a dated inventory and records a confirmed
    booking whose end time follows from the session type's duration; GET lists the
    caller's bookings, each joined best-effort with the student's profile. */
module BookingsRoute {
  import opened Common
  import opened Schedule
  import opened TimeOfDay
  import AvailabilityRoute

  /** Session length in minutes: 50 online, 80 offline. */
  function Duration(kind: SlotType): (minutes: nat)
    ensures kind == Online ==> minutes == 50
    ensures kind == Offline ==> minutes == 80
  {
    if kind == Online then 50 else 80
  }

  /** `format(addMinutes(start, duration), "HH:mm")`: the end time, wrapping past midnight. */
  function EndTime(start: nat, kind: SlotType): (s: string)
    requires start < Day
    ensures ParseHHmm(s) == Some((start + Duration(kind)) % Day)
  {
    ParseFormatRoundTrip((start + Duration(kind)) % Day);
    FormatHHmm((start + Duration(kind)) % Day)
  }

  /** Reduction modulo a day of a sum of two times of day. */
  lemma WrapAround(x: nat)
    requires x < 2 * Day
    ensures x < Day ==> x % Day == x
    ensures x >= Day ==> x % Day == x - Day
  {
    if x >= Day {
      assert x == Day + (x - Day);
    }
  }

  /** The duration law: read back, the end time lies 50 (online) or 80 (offline) minutes
      after the start, wrapping to the next day past midnight. */
  lemma DurationLaw(start: nat, kind: SlotType)
    requires start < Day
    ensures var end := ParseHHmm(EndTime(start, kind)).value;
      end < Day &&
      (start + Duration(kind) < Day ==> end - start == Duration(kind)) &&
      (start + Duration(kind) >= Day ==> end + Day - start == Duration(kind))
  {
    WrapAround(start + Duration(kind));
  }

  /** Claiming the slot at `j`: it becomes booked with the given end time, every other slot
      is left as it was. */
  function Claim(slots: seq<Slot>, j: nat, end: string): (r: seq<Slot>)
    requires j < |slots|
    ensures |r| == |slots|
    ensures r[j] == Slot(slots[j].start, slots[j].kind, true, Some(end))
    ensures forall k :: 0 <= k < |r| && k != j ==> r[k] == slots[k]
  {
    slots[j := slots[j].(booked := true, end := Some(end))]
  }

  /** The fields of the POST body the route reads. `endTime` and `dayOfWeek` are accepted
      and ignored. */
  datatype BookingRequest = BookingRequest(
    tutorId: string, date: Date, startTime: string, endTime: string, kind: SlotType, dayOfWeek: string)

  datatype BookError =
    | Unauthorized       // 401
    | InvalidStartTime   // 400
    | NoAvailability     // 404, no document for (tutorId, date)
    | SlotNotFound       // 404
    | AlreadyBooked      // 409

  datatype PostOutcome = Booked(bookingId: nat) | Failed(error: BookError)

  /** POST /api/bookings. `userId` is the caller's identity header and `now` the creation
      timestamp; the new booking's id is its position in the collection. */
  method Post(store: Store, bookings: seq<Booking>, userId: Option<string>, req: BookingRequest, now: string)
    returns (outcome: PostOutcome, store': Store, bookings': seq<Booking>)
    ensures outcome.Failed? ==> store' == store && bookings' == bookings
    ensures outcome == Failed(Unauthorized) <==> !Present(userId)
    ensures outcome == Failed(InvalidStartTime) <==> Present(userId) && ParseStartTime(req.startTime).None?
    ensures outcome == Failed(NoAvailability) <==>
      Present(userId) && ParseStartTime(req.startTime).Some? && (req.tutorId, req.date) !in store
    ensures outcome == Failed(SlotNotFound) <==>
      Present(userId) && ParseStartTime(req.startTime).Some? && (req.tutorId, req.date) in store &&
      forall k :: 0 <= k < |store[(req.tutorId, req.date)].slots| ==>
        !SameKey(store[(req.tutorId, req.date)].slots[k], req.startTime, req.kind)
    ensures outcome == Failed(AlreadyBooked) <==>
      Present(userId) && ParseStartTime(req.startTime).Some? && (req.tutorId, req.date) in store &&
      AvailabilityRoute.WasBooked(store[(req.tutorId, req.date)].slots, req.startTime, req.kind)
    ensures outcome.Booked? ==>
      var key := (req.tutorId, req.date);
      var endTime := EndTime(ParseStartTime(req.startTime).value, req.kind);
      key in store && outcome.bookingId == |bookings| &&
      (exists j :: IsFirstMatch(store[key].slots, j, req.startTime, req.kind) &&
         !store[key].slots[j].booked &&
         store' == store[key := store[key].(slots := Claim(store[key].slots, j, endTime))]) &&
      bookings' == bookings + [Booking(userId.value, req.tutorId, req.date, req.startTime, endTime,
                                       req.kind, Confirmed, now)]
  {
    if !Present(userId) {
      return Failed(Unauthorized), store, bookings;
    }
    var duration := Duration(req.kind);
    var parsedStartTime := ParseHHmm(req.startTime);
    if parsedStartTime.None? {
      parsedStartTime := ParseHmmA(req.startTime);
    }
    if parsedStartTime.None? {
      return Failed(InvalidStartTime), store, bookings;
    }
    var calculatedEndTime := EndTime(parsedStartTime.value, req.kind);

    var key := (req.tutorId, req.date);
    if key !in store {
      return Failed(NoAvailability), store, bookings;
    }
    var availabilityDoc := store[key];
    var slots := availabilityDoc.slots;
    var slotIndex := FindSlot(slots, req.startTime, req.kind);
    if slotIndex == -1 {
      return Failed(SlotNotFound), store, bookings;
    }
    if slots[slotIndex].booked {
      assert AvailabilityRoute.WasBooked(slots, req.startTime, req.kind);
      return Failed(AlreadyBooked), store, bookings;
    }
    if AvailabilityRoute.WasBooked(slots, req.startTime, req.kind) {
      var j :| 0 <= j < |slots| && IsFirstMatch(slots, j, req.startTime, req.kind) && slots[j].booked;
      FirstMatchUnique(slots, j, slotIndex, req.startTime, req.kind);
    }

    slots := Claim(slots, slotIndex, calculatedEndTime);
    store' := store[key := availabilityDoc.(slots := slots)];
    bookings' := bookings + [Booking(userId.value, req.tutorId, req.date, req.startTime, calculatedEndTime,
                                     req.kind, Confirmed, now)];
    outcome := Booked(|bookings|);
  }

  /** After a claim, the claimed key is taken: a second request for the same
      `(start, type)` on the same document is refused as already booked, so the sequential
      model admits at most one booking per slot. */
  lemma ClaimIsFinal(slots: seq<Slot>, j: nat, end: string)
    requires j < |slots| && IsFirstMatch(slots, j, slots[j].start, slots[j].kind)
    ensures var r := Claim(slots, j, end);
      FindSlot(r, slots[j].start, slots[j].kind) == j && r[j].booked &&
      AvailabilityRoute.WasBooked(r, slots[j].start, slots[j].kind)
  {
    var r := Claim(slots, j, end);
    var found := FindSlot(r, slots[j].start, slots[j].kind);
    assert IsFirstMatch(r, j, slots[j].start, slots[j].kind);
    FirstMatchUnique(r, found, j, slots[j].start, slots[j].kind);
  }

  /** A claimed slot stays booked when the tutor later re-materialises a template that
      still offers its `(start, type)`. */
  lemma ClaimSurvivesRematerialisation(slots: seq<Slot>, j: nat, end: string, template: seq<TemplateSlot>, i: nat)
    requires j < |slots| && IsFirstMatch(slots, j, slots[j].start, slots[j].kind)
    requires i < |template| && template[i].start == slots[j].start && template[i].kind == slots[j].kind
    ensures AvailabilityRoute.DaySlots(template, Some(Claim(slots, j, end)))[i].booked
  {
    ClaimIsFinal(slots, j, end);
  }

  /** At most one booking per slot, sequentially: once a request has booked a slot, the same
      request made again (by anyone) is refused with 409 and changes nothing. */
  method RepeatedRequestConflicts(store: Store, bookings: seq<Booking>, userId: Option<string>,
                                  other: Option<string>, req: BookingRequest, now: string)
    returns (first: PostOutcome, second: PostOutcome)
    requires Present(other)
    ensures first.Booked? ==> second == Failed(AlreadyBooked)
  {
    var store1, bookings1;
    first, store1, bookings1 := Post(store, bookings, userId, req, now);
    var store2, bookings2;
    second, store2, bookings2 := Post(store1, bookings1, other, req, now);
    if first.Booked? {
      var key := (req.tutorId, req.date);
      var j :| IsFirstMatch(store[key].slots, j, req.startTime, req.kind) &&
        store1 == store[key := store[key].(slots := Claim(store[key].slots, j,
          EndTime(ParseStartTime(req.startTime).value, req.kind)))];
      ClaimIsFinal(store[key].slots, j, EndTime(ParseStartTime(req.startTime).value, req.kind));
    }
  }

  /** A student's profile as the listing reads it; every field may be absent. */
  datatype StudentProfile = StudentProfile(
    name: Option<string>, classLevels: Option<seq<string>>, subjects: Option<seq<string>>,
    email: Option<string>, gender: Option<string>)

  /** The student projection attached to a listed booking. */
  datatype StudentView = StudentView(
    name: string, classLevels: seq<string>, subjects: seq<string>,
    email: Option<string>, gender: Option<string>)

  datatype EnrichedBooking = EnrichedBooking(booking: Booking, student: StudentView)

  /** The placeholder shown when the student's profile cannot be fetched. */
  const UnknownStudent := StudentView("Unknown Student", [], [], None, None)

  /** The projection of a fetched profile, with the route's defaults for absent fields. */
  function StudentViewOf(p: StudentProfile): (v: StudentView)
    ensures v.name != "" && v.gender.Some? && v.gender.value != ""
    ensures Present(p.name) ==> v.name == p.name.value
    ensures !Present(p.name) ==> v.name == "Unknown"
    ensures p.classLevels.Some? ==> v.classLevels == p.classLevels.value
    ensures p.classLevels.None? ==> v.classLevels == []
    ensures p.subjects.Some? ==> v.subjects == p.subjects.value
    ensures p.subjects.None? ==> v.subjects == []
    ensures v.email == p.email
    ensures Present(p.gender) ==> v.gender == p.gender
    ensures !Present(p.gender) ==> v.gender == Some("Not Specified")
  {
    StudentView(
      if Present(p.name) then p.name.value else "Unknown",
      if p.classLevels.Some? then p.classLevels.value else [],
      if p.subjects.Some? then p.subjects.value else [],
      p.email,
      if Present(p.gender) then p.gender else Some("Not Specified"))
  }

  datatype GetResponse = GetUnauthorized | Listed(items: seq<EnrichedBooking>)

  /** GET /api/bookings over the bookings the listing query returned for the caller.
      `lookup` is the profile fetch by student id (`None` when it fails). */
  function Get(userId: Option<string>, bookings: seq<Booking>, lookup: string -> Option<StudentProfile>): (r: GetResponse)
    ensures r.GetUnauthorized? <==> !Present(userId)
    ensures r.Listed? ==> |r.items| == |bookings|
    ensures r.Listed? ==> forall i :: 0 <= i < |bookings| ==>
      r.items[i].booking == bookings[i] &&
      (lookup(bookings[i].studentId).None? ==> r.items[i].student == UnknownStudent) &&
      (lookup(bookings[i].studentId).Some? ==> r.items[i].student == StudentViewOf(lookup(bookings[i].studentId).value))
  {
    if !Present(userId) then GetUnauthorized
    else if |bookings| == 0 then Listed([])
    else
      Listed(seq(|bookings|, i requires 0 <= i < |bookings| =>
        var student := lookup(bookings[i].studentId);
        EnrichedBooking(bookings[i], if student.None? then UnknownStudent else StudentViewOf(student.value))))
  }
}
