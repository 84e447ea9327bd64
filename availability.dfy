/** The tutor availability route: POST materialises the weekly template into dated
    inventories for the 7-day horizon, merging with what is already stored so that booked
    slots stay booked; GET lists a tutor's stored inventories with the tutor's overall mode. */
module AvailabilityRoute {
  import opened Common
  import opened Schedule
  import DateOrder

  /** `weeklyTemplate.find(d => d.dayOfWeek === name)`. */
  function FindTemplateDay(template: seq<TemplateDay>, w: Weekday): Option<TemplateDay> {
    if template == [] then None
    else if template[0].dayOfWeek == w then Some(template[0])
    else FindTemplateDay(template[1..], w)
  }

  /** `find` returns the first template day with the weekday, and nothing exactly when
      there is none. */
  lemma {:induction false} FindTemplateDayFirst(template: seq<TemplateDay>, w: Weekday)
    ensures var r := FindTemplateDay(template, w);
      (r.None? <==> forall i :: 0 <= i < |template| ==> template[i].dayOfWeek != w) &&
      (r.Some? ==>
        r.value.dayOfWeek == w &&
        exists i :: 0 <= i < |template| && template[i] == r.value &&
          forall k :: 0 <= k < i ==> template[k].dayOfWeek != w)
  {
    if template != [] && template[0].dayOfWeek != w {
      FindTemplateDayFirst(template[1..], w);
      assert forall k :: 1 <= k < |template| ==> template[k] == template[1..][k - 1];
      var r := FindTemplateDay(template[1..], w);
      if r.Some? {
        var i :| 0 <= i < |template[1..]| && template[1..][i] == r.value &&
          forall k :: 0 <= k < i ==> template[1..][k].dayOfWeek != w;
        assert template[i + 1] == r.value;
      }
    }
  }

  /** The template day's slots as stored slots, none booked. */
  function Unbooked(template: seq<TemplateSlot>): (r: seq<Slot>)
    ensures |r| == |template|
    ensures forall i :: 0 <= i < |r| ==>
      SameKey(r[i], template[i].start, template[i].kind) && !r[i].booked && r[i].end.None?
  {
    seq(|template|, i requires 0 <= i < |template| => Slot(template[i].start, template[i].kind, false, None))
  }

  /** The first slot of `slots` with the key `(start, type)` exists and is booked. */
  predicate WasBooked(slots: seq<Slot>, start: string, kind: SlotType) {
    exists j :: 0 <= j < |slots| && IsFirstMatch(slots, j, start, kind) && slots[j].booked
  }

  /** One step of the merge: the new slot, booked if the first old slot with its key was. */
  function MergeSlot(newSlot: Slot, oldSlots: seq<Slot>): Slot {
    var j := FindSlot(oldSlots, newSlot.start, newSlot.kind);
    if j != -1 && oldSlots[j].booked then newSlot.(booked := true) else newSlot
  }

  /** The booked-slot preservation merge: the new slots in their order, each one booked
      exactly when it already was or the first old slot with its `(start, type)` was booked.
      Old slots whose key is not among the new ones are dropped. */
  function MergeSlots(newSlots: seq<Slot>, oldSlots: seq<Slot>): (r: seq<Slot>)
    ensures |r| == |newSlots|
    ensures forall i :: 0 <= i < |r| ==>
      r[i].start == newSlots[i].start && r[i].kind == newSlots[i].kind && r[i].end == newSlots[i].end
    ensures forall i :: 0 <= i < |r| ==>
      (r[i].booked <==> newSlots[i].booked || WasBooked(oldSlots, newSlots[i].start, newSlots[i].kind))
  {
    var r := seq(|newSlots|, i requires 0 <= i < |newSlots| => MergeSlot(newSlots[i], oldSlots));
    forall i | 0 <= i < |r|
      ensures r[i].booked <==> newSlots[i].booked || WasBooked(oldSlots, newSlots[i].start, newSlots[i].kind)
    {
      var s := newSlots[i];
      var j := FindSlot(oldSlots, s.start, s.kind);
      if WasBooked(oldSlots, s.start, s.kind) {
        var j' :| IsFirstMatch(oldSlots, j', s.start, s.kind) && oldSlots[j'].booked;
        FirstMatchUnique(oldSlots, j, j', s.start, s.kind);
      }
    }
    r
  }

  /** The slots a materialised date receives: the template's slots, merged with the slots
      already stored for that date when there are any. */
  function DaySlots(template: seq<TemplateSlot>, existing: Option<seq<Slot>>): (r: seq<Slot>)
    ensures |r| == |template|
    ensures forall i :: 0 <= i < |r| ==>
      SameKey(r[i], template[i].start, template[i].kind) && r[i].end.None? &&
      (r[i].booked <==> existing.Some? && WasBooked(existing.value, template[i].start, template[i].kind))
  {
    var finalSlots := Unbooked(template);
    if existing.Some? then MergeSlots(finalSlots, existing.value) else finalSlots
  }

  /** In merged slots, the first slot with a given template key is booked exactly when
      the first old slot with that key was. */
  lemma {:induction false} WasBookedAfterMerge(template: seq<TemplateSlot>, oldSlots: seq<Slot>, i: int)
    requires 0 <= i < |template|
    ensures WasBooked(DaySlots(template, Some(oldSlots)), template[i].start, template[i].kind)
       <==> WasBooked(oldSlots, template[i].start, template[i].kind)
  {
    var r := DaySlots(template, Some(oldSlots));
    var start, kind := template[i].start, template[i].kind;
    var j0 := FindSlot(r, start, kind);
    assert SameKey(r[i], start, kind);
    assert IsFirstMatch(r, j0, start, kind);
    assert r[j0].booked <==> WasBooked(oldSlots, start, kind);
    if WasBooked(r, start, kind) {
      var j' :| IsFirstMatch(r, j', start, kind) && r[j'].booked;
      FirstMatchUnique(r, j0, j', start, kind);
    }
  }

  /** Idempotence of the merge: materialising a date again with the same template and the
      slots the previous run stored gives back exactly those slots. */
  lemma {:induction false} DaySlotsIdempotent(template: seq<TemplateSlot>, existing: Option<seq<Slot>>)
    ensures DaySlots(template, Some(DaySlots(template, existing))) == DaySlots(template, existing)
  {
    var r1 := DaySlots(template, existing);
    var r2 := DaySlots(template, Some(r1));
    forall i | 0 <= i < |template| ensures r2[i] == r1[i] {
      if existing.Some? {
        WasBookedAfterMerge(template, existing.value, i);
      } else {
        assert !WasBooked(r1, template[i].start, template[i].kind);
      }
    }
  }

  /** The document POST writes for `date` from a template day. */
  function Rebuilt(store: Store, tutor: string, day: TemplateDay, date: Date): Inventory {
    var key := (tutor, date);
    Inventory(WeekdayOf(date), day.mode,
              DaySlots(day.slots, if key in store then Some(store[key].slots) else None))
  }

  /** One iteration of the POST loop: the date's document is rebuilt when the template
      has its weekday, and nothing is touched otherwise. */
  function MaterializeDate(store: Store, tutor: string, template: seq<TemplateDay>, date: Date): Store {
    match FindTemplateDay(template, WeekdayOf(date))
    case None => store
    case Some(day) => store[(tutor, date) := Rebuilt(store, tutor, day, date)]
  }

  /** The store after the first `n` iterations of the POST loop. */
  function Materialized(store: Store, tutor: string, template: seq<TemplateDay>, today: Date, n: nat): Store {
    if n == 0 then store
    else MaterializeDate(Materialized(store, tutor, template, today, n - 1), tutor, template, today + n - 1)
  }

  /** The loop's state after one more iteration, on the date `today + n`. */
  lemma MaterializedStep(store: Store, tutor: string, template: seq<TemplateDay>, today: Date, n: nat)
    ensures Materialized(store, tutor, template, today, n + 1) ==
      MaterializeDate(Materialized(store, tutor, template, today, n), tutor, template, today + n)
    ensures CountCovered(template, today, n + 1) ==
      CountCovered(template, today, n) + (if FindTemplateDay(template, WeekdayOf(today + n)).Some? then 1 else 0)
  {
    assert today + (n + 1) - 1 == today + n;
  }

  /** The number of the first `n` horizon dates whose weekday the template has. */
  function CountCovered(template: seq<TemplateDay>, today: Date, n: nat): nat {
    if n == 0 then 0
    else
      var covered := FindTemplateDay(template, WeekdayOf(today + n - 1)).Some?;
      CountCovered(template, today, n - 1) + (if covered then 1 else 0)
  }

  /** Whether POST (re)writes the document `key`: it is the tutor's, its date is one of the
      first `n` horizon dates, and the template has that date's weekday. */
  predicate Touched(tutor: string, template: seq<TemplateDay>, today: Date, n: nat, key: (string, Date)) {
    key.0 == tutor && today <= key.1 < today + n && FindTemplateDay(template, WeekdayOf(key.1)).Some?
  }

  /** What the POST loop leaves in each document: a touched date holds the template day
      rebuilt against the ORIGINAL document (no date is written twice), every other
      document is untouched and no other document is created. */
  lemma {:induction false} MaterializedAt(store: Store, tutor: string, template: seq<TemplateDay>, today: Date, n: nat, key: (string, Date))
    ensures var r := Materialized(store, tutor, template, today, n);
      if Touched(tutor, template, today, n, key) then
        key in r && r[key] == Rebuilt(store, tutor, FindTemplateDay(template, WeekdayOf(key.1)).value, key.1)
      else
        (key in r <==> key in store) && (key in store ==> r[key] == store[key])
  {
    if n > 0 {
      MaterializedAt(store, tutor, template, today, n - 1, key);
      var prev := Materialized(store, tutor, template, today, n - 1);
      var d := today + n - 1;
      if key == (tutor, d) && FindTemplateDay(template, WeekdayOf(d)).Some? {
        assert !Touched(tutor, template, today, n - 1, key);
        assert (key in prev <==> key in store) && (key in prev ==> prev[key] == store[key]);
      }
    }
  }

  /** The rebuilt document of a date carries the template day's mode and exactly its
      slots, each booked exactly when the stored document's first slot with its key was. */
  lemma RebuiltShape(store: Store, tutor: string, day: TemplateDay, date: Date)
    ensures var key := (tutor, date);
      var doc := Rebuilt(store, tutor, day, date);
      doc.mode == day.mode && doc.dayOfWeek == WeekdayOf(date) && |doc.slots| == |day.slots| &&
      forall k :: 0 <= k < |day.slots| ==>
        SameKey(doc.slots[k], day.slots[k].start, day.slots[k].kind) &&
        doc.slots[k].end.None? &&
        (doc.slots[k].booked <==>
           key in store && WasBooked(store[key].slots, day.slots[k].start, day.slots[k].kind))
  {
  }

  /** A materialised date holds the template day's mode and exactly its slots, in order:
      each slot is booked exactly when the first previously stored slot with the same
      `(start, type)` was booked, and carries no end time. */
  lemma MaterializedDay(store: Store, tutor: string, template: seq<TemplateDay>, today: Date, i: nat)
    requires i < 7
    requires FindTemplateDay(template, WeekdayOf(today + i)).Some?
    ensures var key := (tutor, today + i);
      var day := FindTemplateDay(template, WeekdayOf(today + i)).value;
      var r := Materialized(store, tutor, template, today, 7);
      key in r && r[key].mode == day.mode && r[key].dayOfWeek == day.dayOfWeek &&
      |r[key].slots| == |day.slots| &&
      forall k :: 0 <= k < |day.slots| ==>
        SameKey(r[key].slots[k], day.slots[k].start, day.slots[k].kind) &&
        r[key].slots[k].end.None? &&
        (r[key].slots[k].booked <==>
           key in store && WasBooked(store[key].slots, day.slots[k].start, day.slots[k].kind))
  {
    var key := (tutor, today + i);
    var day := FindTemplateDay(template, WeekdayOf(today + i)).value;
    FindTemplateDayFirst(template, WeekdayOf(today + i));
    MaterializedAt(store, tutor, template, today, 7, key);
    assert Touched(tutor, template, today, 7, key);
    assert Materialized(store, tutor, template, today, 7)[key] == Rebuilt(store, tutor, day, today + i);
    RebuiltShape(store, tutor, day, today + i);
  }

  /** A booked slot survives re-materialisation as long as the template still offers its
      `(start, type)`. */
  lemma BookedSlotSurvives(store: Store, tutor: string, template: seq<TemplateDay>, today: Date, i: nat, j: nat, k: nat)
    requires i < 7
    requires FindTemplateDay(template, WeekdayOf(today + i)).Some?
    requires (tutor, today + i) in store
    requires var before := store[(tutor, today + i)].slots;
      j < |before| && IsFirstMatch(before, j, before[j].start, before[j].kind) && before[j].booked
    requires var day := FindTemplateDay(template, WeekdayOf(today + i)).value;
      var before := store[(tutor, today + i)].slots;
      k < |day.slots| && j < |before| && SameKey(before[j], day.slots[k].start, day.slots[k].kind)
    ensures var r := Materialized(store, tutor, template, today, 7);
      (tutor, today + i) in r && k < |r[(tutor, today + i)].slots| && r[(tutor, today + i)].slots[k].booked
  {
    MaterializedDay(store, tutor, template, today, i);
  }

  /** Re-running POST with an unchanged template on the state the previous run left
      changes nothing. */
  lemma MaterializeIdempotent(store: Store, tutor: string, template: seq<TemplateDay>, today: Date)
    ensures var once := Materialized(store, tutor, template, today, 7);
      Materialized(once, tutor, template, today, 7) == once
  {
    var once := Materialized(store, tutor, template, today, 7);
    var twice := Materialized(once, tutor, template, today, 7);
    forall key | key in once || key in twice
      ensures key in once && key in twice && twice[key] == once[key]
    {
      MaterializedAt(store, tutor, template, today, 7, key);
      MaterializedAt(once, tutor, template, today, 7, key);
      if Touched(tutor, template, today, 7, key) {
        var day := FindTemplateDay(template, WeekdayOf(key.1)).value;
        DaySlotsIdempotent(day.slots, if key in store then Some(store[key].slots) else None);
      }
    }
    assert twice.Keys == once.Keys;
  }

  lemma {:induction false} CountCoveredBound(template: seq<TemplateDay>, today: Date, n: nat)
    ensures CountCovered(template, today, n) <= n
  {
    if n > 0 {
      CountCoveredBound(template, today, n - 1);
    }
  }

  predicate HasWeekday(template: seq<TemplateDay>, w: Weekday) {
    exists i :: 0 <= i < |template| && template[i].dayOfWeek == w
  }

  /** With a template that has every weekday, POST saves all 7 dates. */
  lemma {:induction false} CountCoveredComplete(template: seq<TemplateDay>, today: Date, n: nat)
    requires forall w: Weekday :: HasWeekday(template, w)
    ensures CountCovered(template, today, n) == n
  {
    if n > 0 {
      CountCoveredComplete(template, today, n - 1);
      var w := WeekdayOf(today + n - 1);
      assert HasWeekday(template, w);
      FindTemplateDayFirst(template, w);
    }
  }

  /** The body of the POST loop for one date: when the template has the date's weekday,
      the date's document is rebuilt from the template day merged with the stored
      document, written back, and returned as saved; otherwise nothing happens. */
  method MaterializeOne(store: Store, tutor: string, template: seq<TemplateDay>, date: Date)
    returns (after: Store, saved: Option<Inventory>)
    ensures after == MaterializeDate(store, tutor, template, date)
    ensures saved.Some? <==> FindTemplateDay(template, WeekdayOf(date)).Some?
    ensures saved.Some? ==> after[(tutor, date)] == saved.value
  {
    var templateDay := FindTemplateDay(template, WeekdayOf(date));
    if templateDay.None? {
      return store, None;
    }
    var day := templateDay.value;
    var finalSlots := Unbooked(day.slots);
    if (tutor, date) in store {
      finalSlots := MergeSlots(finalSlots, store[(tutor, date)].slots);
    }
    var doc := Inventory(WeekdayOf(date), day.mode, finalSlots);
    after := store[(tutor, date) := doc];
    saved := Some(doc);
  }

  datatype PostResponse = PostUnauthorized | Saved(saved: nat)

  /** POST /api/tutor/availability. `userId` and `role` are the identity headers, `today` is
      the request's date. */
  method Post(store: Store, userId: Option<string>, role: Option<string>, template: seq<TemplateDay>, today: Date)
    returns (response: PostResponse, after: Store)
    ensures response == PostUnauthorized <==> !(Present(userId) && role == Some("tutor"))
    ensures response == PostUnauthorized ==> after == store
    ensures response.Saved? ==>
      after == Materialized(store, userId.value, template, today, 7) &&
      response.saved == CountCovered(template, today, 7) && response.saved <= 7
  {
    if !Present(userId) || role != Some("tutor") {
      return PostUnauthorized, store;
    }
    var tutor := userId.value;
    var savedDocs: seq<Inventory> := [];
    after := store;
    for i := 0 to 7
      invariant after == Materialized(store, tutor, template, today, i)
      invariant |savedDocs| == CountCovered(template, today, i)
    {
      MaterializedStep(store, tutor, template, today, i);
      var doc;
      after, doc := MaterializeOne(after, tutor, template, today + i);
      if doc.Some? {
        savedDocs := savedDocs + [doc.value];
      }
    }
    CountCoveredBound(template, today, 7);
    response := Saved(|savedDocs|);
  }

  /** The dates of the tutor's stored documents. */
  function TutorDates(store: Store, tutor: string): set<Date> {
    set key | key in store && key.0 == tutor :: key.1
  }

  /** The tutor's documents as the listing query returns them, with their dates. */
  function ListSchedule(store: Store, tutor: string): (r: seq<(Date, Inventory)>)
    ensures var dates := DateOrder.FirstSeven(TutorDates(store, tutor));
      |r| == |dates| && forall i :: 0 <= i < |r| ==> r[i] == (dates[i], store[(tutor, dates[i])])
  {
    var dates := DateOrder.FirstSeven(TutorDates(store, tutor));
    assert forall i :: 0 <= i < |dates| ==> (tutor, dates[i]) in store;
    seq(|dates|, i requires 0 <= i < |dates| => (dates[i], store[(tutor, dates[i])]))
  }

  /** A tutor profile as this route reads it; `educationMode` may be absent. */
  datatype Profile = Profile(educationMode: Option<string>)

  datatype GetResponse =
    | GetUnauthorized
    | TutorIdRequired
    | Schedule(schedule: seq<(Date, Inventory)>, educationMode: string)

  /** The tutor whose schedule is read: the `tutorId` query parameter when given, else the
      caller. */
  function Target(userId: Option<string>, queryTutorId: Option<string>): string {
    if Present(queryTutorId) then queryTutorId.value
    else if Present(userId) then userId.value else ""
  }

  /** GET /api/tutor/availability. `queryTutorId` is the `tutorId` query parameter and
      `profiles` the profile lookup by user id (`None` when it fails). The query parameter,
      when given, overrides the caller. */
  function Get(store: Store, userId: Option<string>, role: Option<string>,
               queryTutorId: Option<string>, profiles: string -> Option<Profile>): (r: GetResponse)
    ensures r == GetUnauthorized <==> !Present(queryTutorId) && !(Present(userId) && role == Some("tutor"))
    ensures r.Schedule? ==>
      r.schedule == ListSchedule(store, if Present(queryTutorId) then queryTutorId.value else userId.value)
    ensures r.Schedule? ==>
      var profile := profiles(if Present(queryTutorId) then queryTutorId.value else userId.value);
      r.educationMode != "" &&
      (r.educationMode == "hybrid" <==>
         profile.None? || !Present(profile.value.educationMode) || profile.value.educationMode.value == "hybrid") &&
      (profile.Some? && Present(profile.value.educationMode) ==> r.educationMode == profile.value.educationMode.value)
  {
    var target := Target(userId, queryTutorId);
    if !Present(queryTutorId) && !(Present(userId) && role == Some("tutor")) then GetUnauthorized
    else if target == "" then TutorIdRequired
    else
      var profile := profiles(target);
      var educationMode :=
        if profile.Some? && Present(profile.value.educationMode) then profile.value.educationMode.value
        else "hybrid";
      Schedule(ListSchedule(store, target), educationMode)
  }

  /** The `Tutor ID required` branch is dead: whoever gets past the authorisation check
      has a non-empty target id. */
  lemma GetNeverMissesTarget(store: Store, userId: Option<string>, role: Option<string>,
                             queryTutorId: Option<string>, profiles: string -> Option<Profile>)
    ensures Get(store, userId, role, queryTutorId, profiles) != TutorIdRequired
  {
  }
}
