/** The availability-and-booking data model shared by the availability and booking routes:
    dated slot inventories keyed by (tutor, date), the weekly template a tutor submits,
    and the booking records. */
module Schedule {
  import opened Common

  /** A slot's session type (`"online" | "offline"`). */
  datatype SlotType = Online | Offline

  /** A day's teaching mode (`"online" | "offline" | "hybrid" | "half" | "close"`). */
  datatype Mode = OnlineOnly | OfflineOnly | Hybrid | Half | Close

  datatype Weekday = Monday | Tuesday | Wednesday | Thursday | Friday | Saturday | Sunday

  /** A calendar date, as its day number counted from 1970-01-01; the collections store it
      rendered as `YYYY-MM-DD`, a rendering that is one-to-one. */
  type Date = nat

  /** One slot of a submitted template day: `{start, type}`. */
  datatype TemplateSlot = TemplateSlot(start: string, kind: SlotType)

  /** One entry of the submitted weekly template. */
  datatype TemplateDay = TemplateDay(dayOfWeek: Weekday, mode: Mode, slots: seq<TemplateSlot>)

  /** A stored slot: `{start, type, booked, end?}`. */
  datatype Slot = Slot(start: string, kind: SlotType, booked: bool, end: Option<string>)

  /** A stored `tutor_availabilities` document, less its key fields. */
  datatype Inventory = Inventory(dayOfWeek: Weekday, mode: Mode, slots: seq<Slot>)

  /** The `tutor_availabilities` collection: at most one document per (tutorId, date). */
  type Store = map<(string, Date), Inventory>

  datatype BookingStatus = Confirmed | Cancelled | Completed

  /** A `bookings` document. */
  datatype Booking = Booking(
    studentId: string, tutorId: string, date: Date,
    startTime: string, endTime: string, kind: SlotType,
    status: BookingStatus, createdAt: string)

  /** The weekday of a date (1970-01-01 was a Thursday). */
  function WeekdayOf(d: Date): Weekday {
    [Thursday, Friday, Saturday, Sunday, Monday, Tuesday, Wednesday][d % 7]
  }

  /** The rolling horizon: the 7 dates `today + 0 … today + 6`. */
  function Horizon(today: Date): (r: seq<Date>)
    ensures |r| == 7
    ensures r[0] == today
    ensures forall i :: 0 < i < |r| ==> r[i] == r[i - 1] + 1
  {
    seq(7, i requires 0 <= i < 7 => today + i)
  }

  /** The position of a weekday in the table `WeekdayOf` reads. */
  function TableIndex(w: Weekday): (k: nat)
    ensures k < 7 && WeekdayOf(k) == w
  {
    match w
    case Thursday => 0 case Friday => 1 case Saturday => 2 case Sunday => 3
    case Monday => 4 case Tuesday => 5 case Wednesday => 6
  }

  /** Dates less than a week apart have different residues modulo 7. */
  lemma DistinctResidues(a: Date, b: Date)
    requires a < b < a + 7
    ensures a % 7 != b % 7
  {
    var qa, qb := a / 7, b / 7;
    assert a == 7 * qa + a % 7;
    assert b == 7 * qb + b % 7;
  }

  /** Any seven consecutive dates fall on seven different weekdays, so every weekday
      occurs exactly once in the horizon. */
  lemma HorizonCoversWeek(today: Date, w: Weekday)
    ensures exists i :: 0 <= i < 7 && WeekdayOf(Horizon(today)[i]) == w
    ensures forall i, j :: 0 <= i < j < 7 ==> WeekdayOf(Horizon(today)[i]) != WeekdayOf(Horizon(today)[j])
  {
    var h := Horizon(today);
    var q, k := today / 7, today % 7;
    assert today == 7 * q + k;
    var slot := TableIndex(w);
    var i := if slot >= k then slot - k else slot - k + 7;
    var q' := if slot >= k then q else q + 1;
    assert h[i] == 7 * q' + slot;
    assert h[i] % 7 == slot;
    forall i, j | 0 <= i < j < 7 ensures WeekdayOf(h[i]) != WeekdayOf(h[j]) {
      DistinctResidues(h[i], h[j]);
    }
  }

  /** A stored slot answers to the key `(start, type)`. */
  predicate SameKey(s: Slot, start: string, kind: SlotType) {
    s.start == start && s.kind == kind
  }

  /** `j` is the first position in `slots` whose slot has the key `(start, type)`. */
  predicate IsFirstMatch(slots: seq<Slot>, j: int, start: string, kind: SlotType) {
    0 <= j < |slots| && SameKey(slots[j], start, kind) &&
    forall k :: 0 <= k < j ==> !SameKey(slots[k], start, kind)
  }

  lemma FirstMatchUnique(slots: seq<Slot>, i: int, j: int, start: string, kind: SlotType)
    requires IsFirstMatch(slots, i, start, kind) && IsFirstMatch(slots, j, start, kind)
    ensures i == j
  {
  }

  /** `slots.findIndex(s => s.start === start && s.type === type)`. */
  function FindSlot(slots: seq<Slot>, start: string, kind: SlotType): (j: int)
    ensures -1 <= j < |slots|
    ensures j == -1 <==> forall k :: 0 <= k < |slots| ==> !SameKey(slots[k], start, kind)
    ensures j != -1 ==> IsFirstMatch(slots, j, start, kind)
  {
    if slots == [] then -1
    else if SameKey(slots[0], start, kind) then 0
    else
      var j := FindSlot(slots[1..], start, kind);
      if j == -1 then -1 else j + 1
  }
}
