/** The student's booking calendar: a 7-day date scroller whose selected index stays in
    range, the lookup of the selected day's availability, and the slot buttons it shows. */
module CalendarView {
  import opened Common
  import opened Schedule

  /** A slot as the calendar receives it; a missing `booked` reads as unbooked. */
  datatype CalendarSlot = CalendarSlot(start: string, kind: SlotType, booked: bool)

  /** A day of availability as the calendar receives it: dated documents carry `date`,
      legacy ones only `dayOfWeek`. */
  datatype DaySchedule = DaySchedule(dayOfWeek: string, slots: seq<CalendarSlot>, mode: Option<string>, date: Option<string>)

  datatype Selection = Selection(date: string, time: string)

  /** The arguments `onSelectSlot` is called with. */
  datatype SlotChoice = SlotChoice(date: string, time: string, kind: SlotType)

  /** `dates.length`. */
  const DateCount: nat := |Horizon(0)|

  /** The "previous" button: one step back, never below the first date. */
  function PreviousIndex(i: int): (r: int)
    requires 0 <= i < DateCount
    ensures 0 <= r < DateCount
    ensures i > 0 ==> r == i - 1
    ensures i == 0 ==> r == 0
  {
    if i - 1 > 0 then i - 1 else 0
  }

  /** The "next" button: one step forward, never past the last date. */
  function NextIndex(i: int): (r: int)
    requires 0 <= i < DateCount
    ensures 0 <= r < DateCount
    ensures i < DateCount - 1 ==> r == i + 1
    ensures i == DateCount - 1 ==> r == i
  {
    if DateCount - 1 < i + 1 then DateCount - 1 else i + 1
  }

  /** The `selectedDateIndex` state of the calendar. */
  class DateScroller {
    var selected: int

    predicate Valid()
      reads this
    {
      0 <= selected < DateCount
    }

    constructor ()
      ensures Valid() && selected == 0
    {
      selected := 0;
    }

    method Previous()
      requires Valid()
      modifies this
      ensures Valid() && selected == PreviousIndex(old(selected))
    {
      selected := PreviousIndex(selected);
    }

    method Next()
      requires Valid()
      modifies this
      ensures Valid() && selected == NextIndex(old(selected))
    {
      selected := NextIndex(selected);
    }

    /** A click on the date button at `index`. */
    method Pick(index: nat)
      requires index < DateCount
      modifies this
      ensures Valid() && selected == index
    {
      selected := index;
    }
  }

  function LowerChar(c: char): char {
    if 'A' <= c <= 'Z' then (c as int - 'A' as int + 'a' as int) as char else c
  }

  /** `s.toLowerCase()` on ASCII letters: each upper-case letter becomes its lower-case
      letter, every other character stays as it is. */
  function Lower(s: string): (r: string)
    ensures |r| == |s|
    ensures forall i :: 0 <= i < |s| ==> !('A' <= r[i] <= 'Z')
    ensures forall i :: 0 <= i < |s| && 'A' <= s[i] <= 'Z' ==> r[i] as int == s[i] as int + ('a' as int - 'A' as int)
    ensures forall i :: 0 <= i < |s| && !('A' <= s[i] <= 'Z') ==> r[i] == s[i]
  {
    seq(|s|, i requires 0 <= i < |s| => LowerChar(s[i]))
  }

  /** Lower-casing twice is lower-casing once, so a name already in lower case matches
      itself. */
  lemma LowerIdempotent(s: string)
    ensures Lower(Lower(s)) == Lower(s)
  {
    var once := Lower(s);
    assert forall i :: 0 <= i < |s| ==> Lower(once)[i] == once[i];
  }

  /** Whether an availability entry is for the selected day: its date equals the selected
      ISO date, or it has no date and its weekday name matches regardless of letter case. */
  predicate ForDay(a: DaySchedule, iso: string, dayName: string) {
    a.date == Some(iso) || (!Present(a.date) && Lower(a.dayOfWeek) == Lower(dayName))
  }

  /** `availability.find(...)`: the first entry for the selected day. */
  function DayAvailability(availability: seq<DaySchedule>, iso: string, dayName: string): (r: Option<DaySchedule>)
    ensures r.None? <==> forall i :: 0 <= i < |availability| ==> !ForDay(availability[i], iso, dayName)
    ensures r.Some? ==>
      exists i :: 0 <= i < |availability| && availability[i] == r.value && ForDay(r.value, iso, dayName) &&
        forall k :: 0 <= k < i ==> !ForDay(availability[k], iso, dayName)
  {
    if availability == [] then None
    else if ForDay(availability[0], iso, dayName) then Some(availability[0])
    else
      var r := DayAvailability(availability[1..], iso, dayName);
      assert forall k :: 1 <= k < |availability| ==> availability[k] == availability[1..][k - 1];
      r
  }

  /** A dated entry answers only to its own date, however its weekday name reads. */
  lemma DatedEntryNeedsItsDate(a: DaySchedule, iso: string, dayName: string)
    requires Present(a.date) && a.date.value != iso
    ensures !ForDay(a, iso, dayName)
  {
  }

  /** One rendered slot button. */
  datatype SlotButton = SlotButton(start: string, kind: SlotType, disabled: bool, selected: bool, onClick: Option<SlotChoice>)

  /** The time-slot grid of the selected day: `None` is the "no slots" message, shown when
      the day has no availability or no slots. A booked slot is disabled and its click calls
      nothing; a slot shows as selected exactly when the selection is this date and time. */
  function SlotButtons(day: Option<DaySchedule>, iso: string, selection: Option<Selection>): (r: Option<seq<SlotButton>>)
    ensures r.None? <==> day.None? || |day.value.slots| == 0
    ensures r.Some? ==> |r.value| == |day.value.slots|
    ensures r.Some? ==> forall i :: 0 <= i < |r.value| ==>
      var slot := day.value.slots[i];
      r.value[i].start == slot.start && r.value[i].kind == slot.kind &&
      r.value[i].disabled == slot.booked &&
      (r.value[i].onClick.Some? <==> !slot.booked) &&
      (r.value[i].onClick.Some? ==> r.value[i].onClick.value == SlotChoice(iso, slot.start, slot.kind)) &&
      (r.value[i].selected <==> selection.Some? && selection.value.date == iso && selection.value.time == slot.start)
  {
    if day.None? || |day.value.slots| == 0 then None
    else
      var slots := day.value.slots;
      Some(seq(|slots|, i requires 0 <= i < |slots| =>
        var isSelected := selection.Some? && selection.value.date == iso && selection.value.time == slots[i].start;
        var isBooked := slots[i].booked;
        SlotButton(slots[i].start, slots[i].kind, isBooked, isSelected,
                   if isBooked then None else Some(SlotChoice(iso, slots[i].start, slots[i].kind)))))
  }
}
