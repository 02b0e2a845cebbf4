/**
 * The Booker atom: the component state that the user's clicks change (the month being
 * browsed, the selected day, the chosen time, the timezone), the status derived from it
 * by a fixed priority chain, and which panels that status puts on screen.
 *
 * The schedule and event queries are not modelled: what the status needs of them is
 * passed in as `eventLoading` (the event query's `isLoading`), `hasEventData` (whether
 * the query returned data) and `slotCount` (the length of the slots for the selected day).
 */
module Booker {
  import opened Wrappers

  /** The four states of the booker, in the priority order of the status chain. */
  datatype BookerState = Loading | SelectingDate | SelectingTime | Booking

  /** A date value (Dayjs), taken as its milliseconds since the epoch; dates are opaque here. */
  type Instant = int

  /** JavaScript truthiness of a `string | null`: present and not the empty string. */
  predicate Truthy(s: Option<string>)
  {
    s.Some? && s.value != ""
  }

  /** Which parts of the booker are rendered. */
  datatype Panels = Panels(
    metaSkeleton: bool,    // the placeholder shown while the event loads
    eventDetails: bool,    // members, title, details and the timezone select
    bookingForm: bool,     // the booking form
    datePicker: bool,      // the month calendar
    availableTimes: bool)  // the list of free times of the selected day

  class BookerAtom {
    var browsingMonthStart: Instant
    var selectedDate: Option<string>   // "YYYY-MM-DD", as formatted by the day handler
    var bookingTime: Option<string>
    var timezone: string

    /** The first render: no day and no time chosen yet. */
    constructor (monthStart: Instant, tz: string)
      ensures browsingMonthStart == monthStart && timezone == tz
      ensures selectedDate == None && bookingTime == None
    {
      browsingMonthStart := monthStart;
      selectedDate := None;
      bookingTime := None;
      timezone := tz;
    }

    /**
     * The derived status. Loading dominates; then an empty slot list; then a missing
     * or empty booking time. Every input has exactly one status, since the four
     * characterisations below are mutually exclusive and cover all cases.
     */
    function Status(eventLoading: bool, slotCount: nat): (s: BookerState)
      reads this
      ensures s == Loading <==> eventLoading
      ensures s == SelectingDate <==> !eventLoading && slotCount == 0
      ensures s == SelectingTime <==> !eventLoading && slotCount > 0 && !Truthy(bookingTime)
      ensures s == Booking <==> !eventLoading && slotCount > 0 && Truthy(bookingTime)
    {
      if eventLoading then Loading
      else if slotCount == 0 then SelectingDate
      else if !Truthy(bookingTime) then SelectingTime
      else Booking
    }

    /**
     * The panels on screen. The form and the date picker take turns; the time list
     * sits beside the date picker, and only once a day with free slots is selected.
     */
    function Visible(eventLoading: bool, hasEventData: bool, slotCount: nat): (p: Panels)
      reads this
      ensures p.metaSkeleton <==> eventLoading
      ensures p.eventDetails <==> !eventLoading && hasEventData
      ensures p.bookingForm != p.datePicker
      ensures p.bookingForm <==> !eventLoading && slotCount > 0 && Truthy(bookingTime)
      ensures p.availableTimes ==> p.datePicker && slotCount > 0 && Truthy(selectedDate)
      ensures p.availableTimes ==> Status(eventLoading, slotCount) in {Loading, SelectingTime}
      ensures p.availableTimes <==> slotCount > 0 && Truthy(selectedDate) && (eventLoading || !Truthy(bookingTime))
    {
      var status := Status(eventLoading, slotCount);
      Panels(
        metaSkeleton := eventLoading,
        eventDetails := !eventLoading && hasEventData,
        bookingForm := status == Booking,
        datePicker := status != Booking,
        availableTimes := status != Booking && slotCount > 0 && Truthy(selectedDate))
    }

    /** The date picker moved to another month: the selected day is dropped, the chosen time is kept. */
    method OnMonthChange(date: Instant)
      modifies this
      ensures browsingMonthStart == date && selectedDate == None
      ensures bookingTime == old(bookingTime) && timezone == old(timezone)
      ensures forall l: bool, d: bool, n: nat :: !Visible(l, d, n).availableTimes
    {
      browsingMonthStart := date;
      selectedDate := None;
    }

    /** A day was picked; `day` is its "YYYY-MM-DD" rendering. */
    method OnDaySelect(day: string)
      modifies this
      ensures selectedDate == Some(day)
      ensures browsingMonthStart == old(browsingMonthStart)
      ensures bookingTime == old(bookingTime) && timezone == old(timezone)
    {
      selectedDate := Some(day);
    }

    /** A time was picked from the time list; with slots and the event loaded, the form opens. */
    method OnTimeSelect(time: string)
      modifies this
      ensures bookingTime == Some(time)
      ensures browsingMonthStart == old(browsingMonthStart)
      ensures selectedDate == old(selectedDate) && timezone == old(timezone)
      ensures time != "" ==> forall n: nat :: n > 0 ==> Status(false, n) == Booking
    {
      bookingTime := Some(time);
    }

    /** The booking form was cancelled: the time is cleared and the booker goes back to the time list. */
    method OnCancel()
      modifies this
      ensures bookingTime == None
      ensures browsingMonthStart == old(browsingMonthStart)
      ensures selectedDate == old(selectedDate) && timezone == old(timezone)
      ensures forall n: nat :: old(Status(false, n)) == Booking ==> Status(false, n) == SelectingTime
      ensures forall l: bool, d: bool, n: nat :: !Visible(l, d, n).bookingForm
    {
      bookingTime := None;
    }

    /** A timezone was picked in the timezone select. */
    method OnTimezoneChange(tz: string)
      modifies this
      ensures timezone == tz
      ensures browsingMonthStart == old(browsingMonthStart)
      ensures selectedDate == old(selectedDate) && bookingTime == old(bookingTime)
    {
      timezone := tz;
    }
  }

  /**
   * The status is a function of the event's loading flag, the slot count and whether a
   * time is chosen, and of nothing else: two bookers that agree on those three agree on
   * the status, whatever their month, day, timezone or the time's value.
   */
  lemma StatusDependsOnlyOnInputs(a: BookerAtom, b: BookerAtom, eventLoading: bool, slotCount: nat)
    requires Truthy(a.bookingTime) == Truthy(b.bookingTime)
    ensures a.Status(eventLoading, slotCount) == b.Status(eventLoading, slotCount)
  {
  }

  /**
   * The month handler leaves the chosen time in place, so a booker that had a time,
   * after a month change and a new day with free slots, is back at the booking form
   * with the time chosen in the earlier month.
   */
  method MonthChangeThenDaySelect(b: BookerAtom, month: Instant, day: string, slotCount: nat)
    requires Truthy(b.bookingTime) && slotCount > 0
    modifies b
    ensures b.bookingTime == old(b.bookingTime) && b.selectedDate == Some(day)
    ensures b.Status(false, slotCount) == Booking
  {
    b.OnMonthChange(month);
    b.OnDaySelect(day);
  }
}
