# Booking UI state and billing glue of cal.com, modelled in Dafny

This project models three small pieces of logic from the cal.com scheduling app:

- **The Booker atom** (`booker.dfy`, module `Booker`). The booking widget keeps three pieces
  of component state: the month being browsed, the selected day and the chosen booking time.
  The timezone picked in the timezone select sits beside them. The model is a class
  `BookerAtom` with these as fields. The click handlers (month change, day select, time
  select, cancel of the booking form, timezone change) are methods, and each states the whole
  new state. The status is a function of the state and two inputs from the queries: whether
  the event is loading, and how many slots the selected day has. It follows the priority
  chain LOADING > SELECTING_DATE > SELECTING_TIME > BOOKING. Which panels are on screen is
  another function: the skeleton, the event details, the booking form, the date picker and
  the time list.
- **The event-type description** (`event_type_description.dfy`, module
  `EventTypeDescription`). This is a pure function from an event type's metadata to the badge
  row under its description, in order: durations, scheduling type, recurrence, price,
  confirmation, the narrow-layout "+" counter, seats. JavaScript truthiness is kept exactly.
  An empty `multipleDuration` array is truthy, so it yields no duration badge at all. A
  negative recurring count is truthy for the "+" counter but fails the `> 0` test of the
  recurrence badge. The model also says which badges show at wide (xl) and narrow layout,
  and what React puts in the list, text nodes included.
- **The team checkout request** (`team_payments.dfy`, module `TeamPayments`). This is the
  record handed to the payment processor when a team subscription is bought. It is built
  from the team id, billing frequency, seat count and email, plus configuration: the two
  price ids and the base URL.

`wrappers.dfy` holds the `Option` type used for `T | null` and `T | undefined`.

Changing the browsing month keeps a chosen time. `onMonthChange`
(`packages/atoms/booker/Booker.tsx:36-39`) clears only the selected day, and the booking time
stays as it was. `Booker.MonthChangeThenDaySelect` states the consequence. A booker that still
holds a time goes straight back to the booking form once a day with slots is picked in the new
month. In the UI this needs a state where the date picker is shown while a time is held.
That happens when the event reloads or the slots empty during booking.

## Model

| member | source | states |
|---|---|---|
| `Booker.BookerAtom.constructor` | packages/atoms/booker/Booker.tsx:27-34 | The first render holds the given month and timezone, with no day and no time chosen. |
| `Booker.BookerAtom.Status` | packages/atoms/booker/Booker.tsx:49-54 | Loading iff the event is loading, whatever the slots and time. Selecting-date iff not loading and there are no slots, even with a time set. Selecting-time iff not loading, slots exist and the time is null or empty. Booking iff not loading, slots exist and the time is truthy. So every input has exactly one status. |
| `Booker.BookerAtom.Visible` | packages/atoms/booker/Booker.tsx:75-135 | The skeleton shows iff the event is loading. Details show iff it is loaded and has data. Exactly one of the booking form and the date picker shows. The form shows iff not loading, slots exist and a time is truthy. The time list shows iff slots exist, a day is selected and (loading or no time), so only beside the date picker and only in the Loading or Selecting-time status. |
| `Booker.BookerAtom.OnMonthChange` | packages/atoms/booker/Booker.tsx:36-39 | Sets the browsing month and clears the selected day. Booking time and timezone are unchanged. Afterwards the time list is hidden for every input. |
| `Booker.BookerAtom.OnDaySelect` | packages/atoms/booker/Booker.tsx:41-43 | Sets only the selected day. |
| `Booker.BookerAtom.OnTimeSelect` | packages/atoms/booker/Booker.tsx:45-47 | Sets only the booking time. With a non-empty time, no loading and slots present, the status becomes Booking. |
| `Booker.BookerAtom.OnCancel` | packages/atoms/booker/Booker.tsx:110 | Clears only the booking time. With the same slots and no loading, a Booking status becomes Selecting-time, and the booking form is hidden for every input. |
| `Booker.BookerAtom.OnTimezoneChange` | packages/atoms/booker/Booker.tsx:96 | Sets only the timezone. |
| `Booker.StatusDependsOnlyOnInputs` | packages/atoms/booker/Booker.tsx:49-54 | Two bookers that agree on loading, slot count and whether a time is chosen agree on the status, whatever their month, day, timezone or the time's value. |
| `Booker.MonthChangeThenDaySelect` | packages/atoms/booker/Booker.tsx:36-43 | A chosen time survives a month change and a new day select, so with slots present and no loading the status is Booking again. |
| `EventTypeDescription.DescriptionBlock` | packages/features/eventtypes/components/EventTypeDescription.tsx:49-59 | The description block is present iff the description is a non-empty string. When present, its content is the sanitised HTML if there is one, and empty otherwise. |
| `EventTypeDescription.DurationBadgesOf` | packages/features/eventtypes/components/EventTypeDescription.tsx:62-68 | One duration badge per duration, position by position. |
| `EventTypeDescription.DurationBadgesFollowMetadata` | packages/features/eventtypes/components/EventTypeDescription.tsx:61-75 | If `multipleDuration` is present, the row starts with one duration badge per entry in the same order, zero for an empty array. Otherwise it has exactly one duration badge, carrying `length`. No other badge is a duration. |
| `EventTypeDescription.SchedulingBadgePresence` | packages/features/eventtypes/components/EventTypeDescription.tsx:76-83 | A scheduling badge is present iff the scheduling type is set. Its label holds the round-robin key iff ROUND_ROBIN, and the collective key iff COLLECTIVE. |
| `EventTypeDescription.RecurrenceBadgePresence` | packages/features/eventtypes/components/EventTypeDescription.tsx:84-92 | A recurrence badge is present iff the recurring count is present and positive, and it carries that count. |
| `EventTypeDescription.PriceBadgePresence` | packages/features/eventtypes/components/EventTypeDescription.tsx:93-102 | A price badge is present iff the price is positive, and it carries the price in cents and the currency. |
| `EventTypeDescription.ConfirmationBadgePresence` | packages/features/eventtypes/components/EventTypeDescription.tsx:103-111 | A confirmation badge is present iff confirmation is required. Its key is `may_require_confirmation` iff a confirmation threshold is set, otherwise `requires_confirmation`. |
| `EventTypeDescription.PlusCount` | packages/features/eventtypes/components/EventTypeDescription.tsx:116 | The counter's number counts the truthy values among `requiresConfirmation` and the recurring count: it is at most 2, positive iff either is truthy, and 2 iff both are. |
| `EventTypeDescription.CombinedBadgePresence` | packages/features/eventtypes/components/EventTypeDescription.tsx:113-121 | The "+" badge is present iff confirmation is required or the recurring count is non-zero, and its number is `PlusCount`, the count of those two that are truthy. |
| `EventTypeDescription.SeatsBadgePresence` | packages/features/eventtypes/components/EventTypeDescription.tsx:122-128 | A seats badge is present iff `seatsPerTimeSlot` is set and non-zero, and it carries that number. |
| `EventTypeDescription.Badges` | packages/features/eventtypes/components/EventTypeDescription.tsx:60-129 | The row starts with the duration badges, one per duration in order, and holds at most six badges after them. |
| `EventTypeDescription.BadgesInOrder` | packages/features/eventtypes/components/EventTypeDescription.tsx:60-129 | Badges appear in the fixed order durations, scheduling, recurrence, price, confirmation, "+", seats. Only durations share a kind. |
| `EventTypeDescription.AtMostOneOfEachKind` | packages/features/eventtypes/components/EventTypeDescription.tsx:76-128 | Every kind of badge other than duration occurs at most once in the row. |
| `EventTypeDescription.ShownAtByBadge` | packages/features/eventtypes/components/EventTypeDescription.tsx:85-114 | Recurrence and confirmation badges (`hidden xl:block`) show only at wide layout. The "+" counter (`block xl:hidden`) shows only at narrow layout. Every other badge shows at both. |
| `EventTypeDescription.ShownBadges` | packages/features/eventtypes/components/EventTypeDescription.tsx:85-114 | The badges on screen at a layout are exactly the badges of the row that the layout shows: every badge on screen is in the row and shown at that layout, and every badge of the row shown at that layout is on screen. |
| `EventTypeDescription.HiddenAtNarrow` | packages/features/eventtypes/components/EventTypeDescription.tsx:85-114 | Narrow layout hides exactly the recurrence and confirmation badges (`hidden xl:block`). |
| `EventTypeDescription.NarrowCounterCountsHiddenBadges` | packages/features/eventtypes/components/EventTypeDescription.tsx:84-121 | At narrow layout the "+" number equals the number of hidden badges. The one exception is a negative recurring count, which adds one to the counter but hides no badge. |
| `EventTypeDescription.WideHidesCounter` | packages/features/eventtypes/components/EventTypeDescription.tsx:113-114 | At wide layout the "+" counter is never on screen. |
| `EventTypeDescription.RecurrenceSlotAsWritten` | packages/features/eventtypes/components/EventTypeDescription.tsx:84-92 | As written, the recurrence slot is the text "0" iff the recurring count is 0. For any other count it is the corrected slot: the recurrence item when the count is positive, and nothing otherwise. |
| `EventTypeDescription.ListChildrenAsWritten` | packages/features/eventtypes/components/EventTypeDescription.tsx:60-129 | As written, the list has one child per badge, plus one more when the recurring count is 0. For a count of 0 the list is the badge items with the text "0" inserted right after the duration and scheduling items, where the recurrence item would go. That is its only difference from the corrected list. |
| `EventTypeDescription.StrayZeroAsWritten` | packages/features/eventtypes/components/EventTypeDescription.tsx:84 | As written, a recurring count of 0 puts a text node "0" into the badge list, one child more than there are badges. |
| `EventTypeDescription.ListChildren` | packages/features/eventtypes/components/EventTypeDescription.tsx:60-129 | With the recurrence guard made boolean, the list holds only badge items: the i-th child is the item of the i-th badge of the row. |
| `EventTypeDescription.AsWrittenAgreesOtherwise` | packages/features/eventtypes/components/EventTypeDescription.tsx:60-129 | For every recurring count other than 0, the list as written equals the corrected list. |
| `TeamPayments.Decimal` | packages/features/ee/teams/payments.ts:12 | The team id renders as a non-empty string of decimal digits with no leading zero. |
| `TeamPayments.DecimalRoundTrip` | packages/features/ee/teams/payments.ts:12 | Reading the rendered digits back gives the team id. |
| `TeamPayments.DecimalInjective` | packages/features/ee/teams/payments.ts:12 | Distinct ids render to distinct strings. |
| `TeamPayments.SuccessUrl` | packages/features/ee/teams/payments.ts:12 | The success URL is the base URL + "/settings/teams/" + the id's decimal digits + "/profile", and the id can be read back from it. |
| `TeamPayments.CheckoutRequest` | packages/features/ee/teams/payments.ts:10-33 | Mode is "subscription". The success URL is the team's `SuccessUrl`, from which the team id reads back. The cancel URL is base + "/settings/profile". There is exactly one line item, with quantity = seats and no check on seats. Its price id is the monthly id for monthly billing and the yearly id otherwise. The customer email is the given email. The team id is in both the session and the subscription metadata. Payment methods are exactly ["card"]. |
| `TeamPayments.CancelUrlIgnoresPurchase` | packages/features/ee/teams/payments.ts:13 | The cancel URL does not depend on team, frequency, seats or email. |
| `TeamPayments.SuccessUrlNamesTeam` | packages/features/ee/teams/payments.ts:12 | Requests for different teams never share a success URL. |
| `TeamPayments.ExampleMonthlyTeam42` | packages/features/ee/teams/payments.ts:10-33 | Team 42, monthly, 3 seats gives one line item with the monthly price and quantity 3, "/settings/teams/42/profile" and "/settings/profile" URLs, and team 42 in both metadata. |

## Left out

- Schedule and slot hooks (`useScheduleWithCache`, `useSlotsForDate`, `useNonEmptyScheduleDays`): their code is not part of this model. The slot count for the selected day is an input of `Status` and `Visible`. So the per-key schedule cache, late-response handling and the day projection are not modelled.
- The event query: a network fetch. Only its `isLoading` flag and whether it returned data are inputs.
- Dates and timezones: Dayjs values are opaque instants. The "YYYY-MM-DD" formatting is done by the caller of `OnDaySelect`, and `useGetBrowsingMonthStart` and `useTimePrerences` are not modelled. Timezones are plain strings.
- The booker's state enum lives in a types file that is not part of this model. The panels compare the status with the string "booking", which is taken to be the value of the BOOKING state.
- React's batching and re-rendering: each handler updates its state at once, and the status and panels are recomputed from the current state.
- Animation, layout classes other than the wide/narrow split of the badges, markup, and `CustomBranding`: presentation only.
- Price formatting (`Intl.NumberFormat`, `price / 100`): locale and floating point. The price badge carries integer cents and the currency code.
- `parseRecurringEvent` and translation: the recurring count is an optional integer input, and labels are translation keys. A non-numeric count, such as NaN, is not modelled.
- The scheduling-type enum is defined in the database schema, which is not part of this model. Values other than ROUND_ROBIN and COLLECTIVE are kept open as `Other` and give a badge with no label.
- Description sanitisation: the sanitised HTML is an input.
- The processor call: the asynchronous call, its single attempt with no retry, and the propagation of its errors are foreign. Only the request passed to it is modelled.
- `TeamPayments.CheckoutRequest`: the team id is a `nat`. Team ids are positive database keys, so the model does not cover a negative or fractional `teamId: number`, which would render with "-" or "." in the success URL.
- `TeamPayments.Decimal`: the id is rendered as plain decimal digits for every nat. JavaScript's `${teamId}` switches to exponent form ("1e+21") from 10^21 up, and a `number` above 2^53 is not exact. Team ids, as database keys, stay far below both bounds, so these cases are not modelled.
- Environment and constants: `process.env` and `CAL_URL` become the `Config` parameter. An unset price variable is `None`.

## Findings

| source | as written | input that shows it | evidently intended | confidence | as-written member | corrected member |
|---|---|---|---|---|---|---|
| packages/features/eventtypes/components/EventTypeDescription.tsx:84 | `count && count > 0 && <li>…` evaluates to the number 0 when the count is 0, and React renders that number as a text node "0" in the badge list | a recurring event whose parsed `count` is 0 | nothing rendered in the recurrence slot unless the count is positive | not executed; medium (depends on a zero count reaching the component) | `EventTypeDescription.StrayZeroAsWritten` | `EventTypeDescription.ListChildren` |
