/**
 * The badge row of an event type's description: which badges an event type's metadata
 * yields, in which order, and which of them show at wide and at narrow layout.
 * Translation keys stay symbolic and prices stay in integer cents.
 */
module EventTypeDescription {
  import opened Wrappers

  /** The scheduling type of a team event. The enum's full list of values lives in the
      database schema; any value other than the two the component tests is `Other`. Its
      name is one of the schema's other enum names, so never "ROUND_ROBIN", "COLLECTIVE"
      or the empty string. */
  datatype SchedulingType = RoundRobin | Collective | Other(name: string)

  /** `requiresConfirmationThreshold`: an object, so truthy whenever present. */
  datatype ConfirmationThreshold = ConfirmationThreshold(time: int, unit: string)

  /** The parts of the event type's `metadata` the badges read. */
  datatype Metadata = Metadata(
    multipleDuration: Option<seq<int>>,
    requiresConfirmationThreshold: Option<ConfirmationThreshold>)

  /** The event type as the description sees it. */
  datatype EventMeta = EventMeta(
    description: Option<string>,
    descriptionAsSafeHtml: Option<string>,
    length: int,                       // minutes
    metadata: Option<Metadata>,
    schedulingType: Option<SchedulingType>,
    recurringCount: Option<int>,       // the `count` of the parsed recurring event, if any
    price: int,                        // cents
    currency: string,
    requiresConfirmation: bool,
    seatsPerTimeSlot: Option<int>)

  /** One badge. Labels are translation keys. */
  datatype Badge =
    | Duration(minutes: int)             // "{minutes}m"
    | Scheduling(labels: seq<string>)    // "round_robin" and/or "collective"
    | Recurrence(count: int)             // "repeats_up_to" with the count
    | Price(cents: int, currency: string)
    | Confirmation(key: string)        // "may_require_confirmation" or "requires_confirmation"
    | Combined(plus: nat)                // the narrow-layout "+" counter
    | Seats(seats: int)                  // "event_type_seats" with the number of seats

  /** The position of a badge's kind in the row. */
  function Rank(b: Badge): nat
  {
    match b
    case Duration(_) => 0
    case Scheduling(_) => 1
    case Recurrence(_) => 2
    case Price(_, _) => 3
    case Confirmation(_) => 4
    case Combined(_) => 5
    case Seats(_) => 6
  }

  /**
   * The description block: rendered when the description is a non-empty string, and
   * then filled with the sanitised HTML, or with nothing when there is none. Its
   * presence follows the raw description, its content the sanitised one.
   */
  function DescriptionBlock(e: EventMeta): (html: Option<string>)
    ensures html.Some? <==> e.description.Some? && e.description.value != ""
    ensures html.Some? && e.descriptionAsSafeHtml.Some? ==> html == e.descriptionAsSafeHtml
    ensures html.Some? && e.descriptionAsSafeHtml.None? ==> html == Some("")
  {
    if e.description.Some? && e.description.value != "" then
      Some(if e.descriptionAsSafeHtml.Some? then e.descriptionAsSafeHtml.value else "")
    else None
  }

  /** Whether `metadata.multipleDuration` is present; an array, so truthy even when empty. */
  predicate HasMultipleDuration(e: EventMeta)
  {
    e.metadata.Some? && e.metadata.value.multipleDuration.Some?
  }

  /** Whether `metadata.requiresConfirmationThreshold` is present. */
  predicate HasConfirmationThreshold(e: EventMeta)
  {
    e.metadata.Some? && e.metadata.value.requiresConfirmationThreshold.Some?
  }

  /** JavaScript truthiness of the recurring count: present and not zero. */
  predicate RepeatsTruthy(e: EventMeta)
  {
    e.recurringCount.Some? && e.recurringCount.value != 0
  }

  /** The durations shown: every entry of `multipleDuration` if present, else `length`. */
  function Durations(e: EventMeta): seq<int>
  {
    if HasMultipleDuration(e) then e.metadata.value.multipleDuration.value else [e.length]
  }

  /** One duration badge per duration, in order. */
  function DurationBadgesOf(d: seq<int>): (r: seq<Badge>)
    ensures |r| == |d|
    ensures forall i | 0 <= i < |d| :: r[i] == Duration(d[i])
  {
    if d == [] then [] else [Duration(d[0])] + DurationBadgesOf(d[1..])
  }

  function DurationBadges(e: EventMeta): (r: seq<Badge>)
    ensures forall b | b in r :: b.Duration?
  {
    DurationBadgesOf(Durations(e))
  }

  /** Membership in the row, segment by segment. */
  lemma BadgeIn(e: EventMeta, b: Badge)
    ensures b in Badges(e) <==>
      || b in DurationBadges(e) || b in SchedulingBadge(e) || b in RecurrenceBadge(e)
      || b in PriceBadge(e) || b in ConfirmationBadge(e) || b in CombinedBadge(e) || b in SeatsBadge(e)
  {
  }

  /** The scheduling label: the two conditions are rendered one after the other. */
  function SchedulingLabels(t: SchedulingType): seq<string>
  {
    (if t == RoundRobin then ["round_robin"] else []) + (if t == Collective then ["collective"] else [])
  }

  function SchedulingBadge(e: EventMeta): seq<Badge>
  {
    if e.schedulingType.Some? then [Scheduling(SchedulingLabels(e.schedulingType.value))] else []
  }

  function RecurrenceBadge(e: EventMeta): seq<Badge>
  {
    if e.recurringCount.Some? && e.recurringCount.value > 0 then [Recurrence(e.recurringCount.value)] else []
  }

  function PriceBadge(e: EventMeta): seq<Badge>
  {
    if e.price > 0 then [Price(e.price, e.currency)] else []
  }

  function ConfirmationBadge(e: EventMeta): seq<Badge>
  {
    if e.requiresConfirmation then
      [Confirmation(if HasConfirmationThreshold(e) then "may_require_confirmation" else "requires_confirmation")]
    else []
  }

  /** The number on the "+" counter: how many of (requiresConfirmation, recurring count) are truthy. */
  function PlusCount(e: EventMeta): (n: nat)
    ensures n <= 2
    ensures n > 0 <==> e.requiresConfirmation || RepeatsTruthy(e)
    ensures n == 2 <==> e.requiresConfirmation && RepeatsTruthy(e)
  {
    (if e.requiresConfirmation then 1 else 0) + (if RepeatsTruthy(e) then 1 else 0)
  }

  function CombinedBadge(e: EventMeta): seq<Badge>
  {
    if e.requiresConfirmation || RepeatsTruthy(e) then [Combined(PlusCount(e))] else []
  }

  function SeatsBadge(e: EventMeta): seq<Badge>
  {
    if e.seatsPerTimeSlot.Some? && e.seatsPerTimeSlot.value != 0 then [Seats(e.seatsPerTimeSlot.value)] else []
  }

  /** Seven segments laid out left to right. */
  function Row(d: seq<Badge>, s1: seq<Badge>, s2: seq<Badge>, s3: seq<Badge>,
               s4: seq<Badge>, s5: seq<Badge>, s6: seq<Badge>): seq<Badge>
  {
    d + s1 + s2 + s3 + s4 + s5 + s6
  }

  /** The badge row of an event type, left to right. */
  function Badges(e: EventMeta): (r: seq<Badge>)
    ensures |Durations(e)| <= |r| <= |Durations(e)| + 6
    ensures r[..|Durations(e)|] == DurationBadgesOf(Durations(e))
  {
    Row(DurationBadges(e), SchedulingBadge(e), RecurrenceBadge(e), PriceBadge(e),
        ConfirmationBadge(e), CombinedBadge(e), SeatsBadge(e))
  }

  // ---------------------------------------------------------------------------
  // The shape of a row

  /** Every badge of `bs` is of kind `k`. */
  predicate AllOfKind(bs: seq<Badge>, k: nat)
  {
    forall b | b in bs :: Rank(b) == k
  }

  /** A segment holding at most one badge, of kind `k`. */
  predicate Single(bs: seq<Badge>, k: nat)
  {
    |bs| <= 1 && AllOfKind(bs, k)
  }

  /** Durations first, then at most one badge of each following kind, in rank order. */
  predicate RowShape(d: seq<Badge>, s1: seq<Badge>, s2: seq<Badge>, s3: seq<Badge>,
                     s4: seq<Badge>, s5: seq<Badge>, s6: seq<Badge>)
  {
    AllOfKind(d, 0) && Single(s1, 1) && Single(s2, 2) && Single(s3, 3) && Single(s4, 4) && Single(s5, 5) && Single(s6, 6)
  }

  /** The segments an event type's row is made of have that shape. */
  lemma BadgesShape(e: EventMeta)
    ensures RowShape(DurationBadges(e), SchedulingBadge(e), RecurrenceBadge(e), PriceBadge(e),
                     ConfirmationBadge(e), CombinedBadge(e), SeatsBadge(e))
  {
  }

  // ---------------------------------------------------------------------------
  // Counting badges of one kind

  /** The number of badges of rank `k` in `bs`. */
  function CountRank(bs: seq<Badge>, k: nat): (n: nat)
    ensures n <= |bs|
  {
    if bs == [] then 0
    else (if Rank(bs[0]) == k then 1 else 0) + CountRank(bs[1..], k)
  }

  lemma {:induction false} CountRankAppend(a: seq<Badge>, b: seq<Badge>, k: nat)
    ensures CountRank(a + b, k) == CountRank(a, k) + CountRank(b, k)
  {
    if a == [] {
      assert a + b == b;
    } else {
      assert (a + b)[1..] == a[1..] + b;
      CountRankAppend(a[1..], b, k);
    }
  }

  lemma {:induction false} NoneOfRank(bs: seq<Badge>, k: nat)
    requires forall b | b in bs :: Rank(b) != k
    ensures CountRank(bs, k) == 0
  {
    if bs != [] {
      assert bs[0] in bs;
      NoneOfRank(bs[1..], k);
    }
  }

  lemma {:induction false} AllOfRank(bs: seq<Badge>, k: nat)
    requires AllOfKind(bs, k)
    ensures CountRank(bs, k) == |bs|
  {
    if bs != [] {
      assert bs[0] in bs;
      AllOfRank(bs[1..], k);
    }
  }

  lemma SingleCount(bs: seq<Badge>, j: nat, k: nat)
    requires Single(bs, j)
    ensures CountRank(bs, k) == if j == k then |bs| else 0
  {
    if bs != [] {
      assert bs[0] in bs;
      assert bs[1..] == [];
    }
  }

  /** In a row of that shape, the durations are all the badges of kind 0 and every
      other kind occurs at most once. */
  lemma RowCount(d: seq<Badge>, s1: seq<Badge>, s2: seq<Badge>, s3: seq<Badge>,
                 s4: seq<Badge>, s5: seq<Badge>, s6: seq<Badge>, k: nat)
    requires RowShape(d, s1, s2, s3, s4, s5, s6)
    ensures k == 0 ==> CountRank(Row(d, s1, s2, s3, s4, s5, s6), k) == |d|
    ensures k > 0 ==> CountRank(Row(d, s1, s2, s3, s4, s5, s6), k) <= 1
  {
    CountRankAppend(d, s1, k);
    CountRankAppend(d + s1, s2, k);
    CountRankAppend(d + s1 + s2, s3, k);
    CountRankAppend(d + s1 + s2 + s3, s4, k);
    CountRankAppend(d + s1 + s2 + s3 + s4, s5, k);
    CountRankAppend(d + s1 + s2 + s3 + s4 + s5, s6, k);
    if k == 0 { AllOfRank(d, 0); } else { NoneOfRank(d, k); }
    SingleCount(s1, 1, k);
    SingleCount(s2, 2, k);
    SingleCount(s3, 3, k);
    SingleCount(s4, 4, k);
    SingleCount(s5, 5, k);
    SingleCount(s6, 6, k);
  }

  /** Exactly one duration badge per entry of `multipleDuration`, in the same order (none
      for an empty array); without that array, exactly one, carrying `length`. */
  lemma DurationBadgesFollowMetadata(e: EventMeta)
    ensures HasMultipleDuration(e) ==> Durations(e) == e.metadata.value.multipleDuration.value
    ensures !HasMultipleDuration(e) ==> Durations(e) == [e.length]
    ensures CountRank(Badges(e), 0) == |Durations(e)|
    ensures forall i | 0 <= i < |Durations(e)| :: Badges(e)[i] == Duration(Durations(e)[i])
  {
    BadgesShape(e);
    RowCount(DurationBadges(e), SchedulingBadge(e), RecurrenceBadge(e), PriceBadge(e),
             ConfirmationBadge(e), CombinedBadge(e), SeatsBadge(e), 0);
  }

  /** Every kind but the durations occurs at most once in the row. */
  lemma AtMostOneOfEachKind(e: EventMeta, k: nat)
    requires k > 0
    ensures CountRank(Badges(e), k) <= 1
  {
    BadgesShape(e);
    RowCount(DurationBadges(e), SchedulingBadge(e), RecurrenceBadge(e), PriceBadge(e),
             ConfirmationBadge(e), CombinedBadge(e), SeatsBadge(e), k);
  }

  /** A scheduling badge is present iff a scheduling type is set; its label is the
      round-robin key iff round robin, the collective key iff collective. */
  lemma SchedulingBadgePresence(e: EventMeta)
    ensures (exists b :: b in Badges(e) && b.Scheduling?) <==> e.schedulingType.Some?
    ensures forall b | b in Badges(e) && b.Scheduling? ::
      && ("round_robin" in b.labels <==> e.schedulingType == Some(RoundRobin))
      && ("collective" in b.labels <==> e.schedulingType == Some(Collective))
      && |b.labels| <= 1 && forall l | l in b.labels :: l == "round_robin" || l == "collective"
  {
    forall b | b in Badges(e) && b.Scheduling?
      ensures e.schedulingType.Some? && b == Scheduling(SchedulingLabels(e.schedulingType.value))
    {
      BadgeIn(e, b);
    }
    if e.schedulingType.Some? {
      BadgeIn(e, Scheduling(SchedulingLabels(e.schedulingType.value)));
    }
  }

  /** The recurrence badge is present iff the recurring count is present and positive. */
  lemma RecurrenceBadgePresence(e: EventMeta)
    ensures (exists b :: b in Badges(e) && b.Recurrence?) <==> e.recurringCount.Some? && e.recurringCount.value > 0
    ensures forall b | b in Badges(e) && b.Recurrence? :: b.count == e.recurringCount.value
  {
    forall b | b in Badges(e) && b.Recurrence?
      ensures e.recurringCount.Some? && e.recurringCount.value > 0 && b.count == e.recurringCount.value
    {
      BadgeIn(e, b);
    }
    if e.recurringCount.Some? && e.recurringCount.value > 0 {
      BadgeIn(e, Recurrence(e.recurringCount.value));
    }
  }

  /** The price badge is present iff the price is positive, and carries the price in cents and the currency. */
  lemma PriceBadgePresence(e: EventMeta)
    ensures (exists b :: b in Badges(e) && b.Price?) <==> e.price > 0
    ensures forall b | b in Badges(e) && b.Price? :: b == Price(e.price, e.currency)
  {
    forall b | b in Badges(e) && b.Price? ensures b == Price(e.price, e.currency) && e.price > 0 {
      BadgeIn(e, b);
    }
    if e.price > 0 {
      BadgeIn(e, Price(e.price, e.currency));
    }
  }

  /** The confirmation badge is present iff confirmation is required; its key says "may"
      exactly when a confirmation threshold is set. */
  lemma ConfirmationBadgePresence(e: EventMeta)
    ensures (exists b :: b in Badges(e) && b.Confirmation?) <==> e.requiresConfirmation
    ensures forall b | b in Badges(e) && b.Confirmation? ::
      && (b.key == "may_require_confirmation" <==> HasConfirmationThreshold(e))
      && (b.key == "requires_confirmation" <==> !HasConfirmationThreshold(e))
  {
    forall b | b in Badges(e) && b.Confirmation?
      ensures e.requiresConfirmation && b == ConfirmationBadge(e)[0]
    {
      BadgeIn(e, b);
    }
    if e.requiresConfirmation {
      BadgeIn(e, ConfirmationBadge(e)[0]);
    }
  }

  /** The "+" counter is present iff confirmation is required or the recurring count is
      non-zero, and its number is the count of those that hold. */
  lemma CombinedBadgePresence(e: EventMeta)
    ensures (exists b :: b in Badges(e) && b.Combined?) <==> e.requiresConfirmation || RepeatsTruthy(e)
    ensures forall b | b in Badges(e) && b.Combined? :: b.plus == PlusCount(e) && 1 <= b.plus <= 2
  {
    forall b | b in Badges(e) && b.Combined?
      ensures (e.requiresConfirmation || RepeatsTruthy(e)) && b == Combined(PlusCount(e))
    {
      BadgeIn(e, b);
    }
    if e.requiresConfirmation || RepeatsTruthy(e) {
      BadgeIn(e, Combined(PlusCount(e)));
    }
  }

  /** The seats badge is present iff `seatsPerTimeSlot` is set and non-zero, and carries it. */
  lemma SeatsBadgePresence(e: EventMeta)
    ensures (exists b :: b in Badges(e) && b.Seats?) <==> e.seatsPerTimeSlot.Some? && e.seatsPerTimeSlot.value != 0
    ensures forall b | b in Badges(e) && b.Seats? :: b.seats == e.seatsPerTimeSlot.value
  {
    forall b | b in Badges(e) && b.Seats?
      ensures e.seatsPerTimeSlot.Some? && e.seatsPerTimeSlot.value != 0 && b.seats == e.seatsPerTimeSlot.value
    {
      BadgeIn(e, b);
    }
    if e.seatsPerTimeSlot.Some? && e.seatsPerTimeSlot.value != 0 {
      BadgeIn(e, Seats(e.seatsPerTimeSlot.value));
    }
  }

  // ---------------------------------------------------------------------------
  // Order

  /** Badges ordered by kind; only durations share a kind. */
  predicate InOrder(bs: seq<Badge>)
  {
    forall i, j | 0 <= i < j < |bs| :: Rank(bs[i]) < Rank(bs[j]) || (Rank(bs[i]) == 0 && Rank(bs[j]) == 0)
  }

  lemma DurationsInOrder(d: seq<Badge>)
    requires AllOfKind(d, 0)
    ensures InOrder(d) && forall x | x in d :: Rank(x) < 1
  {
    forall i, j | 0 <= i < j < |d| ensures Rank(d[i]) == 0 && Rank(d[j]) == 0 {
      assert d[i] in d && d[j] in d;
    }
  }

  /** Appending at most one badge of a kind ranked after everything so far keeps the order. */
  lemma ExtendInOrder(a: seq<Badge>, b: seq<Badge>, k: nat)
    requires InOrder(a) && forall x | x in a :: Rank(x) < k
    requires Single(b, k)
    ensures InOrder(a + b) && forall x | x in a + b :: Rank(x) < k + 1
  {
    if b != [] {
      assert b[0] in b;
      forall i, j | 0 <= i < j < |a + b|
        ensures Rank((a + b)[i]) < Rank((a + b)[j]) || (Rank((a + b)[i]) == 0 && Rank((a + b)[j]) == 0)
      {
        if j < |a| {
          assert (a + b)[i] == a[i] && (a + b)[j] == a[j];
        } else {
          assert (a + b)[i] == a[i] && a[i] in a;
          assert (a + b)[j] == b[0];
        }
      }
    } else {
      assert a + b == a;
    }
  }

  lemma RowInOrder(d: seq<Badge>, s1: seq<Badge>, s2: seq<Badge>, s3: seq<Badge>,
                   s4: seq<Badge>, s5: seq<Badge>, s6: seq<Badge>)
    requires RowShape(d, s1, s2, s3, s4, s5, s6)
    ensures InOrder(Row(d, s1, s2, s3, s4, s5, s6))
  {
    DurationsInOrder(d);
    ExtendInOrder(d, s1, 1);
    ExtendInOrder(d + s1, s2, 2);
    ExtendInOrder(d + s1 + s2, s3, 3);
    ExtendInOrder(d + s1 + s2 + s3, s4, 4);
    ExtendInOrder(d + s1 + s2 + s3 + s4, s5, 5);
    ExtendInOrder(d + s1 + s2 + s3 + s4 + s5, s6, 6);
  }

  /** The row is in the fixed order durations, scheduling, recurrence, price,
      confirmation, "+" counter, seats. */
  lemma BadgesInOrder(e: EventMeta)
    ensures InOrder(Badges(e))
  {
    BadgesShape(e);
    RowInOrder(DurationBadges(e), SchedulingBadge(e), RecurrenceBadge(e), PriceBadge(e),
               ConfirmationBadge(e), CombinedBadge(e), SeatsBadge(e));
  }

  // ---------------------------------------------------------------------------
  // Wide and narrow layout

  /** Recurrence (kind 2) and confirmation (kind 4) badges show only at wide (xl) layout,
      the "+" counter (kind 5) only below it; every other kind shows at both. */
  predicate ShownKind(k: nat, wide: bool)
  {
    if k == 2 || k == 4 then wide else if k == 5 then !wide else true
  }

  predicate ShownAt(b: Badge, wide: bool)
  {
    ShownKind(Rank(b), wide)
  }

  /** Recurrence and confirmation badges (`hidden xl:block`) need the wide layout, the
      "+" counter (`block xl:hidden`) the narrow one; every other badge shows at both. */
  lemma ShownAtByBadge(b: Badge, wide: bool)
    ensures ShownAt(b, wide) <==> (b.Recurrence? || b.Confirmation? ==> wide) && (b.Combined? ==> !wide)
  {
  }

  /** The badges on screen at the given layout, in order. */
  function ShownBadges(bs: seq<Badge>, wide: bool): (r: seq<Badge>)
    ensures |r| <= |bs|
    ensures forall b | b in r :: b in bs && ShownAt(b, wide)
    ensures forall b | b in bs && ShownAt(b, wide) :: b in r
  {
    if bs == [] then []
    else (if ShownAt(bs[0], wide) then [bs[0]] else []) + ShownBadges(bs[1..], wide)
  }

  lemma {:induction false} ShownBadgesAppend(a: seq<Badge>, b: seq<Badge>, wide: bool)
    ensures ShownBadges(a + b, wide) == ShownBadges(a, wide) + ShownBadges(b, wide)
  {
    if a == [] {
      assert a + b == b;
    } else {
      assert (a + b)[0] == a[0];
      assert (a + b)[1..] == a[1..] + b;
      ShownBadgesAppend(a[1..], b, wide);
    }
  }

  lemma {:induction false} ShownBadgesAll(bs: seq<Badge>, wide: bool)
    requires forall b | b in bs :: ShownAt(b, wide)
    ensures ShownBadges(bs, wide) == bs
  {
    if bs != [] {
      assert bs[0] in bs;
      ShownBadgesAll(bs[1..], wide);
    }
  }

  lemma SingleShown(bs: seq<Badge>, k: nat, wide: bool)
    requires Single(bs, k)
    ensures |ShownBadges(bs, wide)| == if ShownKind(k, wide) then |bs| else 0
  {
    if bs != [] {
      assert bs[0] in bs;
      assert bs[1..] == [];
    }
  }

  /** In a row of that shape, narrow layout hides exactly the kind-2 and kind-4 segments. */
  lemma RowHiddenAtNarrow(d: seq<Badge>, s1: seq<Badge>, s2: seq<Badge>, s3: seq<Badge>,
                          s4: seq<Badge>, s5: seq<Badge>, s6: seq<Badge>)
    requires RowShape(d, s1, s2, s3, s4, s5, s6)
    ensures |Row(d, s1, s2, s3, s4, s5, s6)| - |ShownBadges(Row(d, s1, s2, s3, s4, s5, s6), false)| == |s2| + |s4|
  {
    ShownBadgesAppend(d, s1, false);
    ShownBadgesAppend(d + s1, s2, false);
    ShownBadgesAppend(d + s1 + s2, s3, false);
    ShownBadgesAppend(d + s1 + s2 + s3, s4, false);
    ShownBadgesAppend(d + s1 + s2 + s3 + s4, s5, false);
    ShownBadgesAppend(d + s1 + s2 + s3 + s4 + s5, s6, false);
    ShownBadgesAll(d, false);
    SingleShown(s1, 1, false);
    SingleShown(s2, 2, false);
    SingleShown(s3, 3, false);
    SingleShown(s4, 4, false);
    SingleShown(s5, 5, false);
    SingleShown(s6, 6, false);
  }

  /** Narrow layout hides exactly the recurrence and confirmation badges. */
  lemma HiddenAtNarrow(e: EventMeta)
    ensures |Badges(e)| - |ShownBadges(Badges(e), false)| == |RecurrenceBadge(e)| + |ConfirmationBadge(e)|
  {
    BadgesShape(e);
    RowHiddenAtNarrow(DurationBadges(e), SchedulingBadge(e), RecurrenceBadge(e), PriceBadge(e),
                      ConfirmationBadge(e), CombinedBadge(e), SeatsBadge(e));
  }

  /**
   * At narrow layout the "+" counter stands in for the badges that layout hides: its
   * number is how many badges are hidden, as long as the recurring count is not
   * negative. A negative count hides no recurrence badge but still adds one to the counter.
   */
  lemma NarrowCounterCountsHiddenBadges(e: EventMeta)
    ensures var hidden := |Badges(e)| - |ShownBadges(Badges(e), false)|;
      PlusCount(e) == hidden + (if e.recurringCount.Some? && e.recurringCount.value < 0 then 1 else 0)
  {
    HiddenAtNarrow(e);
  }

  /** At wide layout the "+" counter is hidden. */
  lemma WideHidesCounter(e: EventMeta)
    ensures forall b | b in ShownBadges(Badges(e), true) :: !b.Combined?
  {
    NoCounterAtWide(Badges(e));
  }

  lemma NoCounterAtWide(bs: seq<Badge>)
    ensures forall b | b in ShownBadges(bs, true) :: !b.Combined?
  {
    forall b | b in ShownBadges(bs, true) ensures !b.Combined? {
      assert ShownKind(Rank(b), true);
    }
  }

  // ---------------------------------------------------------------------------
  // The list as React renders it

  /** A child of the badge list: a list item holding a badge, or a bare text node. */
  datatype ListChild = Item(badge: Badge) | Text(text: string)

  function Items(bs: seq<Badge>): (r: seq<ListChild>)
    ensures |r| == |bs|
    ensures forall i | 0 <= i < |bs| :: r[i] == Item(bs[i])
  {
    seq(|bs|, i requires 0 <= i < |bs| => Item(bs[i]))
  }

  /**
   * The recurrence slot as written: `count && count > 0 && <li>…</li>`. A count of zero
   * short-circuits to the number 0, which React renders as the text "0".
   */
  function RecurrenceSlotAsWritten(e: EventMeta): (r: seq<ListChild>)
    ensures r == [Text("0")] <==> e.recurringCount == Some(0)
    ensures e.recurringCount != Some(0) ==> r == Items(RecurrenceBadge(e))
  {
    match e.recurringCount
    case None => []
    case Some(c) => if c == 0 then [Text("0")] else if c > 0 then [Item(Recurrence(c))] else []
  }

  /** The children of the badge list as the component is written. */
  function ListChildrenAsWritten(e: EventMeta): (r: seq<ListChild>)
    ensures |r| == |Badges(e)| + (if e.recurringCount == Some(0) then 1 else 0)
    ensures e.recurringCount == Some(0) ==>
      var k := |DurationBadges(e)| + |SchedulingBadge(e)|;
      k <= |Badges(e)| && r == Items(Badges(e))[..k] + [Text("0")] + Items(Badges(e))[k..]
  {
    var r := Items(DurationBadges(e)) + Items(SchedulingBadge(e)) + RecurrenceSlotAsWritten(e)
      + Items(PriceBadge(e)) + Items(ConfirmationBadge(e)) + Items(CombinedBadge(e)) + Items(SeatsBadge(e));
    if e.recurringCount == Some(0) then
      ChildInsertedInRow(DurationBadges(e), SchedulingBadge(e), PriceBadge(e),
                         ConfirmationBadge(e), CombinedBadge(e), SeatsBadge(e), Text("0"));
      r
    else
      ItemsOfRow(DurationBadges(e), SchedulingBadge(e), RecurrenceBadge(e), PriceBadge(e),
                 ConfirmationBadge(e), CombinedBadge(e), SeatsBadge(e));
      r
  }

  /** A child put where an empty third segment would be sits right after the first two segments' items. */
  lemma ChildInsertedInRow(d: seq<Badge>, s1: seq<Badge>, s3: seq<Badge>,
                           s4: seq<Badge>, s5: seq<Badge>, s6: seq<Badge>, x: ListChild)
    ensures var row := Row(d, s1, [], s3, s4, s5, s6); var k := |d| + |s1|;
      && k <= |row|
      && Items(d) + Items(s1) + [x] + Items(s3) + Items(s4) + Items(s5) + Items(s6)
         == Items(row)[..k] + [x] + Items(row)[k..]
  {
    var front, back := d + s1, s3 + s4 + s5 + s6;
    assert Row(d, s1, [], s3, s4, s5, s6) == front + back;
    ItemsAppend(front, back);
    ItemsAppend(d, s1);
    ItemsAppend(s3 + s4 + s5, s6);
    ItemsAppend(s3 + s4, s5);
    ItemsAppend(s3, s4);
    InsertBetween(Items(d), Items(s1), Items(s3), Items(s4), Items(s5), Items(s6), x);
  }

  lemma InsertBetween(p1: seq<ListChild>, p2: seq<ListChild>, q3: seq<ListChild>,
                      q4: seq<ListChild>, q5: seq<ListChild>, q6: seq<ListChild>, x: ListChild)
    ensures var a, b := p1 + p2, q3 + q4 + q5 + q6;
      p1 + p2 + [x] + q3 + q4 + q5 + q6 == (a + b)[..|a|] + [x] + (a + b)[|a|..]
  {
    var a, b := p1 + p2, q3 + q4 + q5 + q6;
    assert (a + b)[..|a|] == a && (a + b)[|a|..] == b;
  }

  /** A recurring count of zero puts a stray "0" between the badges. */
  lemma StrayZeroAsWritten(e: EventMeta)
    requires e.recurringCount == Some(0)
    ensures Text("0") in ListChildrenAsWritten(e)
    ensures |ListChildrenAsWritten(e)| == |ListChildren(e)| + 1
  {
    var pre := Items(DurationBadges(e)) + Items(SchedulingBadge(e));
    assert ListChildrenAsWritten(e)[|pre|] == Text("0");
  }

  /** The children of the badge list with the recurrence guard as a boolean: badges only. */
  function ListChildren(e: EventMeta): (r: seq<ListChild>)
    ensures forall c | c in r :: c.Item?
    ensures |r| == |Badges(e)|
    ensures forall i | 0 <= i < |r| :: r[i] == Item(Badges(e)[i])
  {
    Items(Badges(e))
  }

  /** Apart from a zero count, the list as written is the list of badges. */
  lemma AsWrittenAgreesOtherwise(e: EventMeta)
    requires e.recurringCount != Some(0)
    ensures ListChildrenAsWritten(e) == ListChildren(e)
  {
    assert RecurrenceSlotAsWritten(e) == Items(RecurrenceBadge(e));
    ItemsOfRow(DurationBadges(e), SchedulingBadge(e), RecurrenceBadge(e), PriceBadge(e),
               ConfirmationBadge(e), CombinedBadge(e), SeatsBadge(e));
  }

  lemma ItemsOfRow(d: seq<Badge>, s1: seq<Badge>, s2: seq<Badge>, s3: seq<Badge>,
                   s4: seq<Badge>, s5: seq<Badge>, s6: seq<Badge>)
    ensures Items(Row(d, s1, s2, s3, s4, s5, s6)) ==
      Items(d) + Items(s1) + Items(s2) + Items(s3) + Items(s4) + Items(s5) + Items(s6)
  {
    ItemsAppend(d, s1);
    ItemsAppend(d + s1, s2);
    ItemsAppend(d + s1 + s2, s3);
    ItemsAppend(d + s1 + s2 + s3, s4);
    ItemsAppend(d + s1 + s2 + s3 + s4, s5);
    ItemsAppend(d + s1 + s2 + s3 + s4 + s5, s6);
  }

  lemma ItemsAppend(a: seq<Badge>, b: seq<Badge>)
    ensures Items(a + b) == Items(a) + Items(b)
  {
  }
}
