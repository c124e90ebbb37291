/** The booking-settings page: the weekdays a restaurant opens on, the hour
    mask for its opening and closing times (bit k = the half-hour starting
    k * 30 minutes after midnight), and the availability update request
    built from them. */
module BookingSetting {
  import opened Bits

  /** The half-hour slot a time of day starts: `hour * 2 + floor(minute / 30)`. */
  function Slot(hour: nat, minute: nat): nat {
    hour * 2 + minute / 30
  }

  /** `formatHourMask`: the slots from the opening slot up to, not
      including, the closing slot; nothing when closing is not after
      opening. The hours and minutes are the numbers the page's selects
      hold. */
  function HourMask(startHour: nat, startMinute: nat, endHour: nat, endMinute: nat): nat {
    var open := Slot(startHour, startMinute);
    var close := Slot(endHour, endMinute);
    var len := if close > open then close - open else 0;
    if len == 0 then 0 else Run(open, len)
  }

  /** The mask has exactly the bits of the open slots set. */
  lemma HourMaskBits(startHour: nat, startMinute: nat, endHour: nat, endMinute: nat, k: nat)
    ensures Bit(HourMask(startHour, startMinute, endHour, endMinute), k) == 1
        <==> Slot(startHour, startMinute) <= k < Slot(endHour, endMinute)
  {
    var open, close := Slot(startHour, startMinute), Slot(endHour, endMinute);
    if close > open {
      RunBits(open, close - open, k);
    } else {
      assert Bit(0, k) == 0 by { BitAboveBound(0, 0, k); }
    }
  }

  /** Closing at or before opening gives the empty mask. */
  lemma HourMaskEmpty(startHour: nat, startMinute: nat, endHour: nat, endMinute: nat)
    requires Slot(endHour, endMinute) <= Slot(startHour, startMinute)
    ensures HourMask(startHour, startMinute, endHour, endMinute) == 0
  {
  }

  /** A close after the open gives a non-empty mask (09:00-21:00 does). */
  lemma HourMaskNonEmpty(startHour: nat, startMinute: nat, endHour: nat, endMinute: nat)
    requires Slot(startHour, startMinute) < Slot(endHour, endMinute)
    ensures HourMask(startHour, startMinute, endHour, endMinute) > 0
  {
    HourMaskBits(startHour, startMinute, endHour, endMinute, Slot(startHour, startMinute));
  }

  /** The last slot a page time can close at: 23:30 starts slot 47. */
  const LAST_CLOSE: nat := 47

  /** The mask lies below 2^close. */
  lemma HourMaskBelowClose(startHour: nat, startMinute: nat, endHour: nat, endMinute: nat)
    ensures HourMask(startHour, startMinute, endHour, endMinute) < Pow2(Slot(endHour, endMinute))
  {
    var open, close := Slot(startHour, startMinute), Slot(endHour, endMinute);
    if close > open {
      RunBound(open, close - open);
    }
  }

  /** With the page's hours (0-23) and minutes (0 or 30) the mask is below
      2^47, so converting it from a BigInt to a Number is exact. */
  lemma HourMaskBelow47(startHour: nat, startMinute: nat, endHour: nat, endMinute: nat)
    requires startHour <= 23 && endHour <= 23
    requires startMinute < 60 && endMinute < 60
    ensures HourMask(startHour, startMinute, endHour, endMinute) < Pow2(LAST_CLOSE)
  {
    HourMaskBelowClose(startHour, startMinute, endHour, endMinute);
    Pow2Monotone(Slot(endHour, endMinute), LAST_CLOSE);
  }

  /** Opening at different times before the same close gives different
      masks (09:00-21:00 against 10:00-21:00): the earlier opening slot is
      set in one mask only. */
  lemma HourMaskDistinctStarts(h1: nat, m1: nat, h2: nat, m2: nat, endHour: nat, endMinute: nat)
    requires Slot(h1, m1) < Slot(h2, m2) < Slot(endHour, endMinute)
    ensures HourMask(h1, m1, endHour, endMinute) != HourMask(h2, m2, endHour, endMinute)
  {
    var k := Slot(h1, m1);
    HourMaskBits(h1, m1, endHour, endMinute, k);
    HourMaskBits(h2, m2, endHour, endMinute, k);
  }

  // ---------------------------------------------------------------------------
  // Days and the request

  /** `toggleDay`: a new set with that day's membership flipped. */
  function ToggleDay(prev: set<string>, day: string): (next: set<string>)
    ensures day in next <==> day !in prev
    ensures forall d | d != day :: d in next <==> d in prev
  {
    if day in prev then prev - {day} else prev + {day}
  }

  /** Toggling twice restores the set. */
  lemma ToggleTwice(prev: set<string>, day: string)
    ensures ToggleDay(ToggleDay(prev, day), day) == prev
  {
  }

  /** The availability update request: the restaurant and one mask per
      weekday. */
  datatype AvailabilityRequest = AvailabilityRequest(
    id: string, mondayHours: int, tuesdayHours: int, wednesdayHours: int, thursdayHours: int,
    fridayHours: int, saturdayHours: int, sundayHours: int)

  const WEEKDAY_NAMES: set<string> := {"monday", "tuesday", "wednesday", "thursday", "friday", "saturday", "sunday"}

  /** `makeAvailabilitiesRequest`: the mask on the selected days, 0 on the
      others. */
  function MakeRequest(restaurantId: string, selectedDays: set<string>, hourMask: int): AvailabilityRequest {
    AvailabilityRequest(
      restaurantId,
      if "monday" in selectedDays then hourMask else 0,
      if "tuesday" in selectedDays then hourMask else 0,
      if "wednesday" in selectedDays then hourMask else 0,
      if "thursday" in selectedDays then hourMask else 0,
      if "friday" in selectedDays then hourMask else 0,
      if "saturday" in selectedDays then hourMask else 0,
      if "sunday" in selectedDays then hourMask else 0)
  }

  /** The weekdays a request opens on. */
  function OpenDays(r: AvailabilityRequest): set<string> {
    (if r.mondayHours != 0 then {"monday"} else {})
    + (if r.tuesdayHours != 0 then {"tuesday"} else {})
    + (if r.wednesdayHours != 0 then {"wednesday"} else {})
    + (if r.thursdayHours != 0 then {"thursday"} else {})
    + (if r.fridayHours != 0 then {"friday"} else {})
    + (if r.saturdayHours != 0 then {"saturday"} else {})
    + (if r.sundayHours != 0 then {"sunday"} else {})
  }

  /** The request carries the restaurant, and a non-empty mask opens it on
      exactly the selected weekdays (other strings in the set are
      ignored). */
  lemma RequestOpensSelectedDays(restaurantId: string, selectedDays: set<string>, hourMask: int)
    ensures MakeRequest(restaurantId, selectedDays, hourMask).id == restaurantId
    ensures hourMask != 0 ==> OpenDays(MakeRequest(restaurantId, selectedDays, hourMask)) == selectedDays * WEEKDAY_NAMES
    ensures hourMask == 0 ==> OpenDays(MakeRequest(restaurantId, selectedDays, hourMask)) == {}
  {
  }
}
