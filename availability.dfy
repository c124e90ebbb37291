/** A restaurant's weekly opening hours: seven per-weekday half-hour masks,
    overridden for the coming week by dated occasions, and ordered into the
    seven dated entries the availability endpoint returns. */
module Availability {
  import opened Wrappers
  import opened GoInt
  import opened Calendar

  /** A one-day override of the opening hours. A yearly-recurring occasion
      applies on its month and day in every year. */
  datatype Occasion = Occasion(date: Day, hourMask: Int64, yearlyRecurring: bool)

  /** One day of the forecast. */
  datatype OpeningHours = OpeningHours(date: Day, hours: Int64)

  /** The seven weekly masks, indexed by weekday (Sunday = 0). */
  type Week = m: seq<Int64> | |m| == 7 witness [0, 0, 0, 0, 0, 0, 0]

  /** Whether an occasion falls in the window [from, to): a one-off occasion on
      its own date, a yearly-recurring one on any day with its month and day. */
  predicate Applies(o: Occasion, from: Day, to: Day) {
    if o.yearlyRecurring then exists d | from <= d < to :: MonthDay(d) == MonthDay(o.date)
    else from <= o.date < to
  }

  /** One occasion's effect: when it applies, it replaces the mask of its
      stored date's weekday. */
  function ApplyOne(masks: Week, o: Occasion, from: Day, to: Day): Week {
    if Applies(o, from, to) then masks[WeekdayOf(o.date) := o.hourMask] else masks
  }

  /** The masks after applying the occasions in order. */
  function Applied(masks: Week, os: seq<Occasion>, from: Day, to: Day): Week
    decreases |os|
  {
    if os == [] then masks else Applied(ApplyOne(masks, os[0], from, to), os[1..], from, to)
  }

  /** The last of the occasions that applies and falls on weekday `w`. */
  function LastOn(os: seq<Occasion>, w: Weekday, from: Day, to: Day): (r: Option<Occasion>)
    ensures r.Some? ==> r.value in os && Applies(r.value, from, to) && WeekdayOf(r.value.date) == w
    ensures r.None? <==> forall o | o in os :: !(Applies(o, from, to) && WeekdayOf(o.date) == w)
  {
    if os == [] then None
    else
      match LastOn(os[1..], w, from, to)
      case Some(o) => Some(o)
      case None =>
        if Applies(os[0], from, to) && WeekdayOf(os[0].date) == w then Some(os[0]) else None
  }

  /** Each weekday ends up with the mask of the last occasion that applies on
      it, or keeps its own mask when none does. */
  lemma {:induction false} AppliedAt(masks: Week, os: seq<Occasion>, w: Weekday, from: Day, to: Day)
    ensures Applied(masks, os, from, to)[w]
         == match LastOn(os, w, from, to) case Some(o) => o.hourMask case None => masks[w]
    decreases |os|
  {
    if os != [] {
      AppliedAt(ApplyOne(masks, os[0], from, to), os[1..], w, from, to);
    }
  }

  /** A weekday that no applying occasion falls on keeps its mask. */
  lemma AppliedFrame(masks: Week, os: seq<Occasion>, w: Weekday, from: Day, to: Day)
    requires forall o | o in os :: !(Applies(o, from, to) && WeekdayOf(o.date) == w)
    ensures Applied(masks, os, from, to)[w] == masks[w]
  {
    AppliedAt(masks, os, w, from, to);
  }

  /** The forecast for the seven days from `today`: the weekly masks rotated
      to start at today's weekday. */
  function Order(masks: Week, today: Day): (r: seq<OpeningHours>)
    ensures |r| == 7
    ensures forall i | 0 <= i < 7 :: r[i].date == today + i && r[i].hours == masks[WeekdayOf(today + i)]
  {
    var start := WeekdayOf(today);
    var r := seq(7, i requires 0 <= i < 7 => OpeningHours(today + i, masks[(start + i) % 7]));
    forall i | 0 <= i < 7 ensures r[i].hours == masks[WeekdayOf(today + i)] {
      WeekdayAdvances(today, i);
    }
    r
  }

  /** A restaurant's opening hours, with the occasions loaded beside them. */
  class Availability {
    var mondayHourMask: Int64
    var tuesdayHourMask: Int64
    var wednesdayHourMask: Int64
    var thursdayHourMask: Int64
    var fridayHourMask: Int64
    var saturdayHourMask: Int64
    var sundayHourMask: Int64
    var occasions: seq<Occasion>

    constructor (week: Week, occasions: seq<Occasion>)
      ensures Masks() == week && this.occasions == occasions
    {
      sundayHourMask, mondayHourMask, tuesdayHourMask := week[0], week[1], week[2];
      wednesdayHourMask, thursdayHourMask := week[3], week[4];
      fridayHourMask, saturdayHourMask := week[5], week[6];
      this.occasions := occasions;
    }

    /** The seven masks, indexed by weekday (Sunday = 0). */
    function Masks(): Week
      reads this
    {
      var m: seq<Int64> := [sundayHourMask, mondayHourMask, tuesdayHourMask, wednesdayHourMask,
       thursdayHourMask, fridayHourMask, saturdayHourMask];
      assert |m| == 7;
      m
    }

    /** The mask field that holds a weekday's hours. */
    function WeekdayMask(w: Weekday): (r: Int64)
      reads this
      ensures w == MONDAY ==> r == mondayHourMask
      ensures w == TUESDAY ==> r == tuesdayHourMask
      ensures w == WEDNESDAY ==> r == wednesdayHourMask
      ensures w == THURSDAY ==> r == thursdayHourMask
      ensures w == FRIDAY ==> r == fridayHourMask
      ensures w == SATURDAY ==> r == saturdayHourMask
      ensures w == SUNDAY ==> r == sundayHourMask
    {
      Masks()[w]
    }

    /** Writes through the field `WeekdayMask` designates. */
    method SetWeekdayMask(w: Weekday, mask: Int64)
      modifies this
      ensures Masks() == old(Masks())[w := mask]
      ensures occasions == old(occasions)
    {
      match w
      case 0 => sundayHourMask := mask;
      case 1 => mondayHourMask := mask;
      case 2 => tuesdayHourMask := mask;
      case 3 => wednesdayHourMask := mask;
      case 4 => thursdayHourMask := mask;
      case 5 => fridayHourMask := mask;
      case 6 => saturdayHourMask := mask;
    }

    /** Overwrites, for every occasion in the window [from, to) and in order,
        the mask of its stored date's weekday with the occasion's mask. */
    method ApplyOccasions(from: Day, to: Day)
      modifies this
      ensures occasions == old(occasions)
      ensures Masks() == Applied(old(Masks()), occasions, from, to)
    {
      var i := 0;
      while i < |occasions|
        invariant 0 <= i <= |occasions|
        invariant occasions == old(occasions)
        invariant Applied(Masks(), occasions[i..], from, to) == Applied(old(Masks()), occasions, from, to)
      {
        var o := occasions[i];
        assert occasions[i..][1..] == occasions[i + 1..];
        if Applies(o, from, to) {
          SetWeekdayMask(WeekdayOf(o.date), o.hourMask);
        }
        i := i + 1;
      }
    }

    /** The seven dated entries from `today`, each with the mask of its
        date's weekday. */
    function IntoOrder(today: Day): (r: seq<OpeningHours>)
      reads this
      ensures |r| == 7
      ensures forall i | 0 <= i < 7 :: r[i].date == today + i && r[i].hours == WeekdayMask(WeekdayOf(today + i))
    {
      Order(Masks(), today)
    }
  }

  /** A point in local time: the day and the seconds past its midnight. */
  datatype LocalTime = LocalTime(day: Day, second: int)

  /** The availability endpoint: "today" is the local midnight of `now`, the
      occasions are applied over the next seven days, and the masks are
      ordered from today. */
  method Forecast(a: Availability, now: LocalTime) returns (week: seq<OpeningHours>)
    modifies a
    ensures a.occasions == old(a.occasions)
    ensures a.Masks() == Applied(old(a.Masks()), a.occasions, now.day, now.day + 7)
    ensures week == Order(a.Masks(), now.day)
  {
    var today := now.day;
    var nextWeek := today + 7;
    a.ApplyOccasions(today, nextWeek);
    week := a.IntoOrder(today);
  }

  // ---------------------------------------------------------------------------
  // The situations the unit tests set up

  /** The date `d + k`, 0 <= k < 7, that falls on weekday `w`. */
  function AdjustToWeekday(d: Day, w: Weekday): (r: Day)
    ensures WeekdayOf(r) == w
    ensures d <= r < d + 7
  {
    var r := d + (w + (7 - WeekdayOf(d))) % 7;
    WeekdayAdvances(d, (w + (7 - WeekdayOf(d))) % 7);
    r
  }

  /** A one-off occasion in the coming week sets exactly its weekday's mask. */
  lemma OneOffOccasion(masks: Week, today: Day, w: Weekday, mask: Int64)
    ensures Applied(masks, [Occasion(AdjustToWeekday(today, w), mask, false)], today, today + 7)
         == masks[w := mask]
  {
  }

  /** A yearly-recurring occasion whose month and day fall in the coming week
      sets exactly the mask of its STORED date's weekday. */
  lemma RecurringOccasion(masks: Week, today: Day, d: Day, o: Occasion)
    requires o.yearlyRecurring
    requires today <= d < today + 7 && MonthDay(d) == MonthDay(o.date)
    ensures Applied(masks, [o], today, today + 7) == masks[WeekdayOf(o.date) := o.hourMask]
  {
    assert Applies(o, today, today + 7);
  }

  /** A yearly-recurring occasion whose month and day are not in the window
      changes nothing. */
  lemma RecurringElsewhere(masks: Week, from: Day, to: Day, o: Occasion)
    requires o.yearlyRecurring
    requires forall d | from <= d < to :: MonthDay(d) != MonthDay(o.date)
    ensures Applied(masks, [o], from, to) == masks
  {
  }

  /** The weekday overwritten by a recurring occasion is that of its stored
      date, even when the anniversary falls on another weekday: an occasion
      stored for Friday 1970-01-02 changes Friday's mask in a window holding
      Saturday 1971-01-02. */
  lemma RecurringKeyedByStoredDate(masks: Week)
    ensures var o := Occasion(1, 0, true);
            Applied(masks, [o], 365, 372) == masks[FRIDAY := 0]
            && WeekdayOf(366) == SATURDAY
  {
    SameMonthDay();
    RecurringOccasion(masks, 365, 366, Occasion(1, 0, true));
  }

  /** 1970-01-02 and 1971-01-02 share their month and day. */
  lemma SameMonthDay()
    ensures MonthDay(1) == MonthDay(366) == (1, 2)
  {
    assert (1 + 719468) / 146097 == 4 && (366 + 719468) / 146097 == 4;
    assert YearOfEra(135081) == (369, 307) && YearOfEra(135446) == (370, 307);
    assert MonthOfYear(307) == (1, 2);
  }

  /** The week ordering of the unit test: Monday's mask 0, Tuesday's 1, …,
      Sunday's 6, so the forecast from weekday `w` runs through the values
      starting at (w + 6) mod 7. */
  lemma OrderRotates(today: Day)
    ensures var r := Order([6, 0, 1, 2, 3, 4, 5], today);
            forall i | 0 <= i < 7 :: r[i].hours == (WeekdayOf(today) + 6 + i) % 7
  {
    var r := Order([6, 0, 1, 2, 3, 4, 5], today);
    forall i | 0 <= i < 7 ensures r[i].hours == (WeekdayOf(today) + 6 + i) % 7 {
      WeekdayAdvances(today, i);
    }
  }
}
