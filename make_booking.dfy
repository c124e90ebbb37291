/** The make-booking page: reading the open half-hour slots of a day out of
    its hour mask with JavaScript's 32-bit shift, listing them, labelling a
    slot as a 12-hour time, the party-size stepper, and turning the fetched
    dates into date objects. */
module MakeBooking {
  import opened Wrappers
  import opened Bits
  import opened Text
  import BookingSetting

  /** The half-hour slots of a day. */
  const SLOTS: nat := 48

  // ---------------------------------------------------------------------------
  // Reading a slot out of the mask

  /** ToInt32 (section 7.1.6 of ECMA-262) of an integral Number: the value
      modulo 2^32, read as a two's-complement 32-bit integer. */
  function ToInt32(m: int): (r: int)
    ensures -TWO_31 <= r < TWO_31
    ensures (r - m) % TWO_32 == 0
  {
    var u := m % TWO_32;
    if u >= TWO_31 then u - TWO_32 else u
  }

  const TWO_31: int := 0x8000_0000
  const TWO_32: int := 0x1_0000_0000

  /** The two constants are the powers of two they name. */
  lemma Pow2Constants()
    ensures Pow2(31) == TWO_31 && Pow2(32) == TWO_32
  {
    assert Pow2(4) == 16 by {
      assert Pow2(1) == 2 && Pow2(2) == 4 && Pow2(3) == 8;
    }
    Pow2Add(4, 4);
    Pow2Add(8, 8);
    Pow2Add(16, 16);
    Pow2Add(16, 15);
    Pow2Add(8, 7);
    Pow2Add(4, 3);
    assert Pow2(3) == 8 by {
      assert Pow2(1) == 2 && Pow2(2) == 4;
    }
  }

  /** The shift count `>>` uses: ToUint32 of `47 - periodIndex`, masked to
      its low five bits. */
  function ShiftCount(periodIndex: int): (s: nat)
    ensures s < 32
  {
    (47 - periodIndex) % 32
  }

  /** The signed right shift: `s` floor halvings. */
  function Sar(v: int, s: nat): int
    decreases s
  {
    if s == 0 then v else Sar(v / 2, s - 1)
  }

  /** `checkTime`: `((hourmask >> (47 - periodIndex)) & 1) === 1`. On a 32-bit
      integer `& 1` keeps the remainder modulo 2. */
  predicate CheckTime(hourmask: int, periodIndex: int) {
    Sar(ToInt32(hourmask), ShiftCount(periodIndex)) % 2 == 1
  }

  /** Shifting a natural number reads its bits. */
  lemma {:induction false} SarBit(u: nat, s: nat)
    ensures Sar(u, s) % 2 == Bit(u, s)
  {
    if s > 0 {
      SarBit(u / 2, s - 1);
    }
  }

  /** Subtracting a multiple of 2^s subtracts its quotient from the shift. */
  lemma {:induction false} SarShift(v: int, c: int, s: nat)
    ensures Sar(v - c * Pow2(s), s) == Sar(v, s) - c
    decreases s
  {
    if s > 0 {
      var k := c * Pow2(s - 1);
      assert v - c * Pow2(s) == v - 2 * k;
      assert (v - 2 * k) / 2 == v / 2 - k;
      SarShift(v / 2, c, s - 1);
    }
  }

  /** Below a 2^n wrap-around the shifted-out low bit is unchanged: the
      wrap subtracts an even multiple of 2^s. */
  lemma SarBitWrapped(u: nat, n: nat, s: nat)
    requires s < n
    ensures Sar(u - Pow2(n), s) % 2 == Bit(u, s)
  {
    var c := Pow2(n - s);
    Pow2Add(s, n - s);
    assert s + (n - s) == n;
    SarShift(u, c, s);
    assert c == 2 * Pow2(n - s - 1);
    SarBit(u, s);
  }

  /** `checkTime(m, i)` is bit `(47 - i) mod 32` of `m mod 2^32`: the sign
      the 32-bit conversion gives does not reach the low bit. */
  lemma CheckTimeBit(hourmask: int, periodIndex: int)
    ensures CheckTime(hourmask, periodIndex) <==> Bit(hourmask % TWO_32, ShiftCount(periodIndex)) == 1
  {
    var u: nat := hourmask % TWO_32;
    var s := ShiftCount(periodIndex);
    Pow2Constants();
    if u >= TWO_31 {
      SarBitWrapped(u, 32, s);
    } else {
      SarBit(u, s);
    }
  }

  /** Only the low 32 bits of the mask are visible. */
  lemma CheckTimeLow32(m1: int, m2: int, periodIndex: int)
    requires m1 % TWO_32 == m2 % TWO_32
    ensures CheckTime(m1, periodIndex) == CheckTime(m2, periodIndex)
  {
    CheckTimeBit(m1, periodIndex);
    CheckTimeBit(m2, periodIndex);
  }

  /** The shift count wraps modulo 32, so slots `i` and `i + 32` read the
      same bit. */
  lemma CheckTimeWraps(hourmask: int, i: int)
    requires 0 <= i <= 15
    ensures CheckTime(hourmask, i) == CheckTime(hourmask, i + 32)
  {
    assert ShiftCount(i) == 15 - i == ShiftCount(i + 32);
  }

  /** A mask from the booking-settings page, which stores slot `k` in bit
      `k`, is read here in the other order: slot `i` reports whether the
      settings opened slot `(47 - i) mod 32`. */
  lemma ReadsSettingsMaskReversed(sh: nat, sm: nat, eh: nat, em: nat, i: int)
    ensures CheckTime(BookingSetting.HourMask(sh, sm, eh, em), i)
        <==> BookingSetting.Slot(sh, sm) <= ShiftCount(i) < BookingSetting.Slot(eh, em)
  {
    var m := BookingSetting.HourMask(sh, sm, eh, em);
    CheckTimeBit(m, i);
    Pow2Constants();
    BitLowPart(m, 32, ShiftCount(i));
    BookingSetting.HourMaskBits(sh, sm, eh, em, ShiftCount(i));
  }

  /** `listAvailableTimes`: the slots 0..47, in order, for which `checkTime`
      holds (the `range(48)` generator's loop, filtered as it goes). */
  method ListAvailableTimes(hourmask: int) returns (times: seq<int>)
    ensures forall k | 0 <= k < |times| :: 0 <= times[k] < SLOTS && CheckTime(hourmask, times[k])
    ensures forall i | 0 <= i < SLOTS && CheckTime(hourmask, i) :: i in times
    ensures forall j, k | 0 <= j < k < |times| :: times[j] < times[k]
  {
    times := [];
    var i := 0;
    while i < SLOTS
      invariant 0 <= i <= SLOTS
      invariant forall k | 0 <= k < |times| :: 0 <= times[k] < i && CheckTime(hourmask, times[k])
      invariant forall j | 0 <= j < i && CheckTime(hourmask, j) :: j in times
      invariant forall j, k | 0 <= j < k < |times| :: times[j] < times[k]
    {
      if CheckTime(hourmask, i) {
        times := times + [i];
      }
      i := i + 1;
    }
  }

  // ---------------------------------------------------------------------------
  // Slot labels

  const HALF_PAST: string := "30 "
  const ON_THE_HOUR: string := "00 "
  const AM: string := "AM"
  const PM: string := "PM"
  const NOON: string := "12"
  const MIDNIGHT: string := "00"

  /** The minutes part of a label. */
  function MinutesText(maskvalue: int): (r: string)
    ensures |r| == 3 && ':' !in r
  {
    if maskvalue % 2 == 0 then ON_THE_HOUR else HALF_PAST
  }

  /** The hour digits of a label: 12 for slots 24 and 25, the hour less
      twelve after that, 00 for the first hour, the hour before noon. */
  function HoursText(maskvalue: int): (r: string)
    ensures r != [] && AllDigits(r)
  {
    if maskvalue >= 24 then (if maskvalue > 25 then NatToDecimal(maskvalue / 2 - 12) else NOON)
    else (if maskvalue > 1 then NatToDecimal(maskvalue / 2) else MIDNIGHT)
  }

  /** `timeFromMaskValue`: hours, ":", minutes and the half of the day. */
  function TimeFromMaskValue(maskvalue: int): (r: string)
    ensures |r| >= 7
    ensures r[|r| - 5..|r| - 2] == (if maskvalue % 2 == 0 then "00 " else "30 ")
    ensures r[|r| - 2..] == (if maskvalue >= 24 then "PM" else "AM")
    ensures r[..|r| - 6] == HoursText(maskvalue) && r[|r| - 6] == ':'
  {
    HoursText(maskvalue) + ":" + MinutesText(maskvalue) + (if maskvalue >= 24 then PM else AM)
  }

  /** Reads a label back: the slot whose start it names, if it has the
      shape `<hour>:<00|30> <AM|PM>`. */
  function ReadTimeLabel(text: string): (r: Option<int>)
    ensures r.Some? ==> r.value >= 0
  {
    var parts := Split(text, ':');
    if |parts| != 2 || parts[0] == [] || !AllDigits(parts[0]) || |parts[1]| != 5 then None
    else
      ReadHourAndTail(DecimalValue(parts[0]), parts[1][..3], parts[1][3..])
  }

  /** The slot an hour, a minutes part and a half of the day name, if the
      parts are well formed. */
  function ReadHourAndTail(hour: nat, minutes: string, period: string): (r: Option<int>)
    ensures r.Some? ==> r.value >= 0
  {
    if (minutes != ON_THE_HOUR && minutes != HALF_PAST) || (period != AM && period != PM) then None
    else
      var hour24 := if period == PM then (if hour == 12 then 12 else hour + 12) else hour;
      Some(2 * hour24 + if minutes == HALF_PAST then 1 else 0)
  }

  /** The hour digits of a slot of the day read back as its 12-hour clock
      hour. */
  lemma HoursTextValue(maskvalue: int)
    requires 0 <= maskvalue < SLOTS
    ensures DecimalValue(HoursText(maskvalue))
         == if maskvalue >= 26 then maskvalue / 2 - 12
            else if maskvalue >= 24 then 12
            else if maskvalue >= 2 then maskvalue / 2
            else 0
  {
    if maskvalue > 25 {
      DecimalRoundTrip(maskvalue / 2 - 12);
    } else if 2 <= maskvalue < 24 {
      DecimalRoundTrip(maskvalue / 2);
    } else if maskvalue >= 24 {
      assert NOON == [DigitChar(1), DigitChar(2)];
    } else {
      assert MIDNIGHT == [DigitChar(0), DigitChar(0)];
    }
  }

  /** A label built from hour digits, a minutes part and a half of the day
      reads back as the slot those parts name. */
  lemma ReadLabel(h: string, m: string, p: string)
    requires h != [] && AllDigits(h)
    requires (m == ON_THE_HOUR || m == HALF_PAST) && (p == AM || p == PM)
    ensures ReadTimeLabel(h + ":" + m + p) == ReadHourAndTail(DecimalValue(h), m, p)
  {
    assert Split(h + ":" + m + p, ':') == [h, m + p] by {
      assert h + ":" + m + p == h + [':'] + (m + p);
      assert ':' !in h by {
        forall k | 0 <= k < |h| ensures h[k] != ':' {
          assert IsDigit(h[k]);
        }
      }
      assert ':' !in m + p;
      SplitTwo(h, ':', m + p);
    }
    var tail := m + p;
    assert |tail| == 5 && tail[..3] == m && tail[3..] == p;
  }

  /** Every slot of the day gets a label that reads back as that slot, so
      no two slots share a label. */
  lemma TimeLabelRoundTrip(maskvalue: int)
    requires 0 <= maskvalue < SLOTS
    ensures ReadTimeLabel(TimeFromMaskValue(maskvalue)) == Some(maskvalue)
  {
    var h, m, p := HoursText(maskvalue), MinutesText(maskvalue), if maskvalue >= 24 then PM else AM;
    assert ReadTimeLabel(TimeFromMaskValue(maskvalue)) == ReadHourAndTail(DecimalValue(h), m, p) by {
      ReadLabel(h, m, p);
    }
    var hour := DecimalValue(h);
    assert hour == (if maskvalue >= 26 then maskvalue / 2 - 12 else if maskvalue >= 24 then 12
                    else if maskvalue >= 2 then maskvalue / 2 else 0) by {
      HoursTextValue(maskvalue);
    }
    assert m == if maskvalue % 2 == 1 then HALF_PAST else ON_THE_HOUR;
    assert 2 * (if maskvalue >= 24 then (if hour == 12 then 12 else hour + 12) else hour)
           + (if maskvalue % 2 == 1 then 1 else 0) == maskvalue;
    ReadTailValue(hour, maskvalue % 2 == 1, maskvalue >= 24);
  }

  /** The minutes and half of the day read back as themselves. */
  lemma ReadTailValue(hour: nat, halfPast: bool, pm: bool)
    ensures ReadHourAndTail(hour, if halfPast then HALF_PAST else ON_THE_HOUR, if pm then PM else AM)
         == Some(2 * (if pm then (if hour == 12 then 12 else hour + 12) else hour) + if halfPast then 1 else 0)
  {
    assert HALF_PAST[0] != ON_THE_HOUR[0] && PM[0] != AM[0];
  }

  /** Distinct slots of the day have distinct labels. */
  lemma TimeLabelsDistinct(v: int, w: int)
    requires 0 <= v < SLOTS && 0 <= w < SLOTS && v != w
    ensures TimeFromMaskValue(v) != TimeFromMaskValue(w)
  {
    TimeLabelRoundTrip(v);
    TimeLabelRoundTrip(w);
  }

  // ---------------------------------------------------------------------------
  // Party size

  /** `maxTableSize`. */
  const MAX_TABLE_SIZE: int := 5

  /** The party-size stepper's state. */
  class PartySize {
    var partySize: int

    ghost predicate Valid()
      reads this
    {
      1 <= partySize <= MAX_TABLE_SIZE
    }

    /** The page starts at one guest. */
    constructor ()
      ensures partySize == 1 && Valid()
    {
      partySize := 1;
    }

    /** `partySizePlus`: one more guest, up to the table size. */
    method Plus()
      modifies this
      ensures partySize == if old(partySize) < MAX_TABLE_SIZE then old(partySize) + 1 else old(partySize)
      ensures old(Valid()) ==> Valid()
    {
      if partySize < MAX_TABLE_SIZE {
        partySize := partySize + 1;
      }
    }

    /** `partySizeMinus`: one fewer guest, down to one. */
    method Minus()
      modifies this
      ensures partySize == if old(partySize) > 1 then old(partySize) - 1 else old(partySize)
      ensures old(Valid()) ==> Valid()
    {
      if partySize > 1 {
        partySize := partySize - 1;
      }
    }
  }

  // ---------------------------------------------------------------------------
  // Dates

  /** An entry of the dates payload: the date text and that day's mask. */
  datatype DateEntry = DateEntry(date: string, hours: int)

  /** `DateObj`: the parsed date and the mask. */
  datatype DateObj<Date> = DateObj(date: Date, hours: int)

  /** `parseDates`: one date object per entry, in order, each pushed as the
      loop meets it; `newDate` stands for the `Date` constructor. */
  method ParseDates<Date>(items: seq<DateEntry>, newDate: string -> Date) returns (formatted: seq<DateObj<Date>>)
    ensures |formatted| == |items|
    ensures forall i | 0 <= i < |items| ::
              formatted[i].date == newDate(items[i].date) && formatted[i].hours == items[i].hours
  {
    formatted := [];
    var i := 0;
    while i < |items|
      invariant 0 <= i <= |items| && |formatted| == i
      invariant forall k | 0 <= k < i ::
                  formatted[k].date == newDate(items[k].date) && formatted[k].hours == items[k].hours
    {
      formatted := formatted + [DateObj(newDate(items[i].date), items[i].hours)];
      i := i + 1;
    }
  }
}
