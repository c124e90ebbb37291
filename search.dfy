/** The search page: the 12-hour label of a time slot, the booking length
    as hours and minutes, the search parameters it accepts from the URL,
    the query string it sends to the restaurant list, and the keyword
    filter over the list it gets back. */
module Search {
  import opened Wrappers
  import opened Text
  import Seqs
  import Bits

  /** JavaScript's `%` on integers: the remainder takes the dividend's
      sign. */
  function JsRem(a: int, b: int): (r: int)
    requires b > 0
    ensures -b < r < b
    ensures a >= 0 ==> r == a % b
  {
    if a >= 0 then a % b else -((-a) % b)
  }

  // ---------------------------------------------------------------------------
  // Slot labels

  const AM: string := "AM"
  const PM: string := "PM"
  const ON_THE_HOUR: string := "00"
  const HALF_PAST: string := "30"

  /** `slotLabel`: the clock time `slot * 30` minutes after midnight, hours
      taken modulo 24, as `<1-12>:<mm> <AM|PM>`. */
  function SlotLabel(slot: int): (text: string)
    ensures |text| >= 3 && text[|text| - 3] == ' '
    ensures text[|text| - 2..] == AM || text[|text| - 2..] == PM
  {
    var totalMinutes := slot * 30;
    var hours24 := JsRem(totalMinutes / 60, 24);
    var minutes := JsRem(totalMinutes, 60);
    var hours12 := if JsRem(hours24, 12) == 0 then 12 else JsRem(hours24, 12);
    var period := if hours24 >= 12 then PM else AM;
    IntToDecimal(hours12) + ":" + PadZeros(IntToDecimal(minutes), 2) + " " + period
  }

  /** The minute digits a slot shows. */
  function MinuteDigits(slot: nat): (r: string)
    ensures |r| == 2 && AllDigits(r)
  {
    if slot % 2 == 0 then ON_THE_HOUR else HALF_PAST
  }

  /** For a slot that is not negative the label is its hour on the 12-hour
      clock (0 and 12 show as 12), "00" or "30" by parity, and PM exactly
      from the 24th slot of each day. */
  lemma SlotLabelParts(slot: nat)
    ensures var hours24 := (slot / 2) % 24;
            SlotLabel(slot)
            == NatToDecimal(if hours24 % 12 == 0 then 12 else hours24 % 12) + ":" + MinuteDigits(slot) + " "
               + (if hours24 >= 12 then PM else AM)
  {
    Bits.DivModUnique(slot * 30, 60, slot / 2, 30 * (slot % 2));
    var minutes := 30 * (slot % 2);
    if minutes == 0 {
      assert PadZeros(IntToDecimal(minutes), 2) == ON_THE_HOUR;
    } else {
      assert IntToDecimal(minutes) == NatToDecimal(30) == HALF_PAST;
    }
  }

  /** Reads the `<00|30> <AM|PM>` end of a label: whether it is half past,
      and whether it is afternoon. */
  function ReadClockTail(tail: string): (r: Option<(bool, bool)>) {
    if |tail| != 5 then None
    else
      var minutes, period := tail[..2], tail[3..];
      if (minutes != ON_THE_HOUR && minutes != HALF_PAST) || tail[2] != ' ' || (period != AM && period != PM) then None
      else Some((minutes == HALF_PAST, period == PM))
  }

  /** Reads a label `<hour>:<00|30> <AM|PM>` back as the slot of the day it
      names. */
  function ReadSlotLabel(text: string): (r: Option<int>)
    ensures r.Some? ==> 0 <= r.value < 48
  {
    var parts := Split(text, ':');
    if |parts| != 2 || parts[0] == [] || !AllDigits(parts[0]) then None
    else
      var hour := DecimalValue(parts[0]);
      match ReadClockTail(parts[1])
      case None => None
      case Some((halfPast, pm)) =>
        if 1 <= hour <= 12 then Some(ClockSlot(hour, halfPast, pm)) else None
  }

  /** The slot of the day a 12-hour clock reading names. */
  function ClockSlot(hour: nat, halfPast: bool, pm: bool): int {
    2 * (hour % 12 + if pm then 12 else 0) + if halfPast then 1 else 0
  }

  /** The end of a label reads back as its half and period. */
  lemma ReadTail(minutes: string, period: string)
    requires (minutes == ON_THE_HOUR || minutes == HALF_PAST) && (period == AM || period == PM)
    ensures ':' !in minutes + " " + period
    ensures ReadClockTail(minutes + " " + period) == Some((minutes == HALF_PAST, period == PM))
  {
    var tail := minutes + " " + period;
    assert tail[..2] == minutes && tail[2] == ' ' && tail[3..] == period;
  }

  /** A clock reading with hour 1-12, minutes 00 or 30 and a period reads
      back as its slot. */
  lemma ReadClock(hour: nat, minutes: string, period: string)
    requires 1 <= hour <= 12 && (minutes == ON_THE_HOUR || minutes == HALF_PAST) && (period == AM || period == PM)
    ensures ReadSlotLabel(NatToDecimal(hour) + ":" + minutes + " " + period)
         == Some(ClockSlot(hour, minutes == HALF_PAST, period == PM))
  {
    var h := NatToDecimal(hour);
    var tail := minutes + " " + period;
    ReadTail(minutes, period);
    var text := NatToDecimal(hour) + ":" + minutes + " " + period;
    assert text == h + [':'] + tail;
    assert ':' !in h by {
      forall k | 0 <= k < |h| ensures h[k] != ':' {
        assert IsDigit(h[k]);
      }
    }
    SplitAfter(h, ':', tail);
    SplitNone(tail, ':');
    assert Split(text, ':') == [h, tail];
    DecimalRoundTrip(hour);
  }

  /** The hour and half the label of a slot shows name that slot modulo
      48. */
  lemma ClockSlotOfSlot(slot: nat)
    ensures var hours24 := (slot / 2) % 24;
            ClockSlot(if hours24 % 12 == 0 then 12 else hours24 % 12, slot % 2 == 1, hours24 >= 12) == slot % 48
  {
    var hours24 := (slot / 2) % 24;
    Bits.DivModUnique(slot / 2, 24, slot / 2 / 24, hours24);
    Bits.DivModUnique(slot, 48, slot / 2 / 24, 2 * hours24 + slot % 2);
  }

  /** The label of a slot that is not negative names that slot modulo the
      48 slots of a day. */
  lemma SlotLabelRoundTrip(slot: nat)
    ensures ReadSlotLabel(SlotLabel(slot)) == Some(slot % 48)
  {
    SlotLabelParts(slot);
    var hours24 := (slot / 2) % 24;
    var hours12 := if hours24 % 12 == 0 then 12 else hours24 % 12;
    ReadClock(hours12, MinuteDigits(slot), if hours24 >= 12 then PM else AM);
    ClockSlotOfSlot(slot);
  }

  // ---------------------------------------------------------------------------
  // Booking length

  const NO_DURATION: string := "--"
  const HOURS_UNIT: string := "h"
  const MINUTES_UNIT: string := "m"

  /** `formatDurationFromSlots`: "--" for no slots, else the `slots * 30`
      minutes as "<h>h <m>m", "<h>h" or "<m>m". */
  function FormatDuration(slots: int): (text: string)
    ensures text == NO_DURATION <==> slots <= 0
  {
    if slots <= 0 then NO_DURATION else FormatMinutes(slots * 30)
  }

  /** A positive number of minutes as "<h>h <m>m", "<h>h" or "<m>m". */
  function FormatMinutes(minutes: nat): (text: string)
    ensures text != [] && text[|text| - 1] in {'h', 'm'}
  {
    var hours := minutes / 60;
    var remainder := minutes % 60;
    if hours > 0 && remainder > 0 then NatToDecimal(hours) + HOURS_UNIT + " " + NatToDecimal(remainder) + MINUTES_UNIT
    else if hours > 0 then NatToDecimal(hours) + HOURS_UNIT
    else NatToDecimal(minutes) + MINUTES_UNIT
  }

  /** The minutes one `<n>h` or `<n>m` token stands for. */
  function ReadDurationToken(token: string): (r: Option<nat>) {
    if |token| < 2 || !AllDigits(token[..|token| - 1]) then None
    else
      var n := DecimalValue(token[..|token| - 1]);
      if token[|token| - 1] == 'h' then Some(60 * n)
      else if token[|token| - 1] == 'm' then Some(n)
      else None
  }

  /** Reads a duration text back as a number of minutes. */
  function ReadDuration(text: string): (r: Option<nat>) {
    var tokens := Split(text, ' ');
    if |tokens| == 1 then ReadDurationToken(tokens[0])
    else if |tokens| == 2 then
      match (ReadDurationToken(tokens[0]), ReadDurationToken(tokens[1]))
      case (Some(a), Some(b)) => Some(a + b)
      case _ => None
    else None
  }

  /** A number followed by its unit reads back as that many units. */
  lemma ReadToken(n: nat, unit: string)
    requires unit == HOURS_UNIT || unit == MINUTES_UNIT
    ensures ' ' !in NatToDecimal(n) + unit
    ensures ReadDurationToken(NatToDecimal(n) + unit) == Some(if unit == HOURS_UNIT then 60 * n else n)
  {
    var t := NatToDecimal(n) + unit;
    assert t[..|t| - 1] == NatToDecimal(n);
    DecimalRoundTrip(n);
    assert ' ' !in NatToDecimal(n) by {
      var d := NatToDecimal(n);
      forall k | 0 <= k < |d| ensures d[k] != ' ' {
        assert IsDigit(d[k]);
      }
    }
  }

  /** "<h>h <m>m" reads back as its minutes. */
  lemma ReadHoursAndMinutes(hours: nat, minutes: nat)
    ensures ReadDuration(NatToDecimal(hours) + HOURS_UNIT + " " + NatToDecimal(minutes) + MINUTES_UNIT)
         == Some(60 * hours + minutes)
  {
    var a, b := NatToDecimal(hours) + HOURS_UNIT, NatToDecimal(minutes) + MINUTES_UNIT;
    var text := NatToDecimal(hours) + HOURS_UNIT + " " + NatToDecimal(minutes) + MINUTES_UNIT;
    assert ReadDurationToken(a) == Some(60 * hours) && ' ' !in a by {
      ReadToken(hours, HOURS_UNIT);
    }
    assert ReadDurationToken(b) == Some(minutes) && ' ' !in b by {
      ReadToken(minutes, MINUTES_UNIT);
    }
    assert Split(text, ' ') == [a, b] by {
      assert text == a + [' '] + b;
      SplitTwo(a, ' ', b);
    }
  }

  /** A single "<n>h" or "<n>m" reads back as its minutes. */
  lemma ReadOneUnit(n: nat, unit: string)
    requires unit == HOURS_UNIT || unit == MINUTES_UNIT
    ensures ReadDuration(NatToDecimal(n) + unit) == Some(if unit == HOURS_UNIT then 60 * n else n)
  {
    ReadToken(n, unit);
    SplitNone(NatToDecimal(n) + unit, ' ');
  }

  /** A booking length of some slots reads back as `slots * 30` minutes;
      none or fewer shows "--". */
  lemma FormatDurationRoundTrip(slots: int)
    ensures slots <= 0 ==> FormatDuration(slots) == "--"
    ensures slots > 0 ==> ReadDuration(FormatDuration(slots)) == Some(30 * slots)
  {
    if slots > 0 {
      FormatMinutesRoundTrip(slots * 30);
    }
  }

  /** Any positive number of minutes reads back from its text. */
  lemma FormatMinutesRoundTrip(minutes: nat)
    requires minutes > 0
    ensures ReadDuration(FormatMinutes(minutes)) == Some(minutes)
  {
    var hours, remainder := minutes / 60, minutes % 60;
    if hours > 0 && remainder > 0 {
      ReadHoursAndMinutes(hours, remainder);
    } else if hours > 0 {
      ReadOneUnit(hours, HOURS_UNIT);
    } else {
      ReadOneUnit(minutes, MINUTES_UNIT);
    }
  }

  // ---------------------------------------------------------------------------
  // Search parameters

  /** The URL's search values; `None` where a value is missing or not a
      string. */
  datatype SearchParams = SearchParams(q: Option<string>, date: Option<string>,
                                       timeSlot: Option<string>, partySize: Option<string>)

  /** A value kept only when it is a non-empty string. */
  function NonEmpty(v: Option<string>): (r: Option<string>)
    ensures r.Some? <==> v.Some? && v.value != ""
    ensures r.Some? ==> r == v
  {
    if v.Some? && |v.value| > 0 then v else None
  }

  /** `validateSearch`: `q` is kept, untrimmed, only when something is left
      after trimming; date, time slot and party size only when non-empty. */
  function ValidateSearch(incoming: SearchParams): (r: SearchParams)
    ensures r.q.Some? <==> incoming.q.Some? && JsTrim(incoming.q.value) != ""
    ensures r.q.Some? ==> r.q == incoming.q
    ensures r.date == NonEmpty(incoming.date)
    ensures r.timeSlot == NonEmpty(incoming.timeSlot)
    ensures r.partySize == NonEmpty(incoming.partySize)
  {
    SearchParams(
      if incoming.q.Some? && |JsTrim(incoming.q.value)| > 0 then incoming.q else None,
      NonEmpty(incoming.date), NonEmpty(incoming.timeSlot), NonEmpty(incoming.partySize))
  }

  /** Validating validated parameters changes nothing. */
  lemma ValidateSearchIdempotent(incoming: SearchParams)
    ensures ValidateSearch(ValidateSearch(incoming)) == ValidateSearch(incoming)
  {
  }

  // ---------------------------------------------------------------------------
  // Query string

  /** The `URLSearchParams` the page fills: date, time slot and party size,
      in that order, each only when set and non-empty. */
  function QueryParams(search: SearchParams): (r: seq<(string, string)>)
    ensures |r| <= 3
    ensures forall i | 0 <= i < |r| :: r[i].1 != ""
  {
    (if search.date.Some? && search.date.value != "" then [("date", search.date.value)] else [])
    + (if search.timeSlot.Some? && search.timeSlot.value != "" then [("timeSlot", search.timeSlot.value)] else [])
    + (if search.partySize.Some? && search.partySize.value != "" then [("partySize", search.partySize.value)] else [])
  }

  /** One `name=value` field; `encode` is the form-urlencoded serializer of
      the URL Standard, applied to the value. */
  function Field(p: (string, string), encode: string -> string): string {
    p.0 + "=" + encode(p.1)
  }

  /** `URLSearchParams.toString`: the fields joined by "&". */
  function Serialize(params: seq<(string, string)>, encode: string -> string): string {
    Join(seq(|params|, i requires 0 <= i < |params| => Field(params[i], encode)), "&")
  }

  /** The page's query string: "?" and the serialized parameters, or nothing
      when there are none. */
  function QueryString(search: SearchParams, encode: string -> string): (r: string)
    ensures r != "" ==> r[0] == '?'
  {
    var query := Serialize(QueryParams(search), encode);
    if query == "" then "" else "?" + query
  }

  /** A field's name and decoded value. */
  function ParseField(field: string, decode: string -> string): (string, string) {
    var kv := Split(field, '=');
    (kv[0], if |kv| > 1 then decode(kv[1]) else "")
  }

  /** Reads a serialized query (without its "?") back into its parameters. */
  function ParseQuery(query: string, decode: string -> string): seq<(string, string)> {
    var fields := Split(query, '&');
    seq(|fields|, i requires 0 <= i < |fields| => ParseField(fields[i], decode))
  }

  /** The query string is empty exactly when none of date, time slot and
      party size is set, and the search keyword never reaches it. */
  lemma QueryStringEmptyIff(search: SearchParams, encode: string -> string, q: Option<string>)
    ensures QueryString(search, encode) == "" <==> QueryParams(search) == []
    ensures QueryString(search, encode) == QueryString(search.(q := q), encode)
  {
    var params := QueryParams(search);
    if params != [] {
      var fields := seq(|params|, i requires 0 <= i < |params| => Field(params[i], encode));
      assert |fields| >= 1 && |fields[0]| >= 1;
      if |fields| > 1 {
        assert |Join(fields, "&")| >= |fields[0]|;
      }
    }
  }

  /** With an encoding that leaves no "&" or "=" in a value and that
      `decode` inverts, the query string reads back as the parameters, in
      order. */
  lemma QueryStringRoundTrip(search: SearchParams, encode: string -> string, decode: string -> string)
    requires forall v :: '&' !in encode(v) && '=' !in encode(v)
    requires forall v :: decode(encode(v)) == v
    requires QueryParams(search) != []
    ensures var qs := QueryString(search, encode);
            qs != [] && qs[0] == '?' && ParseQuery(qs[1..], decode) == QueryParams(search)
  {
    var params := QueryParams(search);
    QueryStringEmptyIff(search, encode, search.q);
    assert PlainNames(params);
    SerializeRoundTrip(params, encode, decode);
  }

  /** No parameter name holds "&" or "=". */
  predicate PlainNames(params: seq<(string, string)>) {
    forall i | 0 <= i < |params| :: '&' !in params[i].0 && '=' !in params[i].0
  }

  /** Serialized parameters with plain names parse back to themselves. */
  lemma SerializeRoundTrip(params: seq<(string, string)>, encode: string -> string, decode: string -> string)
    requires forall v :: '&' !in encode(v) && '=' !in encode(v)
    requires forall v :: decode(encode(v)) == v
    requires |params| >= 1 && PlainNames(params)
    ensures ParseQuery(Serialize(params, encode), decode) == params
  {
    var fields := seq(|params|, i requires 0 <= i < |params| => Field(params[i], encode));
    forall i | 0 <= i < |fields| ensures '&' !in fields[i] {
      assert '&' !in params[i].0;
    }
    SplitJoin(fields, '&');
    assert "&" == ['&'];
    forall i | 0 <= i < |fields| ensures ParseField(fields[i], decode) == params[i] {
      ParseFieldRoundTrip(params[i], encode, decode);
    }
  }

  /** A field whose name has no "=" parses back to its name and value. */
  lemma ParseFieldRoundTrip(p: (string, string), encode: string -> string, decode: string -> string)
    requires '=' !in p.0 && '=' !in encode(p.1) && decode(encode(p.1)) == p.1
    ensures ParseField(Field(p, encode), decode) == p
  {
    assert Field(p, encode) == p.0 + ['='] + encode(p.1);
    SplitAfter(p.0, '=', encode(p.1));
    SplitNone(encode(p.1), '=');
  }

  // ---------------------------------------------------------------------------
  // Keyword filter

  /** A restaurant as the search page lists it; `None` for a null text. */
  datatype Listing = Listing(id: string, name: string, description: Option<string>,
                             locationText: Option<string>, locationUrl: Option<string>,
                             frontpageMarkdown: Option<string>, maxPartySize: int,
                             bookingCapacity: int, bookingLength: int)

  /** The lower-cased text a keyword is looked up in. */
  function Haystack(item: Listing): string {
    Lower(Join([item.name, UnwrapOr(item.description, ""), UnwrapOr(item.locationText, ""), UnwrapOr(item.locationUrl, "")], " "))
  }

  /** `filteredByQuery`: no list gives none; a keyword that is blank after
      trimming keeps the list; otherwise the listings whose text contains
      the trimmed, lower-cased keyword, in their order. */
  function FilteredByQuery(list: Option<seq<Listing>>, q: Option<string>): (r: Option<seq<Listing>>)
    ensures list.None? <==> r.None?
    ensures list.Some? && IsBlank(UnwrapOr(q, ""), IsJsSpace) ==> r == list
    ensures list.Some? && !IsBlank(UnwrapOr(q, ""), IsJsSpace) ==>
              var term := Lower(JsTrim(UnwrapOr(q, "")));
              && (forall x :: x in r.value <==> x in list.value && Contains(Haystack(x), term))
              && (forall x :: multiset(r.value)[x] == if Contains(Haystack(x), term) then multiset(list.value)[x] else 0)
              && Seqs.IsSubsequence(r.value, list.value)
  {
    TrimEmptyIffBlank(UnwrapOr(q, ""), IsJsSpace);
    if list.None? then None
    else
      var term := Lower(JsTrim(UnwrapOr(q, "")));
      if term == "" then list
      else
        var keep := item => Contains(Haystack(item), term);
        Seqs.FilterMembers(list.value, keep);
        Seqs.FilterCount(list.value, keep);
        Seqs.FilterSubsequence(list.value, keep);
        Some(Seqs.Filter(list.value, keep))
  }
}
