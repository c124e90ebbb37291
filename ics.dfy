/** The iCalendar (RFC 5545) file served for a booking: a VCALENDAR holding
    one VEVENT, with UTC DATE-TIME values (RFC 5545 section 3.3.5) on
    CRLF-terminated content lines (RFC 5545 section 3.1). */
module Ics {
  import opened Wrappers
  import opened GoInt
  import opened Text
  import opened Calendar

  /** A point in time, in nanoseconds since 1970-01-01T00:00:00Z. */
  type Instant = int

  /** Go's `time.Duration`: an `int64` count of nanoseconds. */
  type Duration = Int64

  const SECOND: int := 1_000_000_000
  const MINUTE: Duration := 60_000_000_000

  datatype DateTime = DateTime(year: int, month: int, day: int, hour: int, minute: int, second: int)

  /** The UTC calendar fields of an instant. */
  function UtcFields(t: Instant): (f: DateTime)
    ensures 1 <= f.month <= 12 && 1 <= f.day <= 31
    ensures 0 <= f.hour < 24 && 0 <= f.minute < 60 && 0 <= f.second < 60
  {
    var secs := t / SECOND;
    var c := CivilFromDays(secs / 86400);
    var sod := secs % 86400;
    DateTime(c.year, c.month, c.day, sod / 3600, sod % 3600 / 60, sod % 60)
  }

  /** `formatDateTime`: the UTC fields as YYYYMMDD"T"HHMMSS"Z", each field
      zero-padded to its width. */
  function FormatDateTime(t: Instant): string {
    FormatFields(UtcFields(t))
  }

  function FormatFields(f: DateTime): string {
    FormatInt(f.year, 4) + FormatInt(f.month, 2) + FormatInt(f.day, 2) + "T"
    + FormatInt(f.hour, 2) + FormatInt(f.minute, 2) + FormatInt(f.second, 2) + "Z"
  }

  /** The positions of a YYYYMMDD"T"HHMMSS"Z" text that hold digits. */
  predicate DateTimeDigits(s: string) {
    |s| == 16 && forall i | 0 <= i < 15 && i != 8 :: IsDigit(s[i])
  }

  /** Reading a YYYYMMDD"T"HHMMSS"Z" text back as whole seconds since the
      epoch. */
  function ReadDateTime(s: string): int
    requires DateTimeDigits(s)
  {
    assert AllDigits(s[..4]) && AllDigits(s[4..6]) && AllDigits(s[6..8]);
    assert AllDigits(s[9..11]) && AllDigits(s[11..13]) && AllDigits(s[13..15]);
    var day := DaysFromCivil(Civil(DecimalValue(s[..4]), DecimalValue(s[4..6]), DecimalValue(s[6..8])));
    day * 86400 + DecimalValue(s[9..11]) * 3600 + DecimalValue(s[11..13]) * 60 + DecimalValue(s[13..15])
  }

  /** Where the six fields sit in the text. */
  lemma DateTimeLayout(y: string, mo: string, d: string, h: string, mi: string, se: string)
    requires |y| == 4 && |mo| == |d| == |h| == |mi| == |se| == 2
    requires AllDigits(y) && AllDigits(mo) && AllDigits(d) && AllDigits(h) && AllDigits(mi) && AllDigits(se)
    ensures var s := y + mo + d + "T" + h + mi + se + "Z";
            DateTimeDigits(s) && s[8] == 'T' && s[15] == 'Z'
            && s[..4] == y && s[4..6] == mo && s[6..8] == d
            && s[9..11] == h && s[11..13] == mi && s[13..15] == se
  {
    var s := y + mo + d + "T" + h + mi + se + "Z";
    forall i | 0 <= i < 15 && i != 8 ensures IsDigit(s[i]) {
      if i < 4 { assert s[i] == y[i]; }
      else if i < 6 { assert s[i] == mo[i - 4]; }
      else if i < 8 { assert s[i] == d[i - 6]; }
      else if i < 11 { assert s[i] == h[i - 9]; }
      else if i < 13 { assert s[i] == mi[i - 11]; }
      else { assert s[i] == se[i - 13]; }
    }
  }

  /** Fields within their widths are laid out at fixed positions and read
      back. */
  lemma FormatFieldsRoundTrip(f: DateTime)
    requires 0 <= f.year <= 9999 && 1 <= f.month <= 12 && 1 <= f.day <= 31
    requires 0 <= f.hour < 24 && 0 <= f.minute < 60 && 0 <= f.second < 60
    ensures var s := FormatFields(f);
            DateTimeDigits(s) && s[8] == 'T' && s[15] == 'Z'
            && ReadDateTime(s) == DaysFromCivil(Civil(f.year, f.month, f.day)) * 86400
                                  + f.hour * 3600 + f.minute * 60 + f.second
  {
    var y, mo, d := FormatInt(f.year, 4), FormatInt(f.month, 2), FormatInt(f.day, 2);
    var h, mi, se := FormatInt(f.hour, 2), FormatInt(f.minute, 2), FormatInt(f.second, 2);
    FixedWidthRoundTrip(f.year, 4);
    FixedWidthRoundTrip(f.month, 2);
    FixedWidthRoundTrip(f.day, 2);
    FixedWidthRoundTrip(f.hour, 2);
    FixedWidthRoundTrip(f.minute, 2);
    FixedWidthRoundTrip(f.second, 2);
    DateTimeLayout(y, mo, d, h, mi, se);
  }

  /** A count of seconds is its day and its time of day. */
  lemma SplitSeconds(secs: int)
    ensures var sod := secs % 86400;
            secs == secs / 86400 * 86400 + sod / 3600 * 3600 + sod % 3600 / 60 * 60 + sod % 60
  {
  }

  /** For years 0-9999 the text is sixteen characters in the fixed layout,
      and reads back as the instant, to the second. */
  lemma FormatDateTimeRoundTrip(t: Instant)
    requires 0 <= UtcFields(t).year <= 9999
    ensures var s := FormatDateTime(t);
            DateTimeDigits(s) && s[8] == 'T' && s[15] == 'Z' && ReadDateTime(s) == t / SECOND
  {
    var f := UtcFields(t);
    FormatFieldsRoundTrip(f);
    var secs := t / SECOND;
    DaysFromCivilInverts(secs / 86400);
    SplitSeconds(secs);
  }

  /** The STATUS property for an attendance; `None` where the source panics.
      COMPLETED is kept as written, although RFC 5545 section 3.8.1.11 lists
      it only for VTODO. */
  function IcsStatus(attendance: string): (r: Option<string>)
    ensures r == Some("COMPLETED") <==> attendance == "attended" || attendance == "no-show"
    ensures r == Some("CONFIRMED") <==> attendance == "pending"
    ensures r == Some("CANCELLED") <==> attendance == "cancelled"
    ensures r == None <==> attendance !in {"attended", "no-show", "pending", "cancelled"}
  {
    if attendance == "attended" || attendance == "no-show" then Some("COMPLETED")
    else if attendance == "pending" then Some("CONFIRMED")
    else if attendance == "cancelled" then Some("CANCELLED")
    else None
  }

  /** The site the links point at. */
  function Host(localhost: bool): string {
    if localhost then "http://localhost:3000" else "https://stront.rest"
  }

  // ---------------------------------------------------------------------------
  // The event's end

  /** Line 57 as written: the duration handed in is already in nanoseconds
      (booking length times 30 minutes) and is multiplied by 30 minutes again,
      wrapping around the `int64` range. */
  function DtEndAsWritten(start: Instant, duration: Duration): Instant {
    start + Mul64(Mul64(duration, 30), MINUTE)
  }

  /** The end the caller evidently intends: the start plus the duration. */
  function DtEnd(start: Instant, duration: Duration): Instant {
    start + duration
  }

  /** `time.Duration(slots) * 30 * time.Minute`, as the caller computes the
      booking length. */
  function SlotsDuration(slots: Int64): Duration {
    Mul64(Mul64(slots, 30), MINUTE)
  }

  /** The corrected end is the booking length after the start: a booking of
      `slots` half-hours (up to 5 million, about 285 years, where the
      duration still fits an `int64`) ends `slots` * 30 minutes later, and
      never before it starts. */
  lemma DtEndIsBookingLength(start: Instant, slots: Int64)
    requires 0 <= slots <= 5_000_000
    ensures DtEnd(start, SlotsDuration(slots)) == start + slots * 30 * MINUTE
    ensures DtEnd(start, SlotsDuration(slots)) >= start
  {
    assert Mul64(slots, 30) == slots * 30;
    assert slots * 30 * MINUTE <= INT64_MAX;
  }

  /** As written, a one-slot booking ends about 145 years before it starts. */
  lemma DtEndAsWrittenWraps(start: Instant)
    ensures DtEndAsWritten(start, SlotsDuration(1)) == start - 4_575_850_419_355_385_856
    ensures DtEndAsWritten(start, SlotsDuration(1)) < start < DtEnd(start, SlotsDuration(1))
  {
    assert SlotsDuration(1) == 1_800_000_000_000;
    assert Mul64(1_800_000_000_000, 30) == 54_000_000_000_000;
    assert Wrap64(54_000_000_000_000 * MINUTE) == -4_575_850_419_355_385_856;
  }

  // ---------------------------------------------------------------------------
  // The calendar text

  /** The content lines of the calendar, before their CRLF endings; `None`
      for an attendance the source panics on. `bookingId` is the canonical
      text of the booking's UUID. */
  function IcsLines(localhost: bool, bookingId: string, restaurantName: string, partySize: int,
                    start: Instant, duration: Duration, attendance: string, now: Instant): (r: Option<seq<string>>)
    ensures r.Some? <==> IcsStatus(attendance).Some?
    ensures r.Some? ==> |r.value| == 15
  {
    match IcsStatus(attendance)
    case None => None
    case Some(status) =>
      Some(EventLines(FormatDateTime(now), bookingId, FormatDateTime(start),
                      FormatDateTime(DtEnd(start, duration)), status, restaurantName,
                      IntToDecimal(partySize), Host(localhost)))
  }

  const PRODID: string := "PRODID:-//STRONT.rest//NONSGML STRONT. restaurant booking//EN"
  const CATEGORIES: string := "CATEGORIES:RESTAURANT,FOOD,BOOKING"

  /** The fifteen lines, from their variable parts. */
  function EventLines(stamp: string, id: string, dtstart: string, dtend: string, status: string,
                      name: string, party: string, host: string): seq<string>
  {
    [ "BEGIN:VCALENDAR",
      PRODID,
      "VERSION:2.0",
      "METHOD:PUBLISH",
      "BEGIN:VEVENT",
      "DTSTAMP:" + stamp,
      "UID:" + id + "@stront.rest",
      "DTSTART:" + dtstart,
      "DTEND:" + dtend,
      "STATUS:" + status,
      CATEGORIES,
      "SUMMARY:Booking at " + name + " for " + party + " people",
      "URL:" + host + "/bookings/cal/" + id + ".ics",
      "END:VEVENT",
      "END:VCALENDAR" ]
  }

  /** The line ending of RFC 5545 section 3.1. */
  const CRLF: string := "\r\n"

  /** Each line followed by CRLF. */
  function Unlines(lines: seq<string>): (text: string)
    ensures lines != [] ==> |text| >= 2 && text[|text| - 2..] == CRLF
  {
    if lines == [] then "" else lines[0] + CRLF + Unlines(lines[1..])
  }

  /** The text of lines joined is the texts of their parts joined. */
  lemma {:induction false} UnlinesAppend(a: seq<string>, b: seq<string>)
    ensures Unlines(a + b) == Unlines(a) + Unlines(b)
  {
    if a == [] {
      assert a + b == b;
    } else {
      assert (a + b)[0] == a[0] && (a + b)[1..] == a[1..] + b;
      UnlinesAppend(a[1..], b);
    }
  }

  /** A text that is `prefix` then `line`, CRLF and `rest` in two steps is
      so in one. */
  lemma RegroupLine(text: string, prefix: string, tail: string, line: string, rest: string)
    requires tail == line + CRLF + rest && text == prefix + tail
    ensures text == prefix + line + CRLF + rest
  {
  }

  /** Every line, wherever it stands, is followed by its own CRLF: the text
      is the lines before it, the line, CRLF, and the lines after it. */
  lemma UnlinesAround(lines: seq<string>, i: int)
    requires 0 <= i < |lines|
    ensures Unlines(lines) == Unlines(lines[..i]) + lines[i] + CRLF + Unlines(lines[i + 1..])
  {
    var pre, tail := lines[..i], lines[i..];
    var line, post := lines[i], Unlines(lines[i + 1..]);
    assert Unlines(tail) == line + CRLF + post by {
      assert tail[0] == line && tail[1..] == lines[i + 1..];
    }
    assert Unlines(lines) == Unlines(pre) + Unlines(tail) by {
      assert lines == pre + tail;
      UnlinesAppend(pre, tail);
    }
    RegroupLine(Unlines(lines), Unlines(pre), Unlines(tail), line, post);
  }

  /** `createIcs`. */
  function CreateIcs(localhost: bool, bookingId: string, restaurantName: string, partySize: int,
                     start: Instant, duration: Duration, attendance: string, now: Instant): (r: Option<string>)
    ensures r.Some? <==> attendance in {"attended", "no-show", "pending", "cancelled"}
    ensures r.Some? ==> |r.value| >= 2 && r.value[|r.value| - 2..] == CRLF
  {
    match IcsLines(localhost, bookingId, restaurantName, partySize, start, duration, attendance, now)
    case None => None
    case Some(lines) => Some(Unlines(lines))
  }

  /** The calendar is produced exactly for the four known attendances. */
  lemma IcsProducedIff(localhost: bool, bookingId: string, restaurantName: string, partySize: int,
                       start: Instant, duration: Duration, attendance: string, now: Instant)
    ensures CreateIcs(localhost, bookingId, restaurantName, partySize, start, duration, attendance, now).Some?
        <==> attendance in {"attended", "no-show", "pending", "cancelled"}
  {
  }

  /** Each of the calendar's content lines ends in CRLF (RFC 5545 section
      3.1). */
  lemma IcsLineEndings(localhost: bool, bookingId: string, restaurantName: string, partySize: int,
                       start: Instant, duration: Duration, attendance: string, now: Instant, i: int)
    requires IcsLines(localhost, bookingId, restaurantName, partySize, start, duration, attendance, now).Some?
    requires 0 <= i < 15
    ensures var lines := IcsLines(localhost, bookingId, restaurantName, partySize, start, duration, attendance, now).value;
            CreateIcs(localhost, bookingId, restaurantName, partySize, start, duration, attendance, now)
              == Some(Unlines(lines[..i]) + lines[i] + CRLF + Unlines(lines[i + 1..]))
  {
    IcsShape(localhost, bookingId, restaurantName, partySize, start, duration, attendance, now);
    UnlinesAround(IcsLines(localhost, bookingId, restaurantName, partySize, start, duration, attendance, now).value, i);
  }

  /** The calendar's DTEND is the corrected end: for a one-slot booking it
      is not the line that line 57 as written would give. */
  lemma IcsDtEnd(localhost: bool, bookingId: string, restaurantName: string, partySize: int,
                 start: Instant, attendance: string, now: Instant)
    requires IcsStatus(attendance).Some?
    requires 0 <= UtcFields(DtEnd(start, SlotsDuration(1))).year <= 9999
    requires 0 <= UtcFields(DtEndAsWritten(start, SlotsDuration(1))).year <= 9999
    ensures var lines := IcsLines(localhost, bookingId, restaurantName, partySize, start, SlotsDuration(1), attendance, now).value;
            && lines[8] == "DTEND:" + FormatDateTime(DtEnd(start, SlotsDuration(1)))
            && lines[8] != "DTEND:" + FormatDateTime(DtEndAsWritten(start, SlotsDuration(1)))
  {
    var fixed, written := DtEnd(start, SlotsDuration(1)), DtEndAsWritten(start, SlotsDuration(1));
    var lines := EventLines(FormatDateTime(now), bookingId, FormatDateTime(start), FormatDateTime(fixed),
                            IcsStatus(attendance).value, restaurantName, IntToDecimal(partySize), Host(localhost));
    assert IcsLines(localhost, bookingId, restaurantName, partySize, start, SlotsDuration(1), attendance, now).value
        == lines;
    EventLinesShape(FormatDateTime(now), bookingId, FormatDateTime(start), FormatDateTime(fixed),
                    IcsStatus(attendance).value, restaurantName, IntToDecimal(partySize), Host(localhost));
    assert FormatDateTime(fixed) != FormatDateTime(written) by {
      DtEndAsWrittenWraps(start);
      assert written + SECOND <= fixed;
      FormatDateTimeRoundTrip(fixed);
      FormatDateTimeRoundTrip(written);
      assert written / SECOND < fixed / SECOND;
    }
    var a, b := "DTEND:" + FormatDateTime(fixed), "DTEND:" + FormatDateTime(written);
    assert a[6..] == FormatDateTime(fixed) && b[6..] == FormatDateTime(written);
  }

  /** The calendar is a VCALENDAR around exactly one VEVENT, whose UID,
      SUMMARY and URL carry the booking, restaurant and host. */
  lemma IcsShape(localhost: bool, bookingId: string, restaurantName: string, partySize: int,
                 start: Instant, duration: Duration, attendance: string, now: Instant)
    requires IcsLines(localhost, bookingId, restaurantName, partySize, start, duration, attendance, now).Some?
    ensures var lines := IcsLines(localhost, bookingId, restaurantName, partySize, start, duration, attendance, now).value;
            |lines| == 15
            && lines[0] == "BEGIN:VCALENDAR" && lines[14] == "END:VCALENDAR"
            && (forall i | 0 <= i < 15 :: lines[i] == "BEGIN:VEVENT" <==> i == 4)
            && (forall i | 0 <= i < 15 :: lines[i] == "END:VEVENT" <==> i == 13)
            && lines[6] == "UID:" + bookingId + "@stront.rest"
            && lines[11] == "SUMMARY:Booking at " + restaurantName + " for " + IntToDecimal(partySize) + " people"
            && lines[12] == "URL:" + Host(localhost) + "/bookings/cal/" + bookingId + ".ics"
  {
    var status := IcsStatus(attendance).value;
    var stamp, dtstart := FormatDateTime(now), FormatDateTime(start);
    var dtend, party := FormatDateTime(DtEnd(start, duration)), IntToDecimal(partySize);
    var host := Host(localhost);
    assert IcsLines(localhost, bookingId, restaurantName, partySize, start, duration, attendance, now).value
        == EventLines(stamp, bookingId, dtstart, dtend, status, restaurantName, party, host);
    EventLinesShape(stamp, bookingId, dtstart, dtend, status, restaurantName, party, host);
  }

  /** The fifteen lines open and close the calendar, hold one event between
      lines 4 and 13, and place the identifier, name, party size and host. */
  lemma EventLinesShape(stamp: string, id: string, dtstart: string, dtend: string, status: string,
                        name: string, party: string, host: string)
    ensures var lines := EventLines(stamp, id, dtstart, dtend, status, name, party, host);
            |lines| == 15
            && lines[0] == "BEGIN:VCALENDAR" && lines[14] == "END:VCALENDAR"
            && (forall i | 0 <= i < 15 :: lines[i] == "BEGIN:VEVENT" <==> i == 4)
            && (forall i | 0 <= i < 15 :: lines[i] == "END:VEVENT" <==> i == 13)
            && lines[6] == "UID:" + id + "@stront.rest"
            && lines[7] == "DTSTART:" + dtstart && lines[8] == "DTEND:" + dtend
            && lines[11] == "SUMMARY:Booking at " + name + " for " + party + " people"
            && lines[12] == "URL:" + host + "/bookings/cal/" + id + ".ics"
  {
    var lines := EventLines(stamp, id, dtstart, dtend, status, name, party, host);
    assert lines[5][0] == 'D' && lines[6][0] == 'U' && lines[7][0] == 'D' && lines[8][0] == 'D';
    assert lines[9][0] == 'S' && lines[11][0] == 'S' && lines[12][0] == 'U';
    assert |lines[0]| != 12 && |lines[14]| != 10;
  }

  /** `ServeHTTP`'s id: the path value without its last four characters,
      whatever they are; `None` where slicing panics on a shorter value. */
  function StripIcsSuffix(id: string): (r: Option<string>)
    ensures r.Some? <==> |id| >= 4
    ensures r.Some? ==> r.value + id[|id| - 4..] == id
  {
    if |id| < 4 then None else Some(id[..|id| - 4])
  }

  /** The suffix is not checked: ".ics" and any other four characters are
      dropped alike. */
  lemma StripIgnoresSuffix(base: string, suffix: string)
    requires |suffix| == 4
    ensures StripIcsSuffix(base + suffix) == Some(base)
    ensures StripIcsSuffix(base + ".ics") == Some(base)
  {
    assert (base + suffix)[..|base|] == base;
    assert (base + ".ics")[..|base|] == base;
  }
}
