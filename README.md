# STRONT booking core, modelled in Dafny

STRONT is a restaurant table-booking site. A restaurant's week is a set of
seven bit masks, one per weekday, where bit *i* means "the half-hour slot
*i* after midnight is open"; "occasions" override one day's mask, once or
every year. The Go backend resolves these into a seven-day forecast,
stores bookings with a monetary deposit and enumerated status texts,
renders each booking as an iCalendar event, mails the restaurant and the
customer, and serves and updates restaurant details. The TypeScript
frontend builds the masks on the booking-settings page, reads them back on
the make-booking page, formats slot labels and durations, validates and
builds the booking, log-in and sign-up forms, filters lists of
restaurants and bookings, edits tags, and keeps the account page's user
and bookings in the browser's storage.

This project models that core, one Dafny module per source file, with a
few shared modules: `Wrappers` (Option and Result), `Seqs` (filtering and
subsequences), `Text` (JavaScript and Go whitespace, trimming, ASCII
lower-casing, splitting and joining, decimal digits, Go's `%0Nd`),
`Calendar` (civil dates as day numbers, Go's weekday numbering), `GoInt`
(Go's `int64` and `strconv.ParseInt`) and `Bits` (bits of unbounded
integers). Pure code is modelled as functions with lemmas; code that
updates state in place is a class whose methods state the whole new
state: `Availability.Availability` (occasions overwrite its masks),
`BookingModel.Monetary` and `BookingModel.TextEnum` (the `sql.Scanner`
methods write through their receiver), `MakeBooking.PartySize`,
`Profile.ProfilePage`, `Account.AccountPage` (sorting the stored bookings
in place on an array) and `AccountSetting.SettingsPage`.

Three facts of the code shape the model:

- a yearly-recurring occasion overwrites the mask of the weekday of its
  *stored* date, not of the forecast day it matches
  (`backend/model/availability_test.go:85-118`; lemma
  `Availability.RecurringKeyedByStoredDate`);
- the make-booking page reads slot *i* from bit 47 − *i* through
  JavaScript's 32-bit `>>`, while the booking-settings page writes slot
  *i* to bit *i*; the two pages therefore disagree, and only the low 32
  bits are visible (`MakeBooking.ReadsSettingsMaskReversed`,
  `MakeBooking.CheckTimeWraps`);
- `backend/api/booking.go` stores a booking without checking it against a
  per-slot capacity; there is no admission operation to model.

## Model

| member | source | states |
|---|---|---|
| Availability.LastOn | backend/model/availability_test.go:50-118 | the occasion that decides a weekday is one that applies in the window and falls on that weekday; there is none exactly when no occasion does |
| Availability.AppliedFrame | backend/model/availability_test.go:73-82 | a weekday that no applying occasion falls on keeps its mask |
| Availability.Order | backend/model/availability_test.go:178-196 | seven entries; entry i is dated today + i and carries the mask of that date's weekday |
| Availability.Availability.WeekdayMask | backend/model/availability_test.go:10-39 | each weekday designates its own field: Monday the Monday mask, …, Sunday the Sunday mask |
| Availability.Availability.SetWeekdayMask | backend/model/availability_test.go:22-29 | writing through the designated field changes that weekday's mask and no other |
| Availability.Availability.ApplyOccasions | backend/model/availability_test.go:50-151 | every occasion that applies in [from, to), in order, overwrites the mask of its stored date's weekday; the occasions are kept |
| Availability.Availability.IntoOrder | backend/model/availability_test.go:178-196 | seven entries from today, each dated today + i with the mask `WeekdayMask` gives for that date's weekday |
| Availability.Availability.constructor | backend/model/availability_test.go:12-20 | the seven masks are the given week, Sunday first, and the occasions are the given ones |
| Availability.Forecast | backend/api/availability.go:25-59 | today is the local midnight of now; occasions are applied over the next seven days and the masks are then ordered from today |
| Availability.AdjustToWeekday | backend/model/availability_test.go:45-48 | the date within the next seven days that falls on the requested weekday |
| Availability.OneOffOccasion | backend/model/availability_test.go:50-83 | a one-off occasion in the coming week sets exactly its weekday's mask |
| Availability.RecurringOccasion | backend/model/availability_test.go:85-118 | a yearly-recurring occasion whose month and day fall in the window sets exactly the mask of its stored date's weekday |
| Availability.RecurringElsewhere | backend/model/availability_test.go:120-151 | a yearly-recurring occasion whose month and day are outside the window changes no mask |
| Availability.RecurringKeyedByStoredDate | backend/model/availability_test.go:85-118 | the overwritten weekday is the stored date's, not the anniversary's: a Friday occasion changes Friday in a window whose anniversary is a Saturday |
| Availability.OrderRotates | backend/model/availability_test.go:198-204 | with the test's masks the forecast is the weekly values rotated to start at today's weekday |
| BookingModel.ScanBytes | backend/model/booking.go:53-61 | an enumeration scan succeeds exactly for byte strings and takes them as they are |
| BookingModel.NullStringScan | backend/model/booking.go:110-114 | the scan fails exactly for a value of a type no string can hold; NULL, text, bytes, integers, booleans, floats and times all convert |
| BookingModel.ScanErrorKeeps | backend/model/booking.go:109-148 | a failed scan keeps the cents, keeps the dollars unless the cents were the bad part, and an unconvertible value changes nothing |
| BookingModel.ParseAmountKeeps | backend/model/booking.go:123-145 | the same for the parse of the parts after the split |
| BookingModel.ScanAsText | backend/model/booking.go:110-117 | a value scans as the text it converts to |
| BookingModel.ScanFloatAsText | backend/model/booking.go:110-145 | a float whose text is "dollars.cents" scans as those dollars and cents |
| BookingModel.ScanPlainAmount | backend/model/booking.go:117-145 | the text "dollars.cents" scans as those dollars and cents |
| BookingModel.TextEnum.Scan | backend/model/booking.go:82-90 | refuses every non-byte value and leaves the field; accepts any byte string and stores it |
| BookingModel.EnumRoundTrip | backend/model/booking.go:78-90 | scanning the stored text of an enumeration gives the same value back |
| BookingModel.EnumScanUnchecked | backend/model/booking.go:54-60 | texts outside the listed constants ("maybe", "fax") are accepted unchanged |
| BookingModel.Monetary.Scan | backend/model/booking.go:109-148 | the error and the two fields after a scan are those of the step-by-step parse: dollars written before the cents are parsed |
| BookingModel.FormattedIntShape | backend/model/booking.go:104 | a rendered integer has no '.', ends in a digit and does not start with whitespace |
| BookingModel.ScanValueRoundTrip | backend/model/booking.go:103-148 | scanning `Value()` restores both fields, negative cents included, whatever the fields held before |
| BookingModel.ScanBlankKeeps | backend/model/booking.go:110-120 | NULL, the empty text and whitespace scan without error and change nothing |
| BookingModel.ScanManyDots | backend/model/booking.go:122-128 | two or more '.' are a format error and nothing is written |
| BookingModel.ScanDollarsOnly | backend/model/booking.go:130-146 | an amount without '.' writes the dollars and keeps the previous cents |
| BookingModel.ScanNeedsDollars | backend/model/booking.go:130-134 | a text starting with '.', such as ".50", is refused before anything is written |
| BookingModel.ScanCentsAsInteger | backend/model/booking.go:138-145 | the cents are read as a plain integer: leading zeros vanish, so "1.5" and "1.05" both give five cents |
| BookingModel.ZeroPaddedCents | backend/model/booking.go:140 | zeros in front of a number's digits parse away |
| BookingModel.ScanPartialWrite | backend/model/booking.go:135-143 | a bad cents part is reported after the dollars were already overwritten |
| BookingModel.ScanParts | backend/model/booking.go:117-145 | a "dollars.cents" text with no whitespace at its ends is parsed as its two parts |
| Ics.UtcFields | backend/api/ics.go:17-19 | the UTC month, day, hour, minute and second are within their ranges |
| Ics.FormatFieldsRoundTrip | backend/api/ics.go:19 | fields within their widths land at fixed positions of a YYYYMMDD"T"HHMMSS"Z" text and read back as the same date and time |
| Ics.FormatDateTimeRoundTrip | backend/api/ics.go:17-20 | for years 0-9999 the text is sixteen characters in the fixed layout and reads back as the instant, to the second |
| Ics.IcsStatus | backend/api/ics.go:31-41 | attended and no-show give COMPLETED, pending CONFIRMED, cancelled CANCELLED; every other attendance is the panic |
| Ics.DtEndIsBookingLength | backend/api/ics.go:57 | corrected: the event ends the booking length after its start, never before it (the caller at line 103 passes the length already in minutes) |
| Ics.DtEndAsWrittenWraps | backend/api/ics.go:57 | as written: a one-slot booking ends about 145 years before it starts (the caller at line 103 passes the length already in minutes) |
| Ics.Unlines | backend/api/ics.go:49-65 | a text of one or more lines ends in CRLF |
| Ics.UnlinesAppend | backend/api/ics.go:49-65 | the text of two runs of lines is the text of the first followed by that of the second |
| Ics.UnlinesAround | backend/api/ics.go:49-65 | every line, wherever it stands, is followed by its own CRLF: the text is the lines before it, the line, CRLF and the lines after it |
| Ics.IcsLines | backend/api/ics.go:22-65 | there are content lines exactly when the attendance has a status, and then fifteen of them |
| Ics.CreateIcs | backend/api/ics.go:22-65 | a calendar is produced exactly for attended, no-show, pending and cancelled, and it ends in CRLF |
| Ics.IcsLineEndings | backend/api/ics.go:49-65 | each of the fifteen content lines of the calendar is followed by CRLF (section 3.1 of RFC 5545) |
| Ics.IcsDtEnd | backend/api/ics.go:57 | corrected: the DTEND line of a one-slot booking is the booking length after its start, and differs from the line the code as written gives |
| Ics.IcsProducedIff | backend/api/ics.go:31-41 | a calendar is produced exactly for the four known attendances |
| Ics.IcsShape | backend/api/ics.go:49-65 | BEGIN:VCALENDAR … END:VCALENDAR around exactly one VEVENT, with the UID, SUMMARY and URL lines carrying the booking id, restaurant, party size and host |
| Ics.EventLinesShape | backend/api/ics.go:43-65 | the fifteen lines open and close the calendar, hold one event, and place the id, name, party size and host |
| Ics.StripIcsSuffix | backend/api/ics.go:109-111 | the last four characters are dropped whatever they are; shorter values are the slicing panic |
| Ics.StripIgnoresSuffix | backend/api/ics.go:110-111 | ".ics" and any other four characters are stripped alike |
| Email.To | backend/api/email_helpers.go:35-43 | no address is NoAddress; otherwise a "To: " line ending in CRLF that holds the address, bare exactly when the name is empty |
| Email.Multipart | backend/api/email_helpers.go:60-81 | the body ends with the close delimiter and, with any part, starts with the part delimiter |
| Email.MessageIsMultipart | backend/api/email_helpers.go:67-81 | the concatenated message is the headers followed by a multipart body of the plain-text, HTML and calendar parts in that order |
| Email.SendMail | backend/api/email_helpers.go:58-100 | the message is submitted exactly when there is an address, it is allowed and the credentials are set; it goes to that address and is the multipart message |
| Email.MissingAddressFirst | backend/api/email_helpers.go:63-66 | a missing address is reported before anything else |
| Email.AllowlistBeforeCredentials | backend/api/email_helpers.go:83-92 | a refused address is reported even when the credentials are missing too |
| Email.CredentialsLast | backend/api/email_helpers.go:88-92 | an allowed address without username or password is refused as unconfigured |
| Email.LocalHostWithoutAllowlist | backend/api/email_helpers.go:84-87 | a localhost deployment with an empty allowlist sends nothing |
| Email.NoticeFor | backend/api/email_helpers.go:126-156 | attended and no-show send nothing, unknown attendances panic, and a letter's attendance maps to CONFIRMED or CANCELLED |
| Email.NotifiersAgree | backend/api/email_helpers.go:207-235 | both notifiers stay quiet, panic and choose the subject alike |
| Email.SubjectByAttendance | backend/api/email_helpers.go:130-153 | the subject starts "New booking at " exactly for pending and "Cancelled booking at " exactly for cancelled |
| Email.NotesSection | backend/api/email_helpers.go:158-163 | notes add a section exactly when there are some; the plain-text section is the note lines joined by CRLF, then a blank line |
| Email.NotesLineEndings | backend/api/email_helpers.go:161 | every line feed of the plain-text notes ends a CRLF |
| Email.NotesOnlyBreaks | backend/api/email_helpers.go:162 | with escaped notes the only markup in the HTML notes is the `<br>` of each line break |
| Email.Notify | backend/api/email_helpers.go:120-198 | nothing is sent for attended and no-show, unknown attendances panic, and otherwise the mail goes to the booking's mailbox exactly when it is deliverable |
| Email.CustomerLinkMismatch | backend/api/email_helpers.go:251-260 | the customer's plain text links to "/bookings/…" but its HTML to "/booking/…"; the restaurant's copy at lines 172-181 uses "/bookings/…" in both |
| Email.HtmlLink | backend/api/email_helpers.go:177-180 | the HTML body holds the booking link under its path (and at lines 256-259) |
| Restaurant.SlicesEqualIff | backend/api/restaurant.go:45 | element-wise equality of the tags is equality of the lists |
| Restaurant.EqualIffSame | backend/api/restaurant.go:33-46 | two details are Equal exactly when all twelve fields agree |
| Restaurant.EqualReflexiveSymmetric | backend/api/restaurant.go:33-46 | Equal is reflexive and symmetric |
| Restaurant.ReorderedTagsDiffer | backend/api/restaurant.go:45 | the same two tags in the other order are not Equal |
| Restaurant.ProjectKeepsFields | backend/api/restaurant.go:344-357 | the projection forgets only the owning account and the availability |
| Restaurant.Browse | backend/api/restaurant.go:335-360 | a query error is passed on; otherwise one details record per row, same length and order, every field copied |
| Restaurant.Update | backend/api/restaurant.go:239-288 | a failing query reports success and changes nothing; otherwise the selected rows take the new fields and NonExistentRestaurantError is returned exactly when none is selected |
| Restaurant.CountZeroIffNone | backend/api/restaurant.go:283-285 | no RETURNING row exactly when no stored restaurant is selected |
| Restaurant.UpdateNotOwned | backend/api/restaurant.go:259-285 | a restaurant owned by another account is left alone and reported as non-existent |
| GoInt.Wrap64 | backend/api/ics.go:57 | Go's `int64` arithmetic: the result is congruent to the exact value modulo 2^64 and equal to it when it is in range |
| GoInt.ParseFormatted | backend/model/booking.go:131-140 | whatever `%d`/`%02d` renders, `strconv.ParseInt(…, 10, 64)` reads back as the same value (and the `%d` of line 104) |
| BookingSetting.HourMaskBits | frontend/src/routes/booking-setting/index.tsx:20-28 | bit k of the mask is set exactly when the opening slot ≤ k < the closing slot |
| BookingSetting.HourMaskEmpty | frontend/src/routes/booking-setting/index.tsx:26-27 | closing at or before opening gives the mask 0 |
| BookingSetting.HourMaskNonEmpty | frontend/src/routes/booking-setting/-booking-setting.test.ts:24-27 | a close after the open gives a positive mask, as 09:00-21:00 does |
| BookingSetting.HourMaskBelowClose | frontend/src/routes/booking-setting/index.tsx:28 | the mask lies below 2^close |
| BookingSetting.HourMaskBelow47 | frontend/src/routes/booking-setting/index.tsx:28-29 | with the page's hours 0-23 the mask is below 2^47, so `Number(mask)` is exact |
| BookingSetting.HourMaskDistinctStarts | frontend/src/routes/booking-setting/-booking-setting.test.ts:35-39 | different opening times before the same close give different masks |
| BookingSetting.ToggleDay | frontend/src/routes/booking-setting/index.tsx:7-12 | only the toggled day's membership flips; every other day is as before |
| BookingSetting.ToggleTwice | frontend/src/routes/booking-setting/index.tsx:7-12 | toggling the same day twice gives the original set back |
| BookingSetting.RequestOpensSelectedDays | frontend/src/routes/booking-setting/index.tsx:43-58 | the request carries the restaurant id; a non-zero mask opens exactly the selected weekdays, a zero mask none |
| MakeBooking.ToInt32 | frontend/src/routes/make-booking/index.tsx:31 | ToInt32 of section 7.1.6 of ECMA-262: a signed 32-bit value congruent to the input modulo 2^32 |
| MakeBooking.ShiftCount | frontend/src/routes/make-booking/index.tsx:30-31 | the shift count `>>` uses is below 32 (section 13.9.2 of ECMA-262) |
| MakeBooking.CheckTimeBit | frontend/src/routes/make-booking/index.tsx:28-34 | `checkTime(m, i)` holds exactly when bit (47 - i) mod 32 of m mod 2^32 is set |
| MakeBooking.CheckTimeLow32 | frontend/src/routes/make-booking/index.tsx:31 | masks equal modulo 2^32 answer alike: only the low 32 bits are visible |
| MakeBooking.CheckTimeWraps | frontend/src/routes/make-booking/index.tsx:30-33 | slots i and i + 32 (0 ≤ i ≤ 15) always give the same answer |
| MakeBooking.ReadsSettingsMaskReversed | frontend/src/routes/make-booking/index.tsx:28-34 | on a mask from the booking-settings page, slot i reports whether slot (47 - i) mod 32 was opened there |
| MakeBooking.ListAvailableTimes | frontend/src/routes/make-booking/index.tsx:20-26 | exactly the slots 0..47 for which `checkTime` holds, strictly ascending |
| MakeBooking.MinutesText | frontend/src/routes/make-booking/index.tsx:37 | the minutes part is three characters without ':' |
| MakeBooking.HoursText | frontend/src/routes/make-booking/index.tsx:40-47 | the hour part is non-empty digits |
| MakeBooking.TimeFromMaskValue | frontend/src/routes/make-booking/index.tsx:36-49 | the label is the hour digits, ':', "00 " for even and "30 " for odd values, then PM from 24 on and AM below |
| MakeBooking.HoursTextValue | frontend/src/routes/make-booking/index.tsx:40-47 | the hour reads back as v/2 - 12 above 25, 12 for 24 and 25, v/2 for 2..23 and 0 for 0 and 1 |
| MakeBooking.TimeLabelRoundTrip | frontend/src/routes/make-booking/index.tsx:36-49 | every slot of the day has a label that reads back as that slot |
| MakeBooking.TimeLabelsDistinct | frontend/src/routes/make-booking/index.tsx:36-49 | distinct slots of the day have distinct labels |
| MakeBooking.PartySize.constructor | frontend/src/routes/make-booking/index.tsx:85 | the stepper starts at one guest |
| MakeBooking.PartySize.Plus | frontend/src/routes/make-booking/index.tsx:90-94 | one more guest below the table size of five, otherwise unchanged; the bounds 1..5 are kept |
| MakeBooking.PartySize.Minus | frontend/src/routes/make-booking/index.tsx:95-99 | one fewer guest above one, otherwise unchanged; the bounds 1..5 are kept |
| MakeBooking.ParseDates | frontend/src/routes/make-booking/index.tsx:10-16 | one date object per entry, in order, with the parsed date and the entry's mask |
| Search.JsRem | frontend/src/routes/search/index.tsx:27-29 | JavaScript's `%`: the remainder lies strictly between -b and b and is the mathematical remainder for a dividend that is not negative |
| Search.MinuteDigits | frontend/src/routes/search/index.tsx:28-31 | the minutes of a slot are two digits |
| Search.SlotLabelParts | frontend/src/routes/search/index.tsx:25-33 | the label is the 12-hour clock hour (0 and 12 shown as 12), "00" for even and "30" for odd slots, and PM exactly when hours modulo 24 are 12 or more |
| Search.SlotLabel | frontend/src/routes/search/index.tsx:25-33 | the label ends in a space and "AM" or "PM" |
| Search.ReadSlotLabel | frontend/src/routes/search/index.tsx:25-33 | a label that reads back names a slot of the day, 0..47 |
| Search.ReadTail | frontend/src/routes/search/index.tsx:30-32 | the "<mm> <AM|PM>" end of a label reads back as its half and period |
| Search.ReadClock | frontend/src/routes/search/index.tsx:29-32 | an hour 1-12, "00"/"30" and a period read back as their slot |
| Search.ClockSlotOfSlot | frontend/src/routes/search/index.tsx:27-30 | the hour and half a label shows name its slot modulo 48 |
| Search.SlotLabelRoundTrip | frontend/src/routes/search/index.tsx:25-33 | the label of any slot that is not negative reads back as that slot modulo the 48 slots of a day |
| Search.ReadToken | frontend/src/routes/search/index.tsx:40-42 | a number followed by "h" or "m" holds no space and reads back as its minutes |
| Search.ReadHoursAndMinutes | frontend/src/routes/search/index.tsx:40 | "<h>h <m>m" reads back as 60·h + m minutes |
| Search.ReadOneUnit | frontend/src/routes/search/index.tsx:41-42 | "<h>h" or "<m>m" alone reads back as its minutes |
| Search.FormatDurationRoundTrip | frontend/src/routes/search/index.tsx:35-43 | no slots, or fewer, show "--"; otherwise the text reads back as slots·30 minutes |
| Search.FormatDuration | frontend/src/routes/search/index.tsx:35-36 | the text is "--" exactly when there are no slots or fewer |
| Search.FormatMinutes | frontend/src/routes/search/index.tsx:37-42 | a duration is shown ending in "h" or "m" |
| Search.FormatMinutesRoundTrip | frontend/src/routes/search/index.tsx:37-42 | a positive number of minutes, shown as hours and minutes, hours or minutes, reads back as itself |
| Search.NonEmpty | frontend/src/routes/search/index.tsx:52-63 | a value is kept, unchanged, exactly when it is a non-empty string |
| Search.ValidateSearch | frontend/src/routes/search/index.tsx:47-65 | `q` survives, untrimmed, exactly when it is non-blank after trimming; date, time slot and party size exactly when non-empty |
| Search.ValidateSearchIdempotent | frontend/src/routes/search/index.tsx:47-65 | validating twice is validating once |
| Search.QueryParams | frontend/src/routes/search/index.tsx:75-78 | at most three parameters, none with an empty value |
| Search.QueryStringEmptyIff | frontend/src/routes/search/index.tsx:74-81 | the query string is empty exactly when none of date, time slot and party size is set, and `q` never changes it |
| Search.QueryString | frontend/src/routes/search/index.tsx:79-80 | a query string that is not empty starts with "?" |
| Search.QueryStringRoundTrip | frontend/src/routes/search/index.tsx:74-81 | with an invertible encoding, the query string is "?" followed by fields that parse back to date, time slot and party size, in that order |
| Search.SerializeRoundTrip | frontend/src/routes/search/index.tsx:79 | serialised parameters with plain names parse back to themselves |
| Search.ParseFieldRoundTrip | frontend/src/routes/search/index.tsx:79 | one `name=value` field parses back to its name and value |
| Search.FilteredByQuery | frontend/src/routes/search/index.tsx:115-130 | no list gives none; a blank keyword keeps the list; otherwise exactly the listings whose lower-cased text holds the trimmed, lower-cased keyword, each as many times as in the list, as an order-preserving sublist |
| Browse.FormatDurationRoundTrip | frontend/src/routes/index.tsx:33-35 | the text is digits and " min", and the digits read back as slots·30 |
| Browse.FormatDuration | frontend/src/routes/index.tsx:33-35 | the text ends in " min" after at least one character |
| Browse.Normalize | frontend/src/routes/index.tsx:65-72 | tags that are not an array become none; every other field is kept |
| Browse.Load | frontend/src/routes/index.tsx:61-72 | a body that is not an array is the "Bad restaurant payload" error; otherwise one normalised restaurant per entry, in order |
| Browse.AvailableTags | frontend/src/routes/index.tsx:93-100 | no list gives no tags; otherwise exactly the tags some restaurant carries that are non-blank after trimming, stored untrimmed |
| Browse.ListedExtend | frontend/src/routes/index.tsx:96-97 | a tag is listed by one more restaurant exactly when the earlier ones list it or the new one carries it |
| Browse.FilteredRestaurants | frontend/src/routes/index.tsx:104-132 | no list gives none; otherwise exactly the restaurants with every selected tag whose text holds the trimmed, lower-cased keyword, each as many times as in the list, as an order-preserving sublist |
| Browse.ShownHaveSelectedTags | frontend/src/routes/index.tsx:108-113 | every shown restaurant has every selected tag |
| Browse.NoFiltersShowAll | frontend/src/routes/index.tsx:104-132 | with no tag selected and a blank keyword the whole list is shown |
| Browse.ToggleTag | frontend/src/routes/index.tsx:134-140 | a selected tag loses every copy and the rest keep their order and counts; an unselected tag is appended |
| Browse.ToggleTagTwice | frontend/src/routes/index.tsx:134-140 | selecting an unselected tag and toggling it again restores the selection |
| Browse.NoMatchesIff | frontend/src/routes/index.tsx:142-151 | "no matches" shows exactly when there is no error, loading is over, the list is non-empty and every restaurant fails the filter |
| Browse.NoFiltersNoMatches | frontend/src/routes/index.tsx:142-151 | with no tag selected and a blank keyword "no matches" never shows |
| BookingPage.SplitAtSingle | frontend/src/routes/booking/index.tsx:12 | a text with one '@' splits into the parts before and after it |
| BookingPage.ValidEmailHasParts | frontend/src/routes/booking/index.tsx:11-13 | an accepted address is one '@' between a non-empty local part and a domain with an inner '.', with no whitespace |
| BookingPage.PartsGiveValidEmail | frontend/src/routes/booking/index.tsx:11-13 | every text of that shape is accepted |
| BookingPage.ValidEmailByParts | frontend/src/routes/booking/index.tsx:11-13 | `isValidEmail` holds exactly for texts of that shape |
| BookingPage.ValidEmailIsTrimmed | frontend/src/routes/booking/index.tsx:43 | an accepted address is unchanged by trimming (the pattern of line 12) |
| BookingPage.EmailExamples | frontend/src/routes/booking/-booking.test.ts:24-33 | "john@example.com" is accepted; "wrong@com" and "noatsymbol.com" are not |
| BookingPage.ValidateBookingInput | frontend/src/routes/booking/index.tsx:50-67 | the first failure in order: missing date or time, then an empty name, then an invalid address; none when all pass |
| BookingPage.OptionalText | frontend/src/routes/booking/index.tsx:44-45 | nothing for an absent or blank text, otherwise the non-empty trimmed text |
| BookingPage.BuildBookingPayload | frontend/src/routes/booking/index.tsx:15-48 | restaurant, date, time and party size pass through; names and address are trimmed; phone and notes are trimmed or left out when blank; the instant comes from the date and time |
| BookingPage.OptionalTextIdempotent | frontend/src/routes/booking/index.tsx:44-45 | mapping an optional text twice maps it once |
| BookingPage.BuildBookingPayloadIdempotent | frontend/src/routes/booking/index.tsx:36-47 | building a payload from a payload's own fields gives the same payload |
| BookingPage.BlankNamePassesValidation | frontend/src/routes/booking/index.tsx:41-64 | a name of spaces passes the check, which is untrimmed, and is sent empty |
| BookingPage.ValidEmailSentAsTyped | frontend/src/routes/booking/index.tsx:43-65 | an address that passes the check is sent exactly as typed |
| BookingPage.FilterBookings | frontend/src/routes/booking/index.tsx:69-78 | a blank keyword gives the list itself; otherwise exactly the bookings whose lower-cased "first last email" holds the trimmed, lower-cased keyword, each as many times as in the list, as an order-preserving sublist |
| BookingPage.RemoveBooking | frontend/src/routes/booking/index.tsx:253-265 | nothing changes for an empty id or an unconfirmed or failed cancellation; otherwise exactly the bookings with that id go and the rest keep their order and counts |
| Auth.PhoneByDigitCount | frontend/src/components/play/AuthModal.tsx:10 | a phone number is any text with at least nine digits |
| Auth.PhoneIgnoresSeparator | frontend/src/components/play/AuthModal.tsx:10 | inserting a non-digit anywhere does not change whether the text is a phone number |
| Auth.ValidEmailIsEmail | frontend/src/components/play/AuthModal.tsx:9 | every address the bookings page accepts is an e-mail for the dialog |
| Auth.EmailUnanchored | frontend/src/components/play/AuthModal.tsx:9 | the converse fails: an address with surrounding text is an e-mail here and is refused on the bookings page |
| Auth.LowerKeepsMarks | frontend/src/components/play/AuthModal.tsx:59 | lower-casing keeps '@' and '.' and makes no new ones |
| Auth.EmailOfLower | frontend/src/components/play/AuthModal.tsx:59 | an identifier whose lower-case form is an e-mail is an e-mail itself (the pattern of line 9) |
| Auth.CodeInput | frontend/src/components/play/AuthModal.tsx:157 | the code field holds the typed digits in order, all of them when fewer than four were typed and the first four otherwise |
| Auth.CodeInputIdempotent | frontend/src/components/play/AuthModal.tsx:157 | feeding the field its own value changes nothing |
| Auth.LoginError | frontend/src/components/play/AuthModal.tsx:53-56 | an identifier that is neither e-mail nor phone is refused first, then a password shorter than six; none when both pass |
| Auth.Login | frontend/src/components/play/AuthModal.tsx:53-72 | a failed check is refused with its message; the demo address in any case with the demo password signs in the demo user without a request; anything else asks the server with the typed credentials |
| Auth.DemoEmailIsEmail | frontend/src/components/play/AuthModal.tsx:11 | the demo address passes the identifier check |
| Auth.DemoSignsIn | frontend/src/components/play/AuthModal.tsx:59-61 | any identifier whose lower-case form is the demo address signs in with the demo password |
| Auth.SignUp | frontend/src/components/play/AuthModal.tsx:77-85 | the first failure in order: identifier, a code that is not four characters, a trimmed name under two, a password under six, a mismatched confirmation; otherwise the user with the clock's id and the typed identifier and name |
| Auth.SignUpPassesLogin | frontend/src/components/play/AuthModal.tsx:53-82 | credentials a sign-up accepts pass the log-in checks |
| Auth.TypedCodeAccepted | frontend/src/components/play/AuthModal.tsx:157 | a code typed with four or more digits, however formatted, passes the code check (the digit count of line 79) |
| TagEditing.AddTag | frontend/src/routes/account/App.tsx:25-30 | an addable input is appended trimmed and cleared, anything else changes nothing; no tag but that one is added and a duplicate-free list stays so |
| TagEditing.RemoveTag | frontend/src/routes/account/App.tsx:32-34 | every copy of the tag goes, the rest keep their order and counts |
| TagEditing.AddTagTwice | frontend/src/routes/account/App.tsx:26 | the same input is refused once it has been added |
| TagEditing.RemoveUndoesAdd | frontend/src/routes/account/App.tsx:25-34 | removing a tag just added gives the old list back |
| Profile.SaveRequest | frontend/src/routes/profile/index.tsx:82-98 | none without a restaurant id; otherwise id, name, description, address and tags as typed, and the e-mail, phone and page text trimmed, each present exactly when not blank |
| Profile.OptionalTextReloaded | frontend/src/routes/profile/index.tsx:96-98 | an optional text loaded back into the form and mapped again is the same (the load of lines 57-59) |
| Profile.ResaveUnchanged | frontend/src/routes/profile/index.tsx:53-98 | loading what a request stored and saving again sends the same request |
| Profile.ProfilePage.constructor | frontend/src/routes/profile/index.tsx:19-27 | the form starts with the tags "Tag" and "Vegan" and every text empty |
| Profile.ProfilePage.Load | frontend/src/routes/profile/index.tsx:53-59 | a missing text loads as "", tags that are not an array as none; the new-tag input is left alone |
| Profile.ProfilePage.AddTag | frontend/src/routes/profile/index.tsx:68-74 | the page's tags and input take the tag editor's step; nothing else changes |
| Profile.ProfilePage.RemoveTag | frontend/src/routes/profile/index.tsx:76-78 | every copy of the tag leaves the list; nothing else changes |
| Account.ReadStored | frontend/src/routes/account/index.tsx:20-41 | nothing stored, an empty text or a parse error gives the fallback; otherwise the parsed value |
| Account.ReadMe | frontend/src/routes/account/index.tsx:20-27 | a user is returned exactly when a non-empty stored text parses, and it is the parsed user |
| Account.ReadAllBookings | frontend/src/routes/account/index.tsx:34-41 | a non-empty stored text that parses gives the parsed map; any other map returned is the empty one |
| Account.DeleteFrom | frontend/src/routes/account/index.tsx:104-106 | the user's list (empty when missing) loses exactly the bookings with that id, the rest keep order and counts; every other user's list is unchanged |
| Account.DeleteTwice | frontend/src/routes/account/index.tsx:102-108 | deleting twice deletes once |
| Account.SortByCreatedDesc | frontend/src/routes/account/index.tsx:84 | the array ends newest first and is a permutation of what it held |
| Account.SinkNewest | frontend/src/routes/account/index.tsx:84 | one insertion step extends the newest-first prefix by one, as a permutation |
| Account.SavedProfile | frontend/src/routes/account/index.tsx:93 | the saved user keeps the id and has a trimmed name and address; the name is empty exactly when the typed one was blank |
| Account.SaveAgainUnchanged | frontend/src/routes/account/index.tsx:93 | saving the saved name and address again changes nothing |
| Account.AccountPage.constructor | frontend/src/routes/account/index.tsx:49-51 | the page starts with the stored user, and the form with that user's name and address or empty |
| Account.AccountPage.Bookings | frontend/src/routes/account/index.tsx:80-85 | no bookings when logged out; otherwise the user's stored bookings, newest first, as a permutation |
| Account.AccountPage.DeleteBooking | frontend/src/routes/account/index.tsx:102-109 | logged out nothing changes; otherwise the store becomes `DeleteFrom` on the user's key, and the user and form are unchanged |
| Account.AccountPage.SaveProfile | frontend/src/routes/account/index.tsx:87-100 | logged out nothing changes; otherwise the page's and the stored user become the saved profile, and the form shows its trimmed name and address (the `auth:changed` listener of lines 62-68); the bookings are unchanged |
| Account.AccountPage.SaveMe | frontend/src/routes/account/index.tsx:28-32 | the given user, or none, is stored and becomes the page's user, and the form shows its name and address or empty; the bookings are unchanged |
| Account.AccountPage.OnAuth | frontend/src/routes/account/index.tsx:62-68 | the announced user becomes the page's, and the form shows its name and address or empty; the store is unchanged |
| AccountSetting.JsTrimShorter | frontend/src/routes/account-setting/index.tsx:10 | trimming never lengthens a text |
| AccountSetting.SavableShowsNoWarning | frontend/src/routes/account-setting/index.tsx:73-82 | a savable form shows neither warning (the pattern of line 10) |
| AccountSetting.WarningBlocksSave | frontend/src/routes/account-setting/index.tsx:73-82 | either warning means the form cannot be saved (the pattern of line 10) |
| AccountSetting.PaddedPasswordSilentlyRefused | frontend/src/routes/account-setting/index.tsx:78-82 | a password of six or more characters that is shorter once trimmed, typed twice, shows no warning and cannot be saved (the pattern of line 10) |
| AccountSetting.PaddedIsShortOnceTrimmed | frontend/src/routes/account-setting/index.tsx:78-82 | "abc   " is such a password (the pattern of line 10) |
| AccountSetting.SettingsPage.constructor | frontend/src/routes/account-setting/index.tsx:6-9 | the fields start empty, no save running, no dialog |
| AccountSetting.SettingsPage.OnSave | frontend/src/routes/account-setting/index.tsx:12-22 | nothing unless the form can be saved; otherwise both fields are cleared; the dialog is left alone and the button is then disabled |
| AccountSetting.SettingsPage.AskDelete | frontend/src/routes/account-setting/index.tsx:86-92 | the dialog opens and the form is unchanged |
| AccountSetting.SettingsPage.CloseDeleteDialog | frontend/src/routes/account-setting/index.tsx:24-26 | the dialog closes, nothing is deleted and the form is unchanged (the button of line 118) |

## Left out

- HTTP routing, request decoding, SQL statements, transactions and their rollback, and `uuid.Parse`: the stored rows are a sequence the handlers filter, and a query error is a boolean parameter.
- `ServeHTTP` in `backend/api/ics.go` writes an error response and carries on without returning; the model stops at the error.
- SMTP delivery and its result, and the goroutine that sends notifications: `Email.SendMail` states what would be submitted, not whether the server accepts it.
- `html.EscapeString`, Go's `time.Format`, `time.Now`, JavaScript's `Date`, `Date.now`, `composeIso` and `JSON.parse`/`JSON.stringify` are parameters of the members that use them.
- The form-urlencoded serializer of the URL Standard is a parameter of `Search.QueryString`; only the property that it leaves no "&" or "=" and can be decoded is assumed of it, as a lemma's requires.
- `Browse.AvailableTags`: the final `localeCompare` sort is not modelled; the method states the set of tags.
- `Account.SortByCreatedDesc`: the stability of `Array.prototype.sort` is not stated, only the newest-first order and the permutation.
- Lower-casing is ASCII only; `toLowerCase` of other letters is not modelled.
- Lengths of JavaScript strings are counted in characters, not UTF-16 code units.
- `Search.SlotLabelRoundTrip`: stated for slots that are not negative; negative slots give negative hours in JavaScript and have no 12-hour label.
- `Number()` conversions, `NaN` and floating-point results are not modelled; masks are integers below 2^53.
- The availability model's methods are modelled from `backend/model/availability_test.go`, since their bodies are not part of this model; the window of a forecast is taken as half-open.
- The `storage` and `auth:changed`/`bookings:changed` events, log-out and `restoreUser` on the dialog are not modelled.
- The `confirm()` dialog of the bookings page is the `cancelled` parameter of `BookingPage.RemoveBooking`, which also stands for a failed request.
- The `saving` flag and the "Saved!" message of the account page's `saveProfile`, the loading and error states of every page, and the rendering of pages are not modelled.
- Fields that appear in one layer and not the other (occasion and booking fields the handlers do not read) are not modelled.
- Admitting a booking against capacity is not modelled: no such code exists.
- Ics.CreateIcs: the calendar carries the corrected DTEND of the Findings table, not the one `backend/api/ics.go:57` computes; the end as written is `Ics.DtEndAsWritten`, and `Ics.IcsDtEnd` shows that the two DTEND lines differ.
- Ics.StripIcsSuffix: drops the last four characters, while Go slices off the last four bytes; the two differ for identifiers holding non-ASCII characters.
- BookingModel.NullStringScan: a float or a time is carried as the text Go's conversion gives it (`strconv.FormatFloat` with format 'g', RFC 3339 with nanoseconds), not formatted by the model; Go's integer kinds other than `int64`, and unsigned ones, are not told apart.

## Findings

| source | as written | input that shows it | evidently intended | confidence | as-written member | corrected member |
|---|---|---|---|---|---|---|
| backend/api/ics.go:57 | `DTEND` adds `time.Duration(duration)*30*time.Minute`, where the caller at line 103 already passes the booking length as `slots*30*time.Minute`; the product overflows `int64` | a one-slot booking: 30 minutes × 30 × one minute wraps, and the event ends about 145 years before it starts | the event ends the booking length after its start | not executed | Ics.DtEndAsWrittenWraps | Ics.DtEndIsBookingLength |
