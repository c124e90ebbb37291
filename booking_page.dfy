/** The restaurant's bookings page: the e-mail check, the validation of a
    new booking, the request sent for it, the keyword filter over the listed
    bookings and the removal of a cancelled booking. */
module BookingPage {
  import opened Wrappers
  import opened Text
  import Seqs

  // ---------------------------------------------------------------------------
  // E-mail addresses

  /** A character the class `[^\s@]` matches. */
  predicate Plain(c: char) {
    !IsJsSpace(c) && c != '@'
  }

  /** `isValidEmail`, the anchored pattern `^[^\s@]+@[^\s@]+\.[^\s@]+$`: an
      '@' at `i` and a '.' at `j`, at least one character before the '@',
      between the two and after the '.', and every character but the '@'
      neither whitespace nor '@'. */
  predicate IsValidEmail(email: string) {
    exists i, j | 0 < i && i + 1 < j < |email| - 1 ::
      email[i] == '@' && email[j] == '.' && forall k | 0 <= k < |email| && k != i :: Plain(email[k])
  }

  predicate NoSpace(s: string) {
    forall k | 0 <= k < |s| :: !IsJsSpace(s[k])
  }

  /** A '.' with at least one character on either side. */
  predicate HasInnerDot(domain: string) {
    exists j | 0 < j < |domain| - 1 :: domain[j] == '.'
  }

  /** The same check read off the pieces around the '@': exactly two, the
      first non-empty, neither with whitespace, the second with an inner
      '.'. */
  predicate EmailPartsValid(email: string) {
    var parts := Split(email, '@');
    |parts| == 2 && parts[0] != "" && NoSpace(parts[0]) && NoSpace(parts[1]) && HasInnerDot(parts[1])
  }

  /** A string with a single '@' splits into the text before and after it. */
  lemma SplitAtSingle(s: string, i: nat)
    requires i < |s| && s[i] == '@'
    requires forall k | 0 <= k < |s| && k != i :: s[k] != '@'
    ensures Split(s, '@') == [s[..i], s[i + 1..]]
  {
    var before, after := s[..i], s[i + 1..];
    assert s == before + ['@'] + after;
    assert '@' !in before by {
      forall k | 0 <= k < |before| ensures before[k] != '@' {
        assert before[k] == s[k];
      }
    }
    assert '@' !in after by {
      forall k | 0 <= k < |after| ensures after[k] != '@' {
        assert after[k] == s[k + i + 1];
      }
    }
    SplitAfter(before, '@', after);
    SplitNone(after, '@');
  }

  lemma ValidEmailHasParts(email: string)
    requires IsValidEmail(email)
    ensures EmailPartsValid(email)
  {
    var i, j :| 0 < i && i + 1 < j < |email| - 1 && email[i] == '@' && email[j] == '.'
                && forall k | 0 <= k < |email| && k != i :: Plain(email[k]);
    SplitAtSingle(email, i);
    var local, domain := email[..i], email[i + 1..];
    assert NoSpace(local) by {
      forall k | 0 <= k < |local| ensures !IsJsSpace(local[k]) {
        assert local[k] == email[k] && Plain(email[k]);
      }
    }
    assert NoSpace(domain) by {
      forall k | 0 <= k < |domain| ensures !IsJsSpace(domain[k]) {
        assert domain[k] == email[k + i + 1] && Plain(email[k + i + 1]);
      }
    }
    assert domain[j - i - 1] == '.';
  }

  lemma PartsGiveValidEmail(email: string)
    requires EmailPartsValid(email)
    ensures IsValidEmail(email)
  {
    var parts := Split(email, '@');
    var local, domain := parts[0], parts[1];
    JoinSplit(email, '@');
    assert Join(parts, "@") == local + "@" + Join(parts[1..], "@");
    assert parts[1..] == [domain];
    assert email == local + ['@'] + domain;
    var d :| 0 < d < |domain| - 1 && domain[d] == '.';
    var i, j := |local|, |local| + 1 + d;
    forall k | 0 <= k < |email| && k != i
      ensures Plain(email[k])
    {
      if k < i {
        assert email[k] == local[k];
      } else {
        assert email[k] == domain[k - i - 1];
      }
    }
    assert email[i] == '@' && email[j] == '.';
  }

  /** The pattern holds exactly when the address splits at a single '@'
      into a non-empty local part and a domain with an inner '.', neither
      holding whitespace. */
  lemma ValidEmailByParts(email: string)
    ensures IsValidEmail(email) <==> EmailPartsValid(email)
  {
    if IsValidEmail(email) {
      ValidEmailHasParts(email);
    }
    if EmailPartsValid(email) {
      PartsGiveValidEmail(email);
    }
  }

  /** An address the pattern accepts has no whitespace at all, so trimming
      it changes nothing. */
  lemma ValidEmailIsTrimmed(email: string)
    requires IsValidEmail(email)
    ensures JsTrim(email) == email
  {
    var i, j :| 0 < i && i + 1 < j < |email| - 1 && email[i] == '@' && email[j] == '.'
                && forall k | 0 <= k < |email| && k != i :: Plain(email[k]);
    assert Plain(email[0]) && Plain(email[|email| - 1]);
    TrimKeeps(email, IsJsSpace);
  }

  const JOHN: string := "john@example.com"
  const WRONG: string := "wrong@com"
  const NO_AT: string := "noatsymbol.com"

  /** Addresses the page accepts and rejects. */
  lemma EmailExamples()
    ensures IsValidEmail(JOHN)
    ensures !IsValidEmail(WRONG)
    ensures !IsValidEmail(NO_AT)
  {
    assert JOHN[4] == '@' && JOHN[12] == '.';
    assert forall k | 0 <= k < |JOHN| && k != 4 :: Plain(JOHN[k]);
  }

  // ---------------------------------------------------------------------------
  // Validating a new booking

  /** The form's inputs that are checked before a booking is sent. */
  datatype BookingInput = BookingInput(date: string, time: string, firstName: string,
                                       lastName: string, email: string)

  const DATE_TIME_REQUIRED: string := "Date and time are required"
  const NAME_REQUIRED: string := "Name is required"
  const INVALID_EMAIL: string := "Invalid email"

  /** `validateBookingInput`: the first failing check's message, or none.
      Emptiness is JavaScript falsiness of the untrimmed text. */
  function ValidateBookingInput(input: BookingInput): (r: Option<string>)
    ensures r == Some(DATE_TIME_REQUIRED) <==> input.date == "" || input.time == ""
    ensures r == Some(NAME_REQUIRED)
        <==> input.date != "" && input.time != "" && (input.firstName == "" || input.lastName == "")
    ensures r == Some(INVALID_EMAIL)
        <==> input.date != "" && input.time != "" && input.firstName != "" && input.lastName != ""
             && !IsValidEmail(input.email)
    ensures r.None? || r == Some(DATE_TIME_REQUIRED) || r == Some(NAME_REQUIRED) || r == Some(INVALID_EMAIL)
  {
    if input.date == "" || input.time == "" then Some(DATE_TIME_REQUIRED)
    else if input.firstName == "" || input.lastName == "" then Some(NAME_REQUIRED)
    else if !IsValidEmail(input.email) then Some(INVALID_EMAIL)
    else None
  }

  // ---------------------------------------------------------------------------
  // The booking request

  /** The form as `buildBookingPayload` receives it; `None` for an absent
      phone or note. */
  datatype BookingForm = BookingForm(restaurantId: string, date: string, time: string, partySize: int,
                                     firstName: string, lastName: string, email: string,
                                     phone: Option<string>, notes: Option<string>)

  /** The request body; `None` is a field left undefined. */
  datatype BookingPayload = BookingPayload(restaurantId: string, date: string, time: string, partySize: int,
                                           firstName: string, lastName: string, email: string,
                                           phone: Option<string>, notes: Option<string>, startsAt: string)

  /** `v?.trim() || undefined`: the trimmed text, or nothing when it is
      absent or blank. */
  function OptionalText(v: Option<string>): (r: Option<string>)
    ensures r.None? <==> v.None? || IsBlank(v.value, IsJsSpace)
    ensures r.Some? ==> r.value != "" && r.value == JsTrim(v.value)
  {
    if v.None? then None
    else
      TrimEmptyIffBlank(v.value, IsJsSpace);
      var t := JsTrim(v.value);
      if t == "" then None else Some(t)
  }

  /** `buildBookingPayload`. `composeIso` turns the local date and time into
      an ISO instant; it depends on the time zone and is a parameter. */
  function BuildBookingPayload(form: BookingForm, composeIso: (string, string) -> string): (p: BookingPayload)
    ensures p.restaurantId == form.restaurantId && p.date == form.date && p.time == form.time
            && p.partySize == form.partySize
    ensures p.startsAt == composeIso(form.date, form.time)
    ensures p.firstName == JsTrim(form.firstName) && p.lastName == JsTrim(form.lastName)
            && p.email == JsTrim(form.email)
    ensures p.phone == OptionalText(form.phone) && p.notes == OptionalText(form.notes)
    ensures Trimmed(p.firstName) && Trimmed(p.lastName) && Trimmed(p.email)
    ensures p.firstName == "" <==> IsBlank(form.firstName, IsJsSpace)
    ensures p.lastName == "" <==> IsBlank(form.lastName, IsJsSpace)
    ensures p.phone.None? <==> form.phone.None? || IsBlank(form.phone.value, IsJsSpace)
    ensures p.notes.None? <==> form.notes.None? || IsBlank(form.notes.value, IsJsSpace)
    ensures p.phone.Some? ==> p.phone.value != "" && Trimmed(p.phone.value)
    ensures p.notes.Some? ==> p.notes.value != "" && Trimmed(p.notes.value)
  {
    TrimEmptyIffBlank(form.firstName, IsJsSpace);
    TrimEmptyIffBlank(form.lastName, IsJsSpace);
    BookingPayload(form.restaurantId, form.date, form.time, form.partySize,
                   JsTrim(form.firstName), JsTrim(form.lastName), JsTrim(form.email),
                   OptionalText(form.phone), OptionalText(form.notes),
                   composeIso(form.date, form.time))
  }

  /** The form a payload came from, read back from the payload's fields. */
  function FormOf(p: BookingPayload): BookingForm {
    BookingForm(p.restaurantId, p.date, p.time, p.partySize, p.firstName, p.lastName, p.email, p.phone, p.notes)
  }

  /** Mapping an optional text twice maps it once. */
  lemma OptionalTextIdempotent(v: Option<string>)
    ensures OptionalText(OptionalText(v)) == OptionalText(v)
  {
    if v.Some? {
      TrimIdempotent(v.value, IsJsSpace);
    }
  }

  /** Building a payload from a payload's own fields changes nothing: the
      trims and the blank-to-undefined mapping are idempotent. */
  lemma BuildBookingPayloadIdempotent(form: BookingForm, composeIso: (string, string) -> string)
    ensures var p := BuildBookingPayload(form, composeIso);
            BuildBookingPayload(FormOf(p), composeIso) == p
  {
    var p := BuildBookingPayload(form, composeIso);
    var q := BuildBookingPayload(FormOf(p), composeIso);
    TrimIdempotent(form.firstName, IsJsSpace);
    TrimIdempotent(form.lastName, IsJsSpace);
    TrimIdempotent(form.email, IsJsSpace);
    OptionalTextIdempotent(form.phone);
    OptionalTextIdempotent(form.notes);
    assert q.firstName == p.firstName && q.lastName == p.lastName && q.email == p.email;
    assert q.phone == p.phone && q.notes == p.notes;
  }

  /** The names are checked untrimmed but sent trimmed: a name of spaces
      passes the check and is sent empty. */
  lemma BlankNamePassesValidation(form: BookingForm, composeIso: (string, string) -> string)
    requires form.date != "" && form.time != "" && IsValidEmail(form.email)
    requires form.firstName != "" && IsBlank(form.firstName, IsJsSpace) && form.lastName != ""
    ensures ValidateBookingInput(BookingInput(form.date, form.time, form.firstName, form.lastName, form.email)).None?
    ensures BuildBookingPayload(form, composeIso).firstName == ""
  {
  }

  /** An address that passes the check is sent exactly as typed. */
  lemma ValidEmailSentAsTyped(form: BookingForm, composeIso: (string, string) -> string)
    requires ValidateBookingInput(BookingInput(form.date, form.time, form.firstName, form.lastName, form.email)).None?
    ensures BuildBookingPayload(form, composeIso).email == form.email
  {
    ValidEmailIsTrimmed(form.email);
  }

  // ---------------------------------------------------------------------------
  // The listed bookings

  /** A booking as the page lists it; `None` for an absent or null text. */
  datatype Booking = Booking(id: string, startsAt: string, firstName: string, lastName: string,
                             email: string, partySize: int, phone: Option<string>, notes: Option<string>)

  /** The lower-cased "first last email" a keyword is looked up in. */
  function SearchText(b: Booking): string {
    Lower(Join([b.firstName, b.lastName, b.email], " "))
  }

  /** `filterBookings`: for a blank keyword the list itself; otherwise the
      bookings whose text contains the trimmed, lower-cased keyword, in
      their order. */
  function FilterBookings(bookings: seq<Booking>, keyword: string): (r: seq<Booking>)
    ensures IsBlank(keyword, IsJsSpace) ==> r == bookings
    ensures !IsBlank(keyword, IsJsSpace) ==>
              && (forall b :: b in r <==> b in bookings && Contains(SearchText(b), Lower(JsTrim(keyword))))
              && (forall b :: multiset(r)[b]
                                == if Contains(SearchText(b), Lower(JsTrim(keyword))) then multiset(bookings)[b] else 0)
              && Seqs.IsSubsequence(r, bookings)
  {
    TrimEmptyIffBlank(keyword, IsJsSpace);
    var key := Lower(JsTrim(keyword));
    if key == "" then bookings
    else
      var keep := b => Contains(SearchText(b), key);
      Seqs.FilterMembers(bookings, keep);
      Seqs.FilterCount(bookings, keep);
      Seqs.FilterSubsequence(bookings, keep);
      Seqs.Filter(bookings, keep)
  }

  /** What `onRemove` leaves listed: nothing changes for an empty id or when
      the cancellation was not confirmed or failed; otherwise every booking
      with that id is dropped and the rest keep their order. */
  function RemoveBooking(items: seq<Booking>, id: string, cancelled: bool): (r: seq<Booking>)
    ensures id == "" || !cancelled ==> r == items
    ensures id != "" && cancelled ==>
              && (forall b :: b in r <==> b in items && b.id != id)
              && (forall b: Booking | b.id != id :: multiset(r)[b] == multiset(items)[b])
              && Seqs.IsSubsequence(r, items)
  {
    if id == "" || !cancelled then items
    else
      var keep := (b: Booking) => b.id != id;
      Seqs.FilterMembers(items, keep);
      Seqs.FilterCount(items, keep);
      Seqs.FilterSubsequence(items, keep);
      Seqs.Filter(items, keep)
  }
}
