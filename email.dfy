/** The booking e-mails: the To header (RFC 5322 section 3.6.3), the checks
    that decide whether a message is handed to the mail server, the
    multipart/alternative message (RFC 2046 section 5.1.1) with a plain-text,
    an HTML and a calendar part, and the notices sent to a restaurant and to
    a customer when a booking is made or cancelled. */
module Email {
  import opened Wrappers
  import opened Text
  import Ics

  datatype Mailbox = Mailbox(name: string, address: string)

  datatype MailError = NoAddress | InvalidEmailAddress | EmailAuthUnconfigured

  /** The sender's configuration. */
  datatype EmailHelper = EmailHelper(localHost: bool, allowedAddresses: seq<string>,
                                     username: string, password: string)

  /** `Mailbox.to`: no header without an address; the bare address without a
      name; otherwise the name with the address in angle brackets. */
  function To(m: Mailbox): (r: Result<string, MailError>)
    ensures r.Err? <==> m.address == ""
    ensures r.Err? ==> r.error == NoAddress
    ensures r.Ok? ==> |r.value| >= 6 && r.value[..4] == "To: " && r.value[|r.value| - 2..] == "\r\n"
    ensures r.Ok? ==> Contains(r.value, m.address)
    ensures r.Ok? ==> (r.value == "To: " + m.address + "\r\n" <==> m.name == "")
  {
    if m.address == "" then Err(NoAddress)
    else if m.name == "" then
      ContainsMiddle("To: ", m.address, "\r\n");
      Ok("To: " + m.address + "\r\n")
    else
      ContainsMiddle("To: " + m.name + " <", m.address, ">\r\n");
      Ok("To: " + m.name + " <" + m.address + ">\r\n")
  }

  // ---------------------------------------------------------------------------
  // The message

  /** A part of the multipart body, with its content type. */
  datatype BodyPart = BodyPart(contentType: string, content: string)

  /** The delimiter line that opens each part. */
  function Delimiter(boundary: string): string {
    "--" + boundary + "\r\n"
  }

  /** The delimiter line that closes the body. */
  function CloseDelimiter(boundary: string): string {
    "--" + boundary + "--\r\n"
  }

  /** One part: its delimiter, its headers, a blank line, its content and the
      CRLF that belongs to the next delimiter. */
  function PartText(boundary: string, p: BodyPart): string {
    Delimiter(boundary) + PartHeaders(p.contentType) + p.content + "\r\n"
  }

  const ENCODING_HEADER: string := "\r\nContent-Transfer-Encoding: 7bit\r\n\r\n"
  const PLAIN_TYPE: string := "text/plain; charset=UTF-8"
  const HTML_TYPE: string := "text/html; charset=UTF-8"
  const CALENDAR_TYPE: string := "text/calendar; charset=UTF-8; method=PUBLISH"

  /** A part's headers, ending with the blank line. */
  function PartHeaders(contentType: string): string {
    "Content-Type: " + contentType + ENCODING_HEADER
  }

  /** A multipart body: every part opened by the delimiter, the whole closed
      by the close delimiter. */
  function Multipart(boundary: string, parts: seq<BodyPart>): (r: string)
    ensures |r| >= |CloseDelimiter(boundary)| && r[|r| - |CloseDelimiter(boundary)|..] == CloseDelimiter(boundary)
    ensures parts != [] ==> r[..|Delimiter(boundary)|] == Delimiter(boundary)
  {
    if parts == [] then CloseDelimiter(boundary)
    else
      var head, rest := PartText(boundary, parts[0]), Multipart(boundary, parts[1..]);
      ConcatKeepsEnds(head, rest, Delimiter(boundary), CloseDelimiter(boundary));
      head + rest
  }

  /** A text that starts with `prefix`, followed by one that ends with
      `suffix`, starts with `prefix` and ends with `suffix`. */
  lemma ConcatKeepsEnds(head: string, rest: string, prefix: string, suffix: string)
    requires |prefix| <= |head| && head[..|prefix|] == prefix
    requires |suffix| <= |rest| && rest[|rest| - |suffix|..] == suffix
    ensures |suffix| <= |head + rest| && (head + rest)[|head + rest| - |suffix|..] == suffix
    ensures (head + rest)[..|prefix|] == prefix
  {
    assert (head + rest)[|head + rest| - |suffix|..] == rest[|rest| - |suffix|..];
    assert (head + rest)[..|prefix|] == head[..|prefix|];
  }

  /** The three alternatives, plain text first (RFC 2046 section 5.1.4 puts
      the preferred one last). */
  function Alternatives(plaintext: string, html: string, ics: string): seq<BodyPart> {
    [BodyPart(PLAIN_TYPE, plaintext), BodyPart(HTML_TYPE, html), BodyPart(CALENDAR_TYPE, ics)]
  }

  const MULTIPART_TYPE: string := "Content-Type: multipart/alternative; boundary=\""
  const FROM_HEADER: string := "From: STRONT. Bookings <bookings@stront.rest>\r\n"

  /** The message headers, ending with the blank line. */
  function Headers(boundary: string, toHeader: string, subject: string): string {
    MULTIPART_TYPE + boundary + "\"\r\n"
    + toHeader
    + FROM_HEADER
    + "Subject: " + subject + "\r\n"
    + "\r\n"
  }

  /** The message as `SendMail` concatenates it. */
  function Message(boundary: string, toHeader: string, subject: string,
                   plaintext: string, html: string, ics: string): string
  {
    var inner := Delimiter(boundary);
    Headers(boundary, toHeader, subject)
    + inner + PartHeaders(PLAIN_TYPE) + plaintext + "\r\n"
    + inner + PartHeaders(HTML_TYPE) + html + "\r\n"
    + inner + PartHeaders(CALENDAR_TYPE) + ics + "\r\n"
    + CloseDelimiter(boundary)
  }

  /** The concatenated message is the headers and a multipart body of the
      three alternatives, in order. */
  lemma MessageIsMultipart(boundary: string, toHeader: string, subject: string,
                           plaintext: string, html: string, ics: string)
    ensures Message(boundary, toHeader, subject, plaintext, html, ics)
         == Headers(boundary, toHeader, subject) + Multipart(boundary, Alternatives(plaintext, html, ics))
  {
    var ps := Alternatives(plaintext, html, ics);
    var d, close := Delimiter(boundary), CloseDelimiter(boundary);
    var h1, h2, h3 := PartHeaders(ps[0].contentType), PartHeaders(ps[1].contentType), PartHeaders(ps[2].contentType);
    var t := ps[1..];
    var u := t[1..];
    assert t[0] == ps[1] && u[0] == ps[2] && u[1..] == [];
    assert Multipart(boundary, u) == (d + h3 + ics + "\r\n") + close;
    assert Multipart(boundary, t) == (d + h2 + html + "\r\n") + Multipart(boundary, u);
    assert Multipart(boundary, ps) == (d + h1 + plaintext + "\r\n") + Multipart(boundary, t);
    Regroup(Headers(boundary, toHeader, subject), d, h1, plaintext, h2, html, h3, ics, "\r\n", close);
  }

  /** The left-to-right concatenation of three parts, regrouped part by part. */
  lemma Regroup(head: string, d: string, h1: string, x1: string, h2: string, x2: string,
                h3: string, x3: string, crlf: string, close: string)
    ensures head + d + h1 + x1 + crlf + d + h2 + x2 + crlf + d + h3 + x3 + crlf + close
         == head + ((d + h1 + x1 + crlf) + ((d + h2 + x2 + crlf) + ((d + h3 + x3 + crlf) + close)))
  {
  }

  // ---------------------------------------------------------------------------
  // Sending

  /** The allowlist: when addresses are limited (a non-empty list, or a
      localhost deployment), only the listed ones may be sent to. */
  predicate AddressAllowed(h: EmailHelper, address: string) {
    !((|h.allowedAddresses| > 0 || h.localHost) && address !in h.allowedAddresses)
  }

  /** All three checks pass: there is an address, it is allowed, and the
      credentials are set. */
  predicate Deliverable(h: EmailHelper, address: string) {
    address != "" && AddressAllowed(h, address) && h.username != "" && h.password != ""
  }

  /** What is handed to the mail server: the envelope recipient and the
      message text. */
  datatype Submission = Submission(recipient: string, message: string)

  /** `SendMail`: the To header, then the allowlist, then the credentials are
      checked, and only then is the message submitted. The boundary stands
      for the fresh UUID the source draws. */
  function SendMail(h: EmailHelper, to: Mailbox, subject: string, plaintext: string, html: string,
                    ics: string, boundary: string): (r: Result<Submission, MailError>)
    ensures r.Ok? <==> Deliverable(h, to.address)
    ensures r.Ok? ==> r.value.recipient == to.address
    ensures r.Ok? ==> (r.value.message
                       == Headers(boundary, To(to).value, subject) + Multipart(boundary, Alternatives(plaintext, html, ics)))
  {
    match To(to)
    case Err(e) => Err(e)
    case Ok(toHeader) =>
      var message := Message(boundary, toHeader, subject, plaintext, html, ics);
      MessageIsMultipart(boundary, toHeader, subject, plaintext, html, ics);
      if !AddressAllowed(h, to.address) then Err(InvalidEmailAddress)
      else if h.username == "" || h.password == "" then Err(EmailAuthUnconfigured)
      else Ok(Submission(to.address, message))
  }

  /** A missing address is reported before anything else. */
  lemma MissingAddressFirst(h: EmailHelper, to: Mailbox, subject: string, plaintext: string, html: string,
                            ics: string, boundary: string)
    requires to.address == ""
    ensures SendMail(h, to, subject, plaintext, html, ics, boundary) == Err(NoAddress)
  {
  }

  /** The allowlist is checked before the credentials. */
  lemma AllowlistBeforeCredentials(h: EmailHelper, to: Mailbox, subject: string, plaintext: string,
                                   html: string, ics: string, boundary: string)
    requires to.address != "" && !AddressAllowed(h, to.address)
    ensures SendMail(h, to, subject, plaintext, html, ics, boundary) == Err(InvalidEmailAddress)
  {
  }

  /** An allowed address without credentials is refused as unconfigured. */
  lemma CredentialsLast(h: EmailHelper, to: Mailbox, subject: string, plaintext: string,
                        html: string, ics: string, boundary: string)
    requires to.address != "" && AddressAllowed(h, to.address)
    requires h.username == "" || h.password == ""
    ensures SendMail(h, to, subject, plaintext, html, ics, boundary) == Err(EmailAuthUnconfigured)
  {
  }

  /** A localhost deployment with an empty allowlist sends nothing. */
  lemma LocalHostWithoutAllowlist(h: EmailHelper, to: Mailbox, subject: string, plaintext: string,
                                  html: string, ics: string, boundary: string)
    requires h.localHost && h.allowedAddresses == []
    ensures SendMail(h, to, subject, plaintext, html, ics, boundary).Err?
  {
  }

  // ---------------------------------------------------------------------------
  // Notices

  /** A booking as the notices describe it. `dateText` is the booking's date
      rendered in the layout "Monday, January 2, 2006 at 3:04 PM". */
  datatype Notification = Notification(mailbox: Mailbox, id: string, restaurantName: string,
                                       attendance: string, customerName: string, date: Ics.Instant,
                                       dateText: string, duration: Ics.Duration, partySize: int,
                                       notes: string)

  datatype Recipient = Restaurant | Customer

  /** What an attendance calls for: no notice (the booking is over), a panic
      (an attendance the source does not know), or a subject and opening
      sentence. */
  datatype Notice = Quiet | Unexpected | Letter(subject: string, messageLine: string)

  /** The attendance switch of both notifiers. */
  function NoticeFor(who: Recipient, n: Notification): (r: Notice)
    ensures r.Quiet? <==> n.attendance == "attended" || n.attendance == "no-show"
    ensures r.Unexpected? <==> n.attendance !in {"attended", "no-show", "pending", "cancelled"}
    ensures r.Letter? ==> Ics.IcsStatus(n.attendance) == Some(if n.attendance == "pending" then "CONFIRMED" else "CANCELLED")
  {
    var party := IntToDecimal(n.partySize);
    var at := n.restaurantName + " on " + n.dateText;
    if n.attendance == "attended" || n.attendance == "no-show" then Quiet
    else if n.attendance == "pending" then
      Letter("New booking at " + at,
             match who
             case Restaurant => n.customerName + " has booked for " + party + " people to dine at " + at + "."
             case Customer => "You have booked for " + party + " people to dine at " + at + ".")
    else if n.attendance == "cancelled" then
      Letter("Cancelled booking at " + at,
             match who
             case Restaurant => n.customerName + "'s booking for " + party + " people to dine at " + at
                                + " has been cancelled."
             case Customer => "Your booking for " + party + " people to dine at " + at + " has been cancelled.")
    else Unexpected
  }

  /** The two notifiers agree on when to write and on the subject. */
  lemma NotifiersAgree(n: Notification)
    ensures NoticeFor(Restaurant, n).Quiet? == NoticeFor(Customer, n).Quiet?
    ensures NoticeFor(Restaurant, n).Unexpected? == NoticeFor(Customer, n).Unexpected?
    ensures NoticeFor(Restaurant, n).Letter? ==> NoticeFor(Restaurant, n).subject == NoticeFor(Customer, n).subject
  {
  }

  /** The subject says whether the booking is new or cancelled. */
  lemma SubjectByAttendance(who: Recipient, n: Notification)
    requires NoticeFor(who, n).Letter?
    ensures var s := NoticeFor(who, n).subject;
            (n.attendance == "pending" <==> |s| >= 15 && s[..15] == "New booking at ")
            && (n.attendance == "cancelled" <==> |s| >= 21 && s[..21] == "Cancelled booking at ")
  {
    var s := NoticeFor(who, n).subject;
    if n.attendance == "pending" {
      assert s[0] == 'N';
    } else {
      assert s[..21] == "Cancelled booking at " && s[0] == 'C';
    }
  }

  /** The plain-text notes: line breaks become CRLF, then a blank line; no
      notes give nothing. */
  function PlainNotes(notes: string): string {
    if notes == [] then "" else ReplaceChar(notes, '\n', "\r\n") + "\r\n\r\n"
  }

  /** The HTML notes: escaped, line breaks become `<br>`, then two more; no
      notes give nothing. `escape` stands for `html.EscapeString`. */
  function HtmlNotes(notes: string, escape: string -> string): string {
    if notes == [] then "" else ReplaceChar(escape(notes), '\n', "<br>") + "<br><br>"
  }

  /** Every line feed ends a CRLF. */
  predicate CrlfEndings(r: string) {
    forall i | 0 <= i < |r| && r[i] == '\n' :: i > 0 && r[i - 1] == '\r'
  }

  /** Every '<' opens a `<br>`. */
  predicate OnlyBreakTags(r: string) {
    forall i | 0 <= i < |r| && r[i] == '<' :: i + 4 <= |r| && r[i..i + 4] == "<br>"
  }

  /** Every line feed of the plain-text notes ends a CRLF. */
  lemma {:induction false} NotesLineEndings(s: string)
    ensures CrlfEndings(ReplaceChar(s, '\n', "\r\n"))
  {
    if s != [] {
      NotesLineEndings(s[1..]);
      var head := if s[0] == '\n' then "\r\n" else [s[0]];
      var rest := ReplaceChar(s[1..], '\n', "\r\n");
      var r := head + rest;
      assert r == ReplaceChar(s, '\n', "\r\n");
      forall i | 0 <= i < |r| && r[i] == '\n' ensures i > 0 && r[i - 1] == '\r' {
        if i < |head| {
          assert r[0] == head[0];
          if s[0] == '\n' {
            assert r[1] == head[1] && head[0] == '\r';
          }
        } else {
          var j := i - |head|;
          assert 0 <= j < |rest| && rest[j] == r[i];
          assert CrlfEndings(rest);
          assert j > 0 && rest[j - 1] == '\r';
          assert rest[j - 1] == r[i - 1];
        }
      }
    }
  }

  /** Texts whose every '<' opens a `<br>` keep that when concatenated. */
  lemma OnlyBreakTagsConcat(a: string, b: string)
    requires OnlyBreakTags(a) && OnlyBreakTags(b)
    ensures OnlyBreakTags(a + b)
  {
    var r := a + b;
    forall i | 0 <= i < |r| && r[i] == '<' ensures i + 4 <= |r| && r[i..i + 4] == "<br>" {
      if i < |a| {
        assert a[i] == r[i];
        assert r[i..i + 4] == a[i..i + 4];
      } else {
        var j := i - |a|;
        assert b[j] == r[i];
        assert r[i..i + 4] == b[j..j + 4];
      }
    }
  }

  /** With escaped notes (no '<' left) the only markup in the HTML notes is
      the `<br>` of each line break. */
  lemma {:induction false} NotesOnlyBreaks(s: string)
    requires '<' !in s
    ensures OnlyBreakTags(ReplaceChar(s, '\n', "<br>"))
  {
    if s != [] {
      NotesOnlyBreaks(s[1..]);
      var head := if s[0] == '\n' then "<br>" else [s[0]];
      assert OnlyBreakTags(head) by {
        if s[0] == '\n' {
          forall i | 0 <= i < |head| && head[i] == '<' ensures i + 4 <= |head| && head[i..i + 4] == "<br>" {
            assert i == 0;
          }
        } else {
          assert s[0] in s;
        }
      }
      OnlyBreakTagsConcat(head, ReplaceChar(s[1..], '\n', "<br>"));
      assert head + ReplaceChar(s[1..], '\n', "<br>") == ReplaceChar(s, '\n', "<br>");
    }
  }

  /** Notes are a section of their own exactly when there are some, and the
      plain-text section is the notes' lines joined with CRLF. */
  lemma NotesSection(notes: string, escape: string -> string)
    ensures PlainNotes(notes) == "" <==> notes == ""
    ensures HtmlNotes(notes, escape) == "" <==> notes == ""
    ensures notes != "" ==> PlainNotes(notes) == Join(Split(notes, '\n'), "\r\n") + "\r\n\r\n"
  {
    ReplaceIsSplitJoin(notes, '\n', "\r\n");
  }

  /** The link to the booking. */
  function BookingUrl(host: string, path: string, id: string): string {
    host + path + id
  }

  /** The link to the booking's calendar file. */
  function CalendarUrl(host: string, path: string, id: string): string {
    host + path + "cal/" + id + ".ics"
  }

  /** The plain-text body. */
  function Plaintext(messageLine: string, notes: string, host: string, id: string): string {
    messageLine + "\r\n\r\n" + PlainNotes(notes)
    + "See it on STRONT: <" + BookingUrl(host, "/bookings/", id) + ">\r\n"
    + "Add it to your calendar: <" + CalendarUrl(host, "/bookings/", id) + ">\r\n"
  }

  /** The HTML document around the body. */
  const HTML_OPEN: string := "<!DOCTYPE html><html><head><meta http-equiv=\"Content-Type\" content=\"text/html; charset=UTF-8\"></head><body>"

  function HtmlTemplate(body: string): string {
    HTML_OPEN + body + "</body></html>"
  }

  /** The path of the HTML links: the customer's notice writes "/booking/"
      where every other link has "/bookings/". */
  function HtmlLinkPath(who: Recipient): string {
    match who
    case Restaurant => "/bookings/"
    case Customer => "/booking/"
  }

  /** The HTML body. */
  function Html(who: Recipient, messageLine: string, notes: string, escape: string -> string,
                host: string, id: string): string
  {
    var path := HtmlLinkPath(who);
    HtmlTemplate(messageLine + "<br><br>" + HtmlNotes(notes, escape)
                 + "<a href=\"" + BookingUrl(host, path, id) + "\">See it on STRONT</a><br>"
                 + "<a href=\"" + CalendarUrl(host, path, id) + "\">Add it to your calendar</a><br>")
  }

  /** The outcome of a notifier: nothing sent, a panic, or `SendMail`'s
      result. */
  datatype Dispatch = NotNotified | Panicked | Sent(result: Result<Submission, MailError>)

  /** Both notifiers: the attendance decides, then the texts and the calendar
      are composed and `SendMail` is called. `now` stands for the clock read
      by `createIcs`. */
  function Notify(h: EmailHelper, who: Recipient, n: Notification, now: Ics.Instant, boundary: string,
                  escape: string -> string): (r: Dispatch)
    ensures r.NotNotified? <==> n.attendance == "attended" || n.attendance == "no-show"
    ensures r.Panicked? <==> n.attendance !in {"attended", "no-show", "pending", "cancelled"}
    ensures r.Sent? ==> (r.result.Ok? <==> Deliverable(h, n.mailbox.address))
    ensures r.Sent? && r.result.Ok? ==> r.result.value.recipient == n.mailbox.address
  {
    match NoticeFor(who, n)
    case Quiet => NotNotified
    case Unexpected => Panicked
    case Letter(subject, line) =>
      var host := Ics.Host(h.localHost);
      Ics.IcsProducedIff(h.localHost, n.id, n.restaurantName, n.partySize, n.date, n.duration, n.attendance, now);
      match Ics.CreateIcs(h.localHost, n.id, n.restaurantName, n.partySize, n.date, n.duration, n.attendance, now)
      case None => Panicked
      case Some(ics) =>
        Sent(SendMail(h, n.mailbox, subject, Plaintext(line, n.notes, host, n.id),
                      Html(who, line, n.notes, escape, host, n.id), ics, boundary))
  }

  /** `NotifyRestaurant`. */
  function NotifyRestaurant(h: EmailHelper, n: Notification, now: Ics.Instant, boundary: string,
                            escape: string -> string): Dispatch
  {
    Notify(h, Restaurant, n, now, boundary, escape)
  }

  /** `NotifyCustomer`. */
  function NotifyCustomer(h: EmailHelper, n: Notification, now: Ics.Instant, boundary: string,
                          escape: string -> string): Dispatch
  {
    Notify(h, Customer, n, now, boundary, escape)
  }

  /** The customer's HTML links point at "/booking/…" while its plain text
      points at "/bookings/…"; the restaurant's both point at "/bookings/…". */
  lemma CustomerLinkMismatch(who: Recipient, line: string, notes: string, escape: string -> string,
                             host: string, id: string)
    ensures Contains(Plaintext(line, notes, host, id), BookingUrl(host, "/bookings/", id))
    ensures Contains(Html(who, line, notes, escape, host, id), BookingUrl(host, HtmlLinkPath(who), id))
    ensures who == Customer ==> BookingUrl(host, HtmlLinkPath(who), id) != BookingUrl(host, "/bookings/", id)
    ensures who == Restaurant ==> BookingUrl(host, HtmlLinkPath(who), id) == BookingUrl(host, "/bookings/", id)
  {
    var url := BookingUrl(host, "/bookings/", id);
    var pre := line + "\r\n\r\n" + PlainNotes(notes) + "See it on STRONT: <";
    ContainsConcat(pre, url);
    ContainsLeft(pre + url, ">\r\n", url);
    ContainsLeft(pre + url + ">\r\n", "Add it to your calendar: <", url);
    ContainsLeft(pre + url + ">\r\n" + "Add it to your calendar: <", CalendarUrl(host, "/bookings/", id), url);
    ContainsLeft(pre + url + ">\r\n" + "Add it to your calendar: <" + CalendarUrl(host, "/bookings/", id), ">\r\n", url);
    HtmlLink(who, line, notes, escape, host, id);
    if who == Customer {
      var hurl := BookingUrl(host, HtmlLinkPath(who), id);
      assert hurl[|host| + 8] == '/' && url[|host| + 8] == 's';
    }
  }

  /** The HTML body holds the link to the booking under its link path. */
  lemma HtmlLink(who: Recipient, line: string, notes: string, escape: string -> string, host: string, id: string)
    ensures Contains(Html(who, line, notes, escape, host, id), BookingUrl(host, HtmlLinkPath(who), id))
  {
    var path := HtmlLinkPath(who);
    var url := BookingUrl(host, path, id);
    var pre := line + "<br><br>" + HtmlNotes(notes, escape) + "<a href=\"";
    var tail1 := "\">See it on STRONT</a><br>";
    var cal := CalendarUrl(host, path, id);
    ContainsConcat(pre, url);
    ContainsLeft(pre + url, tail1, url);
    ContainsLeft(pre + url + tail1, "<a href=\"", url);
    ContainsLeft(pre + url + tail1 + "<a href=\"", cal, url);
    ContainsLeft(pre + url + tail1 + "<a href=\"" + cal, "\">Add it to your calendar</a><br>", url);
    var body := pre + url + tail1 + "<a href=\"" + cal + "\">Add it to your calendar</a><br>";
    var open := HTML_OPEN;
    ContainsRight(open, body, url);
    ContainsLeft(open + body, "</body></html>", url);
  }
}
