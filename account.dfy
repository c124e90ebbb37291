/** The account page: the signed-in user and the bookings kept per user in
    the browser's storage, the newest-first bookings view, deleting a
    booking and saving the profile. */
module Account {
  import opened Wrappers
  import opened Text
  import Seqs
  import Auth

  /** A booking kept in the browser. */
  datatype Booking = Booking(id: int, slug: string, time: string, createdAt: int)

  /** The stored map from a user id, as decimal text, to that user's
      bookings. */
  type BookingMap = map<string, seq<Booking>>

  /** `readMe` and `readAllBookings`: the stored text parsed, or the
      fallback when nothing is stored, the text is empty or it does not
      parse. `parse` is `JSON.parse`, with `None` for a thrown error. */
  function ReadStored<T>(raw: Option<string>, parse: string -> Option<T>, fallback: T): (r: T)
    ensures raw.None? || raw.value == "" ==> r == fallback
    ensures raw.Some? && raw.value != "" && parse(raw.value).None? ==> r == fallback
    ensures raw.Some? && raw.value != "" && parse(raw.value).Some? ==> r == parse(raw.value).value
  {
    if raw.None? || raw.value == "" then fallback
    else UnwrapOr(parse(raw.value), fallback)
  }

  /** `readMe`: no user unless a stored one parses. */
  function ReadMe(raw: Option<string>, parse: string -> Option<Auth.ApiUser>): (r: Option<Auth.ApiUser>)
    ensures r.Some? ==> raw.Some? && raw.value != "" && parse(raw.value) == r
    ensures raw.Some? && raw.value != "" && parse(raw.value).Some? ==> r == parse(raw.value)
  {
    ReadStored(raw, s => if parse(s).Some? then Some(parse(s)) else None, None)
  }

  /** `readAllBookings`: the empty map unless a stored one parses. */
  function ReadAllBookings(raw: Option<string>, parse: string -> Option<BookingMap>): (r: BookingMap)
    ensures r != map[] ==> raw.Some? && raw.value != "" && parse(raw.value) == Some(r)
    ensures raw.Some? && raw.value != "" && parse(raw.value).Some? ==> r == parse(raw.value).value
  {
    ReadStored(raw, parse, map[])
  }

  /** The storage key of a user: `String(me.id)`. */
  function UserKey(user: Auth.ApiUser): string {
    IntToDecimal(user.id)
  }

  /** `all[key] ?? []`. */
  function Lookup(all: BookingMap, key: string): seq<Booking> {
    if key in all then all[key] else []
  }

  /** `deleteBooking`'s update of the map: the key's list (empty when
      missing) without the bookings with that id; every other key as it
      was. */
  function DeleteFrom(all: BookingMap, key: string, id: int): (r: BookingMap)
    ensures key in r && r.Keys == all.Keys + {key}
    ensures forall b :: b in r[key] <==> b in Lookup(all, key) && b.id != id
    ensures forall b: Booking | b.id != id :: multiset(r[key])[b] == multiset(Lookup(all, key))[b]
    ensures Seqs.IsSubsequence(r[key], Lookup(all, key))
    ensures forall k | k in all && k != key :: r[k] == all[k]
  {
    var keep := (b: Booking) => b.id != id;
    var list := Lookup(all, key);
    Seqs.FilterMembers(list, keep);
    Seqs.FilterCount(list, keep);
    Seqs.FilterSubsequence(list, keep);
    all[key := Seqs.Filter(list, keep)]
  }

  /** Deleting twice deletes once. */
  lemma DeleteTwice(all: BookingMap, key: string, id: int)
    ensures DeleteFrom(DeleteFrom(all, key, id), key, id) == DeleteFrom(all, key, id)
  {
    var once := DeleteFrom(all, key, id);
    var keep := (b: Booking) => b.id != id;
    forall k | 0 <= k < |once[key]| ensures keep(once[key][k]) {
      assert once[key][k] in once[key];
    }
    Seqs.FilterKeepsAll(once[key], keep);
  }

  /** Newest first: `createdAt` never increases along the list. */
  predicate SortedDesc(s: seq<Booking>) {
    forall p, q | 0 <= p < q < |s| :: s[p].createdAt >= s[q].createdAt
  }

  /** `sort((a, b) => b.createdAt - a.createdAt)` on an array, in place. */
  method SortByCreatedDesc(a: array<Booking>)
    modifies a
    ensures SortedDesc(a[..])
    ensures multiset(a[..]) == multiset(old(a[..]))
  {
    var i := 0;
    while i < a.Length
      invariant 0 <= i <= a.Length
      invariant forall p, q | 0 <= p < q < i :: a[p].createdAt >= a[q].createdAt
      invariant multiset(a[..]) == multiset(old(a[..]))
    {
      SinkNewest(a, i);
      i := i + 1;
    }
  }

  /** One insertion step: moves `a[i]` down past the older bookings before
      it, so that `a[..i + 1]` is newest first. */
  method SinkNewest(a: array<Booking>, i: int)
    requires 0 <= i < a.Length
    requires forall p, q | 0 <= p < q < i :: a[p].createdAt >= a[q].createdAt
    modifies a
    ensures forall p, q | 0 <= p < q <= i :: a[p].createdAt >= a[q].createdAt
    ensures multiset(a[..]) == multiset(old(a[..]))
  {
    var j := i;
    while j > 0 && a[j - 1].createdAt < a[j].createdAt
      invariant 0 <= j <= i
      invariant NewestFirstBut(a[..], j, i) && NewerThanAfter(a[..], j, i)
      invariant multiset(a[..]) == multiset(old(a[..]))
    {
      SwapStep(a[..], j, i);
      a[j - 1], a[j] := a[j], a[j - 1];
      j := j - 1;
    }
    SinkDone(a[..], j, i);
  }

  /** `s[..i + 1]` is newest first once the booking at `j` is set aside. */
  ghost predicate NewestFirstBut(s: seq<Booking>, j: int, i: int)
    requires i < |s|
  {
    forall p, q | 0 <= p < q <= i && p != j && q != j :: s[p].createdAt >= s[q].createdAt
  }

  /** The booking at `j` is newer than every booking after it up to `i`. */
  ghost predicate NewerThanAfter(s: seq<Booking>, j: int, i: int)
    requires 0 <= j <= i < |s|
  {
    forall q | j < q <= i :: s[q].createdAt < s[j].createdAt
  }

  /** Swapping the booking at `j` with the older one before it keeps the
      order of the others and moves the gap down by one. */
  lemma SwapStep(s: seq<Booking>, j: int, i: int)
    requires 0 < j <= i < |s|
    requires NewestFirstBut(s, j, i) && NewerThanAfter(s, j, i)
    requires s[j - 1].createdAt < s[j].createdAt
    ensures var t := s[j - 1 := s[j]][j := s[j - 1]];
            NewestFirstBut(t, j - 1, i) && NewerThanAfter(t, j - 1, i) && multiset(t) == multiset(s)
  {
  }

  /** Once the booking at `j` is no newer than the one before it, the
      whole prefix up to `i` is newest first. */
  lemma SinkDone(s: seq<Booking>, j: int, i: int)
    requires 0 <= j <= i < |s|
    requires NewestFirstBut(s, j, i) && NewerThanAfter(s, j, i)
    requires j == 0 || s[j - 1].createdAt >= s[j].createdAt
    ensures forall p, q | 0 <= p < q <= i :: s[p].createdAt >= s[q].createdAt
  {
    forall p, q | 0 <= p < q <= i
      ensures s[p].createdAt >= s[q].createdAt
    {
      if q == j && p < j - 1 {
        assert s[p].createdAt >= s[j - 1].createdAt;
      }
    }
  }

  /** The profile `saveProfile` stores: the same user with the trimmed
      name and e-mail. */
  function Saved(user: Auth.ApiUser, name: string, email: string): Auth.ApiUser {
    Auth.ApiUser(user.id, JsTrim(email), JsTrim(name))
  }

  /** The saved user keeps its id, its name and e-mail have no whitespace
      at either end, and the name is empty exactly when a blank one was
      typed. */
  lemma SavedProfile(user: Auth.ApiUser, name: string, email: string)
    ensures var r := Saved(user, name, email);
            && r.id == user.id
            && Trimmed(r.name) && Trimmed(r.email)
            && (r.name == "" <==> IsBlank(name, IsJsSpace))
  {
    JsTrimTrimmed(name);
    JsTrimTrimmed(email);
    TrimEmptyIffBlank(name, IsJsSpace);
  }

  /** Saving the saved name and e-mail again changes nothing. */
  lemma SaveAgainUnchanged(user: Auth.ApiUser, name: string, email: string)
    ensures var r := Saved(user, name, email);
            Saved(r, r.name, r.email) == r
  {
    TrimIdempotent(name, IsJsSpace);
    TrimIdempotent(email, IsJsSpace);
    assert JsTrim(JsTrim(name)) == JsTrim(name);
    assert JsTrim(JsTrim(email)) == JsTrim(email);
  }

  /** The page's state: the signed-in user, the profile form and the
      stored bookings. */
  class AccountPage {
    var me: Option<Auth.ApiUser>
    var name: string
    var email: string
    var stored: BookingMap
    var storedUser: Option<Auth.ApiUser>

    /** The page opens with the stored user and its name and e-mail in the
        form. */
    constructor (storedUser: Option<Auth.ApiUser>, stored: BookingMap)
      ensures me == storedUser && this.storedUser == storedUser && this.stored == stored
      ensures name == (if storedUser.Some? then storedUser.value.name else "")
      ensures email == (if storedUser.Some? then storedUser.value.email else "")
    {
      me := storedUser;
      this.storedUser := storedUser;
      this.stored := stored;
      name := if storedUser.Some? then storedUser.value.name else "";
      email := if storedUser.Some? then storedUser.value.email else "";
    }

    /** The bookings view: none when signed out; otherwise the user's
        stored bookings, newest first. */
    method Bookings() returns (view: seq<Booking>)
      ensures me.None? ==> view == []
      ensures me.Some? ==> SortedDesc(view) && multiset(view) == multiset(Lookup(stored, UserKey(me.value)))
    {
      if me.None? {
        return [];
      }
      var list := Lookup(stored, UserKey(me.value));
      var a := new Booking[|list|](k requires 0 <= k < |list| => list[k]);
      assert a[..] == list;
      SortByCreatedDesc(a);
      view := a[..];
    }

    /** `deleteBooking`: nothing when signed out; otherwise the user's list
        loses the bookings with that id and the other users' lists stay. */
    method DeleteBooking(id: int)
      modifies this
      ensures me.None? ==> stored == old(stored)
      ensures me.Some? ==> stored == DeleteFrom(old(stored), UserKey(me.value), id)
      ensures me == old(me) && storedUser == old(storedUser) && name == old(name) && email == old(email)
    {
      if me.None? {
        return;
      }
      var all := stored;
      var key := UserKey(me.value);
      all := all[key := Seqs.Filter(Lookup(all, key), (b: Booking) => b.id != id)];
      stored := all;
    }

    /** `saveProfile`: nothing when signed out; otherwise the user keeps
        its id and takes the trimmed name and e-mail, in the page and in
        storage, and the page's own `auth:changed` listener, which `saveMe`
        reaches before it returns, puts the trimmed values back in the
        form. */
    method SaveProfile()
      modifies this
      ensures old(me).None? ==> me == old(me) && storedUser == old(storedUser)
                                && name == old(name) && email == old(email)
      ensures old(me).Some? ==> me == Some(Saved(old(me).value, old(name), old(email))) && storedUser == me
                                && name == JsTrim(old(name)) && email == JsTrim(old(email))
      ensures stored == old(stored)
    {
      if me.Some? {
        // the `setMe(updated)` that follows `saveMe` sets the user the
        // listener has already set
        SaveMe(Some(Saved(me.value, name, email)));
      }
    }

    /** `saveMe`: the user is stored, or removed for none, and the
        `auth:changed` event it dispatches runs this page's listener. */
    method SaveMe(user: Option<Auth.ApiUser>)
      modifies this
      ensures storedUser == user
      ensures me == user
      ensures name == (if user.Some? then user.value.name else "")
      ensures email == (if user.Some? then user.value.email else "")
      ensures stored == old(stored)
    {
      storedUser := user;
      OnAuth(user);
    }

    /** The page's `auth:changed` listener: the event's user becomes the
        page's, and its name and e-mail (or empty text) fill the form. */
    method OnAuth(user: Option<Auth.ApiUser>)
      modifies this
      ensures me == user
      ensures name == (if user.Some? then user.value.name else "")
      ensures email == (if user.Some? then user.value.email else "")
      ensures stored == old(stored) && storedUser == old(storedUser)
    {
      me := user;
      name := if user.Some? then user.value.name else "";
      email := if user.Some? then user.value.email else "";
    }
  }
}
