/** The restaurant browser on the front page: the booking length in
    minutes, the normalisation of the fetched list, the tags offered as
    filters, the tag and keyword filter, toggling a tag, and the "no
    restaurants" / "no matches" notices. */
module Browse {
  import opened Wrappers
  import opened Text
  import Seqs

  /** A restaurant as the browser lists it; `None` for a null text. */
  datatype Listing = Listing(id: string, name: string, email: Option<string>, phone: Option<string>,
                             description: Option<string>, locationText: Option<string>,
                             locationUrl: Option<string>, frontpageMarkdown: Option<string>,
                             maxPartySize: int, bookingCapacity: int, bookingLength: int,
                             tags: seq<string>)

  // ---------------------------------------------------------------------------
  // Booking length

  const MINUTES_SUFFIX: string := " min"

  /** `formatDurationFromSlots`: the slots' length as "<slots * 30> min". */
  function FormatDuration(slots: int): (text: string)
    ensures |text| > 4 && text[|text| - 4..] == MINUTES_SUFFIX
  {
    IntToDecimal(slots * 30) + MINUTES_SUFFIX
  }

  /** The number in front of " min" reads back as `slots * 30`. */
  lemma FormatDurationRoundTrip(slots: nat)
    ensures var text := FormatDuration(slots);
            |text| > 4 && text[|text| - 4..] == " min" && AllDigits(text[..|text| - 4])
            && DecimalValue(text[..|text| - 4]) == slots * 30
  {
    var digits := NatToDecimal(slots * 30);
    assert IntToDecimal(slots * 30) == digits;
    var text := FormatDuration(slots);
    assert text[..|text| - 4] == digits && text[|text| - 4..] == MINUTES_SUFFIX;
    DecimalRoundTrip(slots * 30);
  }

  // ---------------------------------------------------------------------------
  // Loading

  /** The `tags` value of a fetched restaurant: an array or anything else. */
  datatype JsonTags = TagArray(items: seq<string>) | NotAnArray

  /** A fetched restaurant: its other fields, and its raw tags. */
  datatype RawListing = RawListing(fields: Listing, tags: JsonTags)

  /** The fetched body: an array of restaurants or anything else. */
  datatype Payload = ListPayload(items: seq<RawListing>) | OtherPayload

  const BAD_PAYLOAD: string := "Bad restaurant payload"

  /** One restaurant of the list: tags that are not an array become none;
      every other field is kept. */
  function Normalize(raw: RawListing): (r: Listing)
    ensures r.tags == if raw.tags.TagArray? then raw.tags.items else []
    ensures r.(tags := raw.fields.tags) == raw.fields
  {
    raw.fields.(tags := if raw.tags.TagArray? then raw.tags.items else [])
  }

  /** The fetched list, normalised; a body that is not an array is an
      error. */
  function Load(data: Payload): (r: Result<seq<Listing>, string>)
    ensures r.Err? <==> data.OtherPayload?
    ensures r.Err? ==> r.error == BAD_PAYLOAD
    ensures r.Ok? ==> |r.value| == |data.items|
    ensures r.Ok? ==> forall i | 0 <= i < |r.value| :: r.value[i] == Normalize(data.items[i])
  {
    if data.OtherPayload? then Err(BAD_PAYLOAD)
    else Ok(seq(|data.items|, i requires 0 <= i < |data.items| => Normalize(data.items[i])))
  }

  // ---------------------------------------------------------------------------
  // Tags on offer

  /** Some restaurant of the list carries the tag. */
  predicate Listed(restaurants: seq<Listing>, tag: string) {
    exists k | 0 <= k < |restaurants| :: tag in restaurants[k].tags
  }

  /** `availableTags`, before sorting: every tag of every restaurant that is
      not blank after trimming, each once, stored as written. */
  method AvailableTags(restaurants: Option<seq<Listing>>) returns (bucket: set<string>)
    ensures restaurants.None? ==> bucket == {}
    ensures restaurants.Some? ==>
              forall t :: t in bucket <==> Listed(restaurants.value, t) && JsTrim(t) != ""
  {
    bucket := {};
    if restaurants.None? {
      return;
    }
    var rs := restaurants.value;
    var i := 0;
    while i < |rs|
      invariant 0 <= i <= |rs|
      invariant forall t :: t in bucket <==> Listed(rs[..i], t) && JsTrim(t) != ""
    {
      var tags := rs[i].tags;
      var j := 0;
      while j < |tags|
        invariant 0 <= j <= |tags|
        invariant forall t :: t in bucket <==> (Listed(rs[..i], t) || t in tags[..j]) && JsTrim(t) != ""
      {
        if |JsTrim(tags[j])| > 0 {
          bucket := bucket + {tags[j]};
        }
        assert tags[..j + 1] == tags[..j] + [tags[j]];
        j := j + 1;
      }
      assert tags[..j] == tags;
      ListedExtend(rs, i);
      i := i + 1;
    }
    assert rs[..i] == rs;
  }

  /** A tag is listed by the first `i + 1` restaurants iff it is listed by
      the first `i` or carried by restaurant `i`. */
  lemma ListedExtend(rs: seq<Listing>, i: nat)
    requires i < |rs|
    ensures forall t :: Listed(rs[..i + 1], t) <==> Listed(rs[..i], t) || t in rs[i].tags
  {
    forall t ensures Listed(rs[..i + 1], t) <==> Listed(rs[..i], t) || t in rs[i].tags {
      if Listed(rs[..i + 1], t) {
        var k :| 0 <= k < i + 1 && t in rs[..i + 1][k].tags;
        if k < i {
          assert rs[..i][k] == rs[..i + 1][k];
        }
      }
      if Listed(rs[..i], t) {
        var k :| 0 <= k < i && t in rs[..i][k].tags;
        assert rs[..i + 1][k] == rs[..i][k];
      }
      if t in rs[i].tags {
        assert rs[..i + 1][i] == rs[i];
      }
    }
  }

  // ---------------------------------------------------------------------------
  // Filtering

  /** The lower-cased text a keyword is looked up in, the tags included. */
  function Haystack(r: Listing): string {
    Lower(Join([r.name, UnwrapOr(r.description, ""), UnwrapOr(r.locationText, ""),
                UnwrapOr(r.locationUrl, ""), Join(r.tags, " ")], " "))
  }

  /** A restaurant has every selected tag, and its text contains the
      keyword unless that is empty. */
  predicate Passes(r: Listing, selectedTags: seq<string>, term: string) {
    (|selectedTags| == 0 || forall t | t in selectedTags :: t in r.tags)
    && (term == "" || Contains(Haystack(r), term))
  }

  /** `filteredRestaurants`: no list gives none; otherwise the restaurants
      with every selected tag whose text contains the trimmed, lower-cased
      keyword, in their order. */
  function FilteredRestaurants(restaurants: Option<seq<Listing>>, selectedTags: seq<string>, q: string): (r: seq<Listing>)
    ensures restaurants.None? ==> r == []
    ensures restaurants.Some? ==>
              && (forall x :: x in r <==> x in restaurants.value && Passes(x, selectedTags, Lower(JsTrim(q))))
              && (forall x :: multiset(r)[x]
                                == if Passes(x, selectedTags, Lower(JsTrim(q))) then multiset(restaurants.value)[x] else 0)
              && Seqs.IsSubsequence(r, restaurants.value)
  {
    if restaurants.None? then []
    else
      var term := Lower(JsTrim(q));
      var keep := x => Passes(x, selectedTags, term);
      Seqs.FilterMembers(restaurants.value, keep);
      Seqs.FilterCount(restaurants.value, keep);
      Seqs.FilterSubsequence(restaurants.value, keep);
      Seqs.Filter(restaurants.value, keep)
  }

  /** A shown restaurant has every selected tag. */
  lemma ShownHaveSelectedTags(restaurants: seq<Listing>, selectedTags: seq<string>, q: string, x: Listing)
    requires x in FilteredRestaurants(Some(restaurants), selectedTags, q)
    ensures forall t | t in selectedTags :: t in x.tags
  {
  }

  /** With no tag selected and a blank keyword the whole list is shown. */
  lemma NoFiltersShowAll(restaurants: seq<Listing>, q: string)
    requires JsTrim(q) == ""
    ensures FilteredRestaurants(Some(restaurants), [], q) == restaurants
  {
    assert Lower(JsTrim(q)) == "";
    Seqs.FilterKeepsAll(restaurants, x => Passes(x, [], Lower(JsTrim(q))));
  }

  // ---------------------------------------------------------------------------
  // Selecting tags

  /** `toggleTag`: a selected tag is removed, every copy of it; another is
      appended. */
  function ToggleTag(current: seq<string>, tag: string): (r: seq<string>)
    ensures tag in current ==> tag !in r
    ensures tag in current ==> forall x | x != tag :: multiset(r)[x] == multiset(current)[x]
    ensures tag in current ==> Seqs.IsSubsequence(r, current)
    ensures tag !in current ==> r == current + [tag]
  {
    if tag in current then
      var keep := item => item != tag;
      Seqs.FilterMembers(current, keep);
      Seqs.FilterCount(current, keep);
      Seqs.FilterSubsequence(current, keep);
      Seqs.Filter(current, keep)
    else current + [tag]
  }

  /** Selecting a tag and deselecting it again restores the selection. */
  lemma ToggleTagTwice(current: seq<string>, tag: string)
    requires tag !in current
    ensures ToggleTag(ToggleTag(current, tag), tag) == current
  {
    var keep := item => item != tag;
    Seqs.FilterConcat(current, [tag], keep);
    Seqs.FilterKeepsAll(current, keep);
    assert [tag][1..] == [];
  }

  // ---------------------------------------------------------------------------
  // Notices

  /** JavaScript truthiness of the error message. */
  predicate HasError(err: Option<string>) {
    err.Some? && err.value != ""
  }

  /** `noRestaurants`: loaded without error, and the list is empty. */
  predicate NoRestaurants(err: Option<string>, loading: bool, restaurants: Option<seq<Listing>>) {
    !HasError(err) && !loading && restaurants.Some? && |restaurants.value| == 0
  }

  /** `noMatches`: loaded without error, the list is not empty, and the
      filters leave nothing. */
  predicate NoMatches(err: Option<string>, loading: bool, restaurants: Option<seq<Listing>>, filtered: seq<Listing>) {
    !HasError(err) && !loading && restaurants.Some? && |restaurants.value| > 0 && |filtered| == 0
  }

  /** "No matches" shows exactly when the list loaded without error, is not
      empty, and no restaurant in it passes the filters. */
  lemma NoMatchesIff(err: Option<string>, loading: bool, restaurants: Option<seq<Listing>>,
                     selectedTags: seq<string>, q: string)
    ensures NoMatches(err, loading, restaurants, FilteredRestaurants(restaurants, selectedTags, q))
        <==> !HasError(err) && !loading && restaurants.Some? && |restaurants.value| > 0
             && forall x | x in restaurants.value :: !Passes(x, selectedTags, Lower(JsTrim(q)))
  {
  }

  /** "No matches" needs a filter: without a selected tag or a keyword
      nothing is filtered away. */
  lemma NoFiltersNoMatches(err: Option<string>, loading: bool, restaurants: Option<seq<Listing>>, q: string)
    requires JsTrim(q) == ""
    ensures !NoMatches(err, loading, restaurants, FilteredRestaurants(restaurants, [], q))
  {
    if restaurants.Some? {
      NoFiltersShowAll(restaurants.value, q);
    }
  }
}
