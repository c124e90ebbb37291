/** The restaurant profile page: the form loaded from the stored
    restaurant, its tag editor, and the update request built on save. */
module Profile {
  import opened Wrappers
  import opened Text
  import TagEditing
  import Browse
  import BookingPage

  /** The fetched restaurant; `None` for a missing or null text. */
  datatype RestaurantData = RestaurantData(
    name: Option<string>, description: Option<string>, locationText: Option<string>,
    tags: Browse.JsonTags, frontpageMarkdown: Option<string>,
    contactEmail: Option<string>, contactPhone: Option<string>)

  /** The update request; `None` is a field left out. */
  datatype UpdateRequest = UpdateRequest(
    id: string, name: string, description: string, locationText: string, tags: seq<string>,
    frontpageMarkdown: Option<string>, contactEmail: Option<string>, contactPhone: Option<string>)

  const INITIAL_TAGS: seq<string> := ["Tag", "Vegan"]

  /** `onSave`'s request: none without a restaurant id; otherwise the id,
      name, description, address and tags as typed, and the e-mail, phone
      and page text trimmed, each only when it is not blank. */
  function SaveRequest(restaurantId: string, name: string, shortDesc: string, address: string,
                       tags: seq<string>, email: string, phone: string, bio: string): (r: Option<UpdateRequest>)
    ensures r.None? <==> restaurantId == ""
    ensures r.Some? ==> r.value.id == restaurantId && r.value.name == name && r.value.description == shortDesc
                        && r.value.locationText == address && r.value.tags == tags
    ensures r.Some? ==> (r.value.contactEmail.None? <==> IsBlank(email, IsJsSpace))
                        && (r.value.contactPhone.None? <==> IsBlank(phone, IsJsSpace))
                        && (r.value.frontpageMarkdown.None? <==> IsBlank(bio, IsJsSpace))
    ensures r.Some? ==> (r.value.contactEmail.Some? ==> r.value.contactEmail.value == JsTrim(email))
                        && (r.value.contactPhone.Some? ==> r.value.contactPhone.value == JsTrim(phone))
                        && (r.value.frontpageMarkdown.Some? ==> r.value.frontpageMarkdown.value == JsTrim(bio))
  {
    if restaurantId == "" then None
    else
      Some(UpdateRequest(restaurantId, name, shortDesc, address, tags,
                         BookingPage.OptionalText(Some(bio)),
                         BookingPage.OptionalText(Some(email)),
                         BookingPage.OptionalText(Some(phone))))
  }

  /** An optional text read back into the form and mapped again is the
      same. */
  lemma OptionalTextReloaded(text: string)
    ensures BookingPage.OptionalText(Some(UnwrapOr(BookingPage.OptionalText(Some(text)), "")))
            == BookingPage.OptionalText(Some(text))
  {
    TrimIdempotent(text, IsJsSpace);
    TrimEmptyIffBlank("", IsJsSpace);
  }

  /** Loading the restaurant a request stored and saving again sends the
      same request. */
  lemma ResaveUnchanged(restaurantId: string, name: string, shortDesc: string, address: string,
                        tags: seq<string>, email: string, phone: string, bio: string)
    requires restaurantId != ""
    ensures var req := SaveRequest(restaurantId, name, shortDesc, address, tags, email, phone, bio).value;
            SaveRequest(restaurantId, req.name, req.description, req.locationText, req.tags,
                        UnwrapOr(req.contactEmail, ""), UnwrapOr(req.contactPhone, ""),
                        UnwrapOr(req.frontpageMarkdown, "")) == Some(req)
  {
    OptionalTextReloaded(email);
    OptionalTextReloaded(phone);
    OptionalTextReloaded(bio);
  }

  /** The page's form state. */
  class ProfilePage {
    const restaurantId: string
    var tags: seq<string>
    var newTag: string
    var address: string
    var name: string
    var email: string
    var phone: string
    var shortDesc: string
    var bio: string

    constructor (restaurantId: string)
      ensures this.restaurantId == restaurantId
      ensures tags == INITIAL_TAGS && newTag == "" && address == "" && name == "" && email == ""
              && phone == "" && shortDesc == "" && bio == ""
    {
      this.restaurantId := restaurantId;
      tags := INITIAL_TAGS;
      newTag, address, name, email, phone, shortDesc, bio := "", "", "", "", "", "", "";
    }

    /** Filling the form from the fetched restaurant: a missing text is
        empty, tags that are not an array are none. The new-tag input is
        left alone. */
    method Load(data: RestaurantData)
      modifies this
      ensures name == UnwrapOr(data.name, "") && shortDesc == UnwrapOr(data.description, "")
      ensures address == UnwrapOr(data.locationText, "")
      ensures tags == (if data.tags.TagArray? then data.tags.items else [])
      ensures bio == UnwrapOr(data.frontpageMarkdown, "")
      ensures email == UnwrapOr(data.contactEmail, "") && phone == UnwrapOr(data.contactPhone, "")
      ensures newTag == old(newTag)
    {
      name := UnwrapOr(data.name, "");
      shortDesc := UnwrapOr(data.description, "");
      address := UnwrapOr(data.locationText, "");
      tags := if data.tags.TagArray? then data.tags.items else [];
      bio := UnwrapOr(data.frontpageMarkdown, "");
      email := UnwrapOr(data.contactEmail, "");
      phone := UnwrapOr(data.contactPhone, "");
    }

    /** `canAdd`. */
    predicate CanAdd()
      reads this
    {
      TagEditing.CanAdd(tags, newTag)
    }

    /** `addTag`: the tag editor's step on this page's tags and input;
        nothing else changes. */
    method AddTag()
      modifies this
      ensures TagEditing.Editor(tags, newTag) == TagEditing.AddTag(TagEditing.Editor(old(tags), old(newTag)))
      ensures address == old(address) && name == old(name) && email == old(email)
              && phone == old(phone) && shortDesc == old(shortDesc) && bio == old(bio)
    {
      var e := TagEditing.AddTag(TagEditing.Editor(tags, newTag));
      tags, newTag := e.tags, e.input;
    }

    /** `removeTag`: every copy of the tag leaves the list; nothing else
        changes. */
    method RemoveTag(tag: string)
      modifies this
      ensures tags == TagEditing.RemoveTag(old(tags), tag)
      ensures newTag == old(newTag) && address == old(address) && name == old(name) && email == old(email)
              && phone == old(phone) && shortDesc == old(shortDesc) && bio == old(bio)
    {
      tags := TagEditing.RemoveTag(tags, tag);
    }
  }
}
