/** The link bio editor of pages/LinkBio.tsx: a profile (name, image, bio,
    colours, container style) and an ordered list of links, edited through a
    modal, reordered by dragging, and saved to and loaded from
    `user_<id>_bio`. */
module LinkBio {
  import opened Wrappers
  import opened Storage
  import Lists
  import Text

  /** Everything the page saves. */
  datatype Profile = Profile(
    profileName: string,
    profileImage: string,
    profileBio: string,
    links: seq<BioLink>,
    backgroundColor: string,
    accentColor: string,
    containerStyle: ContainerStyle)

  const DefaultName := "John Doe"
  const DefaultImage := "/placeholder.svg"
  const DefaultBio := "Digital creator & web developer"
  const DefaultBackground := "#f0f4f8"
  const DefaultAccent := "#4f46e5"

  /** The links the page starts with. */
  const StarterLinks := [
    BioLink("1", "My Portfolio", "https://example.com/portfolio"),
    BioLink("2", "GitHub", "https://github.com"),
    BioLink("3", "Twitter", "https://twitter.com")
  ]

  function InitialProfile(): Profile
  {
    Profile(DefaultName, DefaultImage, DefaultBio, StarterLinks,
            DefaultBackground, DefaultAccent, Default)
  }

  /** `stored || fallback` for a string field: a missing or empty field gives
      the fallback. */
  function OrDefault(stored: Option<string>, fallback: string): (r: string)
    ensures stored.Some? && stored.value != "" ==> r == stored.value
    ensures stored.None? || stored.value == "" ==> r == fallback
  {
    if stored.Some? && stored.value != "" then stored.value else fallback
  }

  /** `saveData`: the record written for a profile, every field present.
      Reading it back gives the profile whenever no string field is empty. */
  function ToRecord(p: Profile): (r: BioRecord)
    ensures r.links == Some(p.links) && r.containerStyle == Some(p.containerStyle)
    ensures NoBlankFields(p) ==> FromRecord(r) == p
  {
    BioRecord(Some(p.profileName), Some(p.profileImage), Some(p.profileBio), Some(p.links),
              Some(p.backgroundColor), Some(p.accentColor), Some(p.containerStyle))
  }

  /** The profile the load effect builds from a stored record: every missing
      or empty string field is replaced by its fixed default, missing links
      by no links, a missing style by the default style. */
  function FromRecord(rec: BioRecord): (r: Profile)
    ensures r.profileName == OrDefault(rec.profileName, DefaultName)
    ensures r.profileImage == OrDefault(rec.profileImage, DefaultImage)
    ensures r.profileBio == OrDefault(rec.profileBio, DefaultBio)
    ensures r.links == if rec.links.Some? then rec.links.value else []
    ensures r.backgroundColor == OrDefault(rec.backgroundColor, DefaultBackground)
    ensures r.accentColor == OrDefault(rec.accentColor, DefaultAccent)
    ensures r.containerStyle == if rec.containerStyle.Some? then rec.containerStyle.value else Default
    ensures r.profileName != "" && r.profileImage != "" && r.profileBio != ""
    ensures r.backgroundColor != "" && r.accentColor != ""
  {
    Profile(
      OrDefault(rec.profileName, DefaultName),
      OrDefault(rec.profileImage, DefaultImage),
      OrDefault(rec.profileBio, DefaultBio),
      if rec.links.Some? then rec.links.value else [],
      OrDefault(rec.backgroundColor, DefaultBackground),
      OrDefault(rec.accentColor, DefaultAccent),
      if rec.containerStyle.Some? then rec.containerStyle.value else Default)
  }

  /** The profile after the load effect, given what is stored under the bio
      key and the profile shown before: a bio record is read through
      `FromRecord`; a parsed value of another shape has none of the fields,
      so every field takes its default; a string that does not parse is
      caught and changes nothing; nothing stored changes nothing. */
  function LoadedProfile(stored: Option<Value>, current: Profile): (r: Profile)
    ensures stored.None? ==> r == current
    ensures stored.Some? && stored.value.Unparsable? ==> r == current
    ensures stored.Some? && stored.value.BioValue? ==> r == FromRecord(stored.value.bio)
    ensures stored.Some? && !stored.value.BioValue? && !stored.value.Unparsable? ==>
              r == InitialProfile().(links := [])
  {
    match stored
    case None => current
    case Some(BioValue(rec)) => FromRecord(rec)
    case Some(Unparsable(_)) => current
    case Some(_) => FromRecord(BioRecord(None, None, None, None, None, None, None))
  }

  /** No string field of the profile is empty. */
  predicate NoBlankFields(p: Profile)
  {
    p.profileName != "" && p.profileImage != "" && p.profileBio != ""
    && p.backgroundColor != "" && p.accentColor != ""
  }

  /** Saving and loading again gives back the profile exactly when none of its
      string fields is empty; an emptied field comes back as its default. */
  lemma SaveLoadRoundTrip(items: map<string, Value>, u: User, p: Profile, shown: Profile)
    ensures var loaded := LoadedProfile(Lookup(items[BioKey(u.id) := BioValue(ToRecord(p))], BioKey(u.id)), shown);
            (loaded == p <==> NoBlankFields(p))
            && loaded.links == p.links && loaded.containerStyle == p.containerStyle
            && (p.profileName == "" ==> loaded.profileName == DefaultName)
  {
    var loaded := FromRecord(ToRecord(p));
    if NoBlankFields(p) {
      assert loaded == p;
    }
  }

  /** A stored value that parses but carries no bio fields resets the profile
      to the defaults, with no links rather than the starter links. */
  lemma ForeignRecordGivesDefaults(v: Value, shown: Profile)
    requires !v.BioValue? && !v.Unparsable?
    ensures LoadedProfile(Some(v), shown) == InitialProfile().(links := [])
  {
  }

  /** `handleDeleteLink`: `links.filter(link => link.id !== id)`. */
  function DeleteLink(links: seq<BioLink>, id: string): (r: seq<BioLink>)
    ensures forall k :: 0 <= k < |r| ==> r[k].id != id
    ensures forall l :: l in r <==> l in links && l.id != id
    ensures |r| <= |links|
  {
    Lists.Filter(links, (l: BioLink) => l.id != id)
  }

  /** Deleting keeps every other link as often as it occurred and in its
      order, and deleting the same id again changes nothing. */
  lemma DeleteLinkProperties(links: seq<BioLink>, id: string, other: BioLink)
    requires other.id != id
    ensures Lists.IsSubsequence(DeleteLink(links, id), links)
    ensures multiset(DeleteLink(links, id))[other] == multiset(links)[other]
    ensures DeleteLink(DeleteLink(links, id), id) == DeleteLink(links, id)
  {
    var p := (l: BioLink) => l.id != id;
    Lists.FilterIsSubsequence(links, p);
    Lists.FilterCount(links, p, other);
    Lists.FilterKeepsAll(DeleteLink(links, id), p);
  }

  /** The edit branch of `handleSaveLink`: every link with the edited id gets
      the new title and URL; its id and every other link stay as they were. */
  function UpdateLink(links: seq<BioLink>, id: string, title: string, url: string): (r: seq<BioLink>)
    ensures |r| == |links|
    ensures forall k :: 0 <= k < |r| ==> r[k].id == links[k].id
    ensures forall k :: 0 <= k < |r| && links[k].id == id ==> r[k].title == title && r[k].url == url
    ensures forall k :: 0 <= k < |r| && links[k].id != id ==> r[k] == links[k]
  {
    seq(|links|, k requires 0 <= k < |links| =>
      if links[k].id == id then links[k].(title := title, url := url) else links[k])
  }

  /** An edit is undone by deleting the id: editing then deleting is the same
      as deleting alone. */
  lemma {:induction false} DeleteAfterUpdate(links: seq<BioLink>, id: string, title: string, url: string)
    ensures DeleteLink(UpdateLink(links, id, title, url), id) == DeleteLink(links, id)
  {
    if links != [] {
      var u := UpdateLink(links, id, title, url);
      assert u[1..] == UpdateLink(links[1..], id, title, url);
      DeleteAfterUpdate(links[1..], id, title, url);
    }
  }

  /** The index of the first link with the id, or -1. */
  function IndexOfId(links: seq<BioLink>, id: string): (r: int)
    ensures -1 <= r < |links|
    ensures r == -1 <==> forall k :: 0 <= k < |links| ==> links[k].id != id
    ensures r >= 0 ==> links[r].id == id && forall k :: 0 <= k < r ==> links[k].id != id
  {
    Lists.FindIndex(links, (l: BioLink) => l.id == id)
  }

  datatype LinkError =
    | MissingField   // "Please enter both title and URL"
    | InvalidUrl     // "Please enter a valid URL"

  /** The checks of `handleSaveLink`, first failure wins: title and URL must
      not be blank after trimming, and the URL as typed must parse. */
  function SaveLinkCheck(title: string, url: string, parses: string -> bool): (r: Outcome<LinkError>)
    ensures r.Pass? <==> !Text.AllWhitespace(title) && !Text.AllWhitespace(url) && parses(url)
    ensures r == Fail(MissingField) <==> Text.AllWhitespace(title) || Text.AllWhitespace(url)
  {
    Text.TrimBlank(title);
    Text.TrimBlank(url);
    if Text.Trim(title) == "" || Text.Trim(url) == "" then Fail(MissingField)
    else if !parses(url) then Fail(InvalidUrl)
    else Pass
  }

  /** The `LinkBio` component's state. */
  class LinkBioEditor {
    var profileName: string
    var profileImage: string
    var profileBio: string
    var links: seq<BioLink>
    var backgroundColor: string
    var accentColor: string
    var containerStyle: ContainerStyle
    var editModalOpen: bool
    var editingLink: Option<BioLink>
    var newLinkTitle: string
    var newLinkUrl: string

    function Current(): Profile
      reads this
    {
      Profile(profileName, profileImage, profileBio, links, backgroundColor, accentColor, containerStyle)
    }

    /** The initial state: the default profile with the three starter links,
      and the modal closed and empty. */
    constructor ()
      ensures Current() == InitialProfile()
      ensures !editModalOpen && editingLink == None && newLinkTitle == "" && newLinkUrl == ""
    {
      profileName, profileImage, profileBio := DefaultName, DefaultImage, DefaultBio;
      links := StarterLinks;
      backgroundColor, accentColor, containerStyle := DefaultBackground, DefaultAccent, Default;
      editModalOpen, editingLink, newLinkTitle, newLinkUrl := false, None, "", "";
    }

    /** Writes every profile field at once. */
    method SetProfile(p: Profile)
      modifies this`profileName, this`profileImage, this`profileBio, this`links,
               this`backgroundColor, this`accentColor, this`containerStyle
      ensures Current() == p
    {
      profileName, profileImage, profileBio := p.profileName, p.profileImage, p.profileBio;
      links := p.links;
      backgroundColor, accentColor, containerStyle := p.backgroundColor, p.accentColor, p.containerStyle;
    }

    /** The load effect: with a user, the profile read from their bio key
      (see `LoadedProfile`); without one, nothing changes. */
    method LoadData(store: LocalStorage, user: Option<User>)
      modifies this`profileName, this`profileImage, this`profileBio, this`links,
               this`backgroundColor, this`accentColor, this`containerStyle
      ensures user.Some? ==> Current() == LoadedProfile(Lookup(store.items, BioKey(user.value.id)), old(Current()))
      ensures user.None? ==> Current() == old(Current())
    {
      if user.Some? {
        SetProfile(LoadedProfile(Lookup(store.items, BioKey(user.value.id)), Current()));
      }
    }

    /** `saveData`: with a user, write the whole profile under their bio key;
      without one, write nothing. */
    method SaveData(store: LocalStorage, user: Option<User>)
      modifies store
      ensures user.Some? ==> store.items == old(store.items)[BioKey(user.value.id) := BioValue(ToRecord(Current()))]
      ensures user.None? ==> store.items == old(store.items)
    {
      if user.Some? {
        store.SetItem(BioKey(user.value.id), BioValue(ToRecord(Current())));
      }
    }

    /** `handleAddLink`: open the modal empty, editing nothing. */
    method HandleAddLink()
      modifies this`editingLink, this`newLinkTitle, this`newLinkUrl, this`editModalOpen
      ensures editingLink == None && newLinkTitle == "" && newLinkUrl == "" && editModalOpen
    {
      editingLink, newLinkTitle, newLinkUrl, editModalOpen := None, "", "", true;
    }

    /** `handleEditLink`: open the modal on the first link with the id; with
      no such link nothing changes. */
    method HandleEditLink(id: string)
      modifies this`editingLink, this`newLinkTitle, this`newLinkUrl, this`editModalOpen
      ensures var i := IndexOfId(links, id);
        if i >= 0 then
          editingLink == Some(links[i]) && newLinkTitle == links[i].title
          && newLinkUrl == links[i].url && editModalOpen
        else
          editingLink == old(editingLink) && newLinkTitle == old(newLinkTitle)
          && newLinkUrl == old(newLinkUrl) && editModalOpen == old(editModalOpen)
    {
      var i := IndexOfId(links, id);
      if i >= 0 {
        var link := links[i];
        editingLink, newLinkTitle, newLinkUrl, editModalOpen := Some(link), link.title, link.url, true;
      }
    }

    /** `handleDeleteLink`. */
    method HandleDeleteLink(id: string)
      modifies this`links
      ensures links == DeleteLink(old(links), id)
    {
      links := DeleteLink(links, id);
    }

    /** `handleSaveLink`. A failed check changes nothing (the modal stays
      open). Otherwise the edited link's id gets the title and URL as typed
      (untrimmed), or a new link with id `now.toString()` is appended; then
      the modal closes. `now` stands for `Date.now()`. */
    method HandleSaveLink(parses: string -> bool, now: nat) returns (r: Outcome<LinkError>)
      modifies this`links, this`editModalOpen
      ensures r == SaveLinkCheck(newLinkTitle, newLinkUrl, parses)
      ensures r.Fail? ==> links == old(links) && editModalOpen == old(editModalOpen)
      ensures r.Pass? && editingLink.Some? ==>
        links == UpdateLink(old(links), editingLink.value.id, newLinkTitle, newLinkUrl)
      ensures r.Pass? && editingLink.None? ==>
        links == old(links) + [BioLink(Text.DecimalString(now), newLinkTitle, newLinkUrl)]
      ensures r.Pass? ==> !editModalOpen
    {
      r := SaveLinkCheck(newLinkTitle, newLinkUrl, parses);
      if r.Fail? {
        return;
      }
      if editingLink.Some? {
        links := UpdateLink(links, editingLink.value.id, newLinkTitle, newLinkUrl);
      } else {
        links := links + [BioLink(Text.DecimalString(now), newLinkTitle, newLinkUrl)];
      }
      editModalOpen := false;
    }

    /** `handleDragEnd` for a drag of the link `activeId` dropped on the link
      `overId` (both on the page). Equal ids change nothing. Otherwise the
      dragged link is spliced out and back in at the target's original index:
      it lands there, the other links keep their order, and the list is a
      permutation of the old one. */
    method HandleDragEnd(activeId: string, overId: string)
      requires IndexOfId(links, activeId) >= 0 && IndexOfId(links, overId) >= 0
      modifies this`links
      ensures activeId == overId ==> links == old(links)
      ensures |links| == |old(links)| && multiset(links) == multiset(old(links))
      ensures var from, to := IndexOfId(old(links), activeId), IndexOfId(old(links), overId);
              links[to] == old(links)[from] && Lists.Remove(links, to) == Lists.Remove(old(links), from)
    {
      var oldIndex := IndexOfId(links, activeId);
      var newIndex := IndexOfId(links, overId);
      if activeId != overId {
        links := Lists.MoveItem(links, oldIndex, newIndex);
      }
    }
  }
}
