/** The link dashboard of pages/Dashboard.tsx: a user's short links, searched,
    created and edited through the link form, deleted, reordered by dragging,
    summed in the stats cards, and kept under `user_<id>_links`. */
module Dashboard {
  import opened Wrappers
  import opened Storage
  import Lists
  import Text
  import EditLinkModal

  const DayMillis := 24 * 60 * 60 * 1000

  /** The three links a user with nothing stored starts with, created three
      days ago, one day ago and now. */
  function DemoLinks(origin: string, now: int): (r: seq<DashLink>)
    ensures |r| == 3 && forall k :: 0 <= k < 3 ==> r[k].createdAt <= now
  {
    [DashLink("link-1", "My Portfolio", "https://example.com/portfolio", origin + "/port123", 42, now - 3 * DayMillis),
     DashLink("link-2", "GitHub Profile", "https://github.com", origin + "/github", 17, now - DayMillis),
     DashLink("link-3", "LinkedIn", "https://linkedin.com", origin + "/linkedin", 8, now)]
  }

  /** `links.reduce((sum, link) => sum + link.clickCount, 0)`: no link has
      more clicks than the total, and no links have none. */
  function TotalClicks(links: seq<DashLink>): (r: nat)
    ensures links == [] ==> r == 0
    ensures forall k :: 0 <= k < |links| ==> links[k].clickCount <= r
  {
    assert forall k :: 1 <= k < |links| ==> links[k] == links[1..][k - 1];
    if links == [] then 0 else links[0].clickCount + TotalClicks(links[1..])
  }

  /** The total of two lists put together is the sum of their totals. */
  lemma {:induction false} TotalClicksAppend(a: seq<DashLink>, b: seq<DashLink>)
    ensures TotalClicks(a + b) == TotalClicks(a) + TotalClicks(b)
  {
    if a == [] {
      assert a + b == b;
    } else {
      assert (a + b)[1..] == a[1..] + b;
      TotalClicksAppend(a[1..], b);
    }
  }

  /** Taking one link out lowers the total by its clicks. */
  lemma {:induction false} TotalClicksRemove(s: seq<DashLink>, i: nat)
    requires i < |s|
    ensures TotalClicks(s) == TotalClicks(Lists.Remove(s, i)) + s[i].clickCount
  {
    var r := Lists.Remove(s, i);
    if i == 0 {
      assert r == s[1..];
    } else {
      assert r[0] == s[0];
      assert r[1..] == Lists.Remove(s[1..], i - 1);
      TotalClicksRemove(s[1..], i - 1);
    }
  }

  /** The total does not depend on the order of the links: any two lists with
      the same links, each as often, have the same total. */
  lemma {:induction false} TotalClicksPermutation(a: seq<DashLink>, b: seq<DashLink>)
    requires multiset(a) == multiset(b)
    ensures TotalClicks(a) == TotalClicks(b)
  {
    if a != [] {
      assert a[0] in multiset(b);
      var i :| 0 <= i < |b| && b[i] == a[0];
      assert b == b[..i] + [b[i]] + b[i + 1..];
      assert a == [a[0]] + a[1..];
      var rest := Lists.Remove(b, i);
      assert rest == b[..i] + b[i + 1..];
      assert multiset(b) == multiset(b[..i]) + multiset{b[i]} + multiset(b[i + 1..]);
      assert multiset(rest) == multiset(b[..i]) + multiset(b[i + 1..]);
      assert multiset(a) == multiset{a[0]} + multiset(a[1..]);
      assert multiset(a[1..]) == multiset(rest) by {
        forall x ensures multiset(a[1..])[x] == multiset(rest)[x] {
          assert multiset(a)[x] == multiset(b)[x];
        }
      }
      TotalClicksPermutation(a[1..], Lists.Remove(b, i));
      TotalClicksRemove(b, i);
    } else {
      assert |b| == |multiset(b)| == 0;
    }
  }

  /** Every link's clicks are part of the total, and the total is zero
      exactly when no link has been clicked. */
  lemma {:induction false} TotalClicksBounds(links: seq<DashLink>)
    ensures forall k :: 0 <= k < |links| ==> links[k].clickCount <= TotalClicks(links)
    ensures TotalClicks(links) == 0 <==> forall k :: 0 <= k < |links| ==> links[k].clickCount == 0
  {
    if links != [] {
      TotalClicksBounds(links[1..]);
      assert forall k :: 1 <= k < |links| ==> links[k] == links[1..][k - 1];
    }
  }

  /** The two counters of the stats cards. */
  datatype StatsCards = StatsCards(totalClicks: nat, totalLinks: nat)

  /** `renderStats`: the click total over all links (not only the shown ones)
      and the number of links. */
  function RenderStats(links: seq<DashLink>): (r: StatsCards)
    ensures r.totalClicks == TotalClicks(links)
    ensures r.totalLinks == |links|
    ensures forall k :: 0 <= k < |links| ==> links[k].clickCount <= r.totalClicks
    ensures r.totalClicks == 0 <==> forall k :: 0 <= k < |links| ==> links[k].clickCount == 0
  {
    TotalClicksBounds(links);
    StatsCards(TotalClicks(links), |links|)
  }

  /** Whether the lower-cased title, URL or short URL contains `query`. */
  predicate Matches(link: DashLink, query: string)
  {
    Text.Contains(Text.ToLower(link.title), query) ||
    Text.Contains(Text.ToLower(link.url), query) ||
    Text.Contains(Text.ToLower(link.shortUrl), query)
  }

  /** The search effect: a query that is blank once trimmed shows every link;
      any other query shows the links matching the lower-cased query as typed
      (untrimmed). */
  function SearchFilter(links: seq<DashLink>, searchQuery: string): (r: seq<DashLink>)
    ensures Text.AllWhitespace(searchQuery) ==> r == links
    ensures forall l :: l in r <==>
              l in links && (Text.AllWhitespace(searchQuery) || Matches(l, Text.ToLower(searchQuery)))
  {
    Text.TrimBlank(searchQuery);
    if Text.Trim(searchQuery) == "" then links
    else Lists.Filter(links, (l: DashLink) => Matches(l, Text.ToLower(searchQuery)))
  }

  /** The shown links are some of the links, in their order, and a link
      shown is shown as often as it is stored. */
  lemma SearchFilterSublist(links: seq<DashLink>, searchQuery: string, l: DashLink)
    ensures Lists.IsSubsequence(SearchFilter(links, searchQuery), links)
    ensures l in SearchFilter(links, searchQuery) ==>
              multiset(SearchFilter(links, searchQuery))[l] == multiset(links)[l]
  {
    Text.TrimBlank(searchQuery);
    var p := (k: DashLink) => Matches(k, Text.ToLower(searchQuery));
    if Text.Trim(searchQuery) == "" {
      Lists.FilterKeepsAll(links, (k: DashLink) => true);
      Lists.FilterIsSubsequence(links, (k: DashLink) => true);
    } else {
      Lists.FilterIsSubsequence(links, p);
      Lists.FilterCount(links, p, l);
    }
  }

  /** `handleDeleteLink`: `links.filter(link => link.id !== id)`. */
  function DeleteLink(links: seq<DashLink>, id: string): (r: seq<DashLink>)
    ensures forall k :: 0 <= k < |r| ==> r[k].id != id
    ensures forall l :: l in r <==> l in links && l.id != id
  {
    Lists.Filter(links, (l: DashLink) => l.id != id)
  }

  /** Deleting keeps the other links in order and as often as they were. */
  lemma DeleteLinkKeepsOthers(links: seq<DashLink>, id: string, other: DashLink)
    requires other.id != id
    ensures Lists.IsSubsequence(DeleteLink(links, id), links)
    ensures multiset(DeleteLink(links, id))[other] == multiset(links)[other]
  {
    var p := (l: DashLink) => l.id != id;
    Lists.FilterIsSubsequence(links, p);
    Lists.FilterCount(links, p, other);
  }

  /** The link `handleSaveLink` creates: id `link-<now>`, the form's title and
      URL, its short URL or else one with the generated code, no clicks yet.
      `now`, `origin` and `randomCode` stand for `Date.now()`,
      `window.location.origin` and the generated code. */
  function NewLink(linkData: EditLinkModal.SavedLink, now: nat, origin: string, randomCode: string): (r: DashLink)
    ensures r.id == "link-" + Text.DecimalString(now)
    ensures r.clickCount == 0 && r.createdAt == now
    ensures r.title == linkData.title && r.url == linkData.url
    ensures r.shortUrl == if linkData.shortUrl != "" then linkData.shortUrl else origin + "/" + randomCode
  {
    DashLink("link-" + Text.DecimalString(now), linkData.title, linkData.url,
             if linkData.shortUrl != "" then linkData.shortUrl else origin + "/" + randomCode,
             0, now)
  }

  /** The create branch: the new link goes first and every old link follows
      it unchanged; the click total stays the same. */
  function CreateLink(links: seq<DashLink>, link: DashLink): (r: seq<DashLink>)
    ensures |r| == |links| + 1 && r[0] == link && r[1..] == links
  {
    [link] + links
  }

  lemma CreateKeepsTotal(links: seq<DashLink>, linkData: EditLinkModal.SavedLink, now: nat,
                         origin: string, randomCode: string)
    ensures TotalClicks(CreateLink(links, NewLink(linkData, now, origin, randomCode))) == TotalClicks(links)
  {
    assert CreateLink(links, NewLink(linkData, now, origin, randomCode))[1..] == links;
  }

  /** The update branch: every link with the id gets the form's title and URL,
      and its short URL unless the form's is empty; its id, clicks and
      creation time stay, and every other link is unchanged. */
  function UpdateLink(links: seq<DashLink>, id: string, linkData: EditLinkModal.SavedLink): (r: seq<DashLink>)
    ensures |r| == |links|
    ensures forall k :: 0 <= k < |r| ==>
              r[k].id == links[k].id && r[k].clickCount == links[k].clickCount
              && r[k].createdAt == links[k].createdAt
    ensures forall k :: 0 <= k < |r| && links[k].id == id ==>
              r[k].title == linkData.title && r[k].url == linkData.url
              && r[k].shortUrl == (if linkData.shortUrl != "" then linkData.shortUrl else links[k].shortUrl)
    ensures forall k :: 0 <= k < |r| && links[k].id != id ==> r[k] == links[k]
  {
    seq(|links|, k requires 0 <= k < |links| =>
      if links[k].id == id then
        links[k].(title := linkData.title, url := linkData.url,
                  shortUrl := if linkData.shortUrl != "" then linkData.shortUrl else links[k].shortUrl)
      else links[k])
  }

  /** Editing never changes the click total. */
  lemma {:induction false} UpdateKeepsTotal(links: seq<DashLink>, id: string, linkData: EditLinkModal.SavedLink)
    ensures TotalClicks(UpdateLink(links, id, linkData)) == TotalClicks(links)
  {
    if links != [] {
      assert UpdateLink(links, id, linkData)[1..] == UpdateLink(links[1..], id, linkData);
      UpdateKeepsTotal(links[1..], id, linkData);
    }
  }

  /** The index of the first link with the id, or -1. */
  function IndexOfId(links: seq<DashLink>, id: string): (r: int)
    ensures -1 <= r < |links|
    ensures r == -1 <==> forall k :: 0 <= k < |links| ==> links[k].id != id
    ensures r >= 0 ==> links[r].id == id && forall k :: 0 <= k < r ==> links[k].id != id
  {
    Lists.FindIndex(links, (l: DashLink) => l.id == id)
  }

  /** The links a load puts in place, given what is stored under the links
      key: a stored list as it is; a string that does not parse or a value
      that is not a list gives no links; `None` when nothing is stored (the
      demo links are then used and stored). */
  function StoredLinks(stored: Option<Value>): (r: Option<seq<DashLink>>)
    ensures stored == None <==> r == None
    ensures stored.Some? && stored.value.LinkListValue? ==> r == Some(stored.value.links)
    ensures stored.Some? && !stored.value.LinkListValue? ==> r == Some([])
  {
    match stored
    case None => None
    case Some(LinkListValue(ls)) => Some(ls)
    case Some(_) => Some([])
  }

  /** The `Dashboard` component's state. */
  class DashboardPage {
    var links: seq<DashLink>
    var filteredLinks: seq<DashLink>
    var searchQuery: string
    var editingLink: Option<DashLink>
    var isCreating: bool
    var modalOpen: bool

    /** The initial state: no links, no query, the form closed. */
    constructor ()
      ensures links == [] && filteredLinks == [] && searchQuery == ""
      ensures editingLink == None && !isCreating && !modalOpen
    {
      links, filteredLinks, searchQuery := [], [], "";
      editingLink, isCreating, modalOpen := None, false, false;
    }

    /** The load effect. With a user: the stored list, or no links when the
      stored text is unreadable, or the demo links, which are then stored,
      when nothing is stored. Both lists show the result. Without a user
      nothing changes. */
    method LoadLinks(store: LocalStorage, user: Option<User>, origin: string, now: int)
      modifies this`links, this`filteredLinks, store
      ensures user.None? ==> links == old(links) && filteredLinks == old(filteredLinks)
                             && store.items == old(store.items)
      ensures user.Some? ==>
        var stored := StoredLinks(Lookup(old(store.items), LinksKey(user.value.id)));
        && filteredLinks == links
        && (stored.Some? ==> links == stored.value && store.items == old(store.items))
        && (stored.None? ==>
              links == DemoLinks(origin, now)
              && store.items == old(store.items)[LinksKey(user.value.id) := LinkListValue(links)])
    {
      if user.Some? {
        var stored := StoredLinks(Lookup(store.items, LinksKey(user.value.id)));
        if stored.Some? {
          links := stored.value;
        } else {
          links := DemoLinks(origin, now);
          store.SetItem(LinksKey(user.value.id), LinkListValue(links));
        }
        filteredLinks := links;
      }
    }

    /** The search effect: the shown links follow the query. */
    method ApplySearch()
      modifies this`filteredLinks
      ensures filteredLinks == SearchFilter(links, searchQuery)
    {
      filteredLinks := SearchFilter(links, searchQuery);
    }

    /** The persist effect: the list is written only when there is a user and
      at least one link, so emptying the list is never stored and the last
      stored list comes back on the next load. */
    method PersistLinks(store: LocalStorage, user: Option<User>)
      modifies store
      ensures user.Some? && links != [] ==>
        store.items == old(store.items)[LinksKey(user.value.id) := LinkListValue(links)]
      ensures user.None? || links == [] ==> store.items == old(store.items)
    {
      if user.Some? && |links| > 0 {
        store.SetItem(LinksKey(user.value.id), LinkListValue(links));
      }
    }

    /** `handleCreateLink`: open the form for a new link. */
    method HandleCreateLink()
      modifies this`editingLink, this`isCreating, this`modalOpen
      ensures editingLink == None && isCreating && modalOpen
    {
      editingLink, isCreating, modalOpen := None, true, true;
    }

    /** `handleEditLink`: open the form on the first link with the id; with no
      such link nothing changes. */
    method HandleEditLink(id: string)
      modifies this`editingLink, this`isCreating, this`modalOpen
      ensures var i := IndexOfId(links, id);
        if i >= 0 then editingLink == Some(links[i]) && !isCreating && modalOpen
        else editingLink == old(editingLink) && isCreating == old(isCreating) && modalOpen == old(modalOpen)
    {
      var i := IndexOfId(links, id);
      if i >= 0 {
        editingLink, isCreating, modalOpen := Some(links[i]), false, true;
      }
    }

    /** `handleDeleteLink`. */
    method HandleDeleteLink(id: string)
      modifies this`links
      ensures links == DeleteLink(old(links), id)
    {
      links := DeleteLink(links, id);
    }

    /** `handleSaveLink`, called by the link form. Creating: the new link is
      put first. Editing with an id from the form (a non-empty one): that
      link is updated. Otherwise the list is unchanged. The form closes in
      every case, and the click total never changes. */
    method HandleSaveLink(linkData: EditLinkModal.SavedLink, now: nat, origin: string, randomCode: string)
      modifies this`links, this`modalOpen
      ensures isCreating ==> links == CreateLink(old(links), NewLink(linkData, now, origin, randomCode))
      ensures !isCreating && linkData.id.Some? && linkData.id.value != "" ==>
                links == UpdateLink(old(links), linkData.id.value, linkData)
      ensures !isCreating && (linkData.id.None? || linkData.id.value == "") ==> links == old(links)
      ensures !modalOpen
      ensures TotalClicks(links) == TotalClicks(old(links))
    {
      if isCreating {
        CreateKeepsTotal(links, linkData, now, origin, randomCode);
        links := CreateLink(links, NewLink(linkData, now, origin, randomCode));
      } else if linkData.id.Some? && linkData.id.value != "" {
        UpdateKeepsTotal(links, linkData.id.value, linkData);
        links := UpdateLink(links, linkData.id.value, linkData);
      }
      modalOpen := false;
    }

    /** `handleDragEnd` for a drag of the link `activeId` dropped on the link
      `overId` (both on the page). Equal ids change nothing. Otherwise the
      dragged link lands at the target's original index, the others keep
      their order, and the list is a permutation of the old one, with the
      same click total. */
    method HandleDragEnd(activeId: string, overId: string)
      requires IndexOfId(links, activeId) >= 0 && IndexOfId(links, overId) >= 0
      modifies this`links
      ensures activeId == overId ==> links == old(links)
      ensures |links| == |old(links)| && multiset(links) == multiset(old(links))
      ensures var from, to := IndexOfId(old(links), activeId), IndexOfId(old(links), overId);
              links[to] == old(links)[from] && Lists.Remove(links, to) == Lists.Remove(old(links), from)
      ensures TotalClicks(links) == TotalClicks(old(links))
    {
      var oldIndex := IndexOfId(links, activeId);
      var newIndex := IndexOfId(links, overId);
      if activeId != overId {
        var moved := Lists.MoveItem(links, oldIndex, newIndex);
        TotalClicksPermutation(moved, links);
        links := moved;
      }
    }
  }
}
