/** The browser's `localStorage` as the application uses it: a map from keys
    to JSON records. Each record the application writes has a datatype here;
    `Unparsable` stands for a stored string that `JSON.parse` rejects. */
module Storage {
  import opened Wrappers

  /** The user record of the mock auth context (`User` in AuthContext.tsx). */
  datatype User = User(id: string, email: string, name: string)

  /** An entry of the bio page (`BioLink` in MobilePreview.tsx; its optional
      `icon` is never set by the core). */
  datatype BioLink = BioLink(id: string, title: string, url: string)

  datatype ContainerStyle = Default | Rounded | Pill | Outline

  /** The `user_<id>_bio` record. A field is `None` when the stored object
      lacks it. */
  datatype BioRecord = BioRecord(
    profileName: Option<string>,
    profileImage: Option<string>,
    profileBio: Option<string>,
    links: Option<seq<BioLink>>,
    backgroundColor: Option<string>,
    accentColor: Option<string>,
    containerStyle: Option<ContainerStyle>)

  /** A dashboard link (`LinkItemProps` without its callbacks); `createdAt` is
      a time in milliseconds. */
  datatype DashLink = DashLink(
    id: string, title: string, url: string, shortUrl: string,
    clickCount: nat, createdAt: int)

  /** The `user_<id>_settings` record. */
  datatype SecuritySettings = SecuritySettings(twoFactorEnabled: bool, googleConnected: bool)

  /** `LinkVisit` of trackingUtils.ts; `timestamp` in milliseconds. */
  datatype Visit = Visit(
    id: string, timestamp: int, ipAddress: string, userAgent: string,
    referrer: Option<string>)

  /** `LinkStats` of trackingUtils.ts. */
  datatype LinkStats = LinkStats(
    totalClicks: nat, uniqueVisitors: nat, lastClicked: Option<int>, visits: seq<Visit>)

  /** What a storage key can hold. */
  datatype Value =
    | UserValue(user: User)
    | UserListValue(users: seq<User>)
    | BioValue(bio: BioRecord)
    | LinkListValue(links: seq<DashLink>)
    | SettingsValue(settings: SecuritySettings)
    | VisitListValue(visits: seq<Visit>)
    | StatsValue(stats: LinkStats)
    | Unparsable(text: string)

  /** `getItem(key)` followed by the truthiness test every caller applies to
      it: a missing key and a stored empty string both read as absent. */
  function Lookup(items: map<string, Value>, key: string): Option<Value>
  {
    if key in items && items[key] != Unparsable("") then Some(items[key]) else None
  }

  const SessionKey := "user"
  const DirectoryKey := "users"

  function BioKey(userId: string): string { "user_" + userId + "_bio" }
  function LinksKey(userId: string): string { "user_" + userId + "_links" }
  function SettingsKey(userId: string): string { "user_" + userId + "_settings" }
  function VisitsKey(shortId: string): string { "link_" + shortId + "_visits" }
  function StatsKey(shortId: string): string { "link_" + shortId + "_stats" }

  /** The visit and stats keys of a short id belong to it alone: no two short
      ids share a key, and no visit key is a stats key. */
  lemma LinkKeysDistinct(a: string, b: string)
    ensures VisitsKey(a) == VisitsKey(b) ==> a == b
    ensures StatsKey(a) == StatsKey(b) ==> a == b
    ensures VisitsKey(a) != StatsKey(b)
  {
    var va, vb, sa, sb := VisitsKey(a), VisitsKey(b), StatsKey(a), StatsKey(b);
    assert a == va[5..|va| - 7] && b == vb[5..|vb| - 7];
    assert a == sa[5..|sa| - 6] && b == sb[5..|sb| - 6];
    if |va| == |sb| {
      assert va[|va| - 3] == 'i' && sb[|sb| - 3] == 'a';
    }
  }

  /** The keys of one user's records are distinct from each other, from those
      of any other user, from the session and directory keys, and from every
      link key. */
  lemma UserKeysDistinct(a: string, b: string, s: string)
    ensures BioKey(a) == BioKey(b) ==> a == b
    ensures LinksKey(a) == LinksKey(b) ==> a == b
    ensures SettingsKey(a) == SettingsKey(b) ==> a == b
    ensures BioKey(a) != LinksKey(b) && BioKey(a) != SettingsKey(b) && LinksKey(a) != SettingsKey(b)
    ensures ApartFrom(BioKey(a), s) && ApartFrom(LinksKey(a), s) && ApartFrom(SettingsKey(a), s)
  {
    var ba, bb, la, lb, ta, tb := BioKey(a), BioKey(b), LinksKey(a), LinksKey(b), SettingsKey(a), SettingsKey(b);
    assert a == ba[5..|ba| - 4] && b == bb[5..|bb| - 4];
    assert a == la[5..|la| - 6] && b == lb[5..|lb| - 6];
    assert a == ta[5..|ta| - 9] && b == tb[5..|tb| - 9];
    if |ba| == |lb| { assert ba[|ba| - 2] == 'i' && lb[|lb| - 2] == 'k'; }
    if |ba| == |tb| { assert ba[|ba| - 2] == 'i' && tb[|tb| - 2] == 'g'; }
    if |la| == |tb| { assert la[|la| - 2] == 'k' && tb[|tb| - 2] == 'g'; }
    assert VisitsKey(s)[0] == 'l' && StatsKey(s)[0] == 'l';
    assert ba[0] == 'u' && ba[4] == '_' && |ba| > 5;
    assert la[0] == 'u' && la[4] == '_' && |la| > 5;
    assert ta[0] == 'u' && ta[4] == '_' && |ta| > 5;
  }

  /** `k` is neither the session key, the directory key, nor a link key of `s`. */
  predicate ApartFrom(k: string, s: string)
  {
    k != SessionKey && k != DirectoryKey && k != VisitsKey(s) && k != StatsKey(s)
  }

  /** The browser's `localStorage`. */
  class LocalStorage {
    var items: map<string, Value>

    constructor ()
      ensures items == map[]
    {
      items := map[];
    }

    /** `setItem(key, JSON.stringify(v))`. */
    method SetItem(key: string, v: Value)
      modifies this
      ensures items == old(items)[key := v]
    {
      items := items[key := v];
    }

    /** `removeItem(key)`. */
    method RemoveItem(key: string)
      modifies this
      ensures items == old(items) - {key}
    {
      items := items - {key};
    }
  }
}
