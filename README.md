# Linktastic dashboard — a verified model of its client-side bookkeeping

Linktastic is a browser-only application for short links and a
"link-in-bio" page. It has no server: accounts, links, page profiles,
security settings and click analytics all live in the browser's
`localStorage`. This project models the bookkeeping behind its pages and
proves properties of it in Dafny:

- **Link bio editor** (`src/pages/LinkBio.tsx`, module `LinkBio`). This is
  the profile plus an ordered list of links. Links are added (appended),
  edited in place, deleted and drag-reordered. The page is saved to and
  loaded from `user_<id>_bio`.
- **Link dashboard** (`src/pages/Dashboard.tsx`, module `Dashboard`). This
  is the user's short links. New links are created at the front and can
  be edited, deleted and drag-reordered. The search box filters them and
  the stats cards sum them. The list is kept under `user_<id>_links`.
- **Visit recorder** (`src/utils/trackingUtils.ts`, module `Tracking`).
  Each visit is appended to `link_<id>_visits`, and the stats record
  `link_<id>_stats` is recomputed from the whole list.
- **Mock auth context** (`src/context/AuthContext.tsx`, module `Auth`).
  It tracks an anonymous or authenticated user, the session stored under
  `user`, and the directory of registered users stored under `users`. The
  user id is `btoa(email)` with its `=` padding removed (module `Base64`:
  section 4 of RFC 4648, padding as in section 3.2).
- **Settings page** (`src/pages/Settings.tsx`, module `Settings`). It holds
  the ordered checks of the email and password forms, the two-factor
  set-up, and the Google connection flag. Both flags are persisted under
  `user_<id>_settings`.
- **Link form** (`src/components/EditLinkModal.tsx`, module
  `EditLinkModal`). It runs the ordered submit checks, trims the saved
  fields, strips white space from the custom short code, and builds and
  re-reads short URLs.
- **Navigation bar** (`src/components/Navbar.tsx`, module `Navbar`). It
  computes the avatar initials, the active-entry test and the avatar
  fallback.

Each React component whose state its handlers update is a `class`. The
`useState` fields are its fields and each handler is a method with a
`modifies` clause. `localStorage` is the class `Storage.LocalStorage`, a
`map<string, Value>` over typed records. `Unparsable(text)` stands for a
stored string that `JSON.parse` rejects. Each handler's pure part is a
function: validation, filter/map over the list, stats and id derivation.
The lemmas about these functions carry most of the proofs. Several inputs
become parameters:

- the clock (`now`);
- `crypto.randomUUID` (`uuid`);
- the random short and two-factor codes (`randomCode`);
- the IP address returned by the lookup;
- `window.location.origin` (`origin`);
- the browser's URL parser (`parses: string -> bool`).

Modules `Text` and `Lists` define the JavaScript string and array
operations that the code relies on: `trim`, `\s` stripping, ASCII case
mapping, `includes`, `split`, `filter`, `findIndex` and `splice`.

Behaviour of the code worth knowing, modelled as written:

- The stats record's `lastClicked` is the timestamp of the *last* visit in
  the list, which need not be the latest one. `Tracking.LastClickedNotMaximum` shows a
  list where the two differ. `Tracking.LastClickedIsLatest` shows they
  agree when visits are in time order.
- Link ids come from `Date.now()` and `Math.random()`. Nothing makes them
  unique, so no uniqueness is claimed.
- `register` checks for a duplicate email by throwing inside its own `try`.
  The `catch` resets the list to `[]` and registration goes ahead, so the
  directory becomes the new user alone. It is modelled as written
  (`Auth.RegisteredDirectory`, `Auth.DuplicateRegistrationWipesDirectory`).
- Unreadable stored data does not always fall back to defaults:
  - an unparsable bio record is ignored (the page keeps what it shows);
  - unparsable dashboard links give an empty list;
  - only a missing links record gives the demo links.
- `login` and `register` also fail when the email has a character above
  U+00FF, because `btoa` throws on it (`InvalidCharacter`).
- Password and code lengths (`.length`) count UTF-16 code units, so a
  character above U+FFFF counts twice (`Text.Utf16Length`).
  The model uses the same count: three such characters make a valid
  registration password and a valid two-factor code.

## Model

| member | source | states |
|---|---|---|
| `Lists.MoveItem` | src/pages/LinkBio.tsx:203-205 | copy, splice out at `from`, splice in at `to`: same length and multiset, the moved item lands at `to`, the others keep their order, `from == to` changes nothing |
| `LinkBio.FromRecord` | src/pages/LinkBio.tsx:104-110 | every missing or empty string field takes its fixed default, missing links become `[]`, a missing style becomes `default`; no string field of the result is empty |
| `LinkBio.ToRecord` | src/pages/LinkBio.tsx:121-129 | the saved record carries every field; its links and style are the profile's, and reading it back gives the profile when no string field is empty |
| `LinkBio.LoadedProfile` | src/pages/LinkBio.tsx:99-114 | nothing stored or an unparsable record keeps the shown profile; a bio record is read through `FromRecord`; a parsed record of another shape gives the defaults with no links |
| `LinkBio.SaveLoadRoundTrip` | src/pages/LinkBio.tsx:119-130 | saving then loading gives the profile back exactly when no string field is empty; links and style always come back; an emptied name comes back as the default |
| `LinkBio.ForeignRecordGivesDefaults` | src/pages/LinkBio.tsx:103-110 | a parsed record with none of the fields resets the profile to the defaults with no links |
| `LinkBio.DeleteLink` | src/pages/LinkBio.tsx:153 | no link with the id remains; a link is kept iff it was there and has another id |
| `LinkBio.DeleteLinkProperties` | src/pages/LinkBio.tsx:153 | the result is an order-preserving sublist, every other link keeps its multiplicity, deleting twice is deleting once |
| `LinkBio.UpdateLink` | src/pages/LinkBio.tsx:169-175 | same length and ids; links with the id get the new title and URL, every other link is unchanged |
| `LinkBio.DeleteAfterUpdate` | src/pages/LinkBio.tsx:153-175 | editing a link and then deleting its id is the same as deleting it alone |
| `LinkBio.IndexOfId` | src/pages/LinkBio.tsx:199-200 | the first index with the id, or -1 exactly when no link has it |
| `LinkBio.SaveLinkCheck` | src/pages/LinkBio.tsx:158-165 | passes iff title and URL are not blank after trimming and the URL as typed parses; a blank field is reported before a bad URL |
| `LinkBio.LinkBioEditor.constructor` | src/pages/LinkBio.tsx:64-80 | the default profile with the three starter links, the modal closed and empty |
| `LinkBio.LinkBioEditor.LoadData` | src/pages/LinkBio.tsx:98-116 | with a user the profile becomes what the bio key yields; without one nothing changes |
| `LinkBio.LinkBioEditor.SaveData` | src/pages/LinkBio.tsx:119-133 | with a user exactly the bio key is overwritten with the whole profile; without one storage is unchanged |
| `LinkBio.LinkBioEditor.HandleAddLink` | src/pages/LinkBio.tsx:135-140 | opens the modal empty, editing nothing |
| `LinkBio.LinkBioEditor.HandleEditLink` | src/pages/LinkBio.tsx:142-150 | opens the modal on the first link with the id; with none nothing changes |
| `LinkBio.LinkBioEditor.HandleDeleteLink` | src/pages/LinkBio.tsx:152-155 | the list becomes `DeleteLink` of the old one |
| `LinkBio.LinkBioEditor.HandleSaveLink` | src/pages/LinkBio.tsx:157-192 | a failed check leaves list and modal unchanged; editing updates the edited id with the untrimmed title and URL; adding appends one link with id `now.toString()`; success closes the modal |
| `LinkBio.LinkBioEditor.HandleDragEnd` | src/pages/LinkBio.tsx:194-210 | equal ids change nothing; otherwise a permutation with the dragged link at the target's old index and the others in order |
| `Dashboard.DemoLinks` | src/pages/Dashboard.tsx:65-90 | three demo links, none created after now |
| `Dashboard.TotalClicksAppend` | src/pages/Dashboard.tsx:194 | the click total of two lists put together is the sum of their totals |
| `Dashboard.TotalClicksPermutation` | src/pages/Dashboard.tsx:194 | two lists with the same links, each as often, have the same click total |
| `Dashboard.TotalClicksBounds` | src/pages/Dashboard.tsx:194 | each link's clicks are at most the total; the total is zero iff no link has clicks |
| `Dashboard.TotalClicks` | src/pages/Dashboard.tsx:194 | the reduce: zero for no links, and no link has more clicks than the total |
| `Dashboard.RenderStats` | src/pages/Dashboard.tsx:193-195 | the click total is the sum `TotalClicks` of every link's clicks, the link count is the list length; the total bounds every link's clicks and is zero iff none is clicked |
| `Dashboard.SearchFilter` | src/pages/Dashboard.tsx:99-112 | a query blank after trimming shows the whole list; otherwise a link is shown iff its lower-cased title, URL or short URL contains the lower-cased untrimmed query |
| `Dashboard.SearchFilterSublist` | src/pages/Dashboard.tsx:103-110 | the shown links are an order-preserving sublist, each shown as often as stored |
| `Dashboard.DeleteLink` | src/pages/Dashboard.tsx:137 | no link with the id remains; a link is kept iff it was there and has another id |
| `Dashboard.DeleteLinkKeepsOthers` | src/pages/Dashboard.tsx:137 | order-preserving sublist; every other link keeps its multiplicity |
| `Dashboard.NewLink` | src/pages/Dashboard.tsx:145-152 | id `link-` followed by `now` in decimal, no clicks, created now, the form's title and URL, its short URL or else origin + `/` + generated code |
| `Dashboard.CreateLink` | src/pages/Dashboard.tsx:153 | the new link first, every old link after it unchanged |
| `Dashboard.CreateKeepsTotal` | src/pages/Dashboard.tsx:145-153 | creating a link leaves the click total unchanged |
| `Dashboard.UpdateLink` | src/pages/Dashboard.tsx:155-166 | same length, ids, click counts and creation times; the edited id gets the new title and URL and keeps its short URL when the new one is empty; other links unchanged |
| `Dashboard.UpdateKeepsTotal` | src/pages/Dashboard.tsx:157-166 | editing never changes the click total |
| `Dashboard.IndexOfId` | src/pages/Dashboard.tsx:179-180 | the first index with the id, or -1 exactly when no link has it |
| `Dashboard.StoredLinks` | src/pages/Dashboard.tsx:49-62 | nothing stored is reported as absent; a stored list is used as it is; an unparsable value or one of another shape gives an empty list (no demo links) |
| `Dashboard.DashboardPage.constructor` | src/pages/Dashboard.tsx:24-29 | no links, no query, form closed |
| `Dashboard.DashboardPage.LoadLinks` | src/pages/Dashboard.tsx:47-96 | with a user: the stored list (or none when unreadable), or the demo links, which are then stored; both lists show the result |
| `Dashboard.DashboardPage.ApplySearch` | src/pages/Dashboard.tsx:99-112 | the shown list becomes `SearchFilter` of the links and query |
| `Dashboard.DashboardPage.PersistLinks` | src/pages/Dashboard.tsx:115-119 | the list is written only with a user and a non-empty list; an emptied list is never stored |
| `Dashboard.DashboardPage.HandleCreateLink` | src/pages/Dashboard.tsx:121-125 | opens the form for a new link |
| `Dashboard.DashboardPage.HandleEditLink` | src/pages/Dashboard.tsx:127-134 | opens the form on the first link with the id; with none nothing changes |
| `Dashboard.DashboardPage.HandleDeleteLink` | src/pages/Dashboard.tsx:136-140 | the list becomes `DeleteLink` of the old one |
| `Dashboard.DashboardPage.HandleSaveLink` | src/pages/Dashboard.tsx:142-172 | create prepends, edit with a non-empty id updates, otherwise unchanged; the form closes; the click total is unchanged |
| `Dashboard.DashboardPage.HandleDragEnd` | src/pages/Dashboard.tsx:174-190 | equal ids change nothing; otherwise a permutation with the dragged link at the target's old index, the others in order, the same click total |
| `Tracking.IpSet` | src/utils/trackingUtils.ts:71 | the set of addresses has at most as many elements as there are visits, and at least one when there is a visit |
| `Tracking.AddressSet` | src/utils/trackingUtils.ts:71 | the set built one visit at a time is the set of all visit addresses |
| `Tracking.IpSetFull` | src/utils/trackingUtils.ts:71 | as many distinct addresses as visits iff no two visits share an address |
| `Tracking.StatsOf` | src/utils/trackingUtils.ts:68-78 | clicks = number of visits; unique visitors = number of distinct addresses, at most the clicks and at least 1 with a visit; last click = last visit's timestamp or none; the visits are the list |
| `Tracking.LastClickedIsLatest` | src/utils/trackingUtils.ts:76 | with chronological visits the last click is the latest one |
| `Tracking.LastClickedNotMaximum` | src/utils/trackingUtils.ts:76 | a two-visit list whose reported last click is earlier than another visit |
| `Tracking.StoredVisits` | src/utils/trackingUtils.ts:54-55 | nothing stored gives `[]`; a stored list is used as is; any other stored value makes the read fail |
| `Tracking.GetLinkStats` | src/utils/trackingUtils.ts:84-110 | no stored stats give zero counts, no last click and no visits; a stored stats record is returned as it is; the read fails exactly when the stored value is not a stats record (`JSON.parse` throws, or the shape lacks `visits`) |
| `Tracking.OtherIdsUntouched` | src/utils/trackingUtils.ts:53-69 | writing one short id's two keys changes nothing another short id reads |
| `Tracking.SaveVisit` | src/utils/trackingUtils.ts:52-65 | the stored list becomes the old one (or `[]`) plus the visit, the stats match it, clicks = its length, no other short id changes; an unreadable list fails without writing |
| `Tracking.UpdateLinkStats` | src/utils/trackingUtils.ts:68-81 | exactly the stats key is overwritten with the stats of the list |
| `Tracking.TrackLinkVisit` | src/utils/trackingUtils.ts:31-49 | the visit is built from the given id, time, address and browser data (empty referrer becomes none) and saved |
| `Storage.LinkKeysDistinct` | src/utils/trackingUtils.ts:53-69 | different short ids have different visit and stats keys; no visit key is a stats key |
| `Storage.UserKeysDistinct` | src/pages/Dashboard.tsx:49 | the bio, links and settings keys of different users differ, differ from each other, and from the session, directory and link keys |
| `Storage.LocalStorage.SetItem` | src/context/AuthContext.tsx:66 | exactly the key is overwritten |
| `Storage.LocalStorage.RemoveItem` | src/context/AuthContext.tsx:111 | exactly the key is removed |
| `Base64.Encode` | src/context/AuthContext.tsx:58 | the padded encoding has 4 characters per started group of 3 bytes |
| `Base64.StripPadding` | src/context/AuthContext.tsx:58 | removing every `=` from the padded encoding gives the unpadded encoding |
| `Base64.RoundTrip` | src/context/AuthContext.tsx:58 | the unpadded encoding uses only the alphabet and decodes back to the bytes |
| `Base64.Btoa` | src/context/AuthContext.tsx:58 | `btoa` succeeds iff every character is at most U+00FF |
| `Base64.UnpaddedInjective` | src/context/AuthContext.tsx:58 | two accepted strings with equal unpadded encodings are equal |
| `Auth.UserIdOf` | src/context/AuthContext.tsx:58 | the id exists iff `btoa` accepts the email, and contains no `=` |
| `Auth.UserIdInjective` | src/context/AuthContext.tsx:58 | distinct emails never share a user id |
| `Auth.NameOf` | src/context/AuthContext.tsx:60 | the name is the prefix of the email before its first `@` (all of it when there is none) |
| `Auth.NewUser` | src/context/AuthContext.tsx:57-61 | the user has the email, its name and its id; one definition for login and register |
| `Auth.RegisteredDirectory` | src/context/AuthContext.tsx:83-105 | a new email is appended; a taken email leaves the new user alone; the new user is always last |
| `Auth.DuplicateRegistrationWipesDirectory` | src/context/AuthContext.tsx:86-94 | registering a taken email drops every other registered user |
| `Auth.RegisteredOnce` | src/context/AuthContext.tsx:104-105 | a newly registered email occurs only in the last entry |
| `Auth.StoredDirectory` | src/context/AuthContext.tsx:83-94 | a stored user list is used as is; nothing stored, an unparsable text or another shape gives `[]` |
| `Auth.RegisterCheck` | src/context/AuthContext.tsx:74-80 | in order: empty field, password shorter than 6 UTF-16 code units, email `btoa` rejects; otherwise passes |
| `Auth.LoginCheck` | src/context/AuthContext.tsx:52-54 | fails on an empty field, then on an email `btoa` rejects; never on password length |
| `Auth.AuthProvider.constructor` | src/context/AuthContext.tsx:29-30 | starts anonymous |
| `Auth.AuthProvider.RestoreSession` | src/context/AuthContext.tsx:33-45 | a parsable session authenticates its user; an unparsable one is removed and the state is unchanged |
| `Auth.AuthProvider.Login` | src/context/AuthContext.tsx:47-67 | on success: the user built from the email, authenticated, stored as the session; on failure nothing changes |
| `Auth.AuthProvider.Register` | src/context/AuthContext.tsx:69-106 | validates with `RegisterCheck` (password length in UTF-16 code units); never touches user or flag; on failure storage is unchanged; on success only the directory key changes, to `RegisteredDirectory` |
| `Auth.AuthProvider.Logout` | src/context/AuthContext.tsx:108-112 | anonymous, and the session key is removed |
| `Settings.EmailChangeCheck` | src/pages/Settings.tsx:65-73 | passes iff new email and current password are non-empty; the missing email is reported first |
| `Settings.PasswordChangeCheck` | src/pages/Settings.tsx:85-103 | first failing check in order: current password, new password, fewer than 8 UTF-16 code units, mismatch |
| `Settings.VerificationCheck` | src/pages/Settings.tsx:125-133 | passes iff the code is exactly 6 UTF-16 code units long, whatever its characters |
| `Settings.LoadedFlags` | src/pages/Settings.tsx:50-58 | stored flags are used; a record of another shape makes both false; unparsable or absent changes nothing |
| `Settings.SaveLoadRoundTrip` | src/pages/Settings.tsx:150-158 | the flags saved are the flags the next load reads |
| `Settings.SettingsPage.constructor` | src/pages/Settings.tsx:32-43 | empty fields, both flags off, no dialog |
| `Settings.SettingsPage.LoadSettings` | src/pages/Settings.tsx:45-61 | when authenticated with a user: the user's email and the loaded flags; otherwise nothing changes |
| `Settings.SettingsPage.SaveSecuritySettings` | src/pages/Settings.tsx:150-158 | with a user exactly the settings key is overwritten with both flags |
| `Settings.SettingsPage.HandleEmailChange` | src/pages/Settings.tsx:63-81 | on success the new email becomes current and both inputs clear; on failure nothing changes |
| `Settings.SettingsPage.HandlePasswordChange` | src/pages/Settings.tsx:83-111 | on success the three fields clear; on failure nothing changes |
| `Settings.SettingsPage.HandleToggleTwoFactor` | src/pages/Settings.tsx:113-122 | off: opens setup with the code, stays off, writes nothing; on: turns off and persists `{false, google}` |
| `Settings.SettingsPage.HandleVerifyTwoFactor` | src/pages/Settings.tsx:124-134 | a code of 6 UTF-16 code units enables, closes, clears and persists; any other code changes nothing |
| `Settings.SettingsPage.HandleConnectGoogle` | src/pages/Settings.tsx:136-142 | only the Google flag changes, to true; both flags persisted |
| `Settings.SettingsPage.HandleDisconnectGoogle` | src/pages/Settings.tsx:144-148 | only the Google flag changes, to false; both flags persisted |
| `EditLinkModal.SubmitCheck` | src/components/EditLinkModal.tsx:67-80 | in order: blank trimmed title, blank trimmed URL, untrimmed URL that does not parse; each error iff its condition |
| `EditLinkModal.ShortCodeOf` | src/components/EditLinkModal.tsx:34 | the short code contains no `/`, and is the whole short URL when it has none |
| `EditLinkModal.ShortUrlFor` | src/components/EditLinkModal.tsx:83-90 | origin + `/` + the custom code, or the generated code when the custom one is empty |
| `EditLinkModal.ShortCodeRoundTrip` | src/components/EditLinkModal.tsx:83-90 | reopening the form on the saved short URL shows the code it was saved with, when that code has no `/` |
| `EditLinkModal.EditLinkForm.constructor` | src/components/EditLinkModal.tsx:24-27 | empty fields, URL marked valid |
| `EditLinkModal.EditLinkForm.Initialize` | src/components/EditLinkModal.tsx:30-40 | an existing link's title, URL and last-segment short code; all empty for a new link |
| `EditLinkModal.EditLinkForm.HandleTitleChange` | src/components/EditLinkModal.tsx:114 | the title is the input |
| `EditLinkModal.EditLinkForm.HandleUrlChange` | src/components/EditLinkModal.tsx:54-62 | the URL is the input; an empty input makes the URL valid, otherwise validity follows the parser |
| `EditLinkModal.EditLinkForm.HandleShortCodeChange` | src/components/EditLinkModal.tsx:143 | the code is the input with every white-space character removed: no white space, the other characters in their order and multiplicity (an ordered sublist of the input); white-space-free input is kept as is |
| `EditLinkModal.EditLinkForm.HandleSubmit` | src/components/EditLinkModal.tsx:64-97 | a failed check saves nothing and keeps the fields (a bad URL is flagged); success saves the edited id, trimmed title and URL, the short URL for the code, and clears the fields |
| `Text.Utf16Length` | src/context/AuthContext.tsx:78 | `.length` in UTF-16 code units: between the number of characters and twice it, and equal to it exactly when every character is at most U+FFFF (so any character above U+FFFF makes it larger) |
| `Text.ToLower` | src/pages/Dashboard.tsx:103 | same length, each character lower-cased (ASCII), no upper-case ASCII letter left |
| `Text.ToUpper` | src/components/Navbar.tsx:27 | same length, each character upper-cased (ASCII), no lower-case ASCII letter left |
| `Text.TrimBlank` | src/components/EditLinkModal.tsx:67 | `trim()` gives the empty string iff the string is all white space |
| `Text.StripWhitespaceProperties` | src/components/EditLinkModal.tsx:143 | the stripped string has no white space, is an ordered sublist of the input, and leaves white-space-free input unchanged |
| `Text.ContainsAt` | src/pages/Dashboard.tsx:106-108 | `includes` holds iff the query occurs at some position |
| `Text.LastSegmentProperties` | src/components/EditLinkModal.tsx:34 | the text after the last separator is what `split().pop()` returns, and it has no separator |
| `Text.DecimalRoundTrip` | src/pages/LinkBio.tsx:180 | reading back the decimal rendering of a time gives the time, so distinct times give distinct ids |
| `Navbar.Firsts` | src/components/Navbar.tsx:25-26 | one character per non-empty piece |
| `Navbar.Initials` | src/components/Navbar.tsx:22-28 | one character per non-empty space-separated piece, none of them a lower-case letter |
| `Navbar.FirstsInOrder` | src/components/Navbar.tsx:25-26 | the k-th initial is the first character of the k-th non-empty piece |
| `Navbar.InitialsInOrder` | src/components/Navbar.tsx:22-28 | the k-th character of `getInitials(name)` is the upper-cased first character of the k-th non-empty space-separated piece |
| `Navbar.InitialsOfWord` | src/components/Navbar.tsx:22-28 | an empty name gives no initials; a single word gives its upper-cased first letter |
| `Navbar.ActiveExact` | src/components/Navbar.tsx:31-33 | `isActive` is an exact match: a pathname extending the path (e.g. by a trailing `/`) does not activate it, and no pathname activates two different paths |
| `Navbar.AvatarFallback` | src/components/Navbar.tsx:100 | `"U"` when the username is absent or empty, otherwise its initials |

## Left out

- JSX rendering, layout, toasts, clipboard copying and router navigation are user interface only. This covers `src/pages/Index.tsx`, `src/pages/NotFound.tsx`, `src/pages/Login.tsx`, `src/components/LinkItem.tsx` and `src/components/MobilePreview.tsx`.
- React effect scheduling, `setTimeout` delays and the `await` in `login` and `register` are not modelled: each handler is one atomic step. This includes the delayed parts of the email and password forms and of the Google connection.
- dnd-kit sensors and collision detection are not modelled, only the resulting (dragged id, target id) reorder.
- The IP lookup (`fetch` to ipify, "Unknown" on failure), `crypto.randomUUID`, `Date.now` and `Math.random` are foreign or nondeterministic. They are parameters. The base-36 format of the random codes is not modelled.
- `new URL(...)` (the WHATWG URL parser) is a foreign call, so it is the parameter predicate `parses`.
- JSON serialisation is not modelled. Storage holds typed records, and only "parses or not" is distinguished. A stored value is read by its record kind, so a JSON array of records of another kind (which the code would still `.map`, `.some` or `push` over) is read as another shape; no key is ever written with another kind of record. `Date` round trips in `getLinkStats` and in the dashboard load are left out: times are integers.
- The average clicks per link (`toFixed`, src/pages/Dashboard.tsx:233) is floating point and is left out.
- `toLowerCase`/`toUpperCase` are modelled on ASCII letters only: Unicode case mapping is left out.
- `LinkBio.LinkBioEditor.HandleDragEnd`: requires both ids to be on the list. dnd-kit only reports rendered items, and the `splice(-1, …)` behaviour of a missing id is not modelled.
- `Dashboard.DashboardPage.HandleDragEnd`: requires both ids to be on the list, for the same reason.
- `Lists.MoveItem`: requires both indices to be in range. Negative `splice` indices are not modelled.
- `Auth.AuthProvider.RestoreSession`: requires the session key to hold a user record or unparsable text, because nothing in the application writes anything else there. A parsed value of another shape would authenticate a malformed user; that case is not modelled.
- `Tracking.SaveVisit`: a stored visit value that parses but is not a list makes the source throw. The model reports this as `UnreadableVisits` and writes nothing, instead of raising an exception.
- `Navbar.Firsts`: takes a piece's first character as a whole character. `n[0]` takes one UTF-16 code unit, which for a character above U+FFFF is only its high surrogate. Dafny's `char` cannot hold a lone surrogate.
- `Navbar.Initials`: same gap as `Navbar.Firsts` for a piece starting with a character above U+FFFF.
- `Navbar.FirstsInOrder`: same gap as `Navbar.Firsts`.
- `Navbar.InitialsInOrder`: same gap as `Navbar.Firsts`.
- `Navbar.InitialsOfWord`: same gap as `Navbar.Firsts`.
- `Navbar.AvatarFallback`: the auth context's user has no `username`, so the fallback is always `"U"`. The model takes the username as an optional parameter.
