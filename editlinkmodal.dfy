/** The link form of components/EditLinkModal.tsx: title, destination URL and
    an optional custom short code, checked in order on submit and handed to
    the page as a link with trimmed fields and a full short URL. */
module EditLinkModal {
  import opened Wrappers
  import Text
  import Lists

  /** The `linkData` the form is opened on. */
  datatype LinkData = LinkData(id: string, title: string, url: string, shortUrl: string)

  /** The argument of `onSave`: no id when the form was opened for a new link. */
  datatype SavedLink = SavedLink(id: Option<string>, title: string, url: string, shortUrl: string)

  datatype FormError =
    | MissingTitle   // "Please enter a title"
    | MissingUrl     // "Please enter a URL"
    | InvalidUrl     // "Please enter a valid URL"

  /** The checks of `handleSubmit`, first failure wins: a title that is not
      blank after trimming, then such a URL, then a URL (as typed, untrimmed)
      that the URL parser `parses` accepts. */
  function SubmitCheck(title: string, url: string, parses: string -> bool): (r: Outcome<FormError>)
    ensures r.Pass? <==> !Text.AllWhitespace(title) && !Text.AllWhitespace(url) && parses(url)
    ensures r == Fail(MissingTitle) <==> Text.AllWhitespace(title)
    ensures r == Fail(MissingUrl) <==> !Text.AllWhitespace(title) && Text.AllWhitespace(url)
    ensures r == Fail(InvalidUrl) <==>
              !Text.AllWhitespace(title) && !Text.AllWhitespace(url) && !parses(url)
  {
    Text.TrimBlank(title);
    Text.TrimBlank(url);
    if Text.Trim(title) == "" then Fail(MissingTitle)
    else if Text.Trim(url) == "" then Fail(MissingUrl)
    else if !parses(url) then Fail(InvalidUrl)
    else Pass
  }

  /** The short code shown for an existing link: `shortUrl.split("/").pop()`,
      the text after its last `/` (all of it when there is none). It never
      contains `/`. */
  function ShortCodeOf(shortUrl: string): (r: string)
    ensures '/' !in r
    ensures '/' !in shortUrl ==> r == shortUrl
  {
    LastSegmentOfWhole(shortUrl);
    Text.LastSegment(shortUrl, '/')
  }

  lemma LastSegmentOfWhole(s: string)
    ensures '/' !in Text.LastSegment(s, '/')
    ensures '/' !in s ==> Text.LastSegment(s, '/') == s
  {
    Text.LastSegmentProperties(s, '/', "");
    if '/' !in s {
      Text.SplitWithoutSeparator(s, '/');
    }
  }

  /** The short URL the form saves: the origin, `/`, and the custom code, or
      the generated `randomCode` when the custom code is empty. */
  function ShortUrlFor(origin: string, shortCode: string, randomCode: string): (r: string)
    ensures shortCode != "" ==> r == origin + "/" + shortCode
    ensures shortCode == "" ==> r == origin + "/" + randomCode
  {
    origin + "/" + (if shortCode != "" then shortCode else randomCode)
  }

  /** Reopening the form on a saved link shows the code it was saved with,
      whatever the origin, as long as that code has no `/` of its own. */
  lemma ShortCodeRoundTrip(origin: string, shortCode: string, randomCode: string)
    requires '/' !in (if shortCode != "" then shortCode else randomCode)
    ensures ShortCodeOf(ShortUrlFor(origin, shortCode, randomCode)) ==
            if shortCode != "" then shortCode else randomCode
  {
    var code := if shortCode != "" then shortCode else randomCode;
    assert origin + "/" + code == origin + ['/'] + code;
    Text.LastSegmentProperties(origin, '/', code);
  }

  /** The `EditLinkModal` component's form state. */
  class EditLinkForm {
    var title: string
    var url: string
    var shortCode: string
    var isValidUrl: bool

    /** The initial state: empty fields, no URL error shown. */
    constructor ()
      ensures title == "" && url == "" && shortCode == "" && isValidUrl
    {
      title, url, shortCode, isValidUrl := "", "", "", true;
    }

    /** The initialisation effect: the fields of the link the form is opened
      on, its short code taken from its short URL; all empty for a new link. */
    method Initialize(linkData: Option<LinkData>)
      modifies this`title, this`url, this`shortCode
      ensures linkData.Some? ==>
        title == linkData.value.title && url == linkData.value.url
        && shortCode == ShortCodeOf(linkData.value.shortUrl)
      ensures linkData.None? ==> title == "" && url == "" && shortCode == ""
    {
      if linkData.Some? {
        title := linkData.value.title;
        url := linkData.value.url;
        shortCode := ShortCodeOf(linkData.value.shortUrl);
      } else {
        title, url, shortCode := "", "", "";
      }
    }

    /** Typing in the title field. */
    method HandleTitleChange(input: string)
      modifies this`title
      ensures title == input
    {
      title := input;
    }

    /** `handleUrlChange`: the typed URL is kept, and the error flag follows
      the parser; an emptied field clears the error. */
    method HandleUrlChange(newUrl: string, parses: string -> bool)
      modifies this`url, this`isValidUrl
      ensures url == newUrl
      ensures newUrl == "" ==> isValidUrl
      ensures newUrl != "" ==> isValidUrl == parses(newUrl)
    {
      url := newUrl;
      if newUrl != "" {
        isValidUrl := parses(newUrl);
      } else {
        isValidUrl := true;
      }
    }

    /** Typing in the short code field: every whitespace character is dropped,
      the rest kept in order. */
    method HandleShortCodeChange(input: string)
      modifies this`shortCode
      ensures shortCode == Text.StripWhitespace(input)
      ensures Text.NoWhitespace(shortCode)
      ensures forall c :: c in shortCode <==> c in input && !Text.IsWhitespace(c)
      ensures Text.NoWhitespace(input) ==> shortCode == input
      ensures Lists.IsSubsequence(shortCode, input)
    {
      shortCode := Text.StripWhitespace(input);
      Text.StripWhitespaceProperties(input);
    }

    /** `handleSubmit`. A failed check returns no link and leaves the fields as
      they were (an unparsable URL also raises the URL error). Otherwise the
      link carries the id of the link being edited, the trimmed title and URL
      and the short URL for the code; the fields are then cleared.
      `origin` and `randomCode` stand for `window.location.origin` and the
      generated code. */
    method HandleSubmit(linkData: Option<LinkData>, origin: string, randomCode: string,
                        parses: string -> bool)
      returns (saved: Option<SavedLink>, r: Outcome<FormError>)
      modifies this`title, this`url, this`shortCode, this`isValidUrl
      ensures r == SubmitCheck(old(title), old(url), parses)
      ensures r.Pass? <==> saved.Some?
      ensures r.Fail? ==>
        title == old(title) && url == old(url) && shortCode == old(shortCode)
        && isValidUrl == (if r.error == InvalidUrl then false else old(isValidUrl))
      ensures r.Pass? ==>
        && saved.value == SavedLink(
             if linkData.Some? then Some(linkData.value.id) else None,
             Text.Trim(old(title)), Text.Trim(old(url)),
             ShortUrlFor(origin, old(shortCode), randomCode))
        && title == "" && url == "" && shortCode == "" && isValidUrl
    {
      r := SubmitCheck(title, url, parses);
      if r.Fail? {
        if r.error == InvalidUrl {
          isValidUrl := false;
        }
        return None, r;
      }
      saved := Some(SavedLink(
        if linkData.Some? then Some(linkData.value.id) else None,
        Text.Trim(title), Text.Trim(url), ShortUrlFor(origin, shortCode, randomCode)));
      title, url, shortCode, isValidUrl := "", "", "", true;
    }
  }
}
