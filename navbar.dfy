/** The pure helpers of components/Navbar.tsx: the avatar initials, the active
    navigation entry and the avatar fallback text. */
module Navbar {
  import opened Wrappers
  import Text

  /** The first characters of the non-empty pieces, in order. `n[0]` of an
      empty piece is `undefined`, which `join("")` writes as nothing. */
  function Firsts(pieces: seq<string>): (r: string)
    ensures |r| == NonEmptyCount(pieces)
  {
    if pieces == [] then []
    else (if pieces[0] == [] then [] else [pieces[0][0]]) + Firsts(pieces[1..])
  }

  /** How many of the pieces are not empty. */
  function NonEmptyCount(pieces: seq<string>): nat
  {
    if pieces == [] then 0 else (if pieces[0] == [] then 0 else 1) + NonEmptyCount(pieces[1..])
  }

  /** `getInitials(name)`: split at spaces, keep each piece's first character,
      join and upper-case (ASCII letters only). The result has one character
      per non-empty piece, none of them a lower-case letter. */
  function Initials(name: string): (r: string)
    ensures |r| == NonEmptyCount(Text.Split(name, ' '))
    ensures forall k :: 0 <= k < |r| ==> !('a' <= r[k] <= 'z')
  {
    Text.ToUpper(Firsts(Text.Split(name, ' ')))
  }

  /** Each initial is the upper-cased first character of its piece: the
      `k`-th character of `Firsts` is the first character of the `k`-th
      non-empty piece. */
  lemma {:induction false} FirstsInOrder(pieces: seq<string>, k: nat)
    requires k < |Firsts(pieces)|
    ensures exists i :: 0 <= i < |pieces| && pieces[i] != [] &&
              Firsts(pieces)[k] == pieces[i][0] && NonEmptyCount(pieces[..i]) == k
  {
    if pieces[0] == [] {
      assert Firsts(pieces) == Firsts(pieces[1..]);
      FirstsInOrder(pieces[1..], k);
      var i :| 0 <= i < |pieces[1..]| && pieces[1..][i] != [] &&
                Firsts(pieces[1..])[k] == pieces[1..][i][0] && NonEmptyCount(pieces[1..][..i]) == k;
      assert pieces[..i + 1][1..] == pieces[1..][..i];
      assert pieces[i + 1] == pieces[1..][i];
    } else if k == 0 {
      assert pieces[..0] == [];
    } else {
      assert Firsts(pieces) == [pieces[0][0]] + Firsts(pieces[1..]);
      FirstsInOrder(pieces[1..], k - 1);
      var i :| 0 <= i < |pieces[1..]| && pieces[1..][i] != [] &&
                Firsts(pieces[1..])[k - 1] == pieces[1..][i][0] && NonEmptyCount(pieces[1..][..i]) == k - 1;
      assert pieces[..i + 1][1..] == pieces[1..][..i];
      assert pieces[i + 1] == pieces[1..][i];
    }
  }

  /** The `k`-th initial is the upper-cased first character of the `k`-th
      non-empty space-separated piece of the name. */
  lemma InitialsInOrder(name: string, k: nat)
    requires k < |Initials(name)|
    ensures exists i :: 0 <= i < |Text.Split(name, ' ')| && Text.Split(name, ' ')[i] != [] &&
              Initials(name)[k] == Text.UpperChar(Text.Split(name, ' ')[i][0]) &&
              NonEmptyCount(Text.Split(name, ' ')[..i]) == k
  {
    var pieces := Text.Split(name, ' ');
    var firsts := Firsts(pieces);
    assert Initials(name)[k] == Text.UpperChar(firsts[k]);
    FirstsInOrder(pieces, k);
    var i :| 0 <= i < |pieces| && pieces[i] != [] &&
              firsts[k] == pieces[i][0] && NonEmptyCount(pieces[..i]) == k;
    assert 0 <= i < |pieces| && pieces[i] != [] &&
           Initials(name)[k] == Text.UpperChar(pieces[i][0]) && NonEmptyCount(pieces[..i]) == k;
  }

  /** An empty name has no initials; a single word gives its upper-cased first
      letter. */
  lemma InitialsOfWord(name: string)
    requires ' ' !in name
    ensures name == "" ==> Initials(name) == ""
    ensures name != "" ==> Initials(name) == [Text.UpperChar(name[0])]
  {
    Text.SplitWithoutSeparator(name, ' ');
    assert Firsts([name]) == (if name == [] then [] else [name[0]]) + Firsts([]);
  }

  /** `isActive(path)`: the current pathname is exactly `path`. */
  predicate IsActive(path: string, pathname: string)
  {
    pathname == path
  }

  /** The match is exact: a pathname that extends `path` (by a trailing `/`,
      say) does not make it active, and no pathname makes two different
      paths active. */
  lemma ActiveExact(path: string, other: string, pathname: string, c: char)
    ensures !IsActive(path, path + [c])
    ensures IsActive(path, pathname) && IsActive(other, pathname) ==> path == other
  {
    assert |path + [c]| != |path|;
  }

  /** The avatar text: the initials of the username when there is a non-empty
      one, and `"U"` otherwise. */
  function AvatarFallback(username: Option<string>): (r: string)
    ensures username.None? || username == Some("") ==> r == "U"
    ensures username.Some? && username.value != "" ==> r == Initials(username.value)
  {
    if username.Some? && username.value != "" then Initials(username.value) else "U"
  }
}
