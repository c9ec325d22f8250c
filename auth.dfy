/** The mock auth context of context/AuthContext.tsx: a user and an
    authenticated flag, a session stored under "user", and a directory of
    registered users stored under "users". No credential is ever checked. */
module Auth {
  import opened Wrappers
  import opened Storage
  import Base64
  import Text

  /** The user id: `btoa(email).replace(/=/g, "")`, or `None` where `btoa`
      throws (a character above U+00FF). The id never contains `=`, and two
      emails share an id only if they are the same email. */
  function UserIdOf(email: string): (r: Option<string>)
    ensures r.Some? <==> Base64.IsLatin1(email)
    ensures r.Some? ==> '=' !in r.value
  {
    match Base64.Btoa(email)
    case None => None
    case Some(encoded) => Some(Text.RemoveAll(encoded, '='))
  }

  /** Distinct emails never get the same user id. */
  lemma UserIdInjective(e1: string, e2: string)
    requires UserIdOf(e1).Some? && UserIdOf(e2).Some?
    requires UserIdOf(e1) == UserIdOf(e2)
    ensures e1 == e2
  {
    Base64.UnpaddedInjective(e1, e2);
  }

  /** The display name: `email.split("@")[0]`, the text before the first `@`
      (all of the email when it has none). */
  function NameOf(email: string): (r: string)
    ensures '@' !in r && r <= email
    ensures '@' !in email ==> r == email
    ensures |r| < |email| ==> email[|r|] == '@'
  {
    NamePrefix(email);
    Text.Split(email, '@')[0]
  }

  /** The first piece of a split is the longest separator-free prefix. */
  lemma {:induction false} NamePrefix(s: string)
    ensures var r := Text.Split(s, '@')[0];
            r <= s && (|r| < |s| ==> s[|r|] == '@') && ('@' !in s ==> r == s)
  {
    if s != [] {
      NamePrefix(s[1..]);
      if s[0] != '@' {
        var rest := Text.Split(s[1..], '@');
        assert Text.Split(s, '@')[0] == [s[0]] + rest[0];
        if '@' !in s {
          assert '@' !in s[1..];
        }
      }
    }
  }

  /** The user record `login` and `register` build from an email, or `None`
      where `btoa` throws. Both handlers use this one definition, so a user
      gets the same id from either. */
  function NewUser(email: string): (r: Option<User>)
    ensures r.Some? <==> UserIdOf(email).Some?
    ensures r.Some? ==> r.value.email == email && r.value.name == NameOf(email)
                        && r.value.id == UserIdOf(email).value
  {
    match UserIdOf(email)
    case None => None
    case Some(id) => Some(User(id, email, NameOf(email)))
  }

  datatype AuthError =
    | MissingCredentials   // "Email and password are required"
    | PasswordTooShort     // "Password must be at least 6 characters"
    | InvalidCharacter     // thrown by btoa

  /** The directory `register` starts from: a stored user list, or `[]` when
      nothing is stored or the stored text does not parse. */
  function StoredDirectory(items: map<string, Value>): (r: seq<User>)
    ensures Lookup(items, DirectoryKey).Some? && Lookup(items, DirectoryKey).value.UserListValue? ==>
              r == Lookup(items, DirectoryKey).value.users
    ensures !(Lookup(items, DirectoryKey).Some? && Lookup(items, DirectoryKey).value.UserListValue?) ==>
              r == []
  {
    match Lookup(items, DirectoryKey)
    case Some(UserListValue(users)) => users
    case _ => []
  }

  predicate EmailTaken(users: seq<User>, email: string)
  {
    exists k :: 0 <= k < |users| && users[k].email == email
  }

  /** The directory `register` writes. The "User already exists" error it
      throws for a taken email is caught by its own `try`, which resets the
      list to `[]`; the new user is then pushed. So a new email is appended,
      and a taken email replaces the whole directory by the new user alone. */
  function RegisteredDirectory(users: seq<User>, u: User): (r: seq<User>)
    ensures !EmailTaken(users, u.email) ==> r == users + [u]
    ensures EmailTaken(users, u.email) ==> r == [u]
    ensures u in r && r[|r| - 1] == u
  {
    if EmailTaken(users, u.email) then [u] else users + [u]
  }

  /** Registering a taken email again loses every other registered user. */
  lemma DuplicateRegistrationWipesDirectory(users: seq<User>, u: User, other: User)
    requires EmailTaken(users, u.email) && other in users && other != u
    ensures other !in RegisteredDirectory(users, u)
  {
  }

  /** Whatever the directory held, the newly registered email appears in it
      exactly once afterwards when it was new. */
  lemma RegisteredOnce(users: seq<User>, u: User)
    requires !EmailTaken(users, u.email)
    ensures forall k :: 0 <= k < |RegisteredDirectory(users, u)| - 1 ==>
              RegisteredDirectory(users, u)[k].email != u.email
  {
  }

  /** The validation `register` does before touching the directory, in order.
      The password length is `password.length`, counted in UTF-16 code units. */
  function RegisterCheck(email: string, password: string): (r: Outcome<AuthError>)
    ensures r == Fail(MissingCredentials) <==> email == "" || password == ""
    ensures r == Fail(PasswordTooShort) <==>
              email != "" && password != "" && Text.Utf16Length(password) < 6
    ensures r == Fail(InvalidCharacter) <==>
              email != "" && Text.Utf16Length(password) >= 6 && !Base64.IsLatin1(email)
    ensures r == Pass <==> email != "" && Text.Utf16Length(password) >= 6 && NewUser(email).Some?
  {
    if email == "" || password == "" then Fail(MissingCredentials)
    else if Text.Utf16Length(password) < 6 then Fail(PasswordTooShort)
    else if NewUser(email).None? then Fail(InvalidCharacter)
    else Pass
  }

  /** The validation `login` does, in order: both fields must be non-empty,
      and `btoa` must accept the email. */
  function LoginCheck(email: string, password: string): (r: Outcome<AuthError>)
    ensures r == Fail(MissingCredentials) <==> email == "" || password == ""
    ensures r == Fail(InvalidCharacter) <==> email != "" && password != "" && !Base64.IsLatin1(email)
    ensures r != Fail(PasswordTooShort)
    ensures r == Pass <==> email != "" && password != "" && NewUser(email).Some?
  {
    if email == "" || password == "" then Fail(MissingCredentials)
    else if NewUser(email).None? then Fail(InvalidCharacter)
    else Pass
  }

  /** The `AuthProvider` component's state. */
  class AuthProvider {
    var user: Option<User>
    var isAuthenticated: bool

    /** Every handler keeps the flag set exactly when there is a user. */
    ghost predicate Valid()
      reads this
    {
      isAuthenticated <==> user.Some?
    }

    /** The initial state: anonymous. */
    constructor ()
      ensures Valid() && user == None && !isAuthenticated
    {
      user := None;
      isAuthenticated := false;
    }

    /** The start-up effect: a stored session that parses authenticates its
      user; one that does not parse is removed and the user stays anonymous. */
    method RestoreSession(store: LocalStorage)
      requires Valid()
      requires SessionKey in store.items ==>
                 store.items[SessionKey].UserValue? || store.items[SessionKey].Unparsable?
      modifies this, store
      ensures Valid()
      ensures match Lookup(old(store.items), SessionKey)
              case Some(UserValue(u)) =>
                user == Some(u) && isAuthenticated && store.items == old(store.items)
              case Some(_) =>
                user == old(user) && isAuthenticated == old(isAuthenticated)
                && store.items == old(store.items) - {SessionKey}
              case None =>
                user == old(user) && isAuthenticated == old(isAuthenticated)
                && store.items == old(store.items)
    {
      var stored := Lookup(store.items, SessionKey);
      if stored.Some? && stored.value.UserValue? {
        user := Some(stored.value.user);
        isAuthenticated := true;
      } else if stored.Some? {
        store.RemoveItem(SessionKey);
      }
    }

    /** `login`: any non-empty email and password are accepted. On success the
      user is the record built from the email, the flag is set and the same
      record is stored as the session; on failure nothing changes. */
    method Login(store: LocalStorage, email: string, password: string) returns (r: Outcome<AuthError>)
      requires Valid()
      modifies this, store
      ensures Valid()
      ensures r == LoginCheck(email, password)
      ensures r.Fail? ==> user == old(user) && isAuthenticated == old(isAuthenticated)
                          && store.items == old(store.items)
      ensures r.Pass? ==>
        && user == NewUser(email)
        && isAuthenticated
        && user.value.email == email && user.value.name == NameOf(email)
        && store.items == old(store.items)[SessionKey := UserValue(user.value)]
    {
      if email == "" || password == "" {
        return Fail(MissingCredentials);
      }
      var newUser := NewUser(email);
      if newUser.None? {
        return Fail(InvalidCharacter);
      }
      user := newUser;
      isAuthenticated := true;
      store.SetItem(SessionKey, UserValue(newUser.value));
      r := Pass;
    }

    /** `register`: validate, then add the new user to the stored directory
      (see `RegisteredDirectory` for what a taken email does). It never
      authenticates: the user and the flag are left as they were. */
    method Register(store: LocalStorage, email: string, password: string) returns (r: Outcome<AuthError>)
      modifies store
      ensures user == old(user) && isAuthenticated == old(isAuthenticated)
      ensures r == RegisterCheck(email, password)
      ensures r.Fail? ==> store.items == old(store.items)
      ensures r.Pass? ==>
        store.items == old(store.items)
          [DirectoryKey := UserListValue(RegisteredDirectory(StoredDirectory(old(store.items)), NewUser(email).value))]
    {
      if email == "" || password == "" {
        return Fail(MissingCredentials);
      }
      if Text.Utf16Length(password) < 6 {
        return Fail(PasswordTooShort);
      }
      var users := StoredDirectory(store.items);
      if EmailTaken(users, email) {
        users := [];
      }
      var newUser := NewUser(email);
      if newUser.None? {
        return Fail(InvalidCharacter);
      }
      assert newUser.value.email == email;
      assert [] + [newUser.value] == [newUser.value];
      users := users + [newUser.value];
      store.SetItem(DirectoryKey, UserListValue(users));
      r := Pass;
    }

    /** `logout`: back to anonymous, and the stored session is removed. */
    method Logout(store: LocalStorage)
      modifies this, store
      ensures Valid()
      ensures user == None && !isAuthenticated
      ensures store.items == old(store.items) - {SessionKey}
    {
      user := None;
      isAuthenticated := false;
      store.RemoveItem(SessionKey);
    }
  }
}
