/** The account settings page of pages/Settings.tsx: the email-change and
    password-change forms with their ordered checks, and the two security
    flags (two-factor authentication, Google connection) persisted under
    `user_<id>_settings`. */
module Settings {
  import opened Wrappers
  import opened Storage
  import Text

  datatype SettingsError =
    | MissingNewEmail          // "Please enter a new email address"
    | MissingCurrentPassword   // "Please enter your current password ..."
    | MissingNewPassword       // "Please enter a new password"
    | PasswordTooShort         // "Password must be at least 8 characters"
    | PasswordMismatch         // "Passwords don't match"
    | InvalidCode              // "Invalid verification code"

  /** The checks of `handleEmailChange`, first failure wins: a new email is
      needed, then the current password. */
  function EmailChangeCheck(newEmail: string, currentPassword: string): (r: Outcome<SettingsError>)
    ensures r.Pass? <==> newEmail != "" && currentPassword != ""
    ensures r == Fail(MissingNewEmail) <==> newEmail == ""
    ensures r == Fail(MissingCurrentPassword) <==> newEmail != "" && currentPassword == ""
  {
    if newEmail == "" then Fail(MissingNewEmail)
    else if currentPassword == "" then Fail(MissingCurrentPassword)
    else Pass
  }

  /** The checks of `handlePasswordChange`, first failure wins: the current
      password, then a new one, of at least 8 UTF-16 code units
      (`newPassword.length`), equal to its confirmation. */
  function PasswordChangeCheck(currentPassword: string, newPassword: string, confirmPassword: string)
    : (r: Outcome<SettingsError>)
    ensures r.Pass? <==>
      currentPassword != "" && Text.Utf16Length(newPassword) >= 8 && newPassword == confirmPassword
    ensures r == Fail(MissingCurrentPassword) <==> currentPassword == ""
    ensures r == Fail(MissingNewPassword) <==> currentPassword != "" && newPassword == ""
    ensures r == Fail(PasswordTooShort) <==>
      currentPassword != "" && newPassword != "" && Text.Utf16Length(newPassword) < 8
    ensures r == Fail(PasswordMismatch) <==>
      currentPassword != "" && Text.Utf16Length(newPassword) >= 8 && newPassword != confirmPassword
  {
    if currentPassword == "" then Fail(MissingCurrentPassword)
    else if newPassword == "" then Fail(MissingNewPassword)
    else if Text.Utf16Length(newPassword) < 8 then Fail(PasswordTooShort)
    else if newPassword != confirmPassword then Fail(PasswordMismatch)
    else Pass
  }

  /** The verification step accepts any code whose `length` is exactly six
      UTF-16 code units, whatever its characters. */
  function VerificationCheck(code: string): (r: Outcome<SettingsError>)
    ensures r.Pass? <==> Text.Utf16Length(code) == 6
    ensures r.Fail? ==> r.error == InvalidCode
  {
    if Text.Utf16Length(code) == 6 then Pass else Fail(InvalidCode)
  }

  /** The flags the settings load puts in place, given what is stored for the
      user and the flags shown before. A stored settings record gives its
      flags; a record of another shape has neither field, and
      `field || false` makes both false; an unparsable string is caught and
      changes nothing; with nothing stored nothing changes. */
  function LoadedFlags(stored: Option<Value>, current: SecuritySettings): (r: SecuritySettings)
    ensures stored == None ==> r == current
    ensures stored.Some? && stored.value.SettingsValue? ==> r == stored.value.settings
    ensures stored.Some? && stored.value.Unparsable? ==> r == current
    ensures stored.Some? && !stored.value.SettingsValue? && !stored.value.Unparsable? ==>
              r == SecuritySettings(false, false)
  {
    match stored
    case None => current
    case Some(SettingsValue(s)) => s
    case Some(Unparsable(_)) => current
    case Some(_) => SecuritySettings(false, false)
  }

  /** What `saveSecuritySettings` writes is what the next load reads back,
      whatever the page showed before. */
  lemma SaveLoadRoundTrip(items: map<string, Value>, u: User, s: SecuritySettings, shown: SecuritySettings)
    ensures LoadedFlags(Lookup(items[SettingsKey(u.id) := SettingsValue(s)], SettingsKey(u.id)), shown) == s
  {
  }

  /** The `Settings` component's state. */
  class SettingsPage {
    var currentEmail: string
    var newEmail: string
    var currentPassword: string
    var newPassword: string
    var confirmPassword: string
    var twoFactorEnabled: bool
    var twoFactorSetupOpen: bool
    var twoFactorCode: string
    var twoFactorVerificationCode: string
    var googleConnected: bool

    function Flags(): SecuritySettings
      reads this
    {
      SecuritySettings(twoFactorEnabled, googleConnected)
    }

    /** The stored settings record of `u` carries both flags the page shows. */
    predicate Persisted(items: map<string, Value>, u: User)
      reads this
    {
      Lookup(items, SettingsKey(u.id)) == Some(SettingsValue(Flags()))
    }

    /** The initial state: every field empty, both flags off, no dialog. */
    constructor ()
      ensures currentEmail == "" && newEmail == "" && currentPassword == ""
      ensures newPassword == "" && confirmPassword == ""
      ensures !twoFactorEnabled && !twoFactorSetupOpen && !googleConnected
      ensures twoFactorCode == "" && twoFactorVerificationCode == ""
    {
      currentEmail, newEmail, currentPassword := "", "", "";
      newPassword, confirmPassword := "", "";
      twoFactorEnabled, twoFactorSetupOpen, googleConnected := false, false, false;
      twoFactorCode, twoFactorVerificationCode := "", "";
    }

    /** The load effect. When signed in with a user, the current email is the
      user's and the flags come from the stored record (see `LoadedFlags`);
      otherwise (the page navigates to the login page) nothing changes. */
    method LoadSettings(store: LocalStorage, isAuthenticated: bool, user: Option<User>)
      modifies this`currentEmail, this`twoFactorEnabled, this`googleConnected
      ensures isAuthenticated && user.Some? ==>
        currentEmail == user.value.email &&
        Flags() == LoadedFlags(Lookup(store.items, SettingsKey(user.value.id)), old(Flags()))
      ensures !(isAuthenticated && user.Some?) ==>
        currentEmail == old(currentEmail) && Flags() == old(Flags())
    {
      if isAuthenticated && user.Some? {
        currentEmail := user.value.email;
        var saved := Lookup(store.items, SettingsKey(user.value.id));
        if saved.Some? && saved.value.SettingsValue? {
          twoFactorEnabled := saved.value.settings.twoFactorEnabled;
          googleConnected := saved.value.settings.googleConnected;
        } else if saved.Some? && !saved.value.Unparsable? {
          twoFactorEnabled := false;
          googleConnected := false;
        }
      }
    }

    /** `saveSecuritySettings`: write both flags under the user's settings key
      when there is a user; otherwise write nothing. */
    method SaveSecuritySettings(store: LocalStorage, user: Option<User>, twoFactor: bool, google: bool)
      modifies store
      ensures user.Some? ==>
        store.items == old(store.items)[SettingsKey(user.value.id) := SettingsValue(SecuritySettings(twoFactor, google))]
      ensures user.None? ==> store.items == old(store.items)
    {
      if user.Some? {
        store.SetItem(SettingsKey(user.value.id), SettingsValue(SecuritySettings(twoFactor, google)));
      }
    }

    /** `handleEmailChange`: on success the new email becomes the current one
      and both inputs are cleared; on failure nothing changes. */
    method HandleEmailChange() returns (r: Outcome<SettingsError>)
      modifies this`currentEmail, this`newEmail, this`currentPassword
      ensures r == EmailChangeCheck(old(newEmail), old(currentPassword))
      ensures r.Pass? ==> currentEmail == old(newEmail) && newEmail == "" && currentPassword == ""
      ensures r.Fail? ==> currentEmail == old(currentEmail) && newEmail == old(newEmail)
                          && currentPassword == old(currentPassword)
    {
      if newEmail == "" {
        return Fail(MissingNewEmail);
      }
      if currentPassword == "" {
        return Fail(MissingCurrentPassword);
      }
      currentEmail := newEmail;
      newEmail := "";
      currentPassword := "";
      r := Pass;
    }

    /** `handlePasswordChange`: on success the three password fields are
      cleared; on failure nothing changes. */
    method HandlePasswordChange() returns (r: Outcome<SettingsError>)
      modifies this`currentPassword, this`newPassword, this`confirmPassword
      ensures r == PasswordChangeCheck(old(currentPassword), old(newPassword), old(confirmPassword))
      ensures r.Pass? ==> currentPassword == "" && newPassword == "" && confirmPassword == ""
      ensures r.Fail? ==> currentPassword == old(currentPassword) && newPassword == old(newPassword)
                          && confirmPassword == old(confirmPassword)
    {
      if currentPassword == "" {
        return Fail(MissingCurrentPassword);
      }
      if newPassword == "" {
        return Fail(MissingNewPassword);
      }
      if Text.Utf16Length(newPassword) < 8 {
        return Fail(PasswordTooShort);
      }
      if newPassword != confirmPassword {
        return Fail(PasswordMismatch);
      }
      currentPassword := "";
      newPassword := "";
      confirmPassword := "";
      r := Pass;
    }

    /** `handleToggleTwoFactor`. Off: open the setup dialog with a fresh code
      (`randomCode` stands for the generated one); the flag stays off and
      nothing is written. On: switch it off and persist both flags. */
    method HandleToggleTwoFactor(store: LocalStorage, user: Option<User>, randomCode: string)
      modifies this`twoFactorEnabled, this`twoFactorSetupOpen, this`twoFactorCode, store
      ensures !old(twoFactorEnabled) ==>
        twoFactorSetupOpen && twoFactorCode == randomCode && !twoFactorEnabled
        && store.items == old(store.items)
      ensures old(twoFactorEnabled) ==>
        !twoFactorEnabled && twoFactorSetupOpen == old(twoFactorSetupOpen)
        && twoFactorCode == old(twoFactorCode)
        && (user.Some? ==> Persisted(store.items, user.value))
        && store.items == (if user.Some? then old(store.items)[SettingsKey(user.value.id) :=
                             SettingsValue(SecuritySettings(false, googleConnected))]
                           else old(store.items))
    {
      if !twoFactorEnabled {
        twoFactorSetupOpen := true;
        twoFactorCode := randomCode;
      } else {
        twoFactorEnabled := false;
        SaveSecuritySettings(store, user, false, googleConnected);
      }
    }

    /** `handleVerifyTwoFactor`: a code of six UTF-16 code units switches two-factor on,
      closes the dialog, clears the code and persists both flags; any other
      code changes nothing. */
    method HandleVerifyTwoFactor(store: LocalStorage, user: Option<User>) returns (r: Outcome<SettingsError>)
      modifies this`twoFactorEnabled, this`twoFactorSetupOpen, this`twoFactorVerificationCode, store
      ensures r == VerificationCheck(old(twoFactorVerificationCode))
      ensures r.Pass? ==>
        twoFactorEnabled && !twoFactorSetupOpen && twoFactorVerificationCode == ""
        && (user.Some? ==> Persisted(store.items, user.value))
        && store.items == (if user.Some? then old(store.items)[SettingsKey(user.value.id) :=
                             SettingsValue(SecuritySettings(true, googleConnected))]
                           else old(store.items))
      ensures r.Fail? ==>
        twoFactorEnabled == old(twoFactorEnabled) && twoFactorSetupOpen == old(twoFactorSetupOpen)
        && twoFactorVerificationCode == old(twoFactorVerificationCode)
        && store.items == old(store.items)
    {
      if Text.Utf16Length(twoFactorVerificationCode) == 6 {
        twoFactorEnabled := true;
        twoFactorSetupOpen := false;
        twoFactorVerificationCode := "";
        SaveSecuritySettings(store, user, true, googleConnected);
        r := Pass;
      } else {
        r := Fail(InvalidCode);
      }
    }

    /** `handleConnectGoogle`: only the Google flag changes, and both flags are
      persisted. */
    method HandleConnectGoogle(store: LocalStorage, user: Option<User>)
      modifies this`googleConnected, store
      ensures googleConnected && twoFactorEnabled == old(twoFactorEnabled)
      ensures user.Some? ==> Persisted(store.items, user.value)
      ensures store.items == if user.Some? then old(store.items)[SettingsKey(user.value.id) :=
                               SettingsValue(SecuritySettings(twoFactorEnabled, true))]
                             else old(store.items)
    {
      googleConnected := true;
      SaveSecuritySettings(store, user, twoFactorEnabled, true);
    }

    /** `handleDisconnectGoogle`: only the Google flag changes, and both flags
      are persisted. */
    method HandleDisconnectGoogle(store: LocalStorage, user: Option<User>)
      modifies this`googleConnected, store
      ensures !googleConnected && twoFactorEnabled == old(twoFactorEnabled)
      ensures user.Some? ==> Persisted(store.items, user.value)
      ensures store.items == if user.Some? then old(store.items)[SettingsKey(user.value.id) :=
                               SettingsValue(SecuritySettings(twoFactorEnabled, false))]
                             else old(store.items)
    {
      googleConnected := false;
      SaveSecuritySettings(store, user, twoFactorEnabled, false);
    }
  }
}
