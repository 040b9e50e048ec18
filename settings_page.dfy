/**
  The account settings page: how the forms are filled from the stored
  settings, the avatar size limit and storage key, the password-confirmation
  check, and the appearance save with its revert.

  The page's state is a class; the backend replies and the theme provider's
  current theme are inputs. The toasts a handler shows are reported by title.
 */
module SettingsPage {
  import opened Wrappers
  import opened JsText

  /** The signed-in user's profile as the auth context holds it. */
  datatype AuthUser = AuthUser(id: string, displayName: Option<string>, email: Option<string>, phoneNumber: Option<string>, photoUrl: Option<string>)

  /** The `user_settings` columns the page reads. */
  datatype SettingsRow = SettingsRow(
    fullName: Option<string>,
    email: Option<string>,
    phoneNumber: Option<string>,
    darkMode: bool,
    emailReports: bool,
    productUpdates: bool,
    securityAlerts: bool,
    twoFactor: bool,
    avatar: Option<string>)

  datatype ProfileForm = ProfileForm(displayName: string, email: string, phoneNumber: string)
  datatype PasswordForm = PasswordForm(currentPassword: string, newPassword: string, confirmPassword: string)
  datatype Notifications = Notifications(emailReports: bool, productUpdates: bool, securityAlerts: bool)

  const EmptyPasswordForm := PasswordForm("", "", "")

  /** A string value that JavaScript treats as true: present and non-empty. */
  predicate Truthy(s: Option<string>) {
    s.Some? && s.value != []
  }

  /** `a || b` */
  function Or(a: Option<string>, b: string): (r: string)
    ensures Truthy(a) ==> r == a.value
    ensures !Truthy(a) ==> r == b
  {
    if Truthy(a) then a.value else b
  }

  /** The theme name for a dark-mode flag. */
  function ThemeName(dark: bool): (theme: string)
    ensures theme == "dark" <==> dark
  {
    if dark then "dark" else "light"
  }

  /**
    The initial dark-mode switch: with the manual-override flag, the current
    theme alone; otherwise the stored preference or the current theme.
   */
  function InitialDarkMode(overridden: bool, theme: string, stored: bool): (dark: bool)
    ensures theme == "dark" ==> dark
    ensures overridden ==> (dark <==> theme == "dark")
    ensures !overridden && stored ==> dark
  {
    if overridden then theme == "dark" else stored || theme == "dark"
  }

  /** With the override flag the stored preference does not matter; without it a stored dark mode wins over a light theme. */
  lemma OverrideIgnoresStoredMode(theme: string)
    ensures InitialDarkMode(true, theme, true) == InitialDarkMode(true, theme, false)
    ensures theme != "dark" ==> InitialDarkMode(false, theme, true) != InitialDarkMode(true, theme, true)
  {
  }

  /** The largest avatar accepted: 2 MiB. */
  const MaxAvatarBytes: nat := 2 * 1024 * 1024

  /** A chosen file: its name and size in bytes. */
  datatype FileInfo = FileInfo(name: string, size: nat)

  /** What choosing avatar files leads to. */
  datatype AvatarChoice = NoFile | TooLarge | Upload(file: FileInfo)

  /** `handleAvatarChange`: nothing without a file, a refusal above 2 MiB, otherwise the first file is uploaded. */
  function AvatarChange(files: seq<FileInfo>): (choice: AvatarChoice)
    ensures choice.NoFile? <==> files == []
    ensures choice.TooLarge? <==> files != [] && files[0].size > MaxAvatarBytes
    ensures choice.Upload? ==> choice.file == files[0] && files[0].size <= MaxAvatarBytes
  {
    if files == [] then NoFile
    else if files[0].size > MaxAvatarBytes then TooLarge
    else Upload(files[0])
  }

  /** Exactly 2 MiB is accepted; one byte more is refused. */
  lemma AvatarLimitBoundary(name: string)
    ensures AvatarChange([FileInfo(name, 2097152)]).Upload?
    ensures AvatarChange([FileInfo(name, 2097153)]).TooLarge?
  {
  }

  // ---------------------------------------------------------------------------
  // The storage key of an avatar URL: `url.match(/avatars\/([^?]+)/)[1]`
  // ---------------------------------------------------------------------------

  const AvatarsPrefix: string := "avatars/"

  /** The characters before the first `?`. */
  function UntilQuery(s: string): (r: string)
    ensures IsPrefix(r, s) && '?' !in r
    ensures |r| < |s| ==> s[|r|] == '?'
  {
    if s == [] || s[0] == '?' then [] else [s[0]] + UntilQuery(s[1..])
  }

  /** The pattern matches at index `i`: "avatars/" followed by a character other than `?`. */
  predicate MatchesAt(s: string, i: nat) {
    i + 9 <= |s| && s[i..i + 8] == AvatarsPrefix && s[i + 8] != '?'
  }

  /** The leftmost index at or after `i` where the pattern matches. */
  function MatchFrom(s: string, i: nat): (j: Option<nat>)
    requires i <= |s|
    ensures j.Some? ==> i <= j.value && MatchesAt(s, j.value)
    ensures j.Some? ==> forall k :: i <= k < j.value ==> !MatchesAt(s, k)
    ensures j.None? ==> forall k :: i <= k ==> !MatchesAt(s, k)
    decreases |s| - i
  {
    if i + 9 > |s| then None
    else if MatchesAt(s, i) then Some(i)
    else MatchFrom(s, i + 1)
  }

  /**
    The storage key of an avatar URL: the text after the first "avatars/"
    that is followed by something other than `?`, up to the next `?`.
   */
  function AvatarKey(url: string): (key: Option<string>)
    ensures key.Some? <==> exists j: nat :: MatchesAt(url, j)
    ensures key.Some? ==> key.value != [] && '?' !in key.value
    ensures key.Some? ==> exists j: nat :: MatchesAt(url, j) && IsPrefix(AvatarsPrefix + key.value, url[j..])
  {
    match MatchFrom(url, 0)
    case None => None
    case Some(j) =>
      var key := UntilQuery(url[j + 8..]);
      assert url[j..][..8 + |key|] == AvatarsPrefix + key by {
        assert url[j..][..8] == url[j..j + 8];
        assert url[j..][8..8 + |key|] == url[j + 8..][..|key|];
      }
      Some(key)
  }

  /** A URL whose key is followed by a query string gives the key alone. */
  lemma KeyStopsAtQuery(name: string, query: string)
    requires name != [] && '?' !in name
    ensures AvatarKey(AvatarsPrefix + name + "?" + query) == Some(name)
  {
    var rest := name + "?" + query;
    var url := AvatarsPrefix + rest;
    assert url == AvatarsPrefix + name + "?" + query;
    assert url[..8] == AvatarsPrefix && url[8..] == rest;
    assert url[8] == rest[0] == name[0];
    assert MatchFrom(url, 0) == Some(0);
    UntilQueryStops(name, query);
  }

  lemma {:induction false} UntilQueryStops(name: string, query: string)
    requires '?' !in name
    ensures UntilQuery(name + "?" + query) == name
  {
    if name != [] {
      assert (name + "?" + query)[1..] == name[1..] + "?" + query;
      UntilQueryStops(name[1..], query);
      assert name == [name[0]] + name[1..];
    }
  }

  /** The requests `removeAvatar` sends and the toast it shows. */
  datatype Removal = Removal(deleted: Option<string>, avatarCleared: bool, photoReset: bool, toast: Option<string>)

  /** The state of the settings page. */
  class AccountSettings {
    var profileForm: ProfileForm
    var notifications: Notifications
    var passwordForm: PasswordForm
    var darkMode: bool
    var twoFactorEnabled: bool
    var avatarUrl: Option<string>
    /** `userSettings?.dark_mode`: the stored preference, once settings are loaded. */
    var storedDarkMode: Option<bool>
    /** The theme provider's theme. */
    var theme: string
    /** Whether `theme-preference-manual-override` is set in local storage. */
    var overridden: bool
    var isSaving: bool
    var uploading: bool
    var showAvatarDialog: bool

    /** The initial state: the profile form from the auth user, notifications on, the rest off or empty. */
    constructor(user: Option<AuthUser>, theme: string, overridden: bool)
      ensures profileForm == ProfileForm(
        if user.Some? then Or(user.value.displayName, "") else "",
        if user.Some? then Or(user.value.email, "") else "",
        if user.Some? then Or(user.value.phoneNumber, "") else "")
      ensures notifications == Notifications(true, true, true)
      ensures passwordForm == EmptyPasswordForm
      ensures !darkMode && !twoFactorEnabled && avatarUrl.None? && storedDarkMode.None?
      ensures this.theme == theme && this.overridden == overridden
      ensures !isSaving && !uploading && !showAvatarDialog
    {
      profileForm := ProfileForm(
        if user.Some? then Or(user.value.displayName, "") else "",
        if user.Some? then Or(user.value.email, "") else "",
        if user.Some? then Or(user.value.phoneNumber, "") else "");
      notifications := Notifications(true, true, true);
      passwordForm := EmptyPasswordForm;
      darkMode := false;
      twoFactorEnabled := false;
      avatarUrl := None;
      storedDarkMode := None;
      this.theme := theme;
      this.overridden := overridden;
      isSaving := false;
      uploading := false;
      showAvatarDialog := false;
    }

    /**
      A settings row arrived: it is kept, and `updateFormsWithData` fills the
      forms from it, the stored values winning over the auth profile, and the
      avatar taken from the auth photo before the stored one.
     */
    method SettingsLoaded(data: SettingsRow, user: AuthUser)
      modifies this`storedDarkMode, this`profileForm, this`notifications, this`darkMode, this`twoFactorEnabled, this`avatarUrl
      ensures storedDarkMode == Some(data.darkMode)
      ensures profileForm == ProfileForm(
        Or(data.fullName, Or(user.displayName, "")),
        Or(data.email, Or(user.email, "")),
        Or(data.phoneNumber, ""))
      ensures notifications == Notifications(data.emailReports, data.productUpdates, data.securityAlerts)
      ensures darkMode == InitialDarkMode(overridden, theme, data.darkMode)
      ensures twoFactorEnabled == data.twoFactor
      ensures avatarUrl == if Truthy(user.photoUrl) then user.photoUrl else if Truthy(data.avatar) then data.avatar else old(avatarUrl)
    {
      var form := ProfileForm(
        Or(data.fullName, Or(user.displayName, "")),
        Or(data.email, Or(user.email, "")),
        Or(data.phoneNumber, ""));
      var dark := InitialDarkMode(overridden, theme, data.darkMode);
      var avatar := if Truthy(user.photoUrl) then user.photoUrl else if Truthy(data.avatar) then data.avatar else avatarUrl;
      storedDarkMode, profileForm, darkMode, twoFactorEnabled, avatarUrl := Some(data.darkMode), form, dark, data.twoFactor, avatar;
      notifications := Notifications(data.emailReports, data.productUpdates, data.securityAlerts);
    }

    /**
      The effect that follows the stored preference: without the override flag
      it sets the theme from the stored mode; with it, the switch follows the theme.
     */
    method SyncTheme()
      modifies this`theme, this`darkMode
      ensures storedDarkMode.Some? && !overridden ==> theme == ThemeName(storedDarkMode.value) && darkMode == old(darkMode)
      ensures storedDarkMode.Some? && overridden ==> darkMode == (theme == "dark") && theme == old(theme)
      ensures storedDarkMode.None? ==> theme == old(theme) && darkMode == old(darkMode)
    {
      if storedDarkMode.Some? {
        if !overridden {
          theme := ThemeName(storedDarkMode.value);
        } else {
          darkMode := theme == "dark";
        }
      }
    }

    /**
      `removeAvatar`: with a user and an avatar, the file under the URL's key is
      deleted (when the URL has one), then the stored avatar is cleared, the
      local avatar reset and the profile photo reset; any failure stops the
      rest. A failed profile reset comes after the local reset, so the avatar
      stays cleared under the failure toast. The dialog closes whatever happens.
     */
    method RemoveAvatar(user: Option<AuthUser>, deleteFailed: bool, updateFailed: bool, profileFailed: bool) returns (r: Removal)
      modifies this`avatarUrl, this`uploading, this`showAvatarDialog
      ensures user.None? || !Truthy(old(avatarUrl)) ==> r == Removal(None, false, false, None)
      ensures user.Some? && Truthy(old(avatarUrl)) ==> r.deleted == AvatarKey(old(avatarUrl).value)
      ensures r.avatarCleared <==>
        user.Some? && Truthy(old(avatarUrl)) && !(AvatarKey(old(avatarUrl).value).Some? && deleteFailed)
      ensures r.photoReset <==> r.avatarCleared && !updateFailed
      ensures avatarUrl == if r.photoReset then None else old(avatarUrl)
      ensures r.toast == if user.None? || !Truthy(old(avatarUrl)) then None
        else if r.photoReset && !profileFailed then Some("Avatar removed") else Some("Action failed")
      ensures !uploading && !showAvatarDialog
    {
      r := Removal(None, false, false, None);
      if user.Some? && Truthy(avatarUrl) {
        uploading := true;
        var key := AvatarKey(avatarUrl.value);
        r := r.(deleted := key);
        if key.Some? && deleteFailed {
          r := r.(toast := Some("Action failed"));
        } else {
          r := r.(avatarCleared := true);
          if updateFailed {
            r := r.(toast := Some("Action failed"));
          } else {
            avatarUrl := None;
            r := r.(photoReset := true);
            if profileFailed {
              r := r.(toast := Some("Action failed"));
            } else {
              r := r.(toast := Some("Avatar removed"));
            }
          }
        }
      }
      uploading := false;
      showAvatarDialog := false;
    }

    /**
      `handlePasswordUpdate`: a confirmation that differs from the new password
      is refused before saving starts; otherwise the form is cleared once the
      (simulated) update completes.
     */
    method HandlePasswordUpdate() returns (accepted: bool)
      modifies this`passwordForm, this`isSaving
      ensures accepted <==> old(passwordForm).newPassword == old(passwordForm).confirmPassword
      ensures !accepted ==> passwordForm == old(passwordForm) && isSaving == old(isSaving)
      ensures accepted ==> passwordForm == EmptyPasswordForm && !isSaving
    {
      if passwordForm.newPassword != passwordForm.confirmPassword {
        return false;
      }
      isSaving := true;
      passwordForm := EmptyPasswordForm;
      isSaving := false;
      return true;
    }

    /** The dark-mode switch: the theme follows at once and the manual-override flag is removed. */
    method HandleDarkModeToggle(checked: bool)
      modifies this`darkMode, this`theme, this`overridden
      ensures darkMode == checked && theme == ThemeName(checked) && !overridden
    {
      darkMode := checked;
      theme := ThemeName(checked);
      overridden := false;
    }

    /**
      `handleAppearanceUpdate`: the theme is set from the switch and the choice
      saved; when the save fails the theme is set the other way and the switch
      flipped, otherwise the kept settings row takes the new mode. Either way the
      theme ends up agreeing with the switch. Returns the `dark_mode` saved.
     */
    method HandleAppearanceUpdate(updateFailed: bool) returns (saved: bool)
      modifies this`isSaving, this`theme, this`darkMode, this`storedDarkMode
      ensures saved == old(darkMode)
      ensures updateFailed ==> darkMode == !old(darkMode) && storedDarkMode == old(storedDarkMode)
      ensures !updateFailed ==>
        (darkMode == old(darkMode) && storedDarkMode == if old(storedDarkMode).Some? then Some(old(darkMode)) else None)
      ensures theme == ThemeName(darkMode)
      ensures !isSaving
    {
      isSaving := true;
      theme := ThemeName(darkMode);
      saved := darkMode;
      if updateFailed {
        theme := ThemeName(!darkMode);
        darkMode := !darkMode;
      } else if storedDarkMode.Some? {
        storedDarkMode := Some(darkMode);
      }
      isSaving := false;
    }
  }
}
