/**
  The site header: the name and avatar it shows for the signed-in user, and
  the theme switch, which marks the theme as chosen by hand and saves it.

  The header's state is a class; the auth user, the settings query and the
  local-storage flag are inputs. Effects on the outside are returned in the
  order the handler performs them.
 */
module Header {
  import opened Wrappers
  import opened JsText
  import opened Initials

  /** The auth user's fields the header reads. */
  datatype HeaderUser = HeaderUser(id: string, photoUrl: Option<string>, displayName: Option<string>)

  /** The selected `user_settings` columns; a `null` dark mode reads as light. */
  datatype HeaderRow = HeaderRow(avatar: Option<string>, fullName: Option<string>, darkMode: Option<bool>)

  /** The settings query: the row (possibly `null`), an error, or an exception. */
  datatype HeaderReply = HeaderData(row: Option<HeaderRow>) | HeaderError | HeaderThrew

  /** What the theme switch does outside the header, in order. */
  datatype Effect = SetOverrideFlag | SetTheme(theme: string) | SaveDarkMode(userId: string, dark: bool)

  /** A string value that JavaScript treats as true. */
  predicate Truthy(s: Option<string>) {
    s.Some? && s.value != []
  }

  /** `displayName || user.displayName || "User"` */
  function ShownName(displayName: Option<string>, user: HeaderUser): (name: string)
    ensures name != []
    ensures Truthy(displayName) ==> name == displayName.value
    ensures !Truthy(displayName) && Truthy(user.displayName) ==> name == user.displayName.value
    ensures !Truthy(displayName) && !Truthy(user.displayName) ==> name == "User"
  {
    if Truthy(displayName) then displayName.value
    else if Truthy(user.displayName) then user.displayName.value
    else "User"
  }

  /** The avatar fallback is the initials of a non-empty name; when neither name is set, the default "User" gives "U". */
  lemma FallbackInitials(displayName: Option<string>, user: HeaderUser)
    ensures var name := ShownName(displayName, user);
      GetInitials(name) == TakeTwo(Upper(WordStarts(name, true)))
    ensures !Truthy(displayName) && !Truthy(user.displayName) ==> GetInitials(ShownName(displayName, user)) == "U"
  {
    if !Truthy(displayName) && !Truthy(user.displayName) {
      WordStartsOfUser();
    }
  }

  lemma WordStartsOfUser()
    ensures WordStarts("User", true) == "U"
  {
    assert "User"[1..] == "ser";
    assert "ser"[1..] == "er";
    assert "er"[1..] == "r";
    assert "r"[1..] == "";
    assert WordStarts("r", false) == [];
    assert WordStarts("er", false) == [];
    assert WordStarts("ser", false) == [];
  }

  /** The header's state. */
  class HeaderState {
    var avatarUrl: Option<string>
    var displayName: Option<string>
    /** The theme provider's theme. */
    var theme: string
    /** Whether `theme-preference-manual-override` is set in local storage. */
    var overridden: bool
    var mounted: bool

    constructor(theme: string, overridden: bool)
      ensures avatarUrl.None? && displayName.None? && !mounted
      ensures this.theme == theme && this.overridden == overridden
    {
      avatarUrl := None;
      displayName := None;
      this.theme := theme;
      this.overridden := overridden;
      mounted := false;
    }

    /** The first effect: the header is mounted. */
    method Mount()
      modifies this`mounted
      ensures mounted
    {
      mounted := true;
    }

    /** The avatar image source: `avatarUrl || ""`. */
    function AvatarSource(): (src: string)
      reads this
      ensures Truthy(avatarUrl) ==> src == avatarUrl.value
      ensures !Truthy(avatarUrl) ==> src == []
    {
      if Truthy(avatarUrl) then avatarUrl.value else []
    }

    /**
      `fetchUserSettings`: the auth user's photo and name first, each only when
      truthy; then the stored avatar and full name replace them, again only
      when truthy. The stored theme is applied only once mounted and when the
      theme was not chosen by hand. An error or exception keeps what the
      auth user gave.
     */
    method FetchUserSettings(user: Option<HeaderUser>, reply: HeaderReply)
      modifies this`avatarUrl, this`displayName, this`theme
      ensures user.None? ==> avatarUrl == old(avatarUrl) && displayName == old(displayName) && theme == old(theme)
      ensures user.Some? ==>
        var row := if reply.HeaderData? then reply.row else None;
        var authAvatar := if Truthy(user.value.photoUrl) then user.value.photoUrl else old(avatarUrl);
        var authName := if Truthy(user.value.displayName) then user.value.displayName else old(displayName);
        && avatarUrl == (if row.Some? && Truthy(row.value.avatar) then row.value.avatar else authAvatar)
        && displayName == (if row.Some? && Truthy(row.value.fullName) then row.value.fullName else authName)
        && theme == (if row.Some? && mounted && !overridden then
                       (if row.value.darkMode == Some(true) then "dark" else "light")
                     else old(theme))
    {
      if user.None? {
        return;
      }
      if Truthy(user.value.photoUrl) {
        avatarUrl := user.value.photoUrl;
      }
      if Truthy(user.value.displayName) {
        displayName := user.value.displayName;
      }
      if reply.HeaderData? && reply.row.Some? {
        var row := reply.row.value;
        if Truthy(row.avatar) {
          avatarUrl := row.avatar;
        }
        if Truthy(row.fullName) {
          displayName := row.fullName;
        }
        if mounted && !overridden {
          theme := if row.darkMode == Some(true) then "dark" else "light";
        }
      }
    }

    /**
      `handleThemeChange`: the manual-override flag is set before anything
      else, then the theme; a signed-in user's dark-mode preference is saved
      as whether the new theme is "dark".
     */
    method HandleThemeChange(newTheme: string, user: Option<HeaderUser>) returns (effects: seq<Effect>)
      modifies this`theme, this`overridden
      ensures overridden && theme == newTheme
      ensures |effects| >= 2 && effects[0] == SetOverrideFlag && effects[1] == SetTheme(newTheme)
      ensures user.None? ==> |effects| == 2
      ensures user.Some? ==> effects == [SetOverrideFlag, SetTheme(newTheme), SaveDarkMode(user.value.id, newTheme == "dark")]
    {
      overridden := true;
      effects := [SetOverrideFlag];
      theme := newTheme;
      effects := effects + [SetTheme(newTheme)];
      if user.Some? {
        effects := effects + [SaveDarkMode(user.value.id, newTheme == "dark")];
      }
    }
  }

  /** Once the theme was changed in the header, a later settings fetch leaves the theme alone. */
  method ThemeChangeSurvivesFetch(h: HeaderState, newTheme: string, user: HeaderUser, reply: HeaderReply)
    modifies h
    ensures h.theme == newTheme
  {
    var _ := h.HandleThemeChange(newTheme, Some(user));
    h.FetchUserSettings(Some(user), reply);
  }
}
