/**
 * User settings: the defaults, the four raw-text keys the local mode writes
 * and reads, and the combined record the migration builds from those keys.
 */
module Settings {
  import opened Wrappers
  import opened Records
  import opened Layout

  datatype NotificationPrefs = NotificationPrefs(email: bool, push: bool, nudges: bool, achievements: bool, feedback: bool)

  datatype PrivacyPrefs = PrivacyPrefs(profileVisibility: string, projectsVisibility: string, achievementsVisibility: string)

  datatype SettingsRecord = SettingsRecord(theme: string, language: string, notifications: NotificationPrefs, privacy: PrivacyPrefs)

  /**
   * `getDefaultSettings()`: dark theme, Brazilian Portuguese, every notification
   * on except push, the profile and achievements public and projects shared with the team.
   */
  function DefaultSettings(): (d: SettingsRecord)
    ensures d.theme == "dark" && d.language == "pt-BR"
    ensures d.notifications.email && !d.notifications.push && d.notifications.nudges
    ensures d.notifications.achievements && d.notifications.feedback
    ensures d.privacy == PrivacyPrefs("public", "team", "public")
  {
    SettingsRecord(
      "dark",
      "pt-BR",
      NotificationPrefs(email := true, push := false, nudges := true, achievements := true, feedback := true),
      PrivacyPrefs("public", "team", "public"))
  }

  /**
   * The notifications value as a caller may pass it: a boolean, a string, or
   * a preferences object such as the one `getDefaultSettings()` carries.
   */
  datatype NotifArg = NotifFlag(on: bool) | NotifText(text: string) | NotifPrefs(prefs: NotificationPrefs)

  /** The argument of the local `saveSettings`; any field may be missing. */
  datatype SettingsInput = SettingsInput(
    theme: Option<string>, fontSize: Option<string>, notifications: Option<NotifArg>, language: Option<string>)

  /** What the local `getSettings` returns. */
  datatype LocalSettings = LocalSettings(theme: string, fontSize: string, notifications: bool, language: string)

  /**
   * The text `setItem` stores for `settings.notifications || 'true'`: `false`
   * and the empty string are falsy and give "true"; `true` is stored as its
   * text "true"; any other string is stored as it is; an object is stored as
   * "[object Object]". The stored text is never empty, and it is "true"
   * exactly for a missing value, a boolean, "" and "true".
   */
  function NotificationsText(n: Option<NotifArg>): (t: string)
    ensures t != ""
    ensures t == "true" <==>
      n.None? || n.value.NotifFlag? || (n.value.NotifText? && (n.value.text == "" || n.value.text == "true"))
    ensures n.Some? && n.value.NotifText? && n.value.text != "" ==> t == n.value.text
    ensures n.Some? && n.value.NotifPrefs? ==> t == "[object Object]"
  {
    match n
    case None => "true"
    case Some(NotifFlag(on)) => "true"
    case Some(NotifText(t)) => if t == "" then "true" else t
    case Some(NotifPrefs(_)) => "[object Object]"
  }

  /**
   * The store after the local `saveSettings`: each of the four keys holds a
   * non-empty text (the value given or its default), and every other key is
   * kept as it was.
   */
  function WriteSettings(items: map<string, Value>, s: SettingsInput): (r: map<string, Value>)
    ensures r.Keys == items.Keys + {ThemeKey, FontSizeKey, NotificationsKey, LanguageKey}
    ensures forall k :: k in items && k !in {ThemeKey, FontSizeKey, NotificationsKey, LanguageKey} ==> r[k] == items[k]
    ensures forall k :: k in {ThemeKey, FontSizeKey, NotificationsKey, LanguageKey} ==> r[k].Text? && r[k].text != ""
  {
    items[ThemeKey := Text(Or(s.theme, "dark"))]
         [FontSizeKey := Text(Or(s.fontSize, "medium"))]
         [NotificationsKey := Text(NotificationsText(s.notifications))]
         [LanguageKey := Text(Or(s.language, "pt-BR"))]
  }

  /** What the local `getSettings` reads: defaults for missing or empty keys, and `=== 'true'`. */
  function ReadSettings(items: map<string, Value>): (r: LocalSettings)
    requires WellShaped(items)
    ensures r.theme != "" && r.fontSize != "" && r.language != ""
    ensures r.notifications <==> NotificationsKey in items && items[NotificationsKey] == Text("true")
    ensures ThemeKey !in items || items[ThemeKey] == Text("") ==> r.theme == DefaultSettings().theme
    ensures ThemeKey in items && items[ThemeKey] != Text("") ==> r.theme == items[ThemeKey].text
    ensures FontSizeKey !in items || items[FontSizeKey] == Text("") ==> r.fontSize == "medium"
    ensures FontSizeKey in items && items[FontSizeKey] != Text("") ==> r.fontSize == items[FontSizeKey].text
    ensures LanguageKey !in items || items[LanguageKey] == Text("") ==> r.language == DefaultSettings().language
    ensures LanguageKey in items && items[LanguageKey] != Text("") ==> r.language == items[LanguageKey].text
  {
    LocalSettings(
      Or(StoredText(items, ThemeKey), "dark"),
      Or(StoredText(items, FontSizeKey), "medium"),
      StoredText(items, NotificationsKey) == Some("true"),
      Or(StoredText(items, LanguageKey), "pt-BR"))
  }

  /** Saving settings keeps the store well shaped and touches only the four settings keys. */
  lemma WriteSettingsFrame(items: map<string, Value>, s: SettingsInput, key: string)
    requires WellShaped(items)
    ensures WellShaped(WriteSettings(items, s))
    ensures key !in {ThemeKey, FontSizeKey, NotificationsKey, LanguageKey} ==>
      (key in WriteSettings(items, s) <==> key in items) &&
      (key in items ==> WriteSettings(items, s)[key] == items[key])
  {
    TextKeyShaped(ThemeKey, Or(s.theme, "dark"));
    TextKeyShaped(FontSizeKey, Or(s.fontSize, "medium"));
    TextKeyShaped(NotificationsKey, NotificationsText(s.notifications));
    TextKeyShaped(LanguageKey, Or(s.language, "pt-BR"));
  }

  /**
   * Reading settings back after saving them gives each given non-empty string,
   * the default for a missing or empty one, and notifications on exactly when
   * nothing, a boolean, "" or "true" was passed.
   */
  lemma SaveThenReadSettings(items: map<string, Value>, s: SettingsInput)
    requires WellShaped(items)
    ensures WellShaped(WriteSettings(items, s))
    ensures var r := ReadSettings(WriteSettings(items, s));
      && r.theme == (if Truthy(s.theme) then s.theme.value else "dark")
      && r.fontSize == (if Truthy(s.fontSize) then s.fontSize.value else "medium")
      && r.language == (if Truthy(s.language) then s.language.value else "pt-BR")
      && (r.notifications <==>
            s.notifications.None? || s.notifications.value.NotifFlag? ||
            (s.notifications.value.NotifText? && (s.notifications.value.text == "" || s.notifications.value.text == "true")))
  {
    WriteSettingsFrame(items, s, ThemeKey);
  }

  /** Passing the flag as the boolean `false` still saves notifications as on. */
  lemma FalseFlagSavedAsTrue(items: map<string, Value>, s: SettingsInput)
    requires WellShaped(items)
    requires s.notifications == Some(NotifFlag(false))
    ensures WellShaped(WriteSettings(items, s))
    ensures ReadSettings(WriteSettings(items, s)).notifications
  {
    SaveThenReadSettings(items, s);
  }

  /**
   * Passing notifications as a preferences object, the shape `getDefaultSettings()`
   * gives them, stores "[object Object]", which reads back as off.
   */
  lemma PrefsObjectSavedAsOff(items: map<string, Value>, s: SettingsInput)
    requires WellShaped(items)
    requires s.notifications.Some? && s.notifications.value.NotifPrefs?
    ensures WellShaped(WriteSettings(items, s))
    ensures WriteSettings(items, s)[NotificationsKey] == Text("[object Object]")
    ensures !ReadSettings(WriteSettings(items, s)).notifications
  {
    SaveThenReadSettings(items, s);
  }

  /** The user_settings row the migration upserts. */
  datatype SettingsRow = SettingsRow(id: string, theme: string, language: string, notifications: NotificationPrefs, fontSize: string)

  /**
   * The migration's settings step on the four raw texts: no row when every one
   * is missing or empty; otherwise a row with each value or its default, the
   * email notification on exactly when the stored text is "true", and the
   * other notification flags as in the defaults.
   */
  function MigratedSettings(userId: string, theme: Option<string>, fontSize: Option<string>,
                            notifications: Option<string>, language: Option<string>): (r: Option<SettingsRow>)
    ensures r.None? <==> !Truthy(theme) && !Truthy(fontSize) && !Truthy(notifications) && !Truthy(language)
    ensures r.Some? ==> r.value.id == userId
    ensures r.Some? ==> r.value.theme == Or(theme, DefaultSettings().theme)
    ensures r.Some? ==> r.value.language == Or(language, DefaultSettings().language)
    ensures r.Some? ==> r.value.notifications == DefaultSettings().notifications.(email := notifications == Some("true"))
    ensures r.Some? ==> r.value.fontSize == Or(fontSize, "medium")
  {
    if Truthy(theme) || Truthy(fontSize) || Truthy(notifications) || Truthy(language) then
      Some(SettingsRow(
        userId,
        Or(theme, "dark"),
        Or(language, "pt-BR"),
        NotificationPrefs(email := notifications == Some("true"), push := false, nudges := true, achievements := true, feedback := true),
        Or(fontSize, "medium")))
    else None
  }

  /** The migration's settings step applied to the store. */
  function MigratedSettingsOf(items: map<string, Value>, userId: string): (r: Option<SettingsRow>)
    requires WellShaped(items)
    ensures r.None? <==> forall k :: k in {ThemeKey, FontSizeKey, NotificationsKey, LanguageKey} ==>
      k !in items || items[k] == Text("")
    ensures r.Some? ==> r.value.id == userId
    ensures r.Some? ==> var local := ReadSettings(items);
      && r.value.theme == local.theme && r.value.language == local.language
      && r.value.fontSize == local.fontSize && r.value.notifications.email == local.notifications
  {
    MigratedSettings(userId, StoredText(items, ThemeKey), StoredText(items, FontSizeKey),
                     StoredText(items, NotificationsKey), StoredText(items, LanguageKey))
  }

  /**
   * Once settings have been saved locally, the migration builds a row, and that
   * row carries exactly what the local `getSettings` reads.
   */
  lemma SavedSettingsMigrate(items: map<string, Value>, s: SettingsInput, userId: string)
    requires WellShaped(items)
    ensures WellShaped(WriteSettings(items, s))
    ensures var after := WriteSettings(items, s);
      var local := ReadSettings(after);
      var row := MigratedSettingsOf(after, userId);
      && row.Some?
      && row.value.theme == local.theme
      && row.value.language == local.language
      && row.value.fontSize == local.fontSize
      && row.value.notifications.email == local.notifications
  {
    WriteSettingsFrame(items, s, ThemeKey);
  }
}
