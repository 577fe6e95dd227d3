/** The settings store (src/store/appStore.ts) as pure state transitions. */
module AppStore {
  import opened Types

  datatype Theme = Light | Dark | Auto

  datatype Language = Ja | En | Zh

  datatype AppSettings = AppSettings(
    theme: Theme,
    language: Language,
    notifications: bool,
    hapticFeedback: bool,
    autoBackup: bool)

  /** `Partial<AppSettings>`: None is a field the update leaves out. */
  datatype SettingsPatch = SettingsPatch(
    theme: Option<Theme>,
    language: Option<Language>,
    notifications: Option<bool>,
    hapticFeedback: Option<bool>,
    autoBackup: Option<bool>)

  datatype AppState = AppState(settings: AppSettings, isFirstLaunch: bool)

  /** Automatic theme, Japanese, notifications and haptic feedback on,
      automatic backup off. */
  const InitialSettings: AppSettings := AppSettings(Auto, Ja, true, true, false)

  const InitialAppState: AppState := AppState(InitialSettings, true)

  /** `updateSettings`: `{ ...settings, ...patch }`. A field present in the
      patch takes its value; an absent one, and the first-launch flag, keep
      theirs. */
  function UpdateSettings(s: AppState, p: SettingsPatch): (r: AppState)
    ensures r.isFirstLaunch == s.isFirstLaunch
    ensures r.settings.theme == (if p.theme.Some? then p.theme.value else s.settings.theme)
    ensures r.settings.language == (if p.language.Some? then p.language.value else s.settings.language)
    ensures r.settings.notifications ==
              (if p.notifications.Some? then p.notifications.value else s.settings.notifications)
    ensures r.settings.hapticFeedback ==
              (if p.hapticFeedback.Some? then p.hapticFeedback.value else s.settings.hapticFeedback)
    ensures r.settings.autoBackup == (if p.autoBackup.Some? then p.autoBackup.value else s.settings.autoBackup)
  {
    var t := s.settings;
    s.(settings := AppSettings(
      Pick(p.theme, t.theme),
      Pick(p.language, t.language),
      Pick(p.notifications, t.notifications),
      Pick(p.hapticFeedback, t.hapticFeedback),
      Pick(p.autoBackup, t.autoBackup)))
  }

  /** The later patch wins field by field: `{ ...p, ...q }`. */
  function Then(p: SettingsPatch, q: SettingsPatch): SettingsPatch
  {
    SettingsPatch(
      if q.theme.Some? then q.theme else p.theme,
      if q.language.Some? then q.language else p.language,
      if q.notifications.Some? then q.notifications else p.notifications,
      if q.hapticFeedback.Some? then q.hapticFeedback else p.hapticFeedback,
      if q.autoBackup.Some? then q.autoBackup else p.autoBackup)
  }

  const EmptyPatch: SettingsPatch := SettingsPatch(None, None, None, None, None)

  /** Two updates in a row are one update with the merged patch. */
  lemma UpdateCompose(s: AppState, p: SettingsPatch, q: SettingsPatch)
    ensures UpdateSettings(UpdateSettings(s, p), q) == UpdateSettings(s, Then(p, q))
  {
    var a := UpdateSettings(UpdateSettings(s, p), q);
    var b := UpdateSettings(s, Then(p, q));
    assert a.settings == b.settings;
  }

  /** The empty patch changes nothing. */
  lemma UpdateEmpty(s: AppState)
    ensures UpdateSettings(s, EmptyPatch) == s
  {
  }

  /** Repeating an update changes nothing more. */
  lemma UpdateTwice(s: AppState, p: SettingsPatch)
    ensures UpdateSettings(UpdateSettings(s, p), p) == UpdateSettings(s, p)
  {
    var a := UpdateSettings(UpdateSettings(s, p), p);
    var b := UpdateSettings(s, p);
    assert a.settings == b.settings;
  }

  /** `setFirstLaunch`: only the flag changes. */
  function SetFirstLaunch(s: AppState, isFirst: bool): (r: AppState)
    ensures r.isFirstLaunch == isFirst
    ensures r.settings == s.settings
  {
    s.(isFirstLaunch := isFirst)
  }
}
