/** The settings page: five switches, each flipped by its own toggle. */
module Settings {
  import opened Flags

  /** The switches the page starts with. */
  const InitialSettings: map<string, bool> := map[
    "darkMode" := false, "emailAlerts" := true, "multiUser" := true, "roleAccess" := false,
    "securityLock" := true]

  class SettingsPage {
    var settings: map<string, bool>

    constructor ()
      ensures settings == InitialSettings
    {
      settings := InitialSettings;
    }

    /** `toggleSetting(key)`: that key flips and every other key keeps its value. */
    method ToggleSetting(key: string)
      modifies this
      ensures settings == Flip(old(settings), key)
      ensures settings[key] == !(key in old(settings) && old(settings)[key])
      ensures forall k :: k in old(settings) && k != key ==> settings[k] == old(settings)[k]
    {
      settings := Flip(settings, key);
    }
  }

  /** Toggling a key twice restores the settings; the page's own keys all qualify. */
  method ToggleTwice(page: SettingsPage, key: string)
    requires key in page.settings
    modifies page
    ensures page.settings == old(page.settings)
  {
    page.ToggleSetting(key);
    page.ToggleSetting(key);
    FlipTwice(old(page.settings), key);
  }
}
