/** The switches of `AccessibilitySettingsScreen`: a map from option id to on/off. */
module AccessibilitySettingsScreen {

  /** The initial settings: only haptic feedback is on. */
  const InitialSettings: map<string, bool> :=
    map["LargeText" := false, "HighContrast" := false, "ScreenReader" := false, "HapticFeedback" := true]

  /** `{ ...prev, [id]: !prev[id] }`: a missing id reads as undefined, whose negation is true. */
  function Toggled(settings: map<string, bool>, id: string): (r: map<string, bool>)
    ensures id in r && r.Keys == settings.Keys + {id}
    ensures id in settings ==> r[id] == !settings[id]
    ensures id !in settings ==> r[id]
    ensures forall k :: k in settings && k != id ==> k in r && r[k] == settings[k]
  {
    settings[id := !(id in settings && settings[id])]
  }

  /** Toggling an id already present twice gives back the same settings. */
  lemma ToggleTwice(settings: map<string, bool>, id: string)
    requires id in settings
    ensures Toggled(Toggled(settings, id), id) == settings
  {
    assert Toggled(Toggled(settings, id), id)[id] == settings[id];
  }

  /** Toggling an unknown id twice leaves it in the map, switched off. */
  lemma ToggleTwiceUnknown(settings: map<string, bool>, id: string)
    requires id !in settings
    ensures Toggled(Toggled(settings, id), id) == settings[id := false]
  {
  }

  /** The state of the screen. */
  class AccessibilitySettings {
    var settings: map<string, bool>

    constructor ()
      ensures settings == InitialSettings
    {
      settings := InitialSettings;
    }

    /** `toggleSwitch(id)`: negate that one switch and keep every other. */
    method ToggleSwitch(id: string)
      modifies this
      ensures settings == Toggled(old(settings), id)
    {
      settings := Toggled(settings, id);
    }
  }
}
