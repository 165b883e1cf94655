/**
 * The string-valued setting keys of internal/domain/entities/user_settings.go:
 * a setting is valid exactly when it is one of the three column names of the
 * `user_settings` table.
 */
module DomainSettings {
  const BiometricEnabled: string := "biometric_enabled"
  const DarkMode: string := "dark_mode"
  const NotificationsEnabled: string := "notifications_enabled"

  /** `AllowedSettings`, the set `IsValid` looks a key up in. */
  const AllowedSettings: set<string> := {BiometricEnabled, DarkMode, NotificationsEnabled}

  /** `Setting.IsValid`: membership of `AllowedSettings`, an exact, case-sensitive comparison. */
  predicate IsValid(s: string)
  {
    s in AllowedSettings
  }

  /** The allowed settings are three distinct, non-empty column names. */
  lemma AllowedShape()
    ensures |AllowedSettings| == 3
    ensures forall s :: s in AllowedSettings ==> s != ""
    ensures forall s :: IsValid(s) <==> s == "biometric_enabled" || s == "dark_mode" || s == "notifications_enabled"
  {
    assert BiometricEnabled != DarkMode by { assert BiometricEnabled[0] != DarkMode[0]; }
    assert BiometricEnabled != NotificationsEnabled by { assert BiometricEnabled[0] != NotificationsEnabled[0]; }
    assert DarkMode != NotificationsEnabled by { assert DarkMode[0] != NotificationsEnabled[0]; }
  }

}
