/**
 * The integer setting enum of internal/entities/user_settings.go: an `iota`
 * enumeration whose first member is the unknown setting, with the column
 * name of each known setting.
 */
module SettingColumns {
  import DomainSettings

  /** `entities.Setting`, an `int`. */
  type Setting = int

  const SettingUnknown: Setting := 0
  const SettingBiometricEnabled: Setting := 1
  const SettingDarkMode: Setting := 2
  const SettingNotificationsEnabled: Setting := 3

  /** `Setting.IsValid`: one of the three named settings. */
  function IsValid(s: Setting): (r: bool)
    ensures r <==> 1 <= s <= 3
  {
    match s
    case 1 => true
    case 2 => true
    case 3 => true
    case _ => false
  }

  /** `Setting.ColumnName`: the column of a known setting, "" otherwise. */
  function ColumnName(s: Setting): (r: string)
    ensures r != "" <==> IsValid(s)
    ensures IsValid(s) ==> DomainSettings.IsValid(r)
    ensures !IsValid(s) ==> !DomainSettings.IsValid(r)
  {
    match s
    case 1 => DomainSettings.BiometricEnabled
    case 2 => DomainSettings.DarkMode
    case 3 => DomainSettings.NotificationsEnabled
    case _ => ""
  }

  /** The unknown setting is invalid and has no column. */
  lemma UnknownIsInvalid()
    ensures !IsValid(SettingUnknown) && ColumnName(SettingUnknown) == ""
  {
  }

  /** Distinct valid settings name distinct columns, and the three columns are the allowed keys. */
  lemma ColumnNameInjective(s: Setting, t: Setting)
    requires IsValid(s) && IsValid(t) && ColumnName(s) == ColumnName(t)
    ensures s == t
  {
    DomainSettings.AllowedShape();
  }

  /** Every allowed key is the column name of exactly one valid setting. */
  lemma ColumnNameOnto(c: string)
    requires DomainSettings.IsValid(c)
    ensures exists s :: IsValid(s) && ColumnName(s) == c
  {
    if c == DomainSettings.BiometricEnabled {
      assert ColumnName(1) == c;
    } else if c == DomainSettings.DarkMode {
      assert ColumnName(2) == c;
    } else {
      assert ColumnName(3) == c;
    }
  }
}
