/**
 * `UpdateUserSettingUseCase` of internal/usecases/update_user_setting.go: a
 * key check, then `Patch` with a map holding just that key and its value.
 */
module UpdateUserSetting {
  import opened Wrappers
  import opened SettingsRepository
  import DomainSettings
  import Uuids

  /** `invalid setting key: <key>` from the use case, or `Patch`'s error as it came. */
  datatype SettingUpdateError = InvalidSettingKey(setting: string) | PatchFailed(cause: SettingsError)

  class UpdateUserSettingUseCase<V> {
    const repo: SettingsRepository<V>

    constructor(repo: SettingsRepository<V>)
      ensures this.repo == repo
    {
      this.repo := repo;
    }

    /**
     * An invalid key is refused and nothing is sent; a valid one sends the
     * single-clause statement with the caller's value untouched, and `Patch`'s
     * error is passed on.
     */
    method Execute(user: Uuids.Uuid, setting: string, value: V, dbError: bool) returns (err: Option<SettingUpdateError>)
      modifies repo
      ensures !DomainSettings.IsValid(setting) ==> err == Some(InvalidSettingKey(setting)) && repo.sent == old(repo.sent)
      ensures DomainSettings.IsValid(setting) ==>
                && repo.sent == old(repo.sent) + [PatchStatement(user, map[setting := value], [setting])]
                && err == (if dbError then Some(PatchFailed(ExecFailed)) else None)
    {
      if !DomainSettings.IsValid(setting) {
        return Some(InvalidSettingKey(setting));
      }
      var updates := map[setting := value];
      assert FirstInvalid([setting]) == None by {
        assert [setting][..0] == [];
      }
      var e := repo.Patch(user, updates, [setting], dbError);
      err := if e.Some? then Some(PatchFailed(e.value)) else None;
    }
  }
}
