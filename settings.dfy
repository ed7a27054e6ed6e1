/**
 * The installer settings the three actions read: the build-user settings
 * and the distribution from `CommonSettings`, and its settings map.
 */
module Settings {
  import opened Results

  const U32_MAX: int := 0xFFFF_FFFF

  /** Rust's `u32`. */
  type U32 = x: int | 0 <= x <= U32_MAX

  datatype Distribution = Nix | DeterminateNix

  /** A `serde_json::Value`; only string values are built in this model, everything else is compared for equality only. */
  datatype Value = JsonString(s: string) | JsonOther(code: int)

  /** An `InstallSettingsError`, whose contents are not part of this model. */
  datatype SettingsError = SettingsError(code: int)

  /**
   * The parts of `CommonSettings` the cores read. `settingsMap` stands for
   * the result of `CommonSettings::settings()`, whose key list is not part
   * of this model.
   */
  datatype CommonSettings = CommonSettings(
    nixBuildGroupName: string,
    nixBuildGroupId: U32,
    nixBuildUserCount: U32,
    nixBuildUserPrefix: string,
    nixBuildUserIdBase: U32,
    distribution: Distribution,
    settingsMap: Result<map<string, Value>, SettingsError>)
}
