/**
 The process environment as the program sees it through `os.getenv`. An
 unset variable and a variable set to the empty string are kept apart.
 */
module Environment {
  import opened Wrappers

  type Env = map<string, string>

  /** `os.getenv(key)`: the value, or `None` when the variable is unset. */
  function Getenv(env: Env, key: string): Option<string> {
    if key in env then Some(env[key]) else None
  }

  /** `os.getenv(key, default)`: the default applies only to an unset variable. */
  function GetenvOr(env: Env, key: string, default: string): string {
    if key in env then env[key] else default
  }

  /** Python truthiness of a `str | None`: set and not empty. */
  predicate Truthy(v: Option<string>) {
    v.Some? && v.value != ""
  }
}
