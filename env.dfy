/** `getEnv` (lib/server/env.ts) over an explicit environment. */
module Env {
  import opened Wrappers

  /** The message `getEnv` throws with. */
  function NotSetMessage(key: string): string {
    "Environment variable " + key + " is not set"
  }

  /**
   * `process.env[key] ?? defaultValue`, then a throw when the result is
   * falsy (missing or empty).  `env` holds the variables that are set.
   */
  function GetEnv(env: map<string, string>, key: string, defaultValue: Option<string>): (r: Result<string>)
    ensures r.Ok? ==> r.value != ""
    ensures r.Err? ==> r.error == NotSetMessage(key)
    ensures key in env && env[key] != "" ==> r == Ok(env[key])
    ensures key in env && env[key] == "" ==> r.Err?
    ensures key !in env ==> (r.Ok? <==> defaultValue.Some? && defaultValue.value != "")
    ensures key !in env && r.Ok? ==> r.value == defaultValue.value
  {
    var value := if key in env then Some(env[key]) else defaultValue;
    if value.None? || value.value == "" then Err(NotSetMessage(key)) else Ok(value.value)
  }

  /**
   * `getEnv(key, "")`, the form the app configuration uses for its OAuth
   * client ids: the empty default can never rescue a missing variable.
   */
  lemma EmptyDefaultNeverHelps(env: map<string, string>, key: string)
    ensures GetEnv(env, key, Some("")) == GetEnv(env, key, None)
    ensures key !in env ==> GetEnv(env, key, Some("")).Err?
  {
  }

  /** A set variable decides alone, even when empty: `??` replaces only a missing value. */
  lemma SetValueWins(env: map<string, string>, key: string, d1: Option<string>, d2: Option<string>)
    requires key in env
    ensures GetEnv(env, key, d1) == GetEnv(env, key, d2)
  {
  }
}
