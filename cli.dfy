/** What the two command lines share: options that may be absent, and
    where the API key comes from. */
module Cli {
  import opened Dicts

  /** Python truthiness of an optional string option: given, and not empty. */
  predicate Given(o: Option<string>) {
    o.Some? && o.value != ""
  }

  /** `options.key or os.environ.get('MAILCHIMP_KEY')`: a non-empty
      `--key` wins; otherwise whatever the environment holds, which may
      be nothing. */
  function KeyOrEnv(key: Option<string>, env: Option<string>): (r: Option<string>)
    ensures Given(key) ==> r == key
    ensures !Given(key) ==> r == env
  {
    if Given(key) then key else env
  }

  /** A non-empty `--key` is used whatever the environment holds; no key
      at all exactly when `--key` is absent or empty and the environment
      has none; an empty `--key` falls back to the environment. */
  lemma KeyMissingIff(key: Option<string>, env: Option<string>)
    ensures Given(key) ==> KeyOrEnv(key, env) == key
    ensures KeyOrEnv(key, env).None? <==> !Given(key) && env.None?
    ensures key == Some("") ==> KeyOrEnv(key, env) == env
  {
  }
}
