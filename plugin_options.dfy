/** The plugin's options as the transform reads them, and their defaults. */
module PluginOptions {
  import opened Wrappers

  /** `theorem_envs`: environment name -> (output label, counter label). */
  type EnvTable = map<string, (string, string)>

  datatype Options = Options(
    theoremEnvs: Option<EnvTable>,
    defaultClassName: Option<string>,
    startMarker: Option<string>,
    endMarker: Option<string>)

  const DefaultStartMarker: string := "::math-env-start"
  const DefaultEndMarker: string := "::math-env-end"

  const DefaultEnvs: EnvTable := map[
    "theorem" := ("Theorem", "theorem"),
    "lemma" := ("Lemma", "lemma"),
    "corollary" := ("Corollary", "corollary"),
    "proposition" := ("Proposition", "proposition"),
    "definition" := ("Definition", "definition"),
    "example" := ("Example", "example")]

  const DefaultOptions: Options :=
    Options(Some(DefaultEnvs), Some("custom-div"), Some(DefaultStartMarker), Some(DefaultEndMarker))

  /** The options the transform runs with: `options = defaultOptions` when none are given. */
  function Effective(options: Option<Options>): (o: Options)
    ensures options.Some? ==> o == options.value
    ensures options.None? ==> o == DefaultOptions
  {
    options.GetOr(DefaultOptions)
  }

  /** `options.startMarker ?? defaultOptions.startMarker`: only an absent marker falls back. */
  function StartMarkerOf(o: Options): (m: string)
    ensures o.startMarker.Some? ==> m == o.startMarker.value
    ensures o.startMarker.None? ==> m == DefaultStartMarker
    ensures m == "" <==> o.startMarker == Some("")
  {
    o.startMarker.GetOr(DefaultStartMarker)
  }

  /** `options.endMarker ?? defaultOptions.endMarker`: only an absent marker falls back. */
  function EndMarkerOf(o: Options): (m: string)
    ensures o.endMarker.Some? ==> m == o.endMarker.value
    ensures o.endMarker.None? ==> m == DefaultEndMarker
    ensures m == "" <==> o.endMarker == Some("")
  {
    o.endMarker.GetOr(DefaultEndMarker)
  }

  /** `options.theorem_envs?.has(name)` */
  predicate HasEnv(o: Options, name: string) {
    o.theoremEnvs.Some? && name in o.theoremEnvs.value
  }
}
