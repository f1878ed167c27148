/**
  * The newer option record: per-environment theorem options, proof options, their
  * defaults, and filling a user's partial options from the defaults.
  */
module Configuration {
  import opened Wrappers
  import opened JsStrings
  import PluginOptions

  /** How one theorem environment is rendered and numbered. */
  datatype TheoremOptions = TheoremOptions(envStartText: string, counterLabel: string, addNumbering: bool)

  /** Theorem options with an end text, as the proof environment uses. */
  datatype GeneralEnvOptions = GeneralEnvOptions(
    envStartText: string, counterLabel: string, addNumbering: bool, envEndText: string)

  /** Every field is optional: `None` is a field the object does not have. */
  datatype Options = Options(
    theoremEnvs: Option<map<string, TheoremOptions>>,
    defaultClassName: Option<string>,
    startMarker: Option<string>,
    endMarker: Option<string>,
    proofOptions: Option<GeneralEnvOptions>)

  /**
    * defaultTheoremOptions: the label with its first character upper-cased as the start
    * text, the label lower-cased as the counter label, and numbering on.
    */
  function DefaultTheoremOptions(envLabel: string): (t: TheoremOptions)
    ensures envLabel != [] ==> t.envStartText == [UpperAscii(envLabel[0])] + envLabel[1..]
    ensures envLabel == [] ==> t.envStartText == ""
    ensures |t.counterLabel| == |envLabel| && forall i :: 0 <= i < |envLabel| ==> t.counterLabel[i] == LowerAscii(envLabel[i])
    ensures t.addNumbering
  {
    var capitalised := if envLabel == [] then "" else [UpperAscii(envLabel[0])] + envLabel[1..];
    TheoremOptions(capitalised, LowerString(envLabel), true)
  }

  const DefaultProofOptions: GeneralEnvOptions := GeneralEnvOptions("Proof:", "proof", false, "\U{25A0}")

  const DefaultTheoremEnvs: map<string, TheoremOptions> := map[
    "theorem" := DefaultTheoremOptions("theorem"),
    "lemma" := DefaultTheoremOptions("lemma"),
    "corollary" := DefaultTheoremOptions("corollary"),
    "proposition" := DefaultTheoremOptions("proposition"),
    "definition" := DefaultTheoremOptions("definition"),
    "example" := DefaultTheoremOptions("example")]

  const DefaultOptions: Options := Options(
    Some(DefaultTheoremEnvs), Some("custom-div"), Some("::math-env-start"), Some("::math-env-end"),
    Some(DefaultProofOptions))

  /** The keys of an option record. */
  datatype Field = TheoremEnvsKey | DefaultClassNameKey | StartMarkerKey | EndMarkerKey | ProofOptionsKey

  /** One field value of an option record, whatever its key. */
  datatype FieldValue =
    | EnvsField(envs: map<string, TheoremOptions>)
    | TextField(text: string)
    | ProofField(proof: GeneralEnvOptions)

  /** An option record as the key/value object `for … in` walks: only its present fields. */
  function ToFields(o: Options): (m: map<Field, FieldValue>)
    ensures TheoremEnvsKey in m <==> o.theoremEnvs.Some?
    ensures DefaultClassNameKey in m <==> o.defaultClassName.Some?
    ensures StartMarkerKey in m <==> o.startMarker.Some?
    ensures EndMarkerKey in m <==> o.endMarker.Some?
    ensures ProofOptionsKey in m <==> o.proofOptions.Some?
    ensures o.theoremEnvs.Some? ==> m[TheoremEnvsKey] == EnvsField(o.theoremEnvs.value)
    ensures o.defaultClassName.Some? ==> m[DefaultClassNameKey] == TextField(o.defaultClassName.value)
    ensures o.startMarker.Some? ==> m[StartMarkerKey] == TextField(o.startMarker.value)
    ensures o.endMarker.Some? ==> m[EndMarkerKey] == TextField(o.endMarker.value)
    ensures o.proofOptions.Some? ==> m[ProofOptionsKey] == ProofField(o.proofOptions.value)
  {
    var m0: map<Field, FieldValue> := map[];
    var m1 := if o.theoremEnvs.Some? then m0[TheoremEnvsKey := EnvsField(o.theoremEnvs.value)] else m0;
    var m2 := if o.defaultClassName.Some? then m1[DefaultClassNameKey := TextField(o.defaultClassName.value)] else m1;
    var m3 := if o.startMarker.Some? then m2[StartMarkerKey := TextField(o.startMarker.value)] else m2;
    var m4 := if o.endMarker.Some? then m3[EndMarkerKey := TextField(o.endMarker.value)] else m3;
    var m5 := if o.proofOptions.Some? then m4[ProofOptionsKey := ProofField(o.proofOptions.value)] else m4;
    m5
  }

  function TextAt(m: map<Field, FieldValue>, key: Field): Option<string> {
    if key in m && m[key].TextField? then Some(m[key].text) else None
  }

  /** Reading a key/value object back as an option record; a field of the wrong kind reads as absent. */
  function FromFields(m: map<Field, FieldValue>): Options {
    Options(
      if TheoremEnvsKey in m && m[TheoremEnvsKey].EnvsField? then Some(m[TheoremEnvsKey].envs) else None,
      TextAt(m, DefaultClassNameKey),
      TextAt(m, StartMarkerKey),
      TextAt(m, EndMarkerKey),
      if ProofOptionsKey in m && m[ProofOptionsKey].ProofField? then Some(m[ProofOptionsKey].proof) else None)
  }

  /** The shallow merge: every key of `obj` wins, every other key of `defaults` stays. */
  function Merge(defaults: map<Field, FieldValue>, obj: map<Field, FieldValue>): (r: map<Field, FieldValue>)
    ensures r.Keys == defaults.Keys + obj.Keys
    ensures forall k :: k in obj ==> r[k] == obj[k]
    ensures forall k :: k in defaults && k !in obj ==> r[k] == defaults[k]
  {
    map k | k in defaults.Keys + obj.Keys :: if k in obj then obj[k] else defaults[k]
  }

  /**
    * fillDefaults: start from a copy of the defaults, then assign every key the object
    * has. The source's guard `value !== undefined && !(empty array) || !(empty map)`
    * holds for every value, so no key is skipped.
    */
  method FillDefaults(defaults: map<Field, FieldValue>, obj: map<Field, FieldValue>)
    returns (result: map<Field, FieldValue>)
    ensures result == Merge(defaults, obj)
  {
    result := defaults;
    var keys := obj.Keys;
    while keys != {}
      invariant keys <= obj.Keys
      invariant result.Keys == defaults.Keys + (obj.Keys - keys)
      invariant forall k :: k in obj.Keys - keys ==> result[k] == obj[k]
      invariant forall k :: k in result && k !in obj.Keys - keys ==> result[k] == defaults[k]
      decreases keys
    {
      var key :| key in keys;
      result := result[key := obj[key]];
      keys := keys - {key};
    }
  }

  /** Field by field, the merge of two records takes the object's field when it has one. */
  function Overlay(defaults: Options, obj: Options): (r: Options)
    ensures obj.theoremEnvs.Some? ==> r.theoremEnvs == obj.theoremEnvs
    ensures obj.theoremEnvs.None? ==> r.theoremEnvs == defaults.theoremEnvs
    ensures obj.defaultClassName.Some? ==> r.defaultClassName == obj.defaultClassName
    ensures obj.defaultClassName.None? ==> r.defaultClassName == defaults.defaultClassName
    ensures obj.startMarker.Some? ==> r.startMarker == obj.startMarker
    ensures obj.startMarker.None? ==> r.startMarker == defaults.startMarker
    ensures obj.endMarker.Some? ==> r.endMarker == obj.endMarker
    ensures obj.endMarker.None? ==> r.endMarker == defaults.endMarker
    ensures obj.proofOptions.Some? ==> r.proofOptions == obj.proofOptions
    ensures obj.proofOptions.None? ==> r.proofOptions == defaults.proofOptions
  {
    Options(
      if obj.theoremEnvs.Some? then obj.theoremEnvs else defaults.theoremEnvs,
      if obj.defaultClassName.Some? then obj.defaultClassName else defaults.defaultClassName,
      if obj.startMarker.Some? then obj.startMarker else defaults.startMarker,
      if obj.endMarker.Some? then obj.endMarker else defaults.endMarker,
      if obj.proofOptions.Some? then obj.proofOptions else defaults.proofOptions)
  }

  /** Merging the key/value forms of two records is overlaying the records. */
  lemma MergeIsOverlay(defaults: Options, obj: Options)
    ensures FromFields(Merge(ToFields(defaults), ToFields(obj))) == Overlay(defaults, obj)
  {
    var d := ToFields(defaults);
    var m := ToFields(obj);
    var r := Merge(d, m);
    FieldsRoundTrip(defaults);
    FieldsRoundTrip(obj);
    assert TextAt(r, DefaultClassNameKey) == Overlay(defaults, obj).defaultClassName;
    assert TextAt(r, StartMarkerKey) == Overlay(defaults, obj).startMarker;
    assert TextAt(r, EndMarkerKey) == Overlay(defaults, obj).endMarker;
  }

  /** The filled record: each field the user set, or else its default. */
  function Filled(o: Options): (f: Options)
    ensures o.theoremEnvs.Some? ==> f.theoremEnvs == o.theoremEnvs
    ensures o.theoremEnvs.None? ==> f.theoremEnvs == DefaultOptions.theoremEnvs
    ensures o.defaultClassName.Some? ==> f.defaultClassName == o.defaultClassName
    ensures o.defaultClassName.None? ==> f.defaultClassName == DefaultOptions.defaultClassName
    ensures o.startMarker.Some? ==> f.startMarker == o.startMarker
    ensures o.startMarker.None? ==> f.startMarker == DefaultOptions.startMarker
    ensures o.endMarker.Some? ==> f.endMarker == o.endMarker
    ensures o.endMarker.None? ==> f.endMarker == DefaultOptions.endMarker
    ensures o.proofOptions.Some? ==> f.proofOptions == o.proofOptions
    ensures o.proofOptions.None? ==> f.proofOptions == DefaultOptions.proofOptions
  {
    Options(
      if o.theoremEnvs.Some? then o.theoremEnvs else DefaultOptions.theoremEnvs,
      if o.defaultClassName.Some? then o.defaultClassName else DefaultOptions.defaultClassName,
      if o.startMarker.Some? then o.startMarker else DefaultOptions.startMarker,
      if o.endMarker.Some? then o.endMarker else DefaultOptions.endMarker,
      if o.proofOptions.Some? then o.proofOptions else DefaultOptions.proofOptions)
  }

  /** fillUndefinedOptionsWithDefault: `fillDefaults(defaultOptions, options)`. */
  method FillUndefinedOptionsWithDefault(options: Options) returns (filled: Options)
    ensures filled == Filled(options)
  {
    var fields := FillDefaults(ToFields(DefaultOptions), ToFields(options));
    filled := FromFields(fields);
    MergeIsOverlay(DefaultOptions, options);
  }

  /** Reading back the fields of a record gives the record. */
  lemma FieldsRoundTrip(o: Options)
    ensures FromFields(ToFields(o)) == o
  {
  }

  /** Filling the empty record gives exactly the defaults, every field defined. */
  lemma FillEmptyGivesDefaults()
    ensures Filled(Options(None, None, None, None, None)) == DefaultOptions
    ensures var f := Filled(Options(None, None, None, None, None));
      f.theoremEnvs.Some? && f.defaultClassName.Some? && f.startMarker.Some? && f.endMarker.Some? && f.proofOptions.Some?
  {
  }

  /** Filling is idempotent: a filled record has every field, so filling it again keeps it. */
  lemma FillIdempotent(o: Options)
    ensures Filled(Filled(o)) == Filled(o)
  {
  }

  /**
    * `defaultTheoremOptions` of a label without upper-case letters: the label with its
    * first letter capitalised, the label itself as counter label, numbering on.
    */
  lemma DefaultTheoremOptionsOf(envLabel: string)
    requires envLabel != []
    requires forall i :: 0 <= i < |envLabel| ==> !('A' <= envLabel[i] <= 'Z')
    ensures DefaultTheoremOptions(envLabel) == TheoremOptions([UpperAscii(envLabel[0])] + envLabel[1..], envLabel, true)
  {
  }

  /** The default environment table holds exactly the six default names, as the transform's does. */
  lemma DefaultTheoremEnvsExact()
    ensures DefaultTheoremEnvs.Keys == {"theorem", "lemma", "corollary", "proposition", "definition", "example"}
    ensures DefaultTheoremEnvs.Keys == PluginOptions.DefaultEnvs.Keys
    ensures forall n :: n in DefaultTheoremEnvs ==> DefaultTheoremEnvs[n] == DefaultTheoremOptions(n)
  {
  }
}
