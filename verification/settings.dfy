/**
 The configuration options the core reads. The three filtering switches are
 read with a default of "on", so they are optional here; the numeric options
 and verb normalisation are read without a default.
 */
module Settings {
  import opened Collections

  datatype Config = Config(
    minWordLength: int,
    minFrequency: int,
    networkTopN: int,
    enableVerbNormalization: bool,
    strictPosFiltering: Option<bool>,
    excludeInferenceEmotion: Option<bool>,
    excludeStructuralWords: Option<bool>)

  /** A switch read with `config.get(key, True)`: on unless present and false. */
  predicate Enabled(flag: Option<bool>)
  {
    match flag
    case None => true
    case Some(b) => b
  }

  /** The built-in configuration used when no configuration file is given. */
  const Defaults: Config := Config(
    minWordLength := 2,
    minFrequency := 3,
    networkTopN := 40,
    enableVerbNormalization := true,
    strictPosFiltering := Some(true),
    excludeInferenceEmotion := Some(true),
    excludeStructuralWords := Some(true))

  /** The built-in values: words of at least 2 code points, drawn in the cloud from 3 uses, 40
      network edges, and every filtering switch on. */
  lemma DefaultValues()
    ensures Defaults.minWordLength == 2 && Defaults.minFrequency == 3 && Defaults.networkTopN == 40
    ensures Defaults.enableVerbNormalization
    ensures Enabled(Defaults.strictPosFiltering) && Enabled(Defaults.excludeInferenceEmotion)
         && Enabled(Defaults.excludeStructuralWords)
  {
  }
}
