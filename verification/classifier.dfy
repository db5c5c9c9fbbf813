/**
 The token classifier: decides whether one analysed token is a content word
 worth counting. The checks run in a fixed order and the first one that
 fails decides; `Classify` reports which stage rejected a token, so that
 "rejected before any other check" can be stated.
 */
module Classifier {
  import opened Collections
  import opened Text
  import opened Dictionaries
  import opened Settings

  /** One unit of the morphological analyser's output. */
  datatype Token = Token(
    surface: string,
    baseForm: string,
    posMajor: string,
    posMinor1: string,
    posMinor2: string)

  // Part-of-speech labels of the IPA dictionary tag set.
  const Noun := "名詞"
  const Verb := "動詞"
  const Adjective := "形容詞"
  const Adverb := "副詞"
  const Independent := "自立"
  const GeneralNoun := "一般"
  const ProperNoun := "固有名詞"
  const VerbalNoun := "サ変接続"
  const Pronoun := "代名詞"
  const Numeral := "数"
  const CounterNoun := "助数詞"
  const SuffixNoun := "接尾"
  const DependentNoun := "非自立"

  /** The check that rejected a token, in the order the checks run. */
  datatype Stage =
    | Basic
    | InferenceEmotion
    | Structural
    | Functional
    | Honorific
    | Pattern
    | HonorificSuffix
    | ModalSuffix
    | PartOfSpeech

  datatype Verdict = Keep | Drop(stage: Stage)

  /** Long enough, not pure ASCII (so not empty) and not a string of digits. */
  predicate PassesBasic(surface: string, minWordLength: int)
  {
    |surface| >= minWordLength && !IsAscii(surface) && !IsDigits(surface)
  }

  /** The surface or the base form is one of `words`. */
  predicate Mentions(t: Token, words: set<string>)
  {
    t.surface in words || t.baseForm in words
  }

  /** The surface or the base form ends with one of `suffixes`. */
  predicate EndsWithAny(t: Token, suffixes: seq<string>)
  {
    exists i :: 0 <= i < |suffixes| && (EndsWith(t.surface, suffixes[i]) || EndsWith(t.baseForm, suffixes[i]))
  }

  /** The first dictionary-based check that rejects `t`, if any (all checks before the part of speech). */
  function LexicalStage(t: Token, cfg: Config, lex: Lexicon): Option<Stage>
  {
    if !PassesBasic(t.surface, cfg.minWordLength) then Some(Basic)
    else if Enabled(cfg.excludeInferenceEmotion) && Mentions(t, lex.inferenceEmotion) then Some(InferenceEmotion)
    else if Enabled(cfg.excludeStructuralWords) && Mentions(t, lex.structural) then Some(Structural)
    else if Mentions(t, lex.functional) then Some(Functional)
    else if Mentions(t, lex.honorific) then Some(Honorific)
    else if Mentions(t, AllPatterns(lex.patterns)) then Some(Pattern)
    else if EndsWithAny(t, lex.honorificSuffixes) then Some(HonorificSuffix)
    else if EndsWithAny(t, lex.modalSuffixes) then Some(ModalSuffix)
    else None
  }

  /** A short all-Katakana proper noun, taken to be a personal name. */
  predicate LooksLikePersonName(s: string)
  {
    |s| <= 4 && forall i :: 0 <= i < |s| ==> IsKatakana(s[i])
  }

  /** `s` ends with one of the organisation suffixes. */
  predicate HasOrganisationSuffix(s: string, suffixes: set<string>)
  {
    exists suffix | suffix in suffixes :: EndsWith(s, suffix)
  }

  /** The noun rules, tried in order. */
  predicate NounAccepted(t: Token, lex: Lexicon)
  {
    if t.posMinor1 in {GeneralNoun, ProperNoun, VerbalNoun} then
      !(t.posMinor1 == ProperNoun
        && (LooksLikePersonName(t.surface) || HasOrganisationSuffix(t.surface, lex.organisationSuffixes)))
    else if t.posMinor1 in {Pronoun, Numeral} then false
    else if t.posMinor2 in {CounterNoun, SuffixNoun, DependentNoun} then false
    else |t.surface| >= 2
  }

  /** The part-of-speech stage: what a token that passed every dictionary check must satisfy. */
  predicate PosAccepted(t: Token, cfg: Config, lex: Lexicon)
  {
    if t.posMajor == Noun then NounAccepted(t, lex)
    else if t.posMajor == Verb then t.posMinor1 == Independent && t.baseForm !in lex.functional
    else if t.posMajor == Adjective then t.posMinor1 == Independent && t.baseForm !in lex.genericAdjectives
    else if t.posMajor == Adverb then
      !Enabled(cfg.strictPosFiltering) && t.surface !in lex.patterns.commonAdverbs
    else false
  }

  /** The classifier: the first failing check decides, otherwise the part of speech does. */
  function Classify(t: Token, cfg: Config, lex: Lexicon): (v: Verdict)
    ensures v == Keep ==> |t.surface| >= cfg.minWordLength && !IsAscii(t.surface) && !IsDigits(t.surface)
    ensures v == Keep ==>
      && !Mentions(t, lex.functional)
      && !Mentions(t, lex.honorific)
      && !Mentions(t, AllPatterns(lex.patterns))
      && !EndsWithAny(t, lex.honorificSuffixes)
      && !EndsWithAny(t, lex.modalSuffixes)
    ensures v == Keep ==> t.posMajor in {Noun, Verb, Adjective, Adverb}
    ensures v == Keep && t.posMajor == Adverb ==> !Enabled(cfg.strictPosFiltering)
  {
    match LexicalStage(t, cfg, lex)
    case Some(stage) => Drop(stage)
    case None => if PosAccepted(t, cfg, lex) then Keep else Drop(PartOfSpeech)
  }

  /** The miner's keep/drop answer for one token. */
  predicate IsMeaningful(t: Token, cfg: Config, lex: Lexicon)
  {
    Classify(t, cfg, lex) == Keep
  }

  // ---------------------------------------------------------------------
  // Properties of the decision chain
  // ---------------------------------------------------------------------

  /** Too short, pure ASCII (including empty) or all digits: rejected by the very first check,
      whatever the part of speech, the switches or the dictionaries. */
  lemma BasicCheckFirst(t: Token, cfg: Config, lex: Lexicon)
    requires |t.surface| < cfg.minWordLength || IsAscii(t.surface) || IsDigits(t.surface)
    ensures Classify(t, cfg, lex) == Drop(Basic)
  {
  }

  /** The minimum length is inclusive: a surface of exactly that length passes the length check,
      one code point fewer does not. */
  lemma LengthBoundary(t: Token, cfg: Config, lex: Lexicon)
    requires !IsAscii(t.surface) && !IsDigits(t.surface)
    ensures |t.surface| == cfg.minWordLength ==> Classify(t, cfg, lex) != Drop(Basic)
    ensures |t.surface| == cfg.minWordLength - 1 ==> Classify(t, cfg, lex) == Drop(Basic)
  {
  }

  /** With the inference/emotion switch off the classifier behaves as if the switch were on
      and that category were empty. */
  lemma InferenceSwitchOff(t: Token, cfg: Config, lex: Lexicon)
    requires !Enabled(cfg.excludeInferenceEmotion)
    ensures Classify(t, cfg, lex) == Classify(t, cfg, lex.(inferenceEmotion := {}))
    ensures Classify(t, cfg, lex)
         == Classify(t, cfg.(excludeInferenceEmotion := Some(true)), lex.(inferenceEmotion := {}))
  {
  }

  /** With the structural switch off the classifier behaves as if the switch were on
      and that category were empty. */
  lemma StructuralSwitchOff(t: Token, cfg: Config, lex: Lexicon)
    requires !Enabled(cfg.excludeStructuralWords)
    ensures Classify(t, cfg, lex) == Classify(t, cfg, lex.(structural := {}))
    ensures Classify(t, cfg, lex)
         == Classify(t, cfg.(excludeStructuralWords := Some(true)), lex.(structural := {}))
  {
  }

  /** With both category switches on, no word of the combined exclusion set survives. */
  lemma ExcludedWordsDropped(t: Token, cfg: Config, lex: Lexicon)
    requires Enabled(cfg.excludeInferenceEmotion) && Enabled(cfg.excludeStructuralWords)
    requires Mentions(t, AllExcluded(lex))
    ensures Classify(t, cfg, lex) != Keep
  {
  }

  /** The verb rule's own function-word test never fails: the functional check already
      rejected every base form it could catch. */
  lemma VerbFunctionalCheckRedundant(t: Token, cfg: Config, lex: Lexicon)
    requires LexicalStage(t, cfg, lex) == None
    ensures t.baseForm !in lex.functional
  {
  }

  /** A verb that reaches the part-of-speech stage is kept exactly when it is independent. */
  lemma VerbRule(t: Token, cfg: Config, lex: Lexicon)
    requires LexicalStage(t, cfg, lex) == None && t.posMajor == Verb
    ensures Classify(t, cfg, lex) == Keep <==> t.posMinor1 == Independent
  {
  }

  /** With strict filtering on no adverb is kept. With it off, the adverb rule's common-adverb
      test never fails, because the pattern check already rejected those adverbs, so an adverb
      that reaches the part-of-speech stage is kept. */
  lemma AdverbRule(t: Token, cfg: Config, lex: Lexicon)
    requires t.posMajor == Adverb
    ensures Enabled(cfg.strictPosFiltering) ==> Classify(t, cfg, lex) != Keep
    ensures LexicalStage(t, cfg, lex) == None ==>
      (Classify(t, cfg, lex) == Keep <==> !Enabled(cfg.strictPosFiltering))
  {
  }

  /** An independent adjective at the part-of-speech stage is dropped exactly when its base form
      is one of the generic adjectives; a dependent one is always dropped. */
  lemma AdjectiveRule(t: Token, cfg: Config, lex: Lexicon)
    requires LexicalStage(t, cfg, lex) == None && t.posMajor == Adjective
    ensures t.posMinor1 == Independent ==>
      (Classify(t, cfg, lex) == Drop(PartOfSpeech) <==> t.baseForm in lex.genericAdjectives)
    ensures t.posMinor1 != Independent ==> Classify(t, cfg, lex) == Drop(PartOfSpeech)
  {
  }

  /** The noun rules at the part-of-speech stage, case by case. */
  lemma NounRule(t: Token, cfg: Config, lex: Lexicon)
    requires LexicalStage(t, cfg, lex) == None && t.posMajor == Noun
    ensures t.posMinor1 in {GeneralNoun, VerbalNoun} ==> Classify(t, cfg, lex) == Keep
    ensures t.posMinor1 == ProperNoun ==>
      (Classify(t, cfg, lex) == Keep <==>
         !LooksLikePersonName(t.surface) && !HasOrganisationSuffix(t.surface, lex.organisationSuffixes))
    ensures t.posMinor1 in {Pronoun, Numeral} ==> Classify(t, cfg, lex) == Drop(PartOfSpeech)
    ensures t.posMinor1 !in {GeneralNoun, ProperNoun, VerbalNoun, Pronoun, Numeral} ==>
      (t.posMinor2 in {CounterNoun, SuffixNoun, DependentNoun} ==> Classify(t, cfg, lex) == Drop(PartOfSpeech))
    ensures (t.posMinor1 !in {GeneralNoun, ProperNoun, VerbalNoun, Pronoun, Numeral}
             && t.posMinor2 !in {CounterNoun, SuffixNoun, DependentNoun}) ==>
      (Classify(t, cfg, lex) == Keep <==> |t.surface| >= 2)
  {
  }

  /** With the miner's dictionaries, a surface ending in any title suffix (`さん`, `様`, ...) is
      never kept, whatever its part of speech or the switches. */
  lemma TitleSuffixNeverKept(t: Token, cfg: Config, suffix: string)
    requires suffix in HonorificSuffixes && EndsWith(t.surface, suffix)
    ensures Classify(t, cfg, Standard) != Keep
  {
    var i :| 0 <= i < |HonorificSuffixes| && HonorificSuffixes[i] == suffix;
    assert EndsWithAny(t, Standard.honorificSuffixes);
  }
}
