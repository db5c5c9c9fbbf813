/**
 Per-document features: the word list, its weighted pairs, the counts and
 the type-token ratio. Python's `Counter(words)` is the multiset of the
 words.
 */
module Features {
  import opened Collections
  import opened Dictionaries
  import opened Settings
  import opened Tokenizer
  import opened Cooccurrence

  datatype DocumentFeatures = DocumentFeatures(
    words: seq<string>,
    pairs: map<Pair, real>,
    wordCount: nat,
    uniqueWords: nat,
    charCount: nat,
    ttr: real,
    wordFrequency: multiset<string>)

  /** Distinct words over total words, or 0 for an empty list. */
  function TypeTokenRatio(unique: nat, total: nat): real
  {
    if total > 0 then (unique as real) / (total as real) else 0.0
  }

  /** The ratio lies between 0 and 1; it is 0 only for an empty list and 1 only when no word repeats. */
  lemma TypeTokenRatioBounds(words: seq<string>)
    ensures var r := TypeTokenRatio(|Elements(words)|, |words|);
      && 0.0 <= r <= 1.0
      && (r == 0.0 <==> |words| == 0)
      && (r == 1.0 <==> |words| > 0 && NoDuplicates(words))
  {
    ElementsBound(words);
    ElementsExact(words);
    if |words| > 0 {
      ElementsNonEmpty(words);
      RatioFacts(|Elements(words)|, |words|);
    }
  }

  /** A ratio of a positive count to a count no smaller lies in (0, 1] and is 1 only for equal counts. */
  lemma RatioFacts(u: nat, n: nat)
    requires 0 < u <= n
    ensures 0.0 < TypeTokenRatio(u, n) <= 1.0
    ensures TypeTokenRatio(u, n) == 1.0 <==> u == n
  {
    var r := (u as real) / (n as real);
    assert r * (n as real) == u as real;
  }

  /** `f` is the feature record of a document with this text and these analyser records: every
      field of `extract_enhanced_features`' result is the one computed from the document. */
  ghost predicate Describes(f: DocumentFeatures, text: string, records: seq<Record>, backend: Backend, cfg: Config, lex: Lexicon)
  {
    && f.words == Tokenize(records, backend, cfg, lex)
    && (forall k :: Get(f.pairs, k) == Weight(f.words, k))
    && (forall k :: k in f.pairs ==> f.pairs[k] > 0.0)
    && f.charCount == |text| && f.wordCount == |f.words|
    && f.uniqueWords == |Elements(f.words)|
    && f.ttr == TypeTokenRatio(f.uniqueWords, f.wordCount)
    && f.wordFrequency == multiset(f.words)
  }

  /** `extract_enhanced_features` for one document, given its text and the analyser's records. */
  method ExtractFeatures(text: string, records: seq<Record>, backend: Backend, cfg: Config, lex: Lexicon)
    returns (f: DocumentFeatures)
    ensures f.words == Tokenize(records, backend, cfg, lex)
    ensures forall k :: Get(f.pairs, k) == Weight(f.words, k)
    ensures forall k :: k in f.pairs ==> f.pairs[k] > 0.0
    ensures f.charCount == |text| && f.wordCount == |f.words|
    ensures f.uniqueWords == |Elements(f.words)| && f.uniqueWords <= f.wordCount
    ensures f.ttr == TypeTokenRatio(f.uniqueWords, f.wordCount)
    ensures 0.0 <= f.ttr <= 1.0
    ensures f.ttr == 0.0 <==> f.wordCount == 0
    ensures f.ttr == 1.0 <==> f.wordCount > 0 && NoDuplicates(f.words)
    ensures f.wordFrequency == multiset(f.words) && |f.wordFrequency| == f.wordCount
    ensures Describes(f, text, records, backend, cfg, lex)
  {
    var words := Tokenize(records, backend, cfg, lex);
    var unique := |Elements(words)|;
    var ttr := TypeTokenRatio(unique, |words|);
    TypeTokenRatioBounds(words);
    ElementsBound(words);
    var pairs := ExtractPairs(words);
    f := DocumentFeatures(words, pairs, |words|, unique, |text|, ttr, multiset(words));
  }
}
