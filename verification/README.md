# ObjectiveTextMiner-JP core, modelled in Dafny

This project models the deterministic core of `objective_text_miner.py`, a miner for Japanese text.
The miner works in six steps:

1. Morphological-analyser records (MeCab with the IPA dictionary, or Janome) are turned into a filtered word list.
2. A first-match-wins classifier decides which words are kept. It checks the word's length, whether it is ASCII or digits, four exclusion categories, pattern groups, honorific and modal suffixes, and finally the part of speech.
3. Windows of 3, 5 and 10 words are slid over the word list. Each pair of words inside a window adds `1/window` to a counter keyed by the sorted pair.
4. Per-document statistics are computed.
5. The documents with non-blank text are summed into corpus counters.
6. The `network_top_n` heaviest pairs become a weighted undirected graph, and the words used at least `min_frequency` times become the word cloud's input.

Modules, in dependency order:

- `Collections`: `Option` and the distinct elements of a sequence.
- `Text`: the Python `str` operations the core uses: `isascii`, `isdigit`, `strip`, `endswith`, `split(',')`, and string order.
- `Dictionaries`: the exclusion word sets and suffix lists, bundled as a `Lexicon`. The miner's own lexicon is `Standard`.
- `Settings`: the configuration and its defaults.
- `Classifier`: `_is_meaningful_word_enhanced`.
- `Tokenizer`: `enhanced_tokenize`. The analyser's output arrives as records of a surface and a feature string.
- `Cooccurrence`: the window loops of `extract_enhanced_features`. They are proved equal to an independent reference, in which every index pair adds an amount that depends only on its distance.
- `Features`: the per-document statistics.
- `Corpus`: the accumulation loop of `process_files`.
- `Network`: `Counter.most_common` followed by `add_edge`.
- `WordCloud`: the `min_frequency` filter.
- `Pipeline`: the whole modelled run.

Word counters (`Counter(words)`) are multisets. Pair counters are maps from sorted pairs to exact reals, and a missing key counts 0.

## Model

| member | source | states |
|---|---|---|
| Dictionaries.StandardLexicon | objective_text_miner.py:61-169 | Every title suffix checked with `endswith` is also a word of the honorific category and of the strict honorific pattern group, which the classifier defines at lines 333 and 361. |
| Settings.DefaultValues | objective_text_miner.py:230-253 | The built-in configuration: minimum word length 2, minimum frequency 3, 40 network edges, verb normalisation on, and all three filtering switches on. |
| Classifier.Classify | objective_text_miner.py:304-415 | A kept token passes the basic check. It is in none of the functional, honorific or pattern sets, by surface or base form. It ends with no honorific or modal suffix. Its major category is noun, verb, adjective or adverb. An adverb is kept only with strict filtering off. |
| Classifier.BasicCheckFirst | objective_text_miner.py:308-311 | A surface that is too short, all ASCII (including empty) or all digits is rejected by the first check, whatever the part of speech, the switches or the dictionaries. |
| Classifier.LengthBoundary | objective_text_miner.py:308 | The minimum length is inclusive. A surface of exactly that length passes the length check; one code point shorter fails it. |
| Classifier.InferenceSwitchOff | objective_text_miner.py:314-316 | With the inference/emotion switch off, the verdict equals the verdict with the switch on and that set empty. |
| Classifier.StructuralSwitchOff | objective_text_miner.py:318-320 | With the structural switch off, the verdict equals the verdict with the switch on and that set empty. |
| Classifier.ExcludedWordsDropped | objective_text_miner.py:314-328 | With both switches on, no token whose surface or base form is in the union of the four categories is kept. |
| Classifier.VerbFunctionalCheckRedundant | objective_text_miner.py:393-396 | A token that passed every dictionary check, including the functional check at line 323, never has a functional base form, so the verb rule's own test cannot fail. |
| Classifier.VerbRule | objective_text_miner.py:393-398 | A verb that reaches the part-of-speech stage is kept if and only if its first minor category is 自立. |
| Classifier.AdverbRule | objective_text_miner.py:407-412 | With strict filtering on, no adverb is kept. An adverb that reaches the part-of-speech stage is kept if and only if strict filtering is off, because the common-adverb check at line 412 was already applied at lines 356-358. |
| Classifier.AdjectiveRule | objective_text_miner.py:400-405 | An independent adjective at the part-of-speech stage is dropped if and only if its base form is a generic adjective. A dependent adjective is always dropped. |
| Classifier.NounRule | objective_text_miner.py:373-391 | The noun rules case by case. General and サ変接続 nouns are kept. A proper noun is kept if and only if it is neither a short all-Katakana name nor ends with an organisation suffix. Pronouns and numerals are dropped. Counter, suffix and dependent nouns are dropped. Any other noun is kept if and only if its surface has at least two code points. |
| Classifier.TitleSuffixNeverKept | objective_text_miner.py:361-364 | With the miner's dictionaries, a surface ending in any title suffix (さん, 様, …) is never kept. |
| Tokenizer.ToToken | objective_text_miner.py:268-296 | A record is skipped if and only if its backend's loop skips it. For MeCab that is an empty surface or fewer than 4 feature fields. For Janome it is fewer than 2 fields. Otherwise the token keeps the surface and reads the part of speech from fields 0-2, with field 2 empty when Janome gives only two fields. Its base form is field 6 when there are more than 6 fields and field 6 is not the placeholder `*`, and the surface otherwise. |
| Tokenizer.Tokenize | objective_text_miner.py:260-302 | The word list is no longer than the record list. No word is a function word or an honorific, whichever form is written out. |
| Tokenizer.KeptIndices | objective_text_miner.py:267-284 | The kept positions are in range and strictly increasing, so the words come out in the order of the text. |
| Tokenizer.KeptIndicesExact | objective_text_miner.py:267-284 | A position is listed if and only if its record is kept. |
| Tokenizer.TokenizeIsKeptImage | objective_text_miner.py:260-302 | The words are, in order, the emitted forms of exactly the kept records: an order-preserving selection of the records, each mapped to its word. |
| Tokenizer.EmittedWordFacts | objective_text_miner.py:276-282 | A kept record's word is its base form or its surface. It is the surface unless the token is a verb and normalisation is on, and the base form when it is. The surface passed the basic check. |
| Tokenizer.MeCabFields | objective_text_miner.py:268-276 | For a feature string made of IPA fields, the part of speech comes from fields 0 to 2. The base form is field 6, or the surface when field 6 is `*`. |
| Tokenizer.JanomeFourFields | objective_text_miner.py:288-296 | A four-field Janome part-of-speech string gives a base form equal to the surface, so verb normalisation never changes a Janome word. |
| Tokenizer.NormalisedVerbMayBeShort | objective_text_miner.py:279-281 | The length check reads only the surface. With a minimum of 3, the MeCab record of 歩きゃ (contracted conditional of 歩く, one token) is kept and written out as 歩く, which is shorter than the minimum. |
| Tokenizer.RepeatedNounScenario | objective_text_miner.py:260-302 | For テストです。これはテストです。 as MeCab analyses it, only テスト survives, and it occurs twice. |
| Text.Strip | objective_text_miner.py:1019 | The stripped text is empty if and only if every code point is white space, and it starts and ends with a code point that is not white space. |
| Text.StripIsSlice | objective_text_miner.py:1019 | The stripped text is a slice of the input with only white space before and after it, so exactly the leading and trailing white space is removed. |
| Text.SplitJoin | objective_text_miner.py:270 | Splitting the comma-join of comma-free fields gives the fields back. |
| Text.JoinSplit | objective_text_miner.py:270 | Joining the split fields with commas gives the original string back. |
| Cooccurrence.Canon | objective_text_miner.py:444 | The key is the two words, smaller first in Python's string order. |
| Cooccurrence.CanonSymmetric | objective_text_miner.py:444 | (a, b) and (b, a) give the same key. |
| Cooccurrence.AddWindow | objective_text_miner.py:439-445 | One window's pass over every first index adds that window's share to every key's weight, so after it each weight equals the partial reference sum over the windows done so far. Stored weights stay positive. |
| Cooccurrence.AddRow | objective_text_miner.py:442-445 | The loop over second indices j, for i < j < min(i + window, number of words), adds 1 / window to the canonical key of each pair, so afterwards every key's weight also counts first index i of this window. Stored weights stay positive. |
| Cooccurrence.ExtractPairs | objective_text_miner.py:435-445 | After the three window loops, every key's weight equals the reference weight: the sum over index pairs i < j forming the key of an amount that depends only on j − i. Every stored weight is positive. |
| Cooccurrence.ContributionByWindows | objective_text_miner.py:438-443 | What an index pair at distance d adds is the sum of 1/w over the windows w with d < w. That is 1/3+1/5+1/10 up to distance 2, 1/5+1/10 at 3 or 4, 1/10 from 5 to 9, and nothing from 10. |
| Cooccurrence.WeightSupport | objective_text_miner.py:440-445 | Weights are never negative. A weight is positive if and only if the pair occurs within distance 9. |
| Cooccurrence.WeightedKeysAreCanonical | objective_text_miner.py:444 | Every key with weight is sorted, and both its words occur in the document. |
| Cooccurrence.NoMirroredKeys | objective_text_miner.py:444 | A counter of sorted keys never holds both (a, b) and (b, a) for a ≠ b. |
| Cooccurrence.FewWordsNoPairs | objective_text_miner.py:442-443 | Fewer than two words give no pair. |
| Cooccurrence.AdjacentPairWeight | objective_text_miner.py:438-445 | Two adjacent words get 1/3+1/5+1/10. |
| Cooccurrence.ExtractedKeys | objective_text_miner.py:435-445 | The stored keys are exactly the pairs occurring within distance 9. They are sorted, they consist of document words, and there are none for fewer than two words. |
| Collections.ElementsExact | objective_text_miner.py:428 | The number of distinct words equals the number of words if and only if no word repeats. |
| Features.TypeTokenRatioBounds | objective_text_miner.py:432 | The ratio lies in [0, 1]. It is 0 if and only if there are no words, and 1 if and only if there are words and none repeats. |
| Features.ExtractFeatures | objective_text_miner.py:417-456 | The words are the tokenizer's output. The pairs agree with the reference weight and are positive. The character count, word count, distinct count (no more than the word count), ratio (distinct count over word count, 0 for no words, within [0, 1]) and word frequencies are all stated, with the frequencies summing to the word count. `Features.Describes` bundles these fields, and the method ensures it. |
| Corpus.AddCounts | objective_text_miner.py:1022 | `Counter.update` adds key-wise. The keys of the result are the union of the keys. |
| Corpus.AddDocument | objective_text_miner.py:1019-1023 | One loop iteration keeps the accumulated state in step with the documents analysed so far. Each stored record is the full feature record of its document: words, pairs, character, word and distinct counts, ratio and frequencies (`Features.Describes`). The pair counter is the summed reference weight. A blank document changes nothing. |
| Corpus.Accumulate | objective_text_miner.py:1012-1030 | After the loop there is one feature record per non-blank document, in order. Each record is that document's full feature record: every field, as `Features.Describes` states. The pair counter is the key-wise sum of their reference weights, with positive values. |
| Corpus.ProcessCorpus | objective_text_miner.py:999-1047 | There is no result if and only if every document is blank. Otherwise the result holds, in order, the full feature record of each analysed document (every field, as `Features.Describes` states), the summed pair weights with positive values, and the summed word frequencies. |
| Corpus.NoneAnalysed | objective_text_miner.py:1032-1034 | No document is analysed if and only if every text is blank. |
| Corpus.BlankDocumentIgnored | objective_text_miner.py:1019 | Adding a blank document does not change any corpus weight. |
| Corpus.AnalysedDocumentsAppend | objective_text_miner.py:1012-1023 | The analysed documents of two batches are those of the first followed by those of the second. |
| Corpus.CorpusWeightAdditive | objective_text_miner.py:1022 | The corpus weight of two batches is the sum of their corpus weights. |
| Corpus.WordsOfFeatures | objective_text_miner.py:1045-1047 | The summed word frequencies are the multiset of all analysed documents' words. |
| Corpus.CorpusKeysCanonical | objective_text_miner.py:1022 | Every key of the corpus pair counter is sorted. |
| Network.Heaviest | objective_text_miner.py:633 | The chosen key is a candidate, and no candidate is heavier. |
| Network.MostCommon | objective_text_miner.py:633 | The result has min(max(n, 0), size) entries with distinct keys. Each entry carries its counter weight. The entries are heaviest first, and none is lighter than a key left out. |
| Network.BuildGraph | objective_text_miner.py:635-637 | After one `add_edge` per selected entry, the last entry's sorted pair is an edge carrying that entry's weight, since a later `add_edge` overwrites an earlier one. |
| Network.GraphHoldsEntries | objective_text_miner.py:635-637 | Every selected entry's sorted pair is an edge of the graph, and both its words are nodes. |
| Network.GraphOfSelection | objective_text_miner.py:633-637 | For a `most_common` selection from a counter with sorted keys, the graph has exactly min(n, counter size) edges, all counter keys. Each carries its counter weight, and none is lighter than a pair left out. |
| Network.AddEdge | objective_text_miner.py:636-637 | Both endpoints become nodes. The edge between them, in either direction, gets the new weight, and the other edges are unchanged. |
| Network.GraphNodes | objective_text_miner.py:635-637 | The graph's nodes are exactly the endpoints of its edges. |
| Network.GraphEdgeKeys | objective_text_miner.py:635-637 | For sorted keys, the edges are exactly the selected pairs. |
| Network.GraphEdgeCount | objective_text_miner.py:635-637 | For distinct sorted keys, there is one edge per selected entry. |
| Network.GraphEdgeWeights | objective_text_miner.py:635-637 | For distinct sorted keys, every selected entry's edge carries that entry's weight. |
| Network.BuildNetwork | objective_text_miner.py:631-640 | The early exit happens if and only if `network_top_n` ≤ 0 or the counter is empty. For a counter of sorted keys, the graph has min(n, size) ≤ n edges, each carrying its counter weight and none lighter than a pair left out, and its nodes are the edges' endpoints. |
| Network.HeavierPairDrawn | objective_text_miner.py:633-637 | With pairs weighted 5 and 1 and n = 1, only the heavier pair and its two words are drawn. |
| Network.DrawHeavierPair | objective_text_miner.py:633-637 | Building the network from pairs weighted 5 and 1 with n = 1 draws a graph whose only edge is the heavier pair, with just its two words as nodes. |
| WordCloud.FrequentWords | objective_text_miner.py:694-695 | A word is kept if and only if it occurs at least `min_frequency` times (and at least once). Its count is unchanged. |
| WordCloud.CloudInput | objective_text_miner.py:691-698 | There is no cloud if and only if every word is below the threshold. |
| WordCloud.ThresholdMonotone | objective_text_miner.py:694-695 | Raising the threshold never adds a word, and a word that stays keeps its count. |
| WordCloud.LowThresholdKeepsAll | objective_text_miner.py:694-695 | A threshold of at most 1 keeps every word that occurs. |
| WordCloud.CloudOfWords | objective_text_miner.py:694-695 | On a word list, a word is kept if and only if it occurs at least `min_frequency` times. Its count is the number of positions holding it. |
| Pipeline.Analyse | objective_text_miner.py:1012-1050 | The run stops early if and only if every document is blank. Otherwise the corpus is as `Corpus.ProcessCorpus` states: the feature records, the pair counter equal to the corpus weight at every key, and the word frequencies. The network exits early if and only if `network_top_n` ≤ 0 or no pair was found. If drawn, it has exactly min(`network_top_n`, number of pairs) edges, each with its corpus weight and none lighter than a pair left out. The cloud is absent if and only if no word is used `min_frequency` times. Otherwise it holds exactly the words used at least `min_frequency` times across the analysed documents, each with its number of uses. |

## Left out

- The MeCab and Janome calls and backend probing (`_setup_mecab`, lines 178-228). The analyser's output is an input: one record per node or token, and the backend is a parameter.
- `str.isdigit` beyond ASCII and full-width digits. Other Unicode decimal and digit characters (superscripts, other scripts) count as non-digits here.
- Python floating point. Pair weights and the type-token ratio are exact reals, so rounding in `1.0 / window` and in the sums is not modelled.
- `avg_word_length` (line 429), which uses `np.mean`, and every `print`.
- Network.MostCommon: which of several equally heavy pairs `most_common` picks is left open, because it is library behaviour. The contract states only the count, the weights, the order and the dominance.
- Network.BuildNetwork: the edge facts are stated for counters whose keys are all sorted. The corpus counter always is, by Corpus.CorpusKeysCanonical. An arbitrary counter holding both (a, b) and (b, a) would merge them into one edge.
- Tokenizer.NormalisedVerbMayBeShort, Tokenizer.RepeatedNounScenario: each is stated for any dictionaries that let its content word through the dictionary checks, not for `Standard` itself. Deciding non-membership in the miner's large literal sets is not part of these proofs.
- Layout selection, centrality, and all drawing (network, word cloud, dashboard), because they are rendering and numerical library code.
- Topic modelling (TF-IDF, LDA, coherence), the reports and email, because they are outside the filtering and counting core.
- Reading the configuration file, listing and reading source files, moving files to the archive, and the per-file exception handler (lines 1003-1030). A document is given as its text plus its analyser records.
- The options `topic_num`, `cluster_num`, `min_word_importance` and `enable_semantic_filtering`, and the e-mail settings. The core does not read them, except `enable_semantic_filtering`, which only guards a `print`.

## Notes

- Janome's `part_of_speech` string has four fields. The base form (field 6) is therefore always the surface for Janome, and verb normalisation changes nothing for that backend (`Tokenizer.JanomeFourFields`).
- The length check reads only the surface, so a normalised verb may be written out as a base form shorter than the minimum (`Tokenizer.NormalisedVerbMayBeShort`).
