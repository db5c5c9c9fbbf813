/**
 The word-cloud frequency filter: of the corpus word counts, only the words
 counted at least `min_frequency` times are drawn, with their counts
 unchanged; when none is left there is no cloud.
 */
module WordCloud {
  import opened Collections

  /** The `filtered_freq` dictionary: the words of `freq` counted at least `minFrequency` times. */
  function FrequentWords(freq: multiset<string>, minFrequency: int): (m: map<string, nat>)
    ensures forall w :: w in m <==> freq[w] > 0 && freq[w] >= minFrequency
    ensures forall w :: w in m ==> m[w] == freq[w]
  {
    map w | w in freq && freq[w] >= minFrequency :: freq[w]
  }

  /** The cloud's input, or `None` when no word is frequent enough. */
  function CloudInput(freq: multiset<string>, minFrequency: int): (r: Option<map<string, nat>>)
    ensures r.None? <==> forall w :: w in freq ==> freq[w] < minFrequency
    ensures r.Some? ==> r.value == FrequentWords(freq, minFrequency) && |r.value| > 0
  {
    var m := FrequentWords(freq, minFrequency);
    if |m| == 0 then
      assert m == map[];
      None
    else
      assert exists w :: w in m by {
        var w :| w in m.Keys;
      }
      Some(m)
  }

  /** Raising the threshold never adds a word, and a word that stays keeps its count. */
  lemma ThresholdMonotone(freq: multiset<string>, low: int, high: int)
    requires low <= high
    ensures FrequentWords(freq, high).Keys <= FrequentWords(freq, low).Keys
    ensures forall w :: w in FrequentWords(freq, high) ==> FrequentWords(freq, high)[w] == FrequentWords(freq, low)[w]
  {
  }

  /** A threshold of at most one keeps every word that occurs. */
  lemma LowThresholdKeepsAll(freq: multiset<string>, minFrequency: int)
    requires minFrequency <= 1
    ensures FrequentWords(freq, minFrequency).Keys == set w | w in freq
  {
  }

  /** On the corpus word list: a word is drawn exactly when it appears at least `minFrequency`
      times in the concatenated word lists, and it is drawn with that number of occurrences. */
  lemma CloudOfWords(words: seq<string>, minFrequency: int, w: string)
    requires minFrequency > 0
    ensures w in FrequentWords(multiset(words), minFrequency) <==> multiset(words)[w] >= minFrequency
    ensures w in FrequentWords(multiset(words), minFrequency) ==>
      FrequentWords(multiset(words), minFrequency)[w] == |set i | 0 <= i < |words| && words[i] == w|
  {
    if w in FrequentWords(multiset(words), minFrequency) {
      OccurrenceCount(words, w);
    }
  }

  /** How often `w` occurs in `words` is the number of positions holding it. */
  lemma {:induction false} OccurrenceCount(words: seq<string>, w: string)
    ensures multiset(words)[w] == |set i | 0 <= i < |words| && words[i] == w|
  {
    if |words| > 0 {
      var m := |words| - 1;
      var prefix := words[..m];
      OccurrenceCount(prefix, w);
      assert words == prefix + [words[m]];
      var before := set i | 0 <= i < m && prefix[i] == w;
      var after := set i | 0 <= i < |words| && words[i] == w;
      if words[m] == w {
        assert after == before + {m};
      } else {
        assert after == before;
      }
    }
  }
}
