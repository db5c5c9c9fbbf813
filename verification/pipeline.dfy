/**
 `process_files` up to its drawings: the corpus is accumulated, then the
 network is built from the corpus pair counter and the word cloud's input
 from the corpus word frequencies. Topic modelling, the dashboard and the
 report come after this and are outside the model.
 */
module Pipeline {
  import opened Collections
  import opened Text
  import opened Dictionaries
  import opened Settings
  import opened Tokenizer
  import opened Cooccurrence
  import opened Features
  import opened Corpus
  import opened Network
  import opened WordCloud

  /** What the drawing steps receive: the corpus, the network (if any) and the cloud's words (if any). */
  datatype Analysis = Analysis(
    corpus: CorpusResult,
    network: Option<Graph>,
    cloud: Option<map<string, nat>>)

  /** The whole modelled run. No analysis when every document is blank; otherwise the corpus is
      the one `ProcessCorpus` describes (one feature record per analysed document, the summed
      pair weights, the summed word frequencies), the network
      holds `min(network_top_n, pairs)` of the corpus pairs, each with its corpus weight and none
      lighter than a pair left out; the cloud is
      absent when no word is frequent enough and otherwise holds exactly the words used at least
      `min_frequency` times across the analysed documents, each with its number of uses. */
  method Analyse(docs: seq<Document>, backend: Backend, cfg: Config, lex: Lexicon)
    returns (out: Option<Analysis>)
    ensures out.None? <==> forall n :: 0 <= n < |docs| ==> IsBlank(docs[n].text)
    ensures out.Some? ==> forall k :: Get(out.value.corpus.pairs, k) == CorpusWeight(docs, backend, cfg, lex, k)
    ensures out.Some? ==> forall k :: k in out.value.corpus.pairs ==> out.value.corpus.pairs[k] > 0.0
    ensures out.Some? ==> |out.value.corpus.documents| == |AnalysedDocuments(docs)|
    ensures out.Some? ==> forall n :: 0 <= n < |AnalysedDocuments(docs)| ==>
      Describes(out.value.corpus.documents[n], AnalysedDocuments(docs)[n].text, AnalysedDocuments(docs)[n].records, backend, cfg, lex)
    ensures out.Some? ==>
      out.value.corpus.wordFrequency == multiset(DocumentsWords(AnalysedDocuments(docs), backend, cfg, lex))
    ensures out.Some? ==> (out.value.network.None? <==> cfg.networkTopN <= 0 || |out.value.corpus.pairs| == 0)
    ensures out.Some? && out.value.network.Some? ==>
      |out.value.network.value.edges| == TopCount(cfg.networkTopN, |out.value.corpus.pairs|) <= cfg.networkTopN
    ensures out.Some? && out.value.network.Some? ==>
      var g := out.value.network.value;
      forall k :: k in g.edges ==> k in out.value.corpus.pairs && g.edges[k] == CorpusWeight(docs, backend, cfg, lex, k)
    ensures out.Some? && out.value.network.Some? ==>
      var g := out.value.network.value;
      forall k, k' :: k in g.edges && k' in out.value.corpus.pairs && k' !in g.edges ==>
        CorpusWeight(docs, backend, cfg, lex, k) >= CorpusWeight(docs, backend, cfg, lex, k')
    ensures out.Some? && out.value.network.Some? ==> NodesAreEndpoints(out.value.network.value)
    ensures out.Some? ==>
      var freq := multiset(DocumentsWords(AnalysedDocuments(docs), backend, cfg, lex));
      out.value.cloud.None? <==> forall w :: w in freq ==> freq[w] < cfg.minFrequency
    ensures out.Some? && out.value.cloud.Some? ==>
      var freq := multiset(DocumentsWords(AnalysedDocuments(docs), backend, cfg, lex));
      forall w :: (w in out.value.cloud.value <==> freq[w] > 0 && freq[w] >= cfg.minFrequency)
               && (w in out.value.cloud.value ==> out.value.cloud.value[w] == freq[w])
  {
    var corpus := ProcessCorpus(docs, backend, cfg, lex);
    if corpus.None? {
      return None;
    }
    var c := corpus.value;
    CorpusKeysCanonical(docs, backend, cfg, lex, c.pairs);
    var network := BuildNetwork(c.pairs, cfg.networkTopN);
    if network.Some? {
      var g := network.value;
      forall k | k in g.edges ensures g.edges[k] == CorpusWeight(docs, backend, cfg, lex, k) {
        assert Get(c.pairs, k) == c.pairs[k];
      }
      forall k, k' | k in g.edges && k' in c.pairs && k' !in g.edges
        ensures CorpusWeight(docs, backend, cfg, lex, k) >= CorpusWeight(docs, backend, cfg, lex, k')
      {
        assert Get(c.pairs, k) == c.pairs[k] && Get(c.pairs, k') == c.pairs[k'];
      }
    }
    var cloud := CloudInput(c.wordFrequency, cfg.minFrequency);
    return Some(Analysis(c, network, cloud));
  }
}
