/**
 Corpus accumulation: every document whose text is not blank contributes its
 features; the corpus pair counter is the key-wise sum of the documents'
 pair counters and the corpus word frequencies are the sum of their word
 multisets. Reading, listing and moving files are outside the model: a
 document arrives as its text together with the analyser's records for it.
 */
module Corpus {
  import opened Collections
  import opened Text
  import opened Dictionaries
  import opened Settings
  import opened Tokenizer
  import opened Cooccurrence
  import opened Features

  /** One source document: its text and what the analyser reports for that text. */
  datatype Document = Document(text: string, records: seq<Record>)

  datatype CorpusResult = CorpusResult(
    documents: seq<DocumentFeatures>,
    pairs: map<Pair, real>,
    wordFrequency: multiset<string>)

  /** Some code point of the text is not white space, so `text.strip()` is non-empty
      and the document is analysed. */
  predicate Analysed(d: Document)
  {
    !IsBlank(d.text)
  }

  /** The analysed documents, in order. */
  function AnalysedDocuments(docs: seq<Document>): (r: seq<Document>)
    ensures |r| <= |docs|
    ensures forall n :: 0 <= n < |r| ==> Analysed(r[n])
  {
    if |docs| == 0 then []
    else
      var rest := AnalysedDocuments(docs[..|docs| - 1]);
      if Analysed(docs[|docs| - 1]) then rest + [docs[|docs| - 1]] else rest
  }

  /** The summed weight of `k` over documents. */
  function DocumentsWeight(docs: seq<Document>, backend: Backend, cfg: Config, lex: Lexicon, k: Pair): real
  {
    if |docs| == 0 then 0.0
    else DocumentsWeight(docs[..|docs| - 1], backend, cfg, lex, k)
         + Weight(Tokenize(docs[|docs| - 1].records, backend, cfg, lex), k)
  }

  /** All words of the documents, one document after the other. */
  function DocumentsWords(docs: seq<Document>, backend: Backend, cfg: Config, lex: Lexicon): seq<string>
  {
    if |docs| == 0 then []
    else DocumentsWords(docs[..|docs| - 1], backend, cfg, lex) + Tokenize(docs[|docs| - 1].records, backend, cfg, lex)
  }

  /** The weight of `k` in the corpus: summed over the analysed documents. */
  function CorpusWeight(docs: seq<Document>, backend: Backend, cfg: Config, lex: Lexicon, k: Pair): real
  {
    DocumentsWeight(AnalysedDocuments(docs), backend, cfg, lex, k)
  }

  /** `Counter.update` with another counter: key-wise sum. */
  function AddCounts(a: map<Pair, real>, b: map<Pair, real>): (r: map<Pair, real>)
    ensures forall k :: Get(r, k) == Get(a, k) + Get(b, k)
    ensures r.Keys == a.Keys + b.Keys
  {
    map k | k in a.Keys + b.Keys :: Get(a, k) + Get(b, k)
  }

  /** The loop's state matches the documents analysed so far. */
  ghost predicate Matches(
    features: seq<DocumentFeatures>, pairs: map<Pair, real>, analysed: seq<Document>,
    backend: Backend, cfg: Config, lex: Lexicon)
  {
    && |features| == |analysed|
    && (forall n :: 0 <= n < |features| ==>
          Describes(features[n], analysed[n].text, analysed[n].records, backend, cfg, lex))
    && (forall k :: Get(pairs, k) == DocumentsWeight(analysed, backend, cfg, lex, k))
    && (forall k :: k in pairs ==> pairs[k] > 0.0)
  }

  /** Appending one analysed document's features keeps the loop's state in step. */
  lemma MatchesExtend(
    features: seq<DocumentFeatures>, pairs: map<Pair, real>, analysed: seq<Document>,
    d: Document, f: DocumentFeatures, backend: Backend, cfg: Config, lex: Lexicon)
    requires Matches(features, pairs, analysed, backend, cfg, lex)
    requires Describes(f, d.text, d.records, backend, cfg, lex)
    ensures Matches(features + [f], AddCounts(pairs, f.pairs), analysed + [d], backend, cfg, lex)
  {
    var features', pairs', analysed' := features + [f], AddCounts(pairs, f.pairs), analysed + [d];
    forall n | 0 <= n < |features'|
      ensures Describes(features'[n], analysed'[n].text, analysed'[n].records, backend, cfg, lex)
    {
      if n < |features| {
        assert features'[n] == features[n] && analysed'[n] == analysed[n];
      }
    }
    forall k ensures Get(pairs', k) == DocumentsWeight(analysed', backend, cfg, lex, k) {
      assert analysed'[..|analysed|] == analysed;
    }
  }

  /** One iteration of `process_files`' loop: a document with text is analysed and its pairs
      are added to the counter; a blank one is skipped. */
  method AddDocument(
    features: seq<DocumentFeatures>, pairs: map<Pair, real>, ghost analysed: seq<Document>,
    d: Document, backend: Backend, cfg: Config, lex: Lexicon)
    returns (features': seq<DocumentFeatures>, pairs': map<Pair, real>)
    requires Matches(features, pairs, analysed, backend, cfg, lex)
    ensures Matches(features', pairs', analysed + (if Analysed(d) then [d] else []), backend, cfg, lex)
  {
    if |Strip(d.text)| > 0 {
      var f := ExtractFeatures(d.text, d.records, backend, cfg, lex);
      MatchesExtend(features, pairs, analysed, d, f, backend, cfg, lex);
      features' := features + [f];
      pairs' := AddCounts(pairs, f.pairs);
    } else {
      assert analysed + [] == analysed;
      features', pairs' := features, pairs;
    }
  }

  /** `process_files`' loop: the features of the analysed documents, in order, and the
      key-wise sum of their pair counters. */
  method Accumulate(docs: seq<Document>, backend: Backend, cfg: Config, lex: Lexicon)
    returns (features: seq<DocumentFeatures>, pairs: map<Pair, real>)
    ensures |features| == |AnalysedDocuments(docs)|
    ensures forall n :: 0 <= n < |features| ==>
      features[n].words == Tokenize(AnalysedDocuments(docs)[n].records, backend, cfg, lex)
      && features[n].wordFrequency == multiset(features[n].words)
    ensures forall n :: 0 <= n < |features| ==>
      Describes(features[n], AnalysedDocuments(docs)[n].text, AnalysedDocuments(docs)[n].records, backend, cfg, lex)
    ensures forall k :: Get(pairs, k) == CorpusWeight(docs, backend, cfg, lex, k)
    ensures forall k :: k in pairs ==> pairs[k] > 0.0
  {
    features := [];
    pairs := map[];
    var i := 0;
    while i < |docs|
      invariant 0 <= i <= |docs|
      invariant Matches(features, pairs, AnalysedDocuments(docs[..i]), backend, cfg, lex)
    {
      AnalysedStep(docs, i);
      features, pairs := AddDocument(features, pairs, AnalysedDocuments(docs[..i]), docs[i], backend, cfg, lex);
      i := i + 1;
    }
    assert docs[..|docs|] == docs;
  }

  /** `process_files` up to the analyses: no result when no document has text; otherwise the
      documents' features, the corpus pair counter and the corpus word frequencies. */
  method ProcessCorpus(docs: seq<Document>, backend: Backend, cfg: Config, lex: Lexicon)
    returns (result: Option<CorpusResult>)
    ensures result.None? <==> forall n :: 0 <= n < |docs| ==> IsBlank(docs[n].text)
    ensures result.Some? ==> |result.value.documents| == |AnalysedDocuments(docs)|
    ensures result.Some? ==> forall n :: 0 <= n < |AnalysedDocuments(docs)| ==>
      Describes(result.value.documents[n], AnalysedDocuments(docs)[n].text, AnalysedDocuments(docs)[n].records, backend, cfg, lex)
    ensures result.Some? ==> forall k :: Get(result.value.pairs, k) == CorpusWeight(docs, backend, cfg, lex, k)
    ensures result.Some? ==> forall k :: k in result.value.pairs ==> result.value.pairs[k] > 0.0
    ensures result.Some? ==>
      result.value.wordFrequency == multiset(DocumentsWords(AnalysedDocuments(docs), backend, cfg, lex))
  {
    var features, pairs := Accumulate(docs, backend, cfg, lex);
    NoneAnalysed(docs);
    if |features| == 0 {
      result := None;
    } else {
      var frequency := SumFrequencies(features);
      WordsOfFeatures(features, AnalysedDocuments(docs), backend, cfg, lex);
      result := Some(CorpusResult(features, pairs, frequency));
    }
  }

  /** One more document extends the analysed list by that document exactly when it has text. */
  lemma AnalysedStep(docs: seq<Document>, i: nat)
    requires i < |docs|
    ensures AnalysedDocuments(docs[..i + 1])
         == AnalysedDocuments(docs[..i]) + (if Analysed(docs[i]) then [docs[i]] else [])
  {
    assert docs[..i + 1][..i] == docs[..i];
  }

  /** Nothing is analysed exactly when every text is blank. */
  lemma {:induction false} NoneAnalysed(docs: seq<Document>)
    ensures AnalysedDocuments(docs) == [] <==> forall n :: 0 <= n < |docs| ==> IsBlank(docs[n].text)
  {
    if |docs| > 0 {
      var m := |docs| - 1;
      NoneAnalysed(docs[..m]);
      if AnalysedDocuments(docs) == [] {
        forall n | 0 <= n < |docs| ensures IsBlank(docs[n].text) {
          if n < m {
            assert docs[..m][n] == docs[n];
          }
        }
      }
      if forall n :: 0 <= n < |docs| ==> IsBlank(docs[n].text) {
        forall n | 0 <= n < m ensures IsBlank(docs[..m][n].text) {
          assert docs[..m][n] == docs[n];
        }
      }
    }
  }

  /** The corpus word frequencies: the sum of the documents' word multisets. */
  function SumFrequencies(features: seq<DocumentFeatures>): multiset<string>
  {
    if |features| == 0 then multiset{}
    else SumFrequencies(features[..|features| - 1]) + features[|features| - 1].wordFrequency
  }

  /** Summing the documents' frequencies counts every word of every analysed document. */
  lemma {:induction false} WordsOfFeatures(
    features: seq<DocumentFeatures>, docs: seq<Document>, backend: Backend, cfg: Config, lex: Lexicon)
    requires |features| == |docs|
    requires forall n :: 0 <= n < |docs| ==>
      features[n].words == Tokenize(docs[n].records, backend, cfg, lex)
      && features[n].wordFrequency == multiset(features[n].words)
    ensures SumFrequencies(features) == multiset(DocumentsWords(docs, backend, cfg, lex))
  {
    if |docs| > 0 {
      var m := |docs| - 1;
      WordsOfFeatures(features[..m], docs[..m], backend, cfg, lex);
    }
  }

  /** A blank document changes nothing in the corpus counter. */
  lemma BlankDocumentIgnored(docs: seq<Document>, d: Document, backend: Backend, cfg: Config, lex: Lexicon, k: Pair)
    requires IsBlank(d.text)
    ensures CorpusWeight(docs + [d], backend, cfg, lex, k) == CorpusWeight(docs, backend, cfg, lex, k)
  {
    assert (docs + [d])[..|docs|] == docs;
  }

  /** Filtering distributes over concatenation. */
  lemma {:induction false} AnalysedDocumentsAppend(a: seq<Document>, b: seq<Document>)
    ensures AnalysedDocuments(a + b) == AnalysedDocuments(a) + AnalysedDocuments(b)
    decreases |b|
  {
    if |b| == 0 {
      assert a + b == a;
    } else {
      var m := |b| - 1;
      var last := b[m];
      AnalysedDocumentsAppend(a, b[..m]);
      assert (a + b)[..|a + b| - 1] == a + b[..m];
      assert (a + b)[|a + b| - 1] == last;
      var tail := if Analysed(last) then [last] else [];
      assert AnalysedDocuments(a + b) == AnalysedDocuments(a + b[..m]) + tail;
      assert AnalysedDocuments(b) == AnalysedDocuments(b[..m]) + tail;
      assert AnalysedDocuments(a) + AnalysedDocuments(b[..m]) + tail
          == AnalysedDocuments(a) + (AnalysedDocuments(b[..m]) + tail);
    }
  }

  /** Summed weights distribute over concatenation. */
  lemma {:induction false} DocumentsWeightAppend(
    a: seq<Document>, b: seq<Document>, backend: Backend, cfg: Config, lex: Lexicon, k: Pair)
    ensures DocumentsWeight(a + b, backend, cfg, lex, k)
         == DocumentsWeight(a, backend, cfg, lex, k) + DocumentsWeight(b, backend, cfg, lex, k)
    decreases |b|
  {
    if |b| == 0 {
      assert a + b == a;
    } else {
      var m := |b| - 1;
      DocumentsWeightAppend(a, b[..m], backend, cfg, lex, k);
      assert (a + b)[..|a + b| - 1] == a + b[..m];
    }
  }

  /** Splitting a corpus in two and adding the two counters gives the whole corpus's counter,
      so the counter does not depend on how the documents are batched. */
  lemma CorpusWeightAdditive(
    a: seq<Document>, b: seq<Document>, backend: Backend, cfg: Config, lex: Lexicon, k: Pair)
    ensures CorpusWeight(a + b, backend, cfg, lex, k)
         == CorpusWeight(a, backend, cfg, lex, k) + CorpusWeight(b, backend, cfg, lex, k)
  {
    AnalysedDocumentsAppend(a, b);
    DocumentsWeightAppend(AnalysedDocuments(a), AnalysedDocuments(b), backend, cfg, lex, k);
  }

  /** Summed weights are never negative. */
  lemma {:induction false} DocumentsWeightNonNegative(docs: seq<Document>, backend: Backend, cfg: Config, lex: Lexicon, k: Pair)
    ensures DocumentsWeight(docs, backend, cfg, lex, k) >= 0.0
  {
    if |docs| > 0 {
      DocumentsWeightNonNegative(docs[..|docs| - 1], backend, cfg, lex, k);
      WeightSupport(Tokenize(docs[|docs| - 1].records, backend, cfg, lex), k);
    }
  }

  /** A key with positive summed weight is sorted and both its words occur in some document. */
  lemma {:induction false} WeightedCorpusKey(docs: seq<Document>, backend: Backend, cfg: Config, lex: Lexicon, k: Pair)
    requires DocumentsWeight(docs, backend, cfg, lex, k) > 0.0
    ensures IsCanonical(k)
    ensures exists n :: 0 <= n < |docs| && Near(Tokenize(docs[n].records, backend, cfg, lex), k)
  {
    var m := |docs| - 1;
    var prefix := docs[..m];
    var words := Tokenize(docs[m].records, backend, cfg, lex);
    DocumentsWeightNonNegative(prefix, backend, cfg, lex, k);
    WeightSupport(words, k);
    if Weight(words, k) > 0.0 {
      WeightedKeysAreCanonical(words, k);
    } else {
      WeightedCorpusKey(prefix, backend, cfg, lex, k);
      var n :| 0 <= n < |prefix| && Near(Tokenize(prefix[n].records, backend, cfg, lex), k);
      assert prefix[n] == docs[n];
    }
  }

  /** Every key of the corpus pair counter is sorted, so the counter never holds a pair and its
      mirror image. */
  lemma CorpusKeysCanonical(docs: seq<Document>, backend: Backend, cfg: Config, lex: Lexicon, pairs: map<Pair, real>)
    requires forall k :: Get(pairs, k) == CorpusWeight(docs, backend, cfg, lex, k)
    requires forall k :: k in pairs ==> pairs[k] > 0.0
    ensures forall k :: k in pairs ==> IsCanonical(k)
  {
    forall k | k in pairs ensures IsCanonical(k) {
      assert Get(pairs, k) > 0.0;
      WeightedCorpusKey(AnalysedDocuments(docs), backend, cfg, lex, k);
    }
  }
}
