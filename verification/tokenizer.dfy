/**
 The document tokenizer: turns the analyser's output for one document into
 the ordered list of kept words. The analyser itself (MeCab or Janome) is
 outside the model; its output arrives as a sequence of records, each a
 surface string and the comma-separated feature string the backend reports.
 */
module Tokenizer {
  import opened Collections
  import opened Text
  import opened Dictionaries
  import opened Settings
  import opened Classifier

  /** Which analyser produced the records; the field layout checks differ. */
  datatype Backend = MeCab | Janome

  /** One analyser unit: its surface and its comma-separated feature string. */
  datatype Record = Record(surface: string, features: string)

  /** The placeholder an analyser writes for an unknown field. */
  const Unknown := "*"

  /** The base form: field 6 when there is one and it is not the placeholder, else the surface. */
  function BaseForm(surface: string, fields: seq<string>): string
  {
    if |fields| > 6 && fields[6] != Unknown then fields[6] else surface
  }

  /** The token a record describes, or `None` when the backend's loop skips the record. */
  function ToToken(r: Record, backend: Backend): (t: Option<Token>)
    ensures var fields := Split(r.features, ',');
      t.None? <==> match backend
                   case MeCab => |r.surface| == 0 || |fields| < 4
                   case Janome => |fields| < 2
    ensures var fields := Split(r.features, ',');
      t.Some? ==>
        && t.value.surface == r.surface
        && t.value.posMajor == fields[0] && t.value.posMinor1 == fields[1]
        && t.value.posMinor2 == (if |fields| > 2 then fields[2] else "")
        && t.value.baseForm == (if |fields| > 6 && fields[6] != Unknown then fields[6] else r.surface)
  {
    var fields := Split(r.features, ',');
    match backend
    case MeCab =>
      if |r.surface| == 0 || |fields| < 4 then None
      else Some(Token(r.surface, BaseForm(r.surface, fields), fields[0], fields[1], fields[2]))
    case Janome =>
      if |fields| < 2 then None
      else Some(Token(r.surface, BaseForm(r.surface, fields), fields[0], fields[1],
                      if |fields| > 2 then fields[2] else ""))
  }

  /** The form written out for a kept token: the base form of a verb when verbs are normalised. */
  function Emitted(t: Token, cfg: Config): string
  {
    if t.posMajor == Verb && cfg.enableVerbNormalization then t.baseForm else t.surface
  }

  /** The record yields a token and the classifier keeps it. */
  predicate Kept(r: Record, backend: Backend, cfg: Config, lex: Lexicon)
  {
    ToToken(r, backend).Some? && IsMeaningful(ToToken(r, backend).value, cfg, lex)
  }

  /** The word a kept record contributes. */
  function Word(r: Record, backend: Backend, cfg: Config): string
    requires ToToken(r, backend).Some?
  {
    Emitted(ToToken(r, backend).value, cfg)
  }

  /** `enhanced_tokenize`: the kept records' words, in document order. */
  function Tokenize(records: seq<Record>, backend: Backend, cfg: Config, lex: Lexicon): (words: seq<string>)
    ensures |words| <= |records|
    ensures forall k :: 0 <= k < |words| ==> words[k] !in lex.functional && words[k] !in lex.honorific
  {
    if |records| == 0 then []
    else
      var words := Tokenize(records[..|records| - 1], backend, cfg, lex);
      var r := records[|records| - 1];
      if Kept(r, backend, cfg, lex) then words + [Word(r, backend, cfg)] else words
  }

  /** The positions of the kept records, in increasing order. */
  function KeptIndices(records: seq<Record>, backend: Backend, cfg: Config, lex: Lexicon): (idx: seq<nat>)
    ensures forall k :: 0 <= k < |idx| ==> idx[k] < |records|
    ensures forall k, l :: 0 <= k < l < |idx| ==> idx[k] < idx[l]
  {
    if |records| == 0 then []
    else
      var n := |records| - 1;
      var idx := KeptIndices(records[..n], backend, cfg, lex);
      if Kept(records[n], backend, cfg, lex) then idx + [n] else idx
  }

  /** A position is listed exactly when its record is kept. */
  lemma {:induction false} KeptIndicesExact(records: seq<Record>, backend: Backend, cfg: Config, lex: Lexicon)
    ensures forall i :: 0 <= i < |records| ==>
      (i in KeptIndices(records, backend, cfg, lex) <==> Kept(records[i], backend, cfg, lex))
  {
    if |records| > 0 {
      var n := |records| - 1;
      var prefix := records[..n];
      KeptIndicesExact(prefix, backend, cfg, lex);
      var idx := KeptIndices(prefix, backend, cfg, lex);
      forall i | 0 <= i < |records|
        ensures i in KeptIndices(records, backend, cfg, lex) <==> Kept(records[i], backend, cfg, lex)
      {
        if i < n {
          assert prefix[i] == records[i];
        } else {
          assert n !in idx;
        }
      }
    }
  }

  /** The tokenizer's output is the image of the kept records, in order: an order-preserving
      selection of the records, each mapped to its emitted form. */
  lemma {:induction false} TokenizeIsKeptImage(records: seq<Record>, backend: Backend, cfg: Config, lex: Lexicon)
    ensures var idx := KeptIndices(records, backend, cfg, lex);
      && |Tokenize(records, backend, cfg, lex)| == |idx|
      && forall k :: 0 <= k < |idx| ==>
           Kept(records[idx[k]], backend, cfg, lex)
           && Tokenize(records, backend, cfg, lex)[k] == Word(records[idx[k]], backend, cfg)
  {
    if |records| > 0 {
      var n := |records| - 1;
      var prefix := records[..n];
      TokenizeIsKeptImage(prefix, backend, cfg, lex);
      var words := Tokenize(prefix, backend, cfg, lex);
      var idx := KeptIndices(prefix, backend, cfg, lex);
      var kept := Kept(records[n], backend, cfg, lex);
      var words' := Tokenize(records, backend, cfg, lex);
      var idx' := KeptIndices(records, backend, cfg, lex);
      assert words' == if kept then words + [Word(records[n], backend, cfg)] else words;
      assert idx' == if kept then idx + [n] else idx;
      forall k | 0 <= k < |idx'|
        ensures Kept(records[idx'[k]], backend, cfg, lex) && words'[k] == Word(records[idx'[k]], backend, cfg)
      {
        if k < |idx| {
          assert idx'[k] == idx[k] && words'[k] == words[k];
          assert prefix[idx[k]] == records[idx[k]];
        }
      }
    }
  }

  /** Every word comes from a kept token: long enough, not ASCII or digits when it is a surface,
      and never a function word or honorific, whichever form is emitted. */
  lemma EmittedWordFacts(r: Record, backend: Backend, cfg: Config, lex: Lexicon)
    requires Kept(r, backend, cfg, lex)
    ensures var t := ToToken(r, backend).value;
      && t.surface == r.surface
      && (Word(r, backend, cfg) == t.baseForm || Word(r, backend, cfg) == r.surface)
      && (t.posMajor != Verb || !cfg.enableVerbNormalization ==> Word(r, backend, cfg) == r.surface)
      && (t.posMajor == Verb && cfg.enableVerbNormalization ==> Word(r, backend, cfg) == t.baseForm)
      && |r.surface| >= cfg.minWordLength && !IsAscii(r.surface) && !IsDigits(r.surface)
  {
  }

  /** A MeCab record whose feature string joins the IPA dictionary's fields reads the part of
      speech from fields 0 to 2 and the base form from field 6, unless it is the placeholder. */
  lemma MeCabFields(surface: string, fields: seq<string>)
    requires |surface| > 0 && |fields| >= 7
    requires forall i :: 0 <= i < |fields| ==> ',' !in fields[i]
    ensures var t := ToToken(Record(surface, Join(fields, ',')), MeCab);
      && t.Some?
      && t.value == Token(surface, if fields[6] == Unknown then surface else fields[6],
                          fields[0], fields[1], fields[2])
  {
    SplitJoin(fields, ',');
  }

  /** A Janome part-of-speech string has four fields, so its base form is always the surface and
      verb normalisation never changes the emitted word. */
  lemma JanomeFourFields(surface: string, fields: seq<string>, cfg: Config)
    requires |fields| == 4
    requires forall i :: 0 <= i < |fields| ==> ',' !in fields[i]
    ensures var t := ToToken(Record(surface, Join(fields, ',')), Janome);
      && t.Some?
      && t.value == Token(surface, surface, fields[0], fields[1], fields[2])
      && Emitted(t.value, cfg) == surface
  {
    SplitJoin(fields, ',');
  }

  /** The length check reads the surface only: with verb normalisation on, a kept verb may be
      written out as a base form shorter than the minimum word length. With a minimum of 3,
      MeCab reads 歩きゃ as one verb token in its contracted conditional form (仮定縮約１) with
      base form 歩く; any dictionaries that let it through keep it and write out 歩く. */
  lemma NormalisedVerbMayBeShort(lex: Lexicon)
    requires LexicalStage(Token("歩きゃ", "歩く", Verb, Independent, Unknown), Defaults.(minWordLength := 3), lex) == None
    ensures var r := IpaRecord("歩きゃ", ContractedFields);
      var cfg := Defaults.(minWordLength := 3);
      && Kept(r, MeCab, cfg, lex)
      && Word(r, MeCab, cfg) == "歩く"
      && |Word(r, MeCab, cfg)| < cfg.minWordLength
  {
    MeCabFields("歩きゃ", ContractedFields);
    assert ContractedFields[6] != Unknown;
  }

  /** A MeCab record built from the IPA dictionary's fields. */
  function IpaRecord(surface: string, fields: seq<string>): Record
    requires |fields| >= 1
  {
    Record(surface, Join(fields, ','))
  }

  // The IPA dictionary's fields for 歩きゃ, the contracted conditional of 歩く.
  const ContractedFields: seq<string> := ["動詞", "自立", "*", "*", "五段・カ行イ音便", "仮定縮約１", "歩く", "アルキャ", "アルキャ"]

  // The sentence テストです。これはテストです。 as MeCab analyses it with the IPA dictionary.
  const TestFields: seq<string> := ["名詞", "サ変接続", "*", "*", "*", "*", "テスト", "テスト", "テスト"]
  const DesuFields: seq<string> := ["助動詞", "*", "*", "*", "特殊・デス", "基本形", "です", "デス", "デス"]
  const PeriodFields: seq<string> := ["記号", "句点", "*", "*", "*", "*", "。", "。", "。"]
  const KoreFields: seq<string> := ["名詞", "代名詞", "一般", "*", "*", "*", "これ", "コレ", "コレ"]
  const WaFields: seq<string> := ["助詞", "係助詞", "*", "*", "*", "*", "は", "ハ", "ワ"]
  const Sentence: seq<Record> := [
    IpaRecord("テスト", TestFields), IpaRecord("です", DesuFields), IpaRecord("。", PeriodFields),
    IpaRecord("これ", KoreFields), IpaRecord("は", WaFields),
    IpaRecord("テスト", TestFields), IpaRecord("です", DesuFields), IpaRecord("。", PeriodFields)]

  /** The noun テスト is kept, for any dictionaries that let it through. */
  lemma TestRecordKept(lex: Lexicon)
    requires LexicalStage(Token("テスト", "テスト", Noun, VerbalNoun, Unknown), Defaults, lex) == None
    ensures Kept(IpaRecord("テスト", TestFields), MeCab, Defaults, lex)
    ensures Word(IpaRecord("テスト", TestFields), MeCab, Defaults) == "テスト"
  {
    MeCabFields("テスト", TestFields);
  }

  /** Appending a record appends its word exactly when the record is kept. */
  lemma TokenizeAppend(records: seq<Record>, r: Record, backend: Backend, cfg: Config, lex: Lexicon)
    ensures Tokenize(records + [r], backend, cfg, lex)
         == Tokenize(records, backend, cfg, lex) + (if Kept(r, backend, cfg, lex) then [Word(r, backend, cfg)] else [])
  {
    assert (records + [r])[..|records|] == records;
  }

  /** A record whose major category is not noun, verb, adjective or adverb is never kept. */
  lemma NonContentRecordDropped(surface: string, fields: seq<string>, cfg: Config, lex: Lexicon)
    requires |surface| > 0 && |fields| >= 7
    requires forall i :: 0 <= i < |fields| ==> ',' !in fields[i]
    requires fields[0] !in {Noun, Verb, Adjective, Adverb} || (fields[0] == Noun && fields[1] == Pronoun)
    ensures !Kept(IpaRecord(surface, fields), MeCab, cfg, lex)
  {
    MeCabFields(surface, fields);
  }

  /** The auxiliary です is dropped by any dictionaries. */
  lemma DesuDropped(cfg: Config, lex: Lexicon)
    ensures !Kept(IpaRecord("です", DesuFields), MeCab, cfg, lex)
  {
    NonContentRecordDropped("です", DesuFields, cfg, lex);
  }

  /** The period is dropped by any dictionaries. */
  lemma PeriodDropped(cfg: Config, lex: Lexicon)
    ensures !Kept(IpaRecord("。", PeriodFields), MeCab, cfg, lex)
  {
    NonContentRecordDropped("。", PeriodFields, cfg, lex);
  }

  /** The pronoun これ is dropped by any dictionaries. */
  lemma KoreDropped(cfg: Config, lex: Lexicon)
    ensures !Kept(IpaRecord("これ", KoreFields), MeCab, cfg, lex)
  {
    NonContentRecordDropped("これ", KoreFields, cfg, lex);
  }

  /** The particle は is dropped by any dictionaries. */
  lemma WaDropped(cfg: Config, lex: Lexicon)
    ensures !Kept(IpaRecord("は", WaFields), MeCab, cfg, lex)
  {
    NonContentRecordDropped("は", WaFields, cfg, lex);
  }

  /** Appending records that are all dropped leaves the words unchanged. */
  lemma {:induction false} TokenizeDropped(records: seq<Record>, extra: seq<Record>, backend: Backend, cfg: Config, lex: Lexicon)
    requires forall i :: 0 <= i < |extra| ==> !Kept(extra[i], backend, cfg, lex)
    ensures Tokenize(records + extra, backend, cfg, lex) == Tokenize(records, backend, cfg, lex)
  {
    if |extra| > 0 {
      var m := |extra| - 1;
      var init, last := extra[..m], extra[m];
      assert forall i :: 0 <= i < m ==> init[i] == extra[i];
      TokenizeDropped(records, init, backend, cfg, lex);
      assert records + extra == (records + init) + [last] by {
        assert extra == init + [last];
      }
      TokenizeAppend(records + init, last, backend, cfg, lex);
    } else {
      assert records + extra == records;
    }
  }

  /** A kept record followed only by dropped ones yields that record's word alone. */
  lemma KeptThenDropped(a: Record, rest: seq<Record>, backend: Backend, cfg: Config, lex: Lexicon)
    requires Kept(a, backend, cfg, lex)
    requires forall i :: 0 <= i < |rest| ==> !Kept(rest[i], backend, cfg, lex)
    ensures Tokenize([a] + rest, backend, cfg, lex) == [Word(a, backend, cfg)]
  {
    TokenizeAppend([], a, backend, cfg, lex);
    assert [] + [a] == [a];
    TokenizeDropped([a], rest, backend, cfg, lex);
  }

  /** One kept record followed by four dropped ones, then the kept one again and the first two
      dropped ones: the word comes out twice. */
  lemma KeptTwice(a: Record, b: Record, c: Record, d: Record, e: Record, backend: Backend, cfg: Config, lex: Lexicon)
    requires Kept(a, backend, cfg, lex)
    requires !Kept(b, backend, cfg, lex) && !Kept(c, backend, cfg, lex)
    requires !Kept(d, backend, cfg, lex) && !Kept(e, backend, cfg, lex)
    ensures Tokenize([a, b, c, d, e, a, b, c], backend, cfg, lex) == [Word(a, backend, cfg), Word(a, backend, cfg)]
  {
    var first := [a] + [b, c, d, e];
    KeptThenDropped(a, [b, c, d, e], backend, cfg, lex);
    TokenizeAppend(first, a, backend, cfg, lex);
    TokenizeDropped(first + [a], [b, c], backend, cfg, lex);
    assert first + [a] + [b, c] == [a, b, c, d, e, a, b, c];
  }

  /** Only the noun テスト is a content word, so the tokenizer yields it twice. */
  lemma RepeatedNounScenario(lex: Lexicon)
    requires LexicalStage(Token("テスト", "テスト", Noun, VerbalNoun, Unknown), Defaults, lex) == None
    ensures Tokenize(Sentence, MeCab, Defaults, lex) == ["テスト", "テスト"]
    ensures multiset(Tokenize(Sentence, MeCab, Defaults, lex))["テスト"] == 2
  {
    TestRecordKept(lex);
    DesuDropped(Defaults, lex);
    PeriodDropped(Defaults, lex);
    KoreDropped(Defaults, lex);
    WaDropped(Defaults, lex);
    KeptTwice(IpaRecord("テスト", TestFields), IpaRecord("です", DesuFields), IpaRecord("。", PeriodFields),
              IpaRecord("これ", KoreFields), IpaRecord("は", WaFields), MeCab, Defaults, lex);
    assert multiset(["テスト", "テスト"])["テスト"] == 2;
  }
}
