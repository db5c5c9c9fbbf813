/**
 The exclusion dictionaries the token classifier consults: four word
 categories, six auxiliary literal groups, two ordered suffix lists and the
 two small sets of the part-of-speech stage. They are data, bundled in one
 `Lexicon` value so that the classifier can be stated for any dictionary and
 then instantiated with the miner's own (`Standard`).
 */
module Dictionaries {

  /** The auxiliary literal groups checked after the four categories, in their order. */
  datatype Patterns = Patterns(
    honorificsStrict: set<string>,
    modalExpressions: set<string>,
    personNames: set<string>,
    symbols: set<string>,
    units: set<string>,
    commonAdverbs: set<string>)

  /** Every literal of every auxiliary group. */
  function AllPatterns(p: Patterns): set<string>
  {
    p.honorificsStrict + p.modalExpressions + p.personNames + p.symbols + p.units + p.commonAdverbs
  }

  datatype Lexicon = Lexicon(
    inferenceEmotion: set<string>,
    structural: set<string>,
    functional: set<string>,
    honorific: set<string>,
    patterns: Patterns,
    honorificSuffixes: seq<string>,
    modalSuffixes: seq<string>,
    organisationSuffixes: set<string>,
    genericAdjectives: set<string>)

  /** The union of the four categories, the miner's `all_excluded_words`. */
  function AllExcluded(lex: Lexicon): set<string>
  {
    lex.inferenceEmotion + lex.structural + lex.functional + lex.honorific
  }

  /** Inference, conjecture and emotion vocabulary: thinking and expecting verbs,
      conjectural and modal endings, emotion verbs and adjectives, evaluation nouns. */
  const InferenceEmotionWords: set<string> := {
    "おもう", "思う", "かんがえる", "考える", "しんじる", "信じる", "すいそく", "推測",
    "すいろん", "推論", "すいてい", "推定", "よそう", "予想", "きたい", "期待",
    "りかい", "理解", "しれる", "かもしれない", "だろう", "であろう", "かもしれません", "らしい",
    "ようだ", "ような", "ように", "よう", "みたい", "みたいな", "っぽい", "げ",
    "がち", "そう", "そうだ", "そうな", "かんじる", "感じる", "よろこぶ", "喜ぶ",
    "かなしむ", "悲しむ", "おこる", "怒る", "おどろく", "驚く", "しんぱい", "心配",
    "あんしん", "安心", "こうかい", "後悔", "まんぞく", "満足", "うれしい", "嬉しい",
    "かなしい", "悲しい", "たのしい", "楽しい", "つらい", "しんどい", "きもちい", "気持ちい",
    "いやだ", "嫌だ", "ひょうか", "評価", "はんだん", "判断", "いけん", "意見",
    "かんそう", "感想", "いんしょう", "印象", "かんてん", "観点"
  }

  /** Structural vocabulary: conjunctions and connectives, discourse-structure nouns,
      degree and frequency adverbs, deictic time and place words, polite auxiliaries.
      Several literals occur twice in the list and collapse in the set. */
  const StructuralWords: set<string> := {
    "しかし", "だが", "けれど", "けれども", "ところが", "でも", "そして", "それから",
    "つぎに", "次に", "さらに", "また", "だから", "それで", "ゆえに", "したがって",
    "そのため", "つまり", "すなわち", "ようするに", "要するに", "いいかえれば", "言い換えれば", "たとえば",
    "例えば", "ちなみに", "ところで", "さて", "ただし", "もっとも", "なお", "ちなみに",
    "いっぽう", "一方", "はじめに", "初めに", "つぎに", "次に", "さいごに", "最後に",
    "けっろん", "結論", "ようやく", "まとめ", "せつめい", "説明", "りゆう", "理由",
    "げんいん", "原因", "けっか", "結果", "もくてき", "目的", "ほうほう", "方法",
    "しゅだん", "手段", "とても", "かなり", "ずいぶん", "だいぶ", "わりと", "けっこう",
    "すこし", "少し", "ちょっと", "やや", "わずか", "ほんの", "たいへん", "大変",
    "ひじょう", "非常", "きわめて", "極めて", "いつも", "常に", "よく", "ときどき",
    "時々", "たまに", "ぜんぜん", "全然", "まったく", "全く", "けっして", "決して",
    "いま", "今", "きょう", "今日", "きのう", "昨日", "あした", "明日",
    "ここ", "そこ", "あそこ", "うえ", "上", "した", "下", "まえ",
    "前", "まわり", "周り", "あいだ", "間", "なか", "中", "そと",
    "外", "いらっしゃる", "くださる", "れる", "られる", "せる", "させる", "です",
    "ます", "であります", "ございます", "いたします"
  }

  /** Function words: light verbs, formal nouns, pronouns, overly common verbs and counters. */
  const FunctionalWords: set<string> := {
    "する", "ある", "いる", "なる", "くださる", "ください", "である", "だ",
    "です", "ます", "こと", "もの", "ところ", "ため", "わけ", "はず",
    "つもり", "ほう", "うち", "とき", "時", "ばあい", "場合", "とおり",
    "通り", "たび", "度", "さい", "際", "あいだ", "間", "まえ",
    "前", "あと", "後", "これ", "それ", "あれ", "この", "その",
    "あの", "ここ", "そこ", "あそこ", "どれ", "どの", "どこ", "だれ",
    "誰", "なに", "何", "いつ", "なぜ", "どう", "できる", "みる",
    "見る", "いく", "行く", "くる", "来る", "おく", "置く", "やる",
    "もつ", "持つ", "いう", "言う", "きく", "聞く", "かく", "書く",
    "よむ", "読む", "たべる", "食べる", "のむ", "飲む", "ねる", "寝る",
    "おきる", "起きる", "はたらく", "働く", "べんきょう", "勉強", "しごと", "仕事",
    "回", "度", "件", "個", "人", "名", "本", "冊",
    "枚", "台", "機", "社", "校", "日", "月", "年",
    "時間", "分", "秒", "つ", "か月", "ばん", "番"
  }

  /** Honorific titles and polite or humble verb forms. */
  const HonorificWords: set<string> := {
    "さん", "ちゃん", "くん", "様", "さま", "氏", "君", "さま",
    "はん", "いらっしゃる", "くださる", "れる", "られる", "せる", "させる", "です",
    "ます", "であります", "ございます", "いたします", "していただく", "させていただく", "おります", "いらっしゃいます",
    "いたす", "させていただく", "おうかがい", "お伺い", "おじゃま", "お邪魔", "うかがう", "伺う",
    "もうす", "申す", "もうしあげる", "申し上げる"
  }

  const StandardPatterns: Patterns := Patterns(
    honorificsStrict := {"さん", "ちゃん", "くん", "様", "さま", "氏", "君"},
    modalExpressions := {
      "よう", "ような", "ように", "ようだ", "ようで", "ようです",
      "みたい", "みたいな", "みたいに", "みたいだ", "みたいで",
      "っぽい", "っぽく", "っぽさ", "らしい", "らしく", "らしさ"
    },
    personNames := {"ジヒョ", "チェヨン", "ツウィ", "ナヨン", "モモ", "サナ", "ダヒョン", "ジョンヨン", "ミナ"},
    symbols := {"。", "、", "！", "？", ")", "(", "」", "「", "『", "』", "【", "】", "〈", "〉"},
    units := {"円", "万", "千", "百", "億", "兆", "kg", "km", "cm", "mm", "g", "ml", "l"},
    commonAdverbs := {"とても", "かなり", "ずいぶん", "だいぶ", "わりと", "けっこう", "ちょっと", "すこし", "少し"}
  )

  /** Title suffixes, checked with `endswith` in this order. */
  const HonorificSuffixes: seq<string> := ["さん", "ちゃん", "くん", "様", "さま", "氏"]

  /** Modal (appearance and hearsay) suffixes, checked with `endswith` in this order. */
  const ModalSuffixes: seq<string> := ["よう", "ような", "ように", "みたい", "らしい", "っぽい"]

  /** Endings that mark a proper noun as an organisation name. */
  const OrganisationSuffixes: set<string> := {"会社", "株式会社", "有限会社", "財団法人", "社団法人", "大学", "学校", "病院"}

  /** The nine adjectives too generic to keep. */
  const GenericAdjectives: set<string> := {"良い", "よい", "いい", "悪い", "わるい", "多い", "少ない", "大きい", "小さい"}

  /** The miner's dictionaries. */
  const Standard: Lexicon := Lexicon(
    inferenceEmotion := InferenceEmotionWords,
    structural := StructuralWords,
    functional := FunctionalWords,
    honorific := HonorificWords,
    patterns := StandardPatterns,
    honorificSuffixes := HonorificSuffixes,
    modalSuffixes := ModalSuffixes,
    organisationSuffixes := OrganisationSuffixes,
    genericAdjectives := GenericAdjectives)

  /** The title suffixes checked with `endswith` are also title words of the honorific category
      and of the strict pattern group. */
  lemma StandardLexicon()
    ensures forall i :: 0 <= i < |Standard.honorificSuffixes| ==>
      Standard.honorificSuffixes[i] in Standard.honorific && Standard.honorificSuffixes[i] in Standard.patterns.honorificsStrict
  {
  }
}
