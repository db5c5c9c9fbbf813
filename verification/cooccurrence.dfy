/**
 The co-occurrence extractor. The miner slides windows of 3, 5 and 10 words
 over a document's word list and, for every index pair that falls inside a
 window, adds `1/window` to the pair's canonically ordered key. `Weight`
 is an independent reference: every index pair `i < j` contributes an amount
 that depends only on the distance `j - i`. `ExtractPairs` runs the
 miner's loops and is proved to agree with it key by key.
 */
module Cooccurrence {
  import opened Text

  /** A pair key; stored sorted, so `(a, b)` and `(b, a)` are one key. */
  type Pair = (string, string)

  /** `tuple(sorted((a, b)))`: the two words, smaller first. */
  function Canon(a: string, b: string): (p: Pair)
    ensures LexLe(p.0, p.1)
    ensures (p.0 == a && p.1 == b) || (p.0 == b && p.1 == a)
  {
    LexTotal(a, b);
    if LexLe(a, b) then (a, b) else (b, a)
  }

  /** A key in sorted order. */
  predicate IsCanonical(p: Pair)
  {
    LexLe(p.0, p.1)
  }

  /** A `Counter` lookup: a missing key counts zero. */
  function Get(m: map<Pair, real>, k: Pair): real
  {
    if k in m then m[k] else 0.0
  }

  /** The window sizes, in the order the miner uses them. */
  const Windows: seq<int> := [3, 5, 10]

  // ---------------------------------------------------------------------
  // Reference definition: weight as a sum over index pairs
  // ---------------------------------------------------------------------

  /** What an index pair at distance `d` adds to its key: 1/3 + 1/5 + 1/10 up to distance 2,
      1/5 + 1/10 at distance 3 or 4, 1/10 from 5 to 9, nothing from 10 on. */
  function Contribution(d: int): real
  {
    if d <= 0 then 0.0
    else if d <= 2 then 1.0 / 3.0 + 1.0 / 5.0 + 1.0 / 10.0
    else if d <= 4 then 1.0 / 5.0 + 1.0 / 10.0
    else if d <= 9 then 1.0 / 10.0
    else 0.0
  }

  /** The words at `i` and `j` form the key `k`. */
  predicate Hit(words: seq<string>, k: Pair, i: nat, j: nat)
    requires i < |words| && j < |words|
  {
    Canon(words[i], words[j]) == k
  }

  /** What the index pairs `(i, j)` with `i < j < hi` add to `k`. */
  function RowWeight(words: seq<string>, k: Pair, i: nat, hi: nat): real
    requires i < hi <= |words|
    decreases hi
  {
    if hi == i + 1 then 0.0
    else RowWeight(words, k, i, hi - 1) + (if Hit(words, k, i, hi - 1) then Contribution(hi - 1 - i) else 0.0)
  }

  /** What the index pairs whose first index is below `n` add to `k`. */
  function PrefixWeight(words: seq<string>, k: Pair, n: nat): real
    requires n <= |words|
  {
    if n == 0 then 0.0 else PrefixWeight(words, k, n - 1) + RowWeight(words, k, n - 1, |words|)
  }

  /** The weight of key `k` in a document's word list. */
  function Weight(words: seq<string>, k: Pair): real
  {
    PrefixWeight(words, k, |words|)
  }

  /** Some index pair within distance 9 forms the key `k`. */
  predicate Near(words: seq<string>, k: Pair)
  {
    exists i, j :: 0 <= i < j < |words| && j - i < 10 && Hit(words, k, i, j)
  }

  // ---------------------------------------------------------------------
  // The miner's loops, one window at a time
  // ---------------------------------------------------------------------

  /** What window `w` adds to `k` from the index pairs `(i, j)` with `i < j < hi`. */
  function WindowRow(words: seq<string>, k: Pair, w: int, i: nat, hi: nat): real
    requires w > 0 && i < hi <= |words|
    decreases hi
  {
    if hi == i + 1 then 0.0
    else WindowRow(words, k, w, i, hi - 1)
         + (if Hit(words, k, i, hi - 1) && hi - 1 - i < w then 1.0 / (w as real) else 0.0)
  }

  /** What window `w` adds to `k` from the first indices below `n`. */
  function WindowPrefix(words: seq<string>, k: Pair, w: int, n: nat): real
    requires w > 0 && n <= |words|
  {
    if n == 0 then 0.0 else WindowPrefix(words, k, w, n - 1) + WindowRow(words, k, w, n - 1, |words|)
  }

  /** What the first `c` windows add to `k`. */
  function WindowsWeight(words: seq<string>, k: Pair, c: nat): real
    requires c <= |Windows|
  {
    if c == 0 then 0.0 else WindowsWeight(words, k, c - 1) + WindowPrefix(words, k, Windows[c - 1], |words|)
  }

  function Min(a: int, b: int): int
  {
    if a <= b then a else b
  }

  /** `extract_enhanced_features`' pair loops: a counter holding, for every key, exactly
      its reference weight; keys with no weight are absent. */
  method ExtractPairs(words: seq<string>) returns (pairs: map<Pair, real>)
    ensures forall k :: Get(pairs, k) == Weight(words, k)
    ensures forall k :: k in pairs ==> pairs[k] > 0.0
  {
    pairs := map[];
    var t := 0;
    while t < |Windows|
      invariant 0 <= t <= |Windows|
      invariant forall k :: Get(pairs, k) == WindowsWeight(words, k, t)
      invariant forall k :: k in pairs ==> pairs[k] > 0.0
    {
      pairs := AddWindow(words, t, pairs);
      t := t + 1;
    }
    forall k ensures WindowsWeight(words, k, |Windows|) == Weight(words, k) {
      AllWindowsWeight(words, k);
    }
  }

  /** One window's pass over every first index: adds that window's share to every key. */
  method AddWindow(words: seq<string>, t: nat, before: map<Pair, real>) returns (pairs: map<Pair, real>)
    requires t < |Windows|
    requires forall k :: Get(before, k) == WindowsWeight(words, k, t)
    requires forall k :: k in before ==> before[k] > 0.0
    ensures forall k :: Get(pairs, k) == WindowsWeight(words, k, t + 1)
    ensures forall k :: k in pairs ==> pairs[k] > 0.0
  {
    var window := Windows[t];
    pairs := before;
    var i := 0;
    while i < |words|
      invariant 0 <= i <= |words|
      invariant forall k :: Get(pairs, k) == WindowsWeight(words, k, t) + WindowPrefix(words, k, window, i)
      invariant forall k :: k in pairs ==> pairs[k] > 0.0
    {
      pairs := AddRow(words, t, i, pairs);
      i := i + 1;
    }
  }

  /** The innermost loop: the pairs `(i, j)` with `i < j < min(i + window, |words|)`. */
  method AddRow(words: seq<string>, t: nat, i: nat, before: map<Pair, real>) returns (pairs: map<Pair, real>)
    requires t < |Windows| && i < |words|
    requires forall k :: Get(before, k) == WindowsWeight(words, k, t) + WindowPrefix(words, k, Windows[t], i)
    requires forall k :: k in before ==> before[k] > 0.0
    ensures forall k :: Get(pairs, k) == WindowsWeight(words, k, t) + WindowPrefix(words, k, Windows[t], i + 1)
    ensures forall k :: k in pairs ==> pairs[k] > 0.0
  {
    var window := Windows[t];
    var weight := 1.0 / (window as real);
    var hi := Min(i + window, |words|);
    pairs := before;
    var j := i + 1;
    while j < hi
      invariant i + 1 <= j <= hi
      invariant forall k ::
        Get(pairs, k) == WindowsWeight(words, k, t) + WindowPrefix(words, k, window, i) + WindowRow(words, k, window, i, j)
      invariant forall k :: k in pairs ==> pairs[k] > 0.0
    {
      var pair := Canon(words[i], words[j]);
      RowStep(words, t, i, j, pairs);
      pairs := pairs[pair := Get(pairs, pair) + weight];
      j := j + 1;
    }
    forall k ensures WindowRow(words, k, window, i, hi) == WindowRow(words, k, window, i, |words|) {
      WindowRowTail(words, k, window, i, |words|);
    }
  }

  /** One pass of the innermost loop adds window `t`'s share for the index pair `(i, j)`. */
  lemma RowStep(words: seq<string>, t: nat, i: nat, j: nat, before: map<Pair, real>)
    requires t < |Windows| && i < j < Min(i + Windows[t], |words|)
    requires forall k ::
      Get(before, k) == WindowsWeight(words, k, t) + WindowPrefix(words, k, Windows[t], i) + WindowRow(words, k, Windows[t], i, j)
    requires forall k :: k in before ==> before[k] > 0.0
    ensures var after := before[Canon(words[i], words[j]) := Get(before, Canon(words[i], words[j])) + 1.0 / (Windows[t] as real)];
      && (forall k ::
            Get(after, k) == WindowsWeight(words, k, t) + WindowPrefix(words, k, Windows[t], i) + WindowRow(words, k, Windows[t], i, j + 1))
      && (forall k :: k in after ==> after[k] > 0.0)
  {
    var w := Windows[t];
    assert w > 0 && j - i < w;
    var pair := Canon(words[i], words[j]);
    var after := before[pair := Get(before, pair) + 1.0 / (w as real)];
    forall k ensures Get(after, k) == Get(before, k) + (if Hit(words, k, i, j) then 1.0 / (w as real) else 0.0) {
    }
  }

  /** The three windows together add exactly the reference weight. */
  lemma AllWindowsWeight(words: seq<string>, k: Pair)
    ensures WindowsWeight(words, k, |Windows|) == Weight(words, k)
  {
    PrefixSplit(words, k, |words|);
    assert Windows[0] == 3 && Windows[1] == 5 && Windows[2] == 10;
    assert WindowsWeight(words, k, 1) == WindowPrefix(words, k, 3, |words|);
  }

  /** Index pairs at distance `w` or more add nothing for window `w`. */
  lemma {:induction false} WindowRowTail(words: seq<string>, k: Pair, w: int, i: nat, hi: nat)
    requires w > 0 && i < |words| && Min(i + w, |words|) <= hi <= |words|
    ensures WindowRow(words, k, w, i, hi) == WindowRow(words, k, w, i, Min(i + w, |words|))
    decreases hi
  {
    if hi > Min(i + w, |words|) {
      WindowRowTail(words, k, w, i, hi - 1);
    }
  }

  /** The three windows together add exactly each distance's contribution. */
  lemma ContributionByWindows(d: int)
    requires d > 0
    ensures Contribution(d)
      == (if d < 3 then 1.0 / 3.0 else 0.0) + (if d < 5 then 1.0 / 5.0 else 0.0) + (if d < 10 then 1.0 / 10.0 else 0.0)
  {
  }

  lemma {:induction false} RowSplit(words: seq<string>, k: Pair, i: nat, hi: nat)
    requires i < hi <= |words|
    ensures RowWeight(words, k, i, hi)
      == WindowRow(words, k, 3, i, hi) + WindowRow(words, k, 5, i, hi) + WindowRow(words, k, 10, i, hi)
    decreases hi
  {
    if hi > i + 1 {
      RowSplit(words, k, i, hi - 1);
      ContributionByWindows(hi - 1 - i);
    }
  }

  lemma {:induction false} PrefixSplit(words: seq<string>, k: Pair, n: nat)
    requires n <= |words|
    ensures PrefixWeight(words, k, n)
      == WindowPrefix(words, k, 3, n) + WindowPrefix(words, k, 5, n) + WindowPrefix(words, k, 10, n)
  {
    if n > 0 {
      PrefixSplit(words, k, n - 1);
      RowSplit(words, k, n - 1, |words|);
    }
  }

  // ---------------------------------------------------------------------
  // Properties of the weights
  // ---------------------------------------------------------------------

  /** Sorting a pair does not depend on the order it is given in. */
  lemma CanonSymmetric(a: string, b: string)
    ensures Canon(a, b) == Canon(b, a)
  {
    if LexLe(a, b) && LexLe(b, a) {
      LexAntisymmetric(a, b);
    }
  }

  /** A counter of sorted keys never holds both `(a, b)` and `(b, a)` for distinct words. */
  lemma NoMirroredKeys(pairs: map<Pair, real>, a: string, b: string)
    requires forall k :: k in pairs ==> IsCanonical(k)
    requires (a, b) in pairs && (b, a) in pairs
    ensures a == b
  {
    LexAntisymmetric(a, b);
  }

  lemma {:induction false} RowPositive(words: seq<string>, k: Pair, i: nat, hi: nat)
    requires i < hi <= |words|
    ensures RowWeight(words, k, i, hi) >= 0.0
    ensures RowWeight(words, k, i, hi) > 0.0 <==>
      exists j :: i < j < hi && j - i < 10 && Hit(words, k, i, j)
    decreases hi
  {
    if hi > i + 1 {
      RowPositive(words, k, i, hi - 1);
      if exists j :: i < j < hi - 1 && j - i < 10 && Hit(words, k, i, j) {
        var j :| i < j < hi - 1 && j - i < 10 && Hit(words, k, i, j);
        assert i < j < hi && j - i < 10 && Hit(words, k, i, j);
      }
    }
  }

  lemma {:induction false} PrefixPositive(words: seq<string>, k: Pair, n: nat)
    requires n <= |words|
    ensures PrefixWeight(words, k, n) >= 0.0
    ensures PrefixWeight(words, k, n) > 0.0 <==>
      exists i, j :: 0 <= i < n && i < j < |words| && j - i < 10 && Hit(words, k, i, j)
  {
    if n > 0 {
      PrefixPositive(words, k, n - 1);
      RowPositive(words, k, n - 1, |words|);
      if exists i, j :: 0 <= i < n - 1 && i < j < |words| && j - i < 10 && Hit(words, k, i, j) {
        var i, j :| 0 <= i < n - 1 && i < j < |words| && j - i < 10 && Hit(words, k, i, j);
        assert 0 <= i < n && i < j < |words| && j - i < 10 && Hit(words, k, i, j);
      }
      var m := n - 1;
      if exists j :: m < j < |words| && j - m < 10 && Hit(words, k, m, j) {
        var j :| m < j < |words| && j - m < 10 && Hit(words, k, m, j);
        assert 0 <= m < n && m < j < |words| && j - m < 10 && Hit(words, k, m, j);
      }
    }
  }

  /** A key has positive weight exactly when two of its words stand fewer than ten positions
      apart; otherwise its weight is zero. */
  lemma WeightSupport(words: seq<string>, k: Pair)
    ensures Weight(words, k) >= 0.0
    ensures Weight(words, k) > 0.0 <==> Near(words, k)
  {
    PrefixPositive(words, k, |words|);
  }

  /** Every key with weight is sorted and made of two words of the document. */
  lemma WeightedKeysAreCanonical(words: seq<string>, k: Pair)
    requires Weight(words, k) > 0.0
    ensures IsCanonical(k) && k.0 in words && k.1 in words
  {
    WeightSupport(words, k);
    var i, j :| 0 <= i < j < |words| && j - i < 10 && Hit(words, k, i, j);
  }

  /** Fewer than two words yield no pairs at all. */
  lemma FewWordsNoPairs(words: seq<string>, k: Pair)
    requires |words| < 2
    ensures Weight(words, k) == 0.0
  {
    WeightSupport(words, k);
  }

  /** Two adjacent words form one key of weight 1/3 + 1/5 + 1/10. */
  lemma AdjacentPairWeight(x: string, y: string)
    ensures Weight([x, y], Canon(x, y)) == 1.0 / 3.0 + 1.0 / 5.0 + 1.0 / 10.0
  {
    var words, k := [x, y], Canon(x, y);
    assert Hit(words, k, 0, 1);
    assert RowWeight(words, k, 0, 2) == Contribution(1);
    assert RowWeight(words, k, 1, 2) == 0.0;
    assert PrefixWeight(words, k, 1) == RowWeight(words, k, 0, 2);
  }

  /** The counter `ExtractPairs` returns: keys sorted, drawn from the document, no mirrored keys,
      and empty for fewer than two words. */
  lemma ExtractedKeys(words: seq<string>, pairs: map<Pair, real>)
    requires forall k :: Get(pairs, k) == Weight(words, k)
    requires forall k :: k in pairs ==> pairs[k] > 0.0
    ensures forall k :: k in pairs <==> Near(words, k)
    ensures forall k :: k in pairs ==> IsCanonical(k) && k.0 in words && k.1 in words
    ensures |words| < 2 ==> pairs == map[]
  {
    forall k ensures k in pairs <==> Near(words, k) {
      WeightSupport(words, k);
    }
    forall k | k in pairs ensures IsCanonical(k) && k.0 in words && k.1 in words {
      WeightedKeysAreCanonical(words, k);
    }
    if |words| < 2 {
      forall k | k in pairs ensures false {
        FewWordsNoPairs(words, k);
      }
    }
  }
}
