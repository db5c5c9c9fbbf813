/**
 The co-occurrence network: the `network_top_n` heaviest pairs of the corpus
 counter become the weighted edges of an undirected graph, and an empty
 graph ends the drawing early. `Counter.most_common` is specified by what it
 guarantees (how many entries, taken from the counter, heaviest first);
 which of several equally heavy pairs it picks is left open.
 */
module Network {
  import opened Collections
  import opened Cooccurrence

  /** One `most_common` entry: a pair key and its weight. */
  type Entry = (Pair, real)

  /** An undirected weighted graph; an edge is stored under its canonical key. */
  datatype Graph = Graph(nodes: set<string>, edges: map<Pair, real>)

  /** The keys of the selected entries. */
  function Selected(top: seq<Entry>): set<Pair>
  {
    set i | 0 <= i < |top| :: top[i].0
  }

  /** How many entries `most_common(n)` returns from a counter of `size` keys. */
  function TopCount(n: int, size: nat): nat
  {
    if n <= 0 then 0 else if n < size then n else size
  }

  /** Each entry carries its key's weight in `c`. */
  predicate FromCounter(c: map<Pair, real>, top: seq<Entry>)
  {
    forall i :: 0 <= i < |top| ==> top[i].0 in c && c[top[i].0] == top[i].1
  }

  /** No key is selected twice. */
  predicate DistinctKeys(top: seq<Entry>)
  {
    forall i, j :: 0 <= i < j < |top| ==> top[i].0 != top[j].0
  }

  /** Heaviest first. */
  predicate Descending(top: seq<Entry>)
  {
    forall i, j :: 0 <= i < j < |top| ==> top[i].1 >= top[j].1
  }

  /** No selected entry is lighter than a key of `others`. */
  predicate Dominates(c: map<Pair, real>, top: seq<Entry>, others: set<Pair>)
    requires others <= c.Keys
  {
    forall i, k :: 0 <= i < |top| && k in others ==> top[i].1 >= c[k]
  }

  /** `top` is a possible answer of `c.most_common(n)`: the right number of distinct entries,
      each with its weight in `c`, heaviest first, and none lighter than a key left out. */
  predicate IsMostCommon(c: map<Pair, real>, n: int, top: seq<Entry>)
  {
    && |top| == TopCount(n, |c|)
    && FromCounter(c, top)
    && DistinctKeys(top)
    && Descending(top)
    && Dominates(c, top, c.Keys - Selected(top))
  }

  /** A key of `candidates` whose weight no other candidate exceeds. */
  method Heaviest(c: map<Pair, real>, candidates: set<Pair>) returns (k: Pair)
    requires candidates != {} && candidates <= c.Keys
    ensures k in candidates
    ensures forall k' :: k' in candidates ==> c[k'] <= c[k]
  {
    k :| k in candidates;
    var todo := candidates - {k};
    while todo != {}
      invariant todo <= candidates && k in candidates
      invariant forall k' :: k' in candidates && k' !in todo ==> c[k'] <= c[k]
      decreases |todo|
    {
      var x :| x in todo;
      if c[x] > c[k] {
        k := x;
      }
      todo := todo - {x};
    }
  }

  /** The state of `MostCommon` after taking `top`: `rest` holds the keys not taken yet, and
      the entries taken so far are distinct, from `c`, heaviest first and no lighter than any key
      still in `rest`. */
  ghost predicate Partial(c: map<Pair, real>, top: seq<Entry>, rest: set<Pair>)
  {
    && rest == c.Keys - Selected(top)
    && Selected(top) <= c.Keys
    && |rest| + |top| == |c|
    && FromCounter(c, top)
    && DistinctKeys(top)
    && Descending(top)
    && Dominates(c, top, rest)
  }

  /** Appending an entry adds its key to the selected keys. */
  lemma SelectedAppend(top: seq<Entry>, e: Entry)
    ensures Selected(top + [e]) == Selected(top) + {e.0}
  {
    var top' := top + [e];
    assert forall i :: 0 <= i < |top| ==> top'[i] == top[i];
    assert top'[|top|] == e;
  }

  /** Appending a key not yet selected keeps the keys distinct. */
  lemma AppendDistinct(top: seq<Entry>, e: Entry)
    requires DistinctKeys(top) && e.0 !in Selected(top)
    ensures DistinctKeys(top + [e])
  {
    var top' := top + [e];
    forall i, j | 0 <= i < j < |top'| ensures top'[i].0 != top'[j].0 {
      assert top'[i] == top[i];
      if j < |top| {
        assert top'[j] == top[j];
      }
    }
  }

  /** Appending an entry no heavier than any selected one keeps the order. */
  lemma AppendDescending(top: seq<Entry>, e: Entry)
    requires Descending(top) && forall i :: 0 <= i < |top| ==> top[i].1 >= e.1
    ensures Descending(top + [e])
  {
    var top' := top + [e];
    forall i, j | 0 <= i < j < |top'| ensures top'[i].1 >= top'[j].1 {
      assert top'[i] == top[i];
      if j < |top| {
        assert top'[j] == top[j];
      }
    }
  }

  /** Appending an entry that carries its key's weight keeps every entry's weight right. */
  lemma AppendFromCounter(c: map<Pair, real>, top: seq<Entry>, e: Entry)
    requires FromCounter(c, top) && e.0 in c && c[e.0] == e.1
    ensures FromCounter(c, top + [e])
  {
    var top' := top + [e];
    forall i | 0 <= i < |top'| ensures top'[i].0 in c && c[top'[i].0] == top'[i].1 {
      if i < |top| {
        assert top'[i] == top[i];
      }
    }
  }

  /** Appending an entry no lighter than any key of `others` keeps the dominance. */
  lemma AppendDominates(c: map<Pair, real>, top: seq<Entry>, others: set<Pair>, e: Entry)
    requires others <= c.Keys
    requires Dominates(c, top, others) && forall k :: k in others ==> e.1 >= c[k]
    ensures Dominates(c, top + [e], others)
  {
    var top' := top + [e];
    forall i, k | 0 <= i < |top'| && k in others ensures top'[i].1 >= c[k] {
      if i < |top| {
        assert top'[i] == top[i];
      }
    }
  }

  /** Taking a heaviest remaining key keeps the state consistent. */
  lemma TakeHeaviest(c: map<Pair, real>, top: seq<Entry>, rest: set<Pair>, k: Pair)
    requires Partial(c, top, rest)
    requires k in rest && forall k' :: k' in rest ==> c[k'] <= c[k]
    ensures Partial(c, top + [(k, c[k])], rest - {k})
  {
    var e := (k, c[k]);
    var top', rest' := top + [e], rest - {k};
    SelectedAppend(top, e);
    AppendDistinct(top, e);
    AppendDescending(top, e);
    assert |rest'| == |rest| - 1;
    AppendFromCounter(c, top, e);
    AppendDominates(c, top, rest', e);
  }

  /** `Counter.most_common(n)`: repeatedly takes a heaviest key not yet taken. */
  method MostCommon(c: map<Pair, real>, n: int) returns (top: seq<Entry>)
    ensures IsMostCommon(c, n, top)
  {
    var limit := TopCount(n, |c|);
    top := [];
    var rest := c.Keys;
    while |top| < limit
      invariant |top| <= limit
      invariant Partial(c, top, rest)
      decreases limit - |top|
    {
      var k := Heaviest(c, rest);
      TakeHeaviest(c, top, rest, k);
      top := top + [(k, c[k])];
      rest := rest - {k};
    }
  }

  /** `G.add_edge(u, v, weight=w)`: both endpoints become nodes, and the edge between them
      (in either direction) gets weight `w`. */
  function AddEdge(g: Graph, u: string, v: string, w: real): (g': Graph)
    ensures g'.nodes == g.nodes + {u, v}
    ensures Canon(u, v) in g'.edges && g'.edges[Canon(u, v)] == w
    ensures forall k :: k in g.edges && k != Canon(u, v) ==> k in g'.edges && g'.edges[k] == g.edges[k]
    ensures g'.edges.Keys == g.edges.Keys + {Canon(u, v)}
  {
    Graph(g.nodes + {u, v}, g.edges[Canon(u, v) := w])
  }

  /** The graph built from the selected entries, one `add_edge` per entry, in order. */
  function BuildGraph(top: seq<Entry>): (g: Graph)
    ensures |top| > 0 ==>
      var last := top[|top| - 1];
      Canon(last.0.0, last.0.1) in g.edges && g.edges[Canon(last.0.0, last.0.1)] == last.1
  {
    if |top| == 0 then Graph({}, map[])
    else
      var e := top[|top| - 1];
      AddEdge(BuildGraph(top[..|top| - 1]), e.0.0, e.0.1, e.1)
  }

  /** Every selected entry's sorted pair is an edge of the graph, and both its words are nodes. */
  lemma {:induction false} GraphHoldsEntries(top: seq<Entry>)
    ensures forall i :: 0 <= i < |top| ==>
      var g := BuildGraph(top);
      Canon(top[i].0.0, top[i].0.1) in g.edges && top[i].0.0 in g.nodes && top[i].0.1 in g.nodes
  {
    if |top| > 0 {
      var prefix := top[..|top| - 1];
      GraphHoldsEntries(prefix);
      assert forall i :: 0 <= i < |prefix| ==> prefix[i] == top[i];
    }
  }

  /** Every node is an endpoint of some edge and every endpoint is a node. */
  ghost predicate NodesAreEndpoints(g: Graph)
  {
    forall x :: x in g.nodes <==> exists k :: k in g.edges && (x == k.0 || x == k.1)
  }

  /** Whatever the entries, the graph's nodes are exactly the endpoints of its edges. */
  lemma {:induction false} GraphNodes(top: seq<Entry>)
    ensures NodesAreEndpoints(BuildGraph(top))
  {
    if |top| > 0 {
      var e := top[|top| - 1];
      var g := BuildGraph(top[..|top| - 1]);
      var g' := BuildGraph(top);
      var key := Canon(e.0.0, e.0.1);
      GraphNodes(top[..|top| - 1]);
      forall x
        ensures x in g'.nodes <==> exists k :: k in g'.edges && (x == k.0 || x == k.1)
      {
        if x in g.nodes {
          var k :| k in g.edges && (x == k.0 || x == k.1);
          assert k in g'.edges;
        } else if x in g'.nodes {
          assert key in g'.edges && (x == key.0 || x == key.1);
        } else {
          forall k | k in g'.edges ensures x != k.0 && x != k.1 {
            if k != key {
              assert k in g.edges;
            }
          }
        }
      }
    }
  }

  /** A prefix of distinct keys has distinct keys, and the last key is not among them. */
  lemma DistinctPrefix(top: seq<Entry>)
    requires |top| > 0 && DistinctKeys(top)
    ensures DistinctKeys(top[..|top| - 1])
    ensures top[|top| - 1].0 !in Selected(top[..|top| - 1])
  {
    var prefix := top[..|top| - 1];
    assert forall i :: 0 <= i < |prefix| ==> prefix[i] == top[i];
  }

  /** Built from canonical keys, the graph's edge keys are exactly the selected keys. */
  lemma {:induction false} GraphEdgeKeys(top: seq<Entry>)
    requires forall i :: 0 <= i < |top| ==> IsCanonical(top[i].0)
    ensures BuildGraph(top).edges.Keys == Selected(top)
  {
    if |top| > 0 {
      var m := |top| - 1;
      var prefix, e := top[..m], top[m];
      assert top == prefix + [e];
      assert forall i :: 0 <= i < m ==> prefix[i] == top[i];
      GraphEdgeKeys(prefix);
      SelectedAppend(prefix, e);
      assert IsCanonical(e.0);
    }
  }

  /** Adding the last entry, when its key is canonical, stores it under that key. */
  lemma GraphStep(top: seq<Entry>)
    requires |top| > 0 && IsCanonical(top[|top| - 1].0)
    ensures var e := top[|top| - 1];
      BuildGraph(top).edges == BuildGraph(top[..|top| - 1]).edges[e.0 := e.1]
  {
  }

  /** Built from distinct canonical keys, the graph has one edge per selected entry. */
  lemma {:induction false} GraphEdgeCount(top: seq<Entry>)
    requires forall i :: 0 <= i < |top| ==> IsCanonical(top[i].0)
    requires DistinctKeys(top)
    ensures |BuildGraph(top).edges| == |top|
  {
    if |top| > 0 {
      var m := |top| - 1;
      var prefix, e := top[..m], top[m];
      assert forall i :: 0 <= i < m ==> prefix[i] == top[i];
      DistinctPrefix(top);
      GraphEdgeCount(prefix);
      GraphEdgeKeys(prefix);
      GraphStep(top);
    }
  }

  /** Built from distinct canonical keys, every selected entry's edge carries that entry's
      weight: no later entry overwrites it. */
  lemma {:induction false} GraphEdgeWeights(top: seq<Entry>)
    requires forall i :: 0 <= i < |top| ==> IsCanonical(top[i].0)
    requires DistinctKeys(top)
    ensures forall i :: 0 <= i < |top| ==> top[i].0 in BuildGraph(top).edges
    ensures forall i :: 0 <= i < |top| ==> BuildGraph(top).edges[top[i].0] == top[i].1
  {
    if |top| > 0 {
      var m := |top| - 1;
      var prefix, e := top[..m], top[m];
      assert forall i :: 0 <= i < m ==> prefix[i] == top[i];
      DistinctPrefix(top);
      GraphEdgeWeights(prefix);
      GraphStep(top);
      var edges, edges' := BuildGraph(prefix).edges, BuildGraph(top).edges;
      forall i | 0 <= i < m
        ensures top[i].0 in edges' && edges'[top[i].0] == top[i].1
      {
        assert prefix[i] == top[i];
        assert top[i].0 != e.0;
      }
    }
  }

  /** The drawing step's graph: `None` when `most_common` selects nothing (the early exit),
      otherwise the graph of the selected pairs. */
  method BuildNetwork(c: map<Pair, real>, topN: int) returns (g: Option<Graph>)
    ensures g.None? <==> topN <= 0 || |c| == 0
    ensures (forall k :: k in c ==> IsCanonical(k)) && g.Some? ==>
      && |g.value.edges| == TopCount(topN, |c|) <= topN
      && g.value.edges.Keys <= c.Keys
      && (forall k :: k in g.value.edges ==> g.value.edges[k] == c[k])
      && (forall k, k' :: k in g.value.edges && k' in c && k' !in g.value.edges ==> c[k] >= c[k'])
      && NodesAreEndpoints(g.value)
  {
    var top := MostCommon(c, topN);
    var graph := BuildGraph(top);
    if |top| == 0 {
      return None;
    }
    assert graph.edges.Keys != {};
    if forall k :: k in c ==> IsCanonical(k) {
      GraphOfSelection(c, topN, top);
    }
    GraphNodes(top);
    return Some(graph);
  }

  /** The graph of a `most_common` selection from a counter with canonical keys: one edge per
      selected pair, each with its counter weight, none lighter than a pair left out. */
  lemma GraphOfSelection(c: map<Pair, real>, topN: int, top: seq<Entry>)
    requires forall k :: k in c ==> IsCanonical(k)
    requires IsMostCommon(c, topN, top)
    ensures var g := BuildGraph(top);
      && |g.edges| == TopCount(topN, |c|)
      && g.edges.Keys <= c.Keys
      && (forall k :: k in g.edges ==> g.edges[k] == c[k])
      && (forall k, k' :: k in g.edges && k' in c && k' !in g.edges ==> c[k] >= c[k'])
  {
    var graph := BuildGraph(top);
    GraphEdgeKeys(top);
    GraphEdgeCount(top);
    GraphEdgeWeights(top);
    forall k | k in graph.edges ensures graph.edges[k] == c[k] {
      var i :| 0 <= i < |top| && top[i].0 == k;
    }
    forall k, k' | k in graph.edges && k' in c && k' !in graph.edges ensures c[k] >= c[k'] {
      var i :| 0 <= i < |top| && top[i].0 == k;
    }
  }

  /** A counter of two pairs, one clearly heavier. */
  const TwoPairs: map<Pair, real> := map[("a", "b") := 5.0, ("c", "d") := 1.0]

  /** `BuildNetwork(TwoPairs, 1)` draws a graph, and it holds only the heavier pair and its two
      words. */
  method DrawHeavierPair() returns (g: Option<Graph>)
    ensures g.Some? && g.value.edges.Keys == {("a", "b")} && g.value.nodes == {"a", "b"}
  {
    assert TwoPairs.Keys == {("a", "b"), ("c", "d")};
    assert IsCanonical(("a", "b")) && IsCanonical(("c", "d"));
    assert |TwoPairs| == 2;
    g := BuildNetwork(TwoPairs, 1);
    HeavierPairDrawn(g.value);
  }

  /** Heaviest first: any graph `BuildNetwork(TwoPairs, 1)` may return holds only the heavier
      pair and its two words. */
  lemma HeavierPairDrawn(g: Graph)
    requires NodesAreEndpoints(g)
    requires g.edges.Keys <= TwoPairs.Keys && |g.edges| == 1
    requires forall k, k' :: k in g.edges && k' in TwoPairs && k' !in g.edges ==> TwoPairs[k] >= TwoPairs[k']
    ensures g.edges.Keys == {("a", "b")}
    ensures g.nodes == {"a", "b"}
  {
    var k :| k in g.edges;
    assert g.edges.Keys == {k} by {
      assert |g.edges.Keys - {k}| == 0;
    }
    assert k in TwoPairs && ("a", "b") in TwoPairs;
    if k != ("a", "b") {
      assert false;
    }
    forall x ensures x in g.nodes <==> x == "a" || x == "b" {
      if x in g.nodes {
        var k' :| k' in g.edges && (x == k'.0 || x == k'.1);
      }
    }
  }
}
