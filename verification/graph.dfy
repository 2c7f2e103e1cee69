/**
 * The agent's small relation graph (core/agent.py): edges parsed from
 * "A -> B" and "A is B" memory texts, and the bounded-depth neighbour lookup
 * used to give the model some graph context.
 */
module RelationGraph {
  import opened Wrappers
  import opened Py

  /** Node -> set of successor nodes. */
  type Graph = map<string, set<string>>

  predicate HasEdge(g: Graph, a: string, b: string) {
    a in g && b in g[a]
  }

  /** Every edge of `g` is an edge of `h`. */
  ghost predicate Subgraph(g: Graph, h: Graph) {
    forall a, b :: HasEdge(g, a, b) ==> HasEdge(h, a, b)
  }

  // ================================================================ parsing

  /** One side of an edge: stripped, then lower-cased. */
  function Side(p: string): (r: string)
    ensures Lower(r) == r
  {
    LowerIdempotent(Strip(p));
    Lower(Strip(p))
  }

  /** The edge of `text` split at the first `sep`, when both sides are non-empty. */
  function EdgeAround(text: string, sep: string): (r: Option<(string, string)>)
    requires Contains(text, sep)
  {
    var parts := SplitOnce(text, sep);
    var a, b := Side(parts.0), Side(parts.1);
    if a != "" && b != "" then Some((a, b)) else None
  }

  /** The edge a memory text states, if any: "->" is tried before " is ". */
  function ParseEdge(text: string): (r: Option<(string, string)>)
    ensures r.Some? ==> r.value.0 != "" && r.value.1 != ""
    ensures r.Some? ==> Lower(r.value.0) == r.value.0 && Lower(r.value.1) == r.value.1
    ensures !Contains(text, "->") && !Contains(text, " is ") ==> r.None?
  {
    if Contains(text, "->") then EdgeAround(text, "->")
    else if Contains(text, " is ") then EdgeAround(text, " is ")
    else None
  }

  /** A text holding "->" is read at its first "->" only, never at " is ":
      it states an edge exactly when both sides around that arrow are non-blank. */
  lemma ArrowFirst(text: string)
    requires Contains(text, "->")
    ensures var parts := SplitOnce(text, "->");
      && text == parts.0 + "->" + parts.1
      && !Contains(parts.0, "->")
      && ParseEdge(text) == (if Side(parts.0) != "" && Side(parts.1) != ""
                             then Some((Side(parts.0), Side(parts.1))) else None)
  {
  }

  // ================================================================ building

  function AddEdge(g: Graph, a: string, b: string): Graph {
    g[a := (if a in g then g[a] else {}) + {b}]
  }

  /** `_update_graph(text)` as a value: `graph.setdefault(a, set()).add(b)`. */
  function GraphUpdate(g: Graph, text: string): Graph {
    match ParseEdge(text)
    case None => g
    case Some((a, b)) => AddEdge(g, a, b)
  }

  /** The graph built from an empty one by updating with each text in turn. */
  function GraphOf(texts: seq<string>): Graph {
    if texts == [] then map[] else GraphUpdate(GraphOf(texts[..|texts| - 1]), texts[|texts| - 1])
  }

  /** An update adds exactly the parsed edge and removes nothing. */
  lemma UpdateEdges(g: Graph, text: string)
    ensures forall a, b :: HasEdge(GraphUpdate(g, text), a, b)
                           <==> HasEdge(g, a, b) || ParseEdge(text) == Some((a, b))
    ensures ParseEdge(text).None? ==> GraphUpdate(g, text) == g
    ensures GraphUpdate(g, text).Keys
            == g.Keys + (if ParseEdge(text).Some? then {ParseEdge(text).value.0} else {})
  {
    match ParseEdge(text)
    case None =>
    case Some((a0, b0)) => AddEdgeEdges(g, a0, b0);
  }

  lemma AddEdgeEdges(g: Graph, a0: string, b0: string)
    ensures forall a, b :: HasEdge(AddEdge(g, a0, b0), a, b) <==> HasEdge(g, a, b) || (a == a0 && b == b0)
    ensures AddEdge(g, a0, b0).Keys == g.Keys + {a0}
  {
  }

  lemma UpdateMonotone(g: Graph, h: Graph, text: string)
    requires Subgraph(g, h)
    ensures Subgraph(GraphUpdate(g, text), GraphUpdate(h, text))
  {
    UpdateEdges(g, text);
    UpdateEdges(h, text);
  }

  /** Some text among `texts` states the edge a -> b. */
  ghost predicate Stated(texts: seq<string>, a: string, b: string) {
    exists t :: t in texts && ParseEdge(t) == Some((a, b))
  }

  lemma StatedLast(texts: seq<string>, a: string, b: string)
    requires texts != []
    ensures Stated(texts, a, b)
            <==> Stated(texts[..|texts| - 1], a, b) || ParseEdge(texts[|texts| - 1]) == Some((a, b))
  {
    var init, last := texts[..|texts| - 1], texts[|texts| - 1];
    assert texts == init + [last];
    if Stated(texts, a, b) {
      var t :| t in texts && ParseEdge(t) == Some((a, b));
      if t != last {
        assert t in init;
      }
    }
    if Stated(init, a, b) {
      var t :| t in init && ParseEdge(t) == Some((a, b));
      assert t in texts;
    }
    if ParseEdge(last) == Some((a, b)) {
      assert last in texts;
    }
  }

  lemma UpdateEdge(g: Graph, text: string, a: string, b: string)
    ensures HasEdge(GraphUpdate(g, text), a, b) <==> HasEdge(g, a, b) || ParseEdge(text) == Some((a, b))
  {
  }

  lemma {:induction false} GraphOfEdge(texts: seq<string>, a: string, b: string)
    ensures HasEdge(GraphOf(texts), a, b) <==> Stated(texts, a, b)
    decreases |texts|
  {
    if texts == [] {
      assert !Stated(texts, a, b);
    } else {
      var init, last := texts[..|texts| - 1], texts[|texts| - 1];
      GraphOfEdge(init, a, b);
      UpdateEdge(GraphOf(init), last, a, b);
      StatedLast(texts, a, b);
    }
  }

  /** The folded graph holds exactly the edges stated by some text. */
  lemma GraphOfEdges(texts: seq<string>)
    ensures forall a, b :: HasEdge(GraphOf(texts), a, b) <==> Stated(texts, a, b)
  {
    forall a, b
      ensures HasEdge(GraphOf(texts), a, b) <==> Stated(texts, a, b)
    {
      GraphOfEdge(texts, a, b);
    }
  }

  /** The graph of fewer texts is a subgraph. */
  lemma GraphOfSubset(ts: seq<string>, us: seq<string>)
    requires forall t :: t in ts ==> t in us
    ensures Subgraph(GraphOf(ts), GraphOf(us))
  {
    GraphOfEdges(ts);
    GraphOfEdges(us);
  }

  // ================================================================ neighbourhoods

  /** The successors of a node set. */
  function Succ(g: Graph, nodes: set<string>): set<string> {
    set t, n | t in nodes && t in g && n in g[t] :: n
  }

  /** The nodes exactly `k` hops away from `nodes`. */
  function Reach(g: Graph, nodes: set<string>, k: nat): set<string> {
    if k == 0 then nodes else Succ(g, Reach(g, nodes, k - 1))
  }

  /** `n` is between 1 and `d` hops away from `nodes`. */
  ghost predicate Reachable(g: Graph, nodes: set<string>, n: string, d: int) {
    exists j :: 1 <= j <= d && n in Reach(g, nodes, j)
  }

  lemma SuccMono(g: Graph, a: set<string>, b: set<string>)
    requires a <= b
    ensures Succ(g, a) <= Succ(g, b)
  {
  }

  lemma {:induction false} ReachMono(g: Graph, a: set<string>, b: set<string>, k: nat)
    requires a <= b
    ensures Reach(g, a, k) <= Reach(g, b, k)
  {
    if k > 0 {
      ReachMono(g, a, b, k - 1);
      SuccMono(g, Reach(g, a, k - 1), Reach(g, b, k - 1));
    }
  }

  lemma SuccAdd(g: Graph, a: set<string>, node: string)
    ensures Succ(g, a + {node}) == Succ(g, a) + (if node in g then g[node] else {})
  {
  }

  /** The lower-cased whitespace tokens of a query. */
  function QueryTokens(query: string): set<string> {
    set w | w in Words(query) :: Lower(w)
  }

  /** The query tokens that are nodes with outgoing edges. */
  function Seeds(g: Graph, query: string): (r: set<string>)
    ensures forall t :: t in r <==> t in QueryTokens(query) && t in g
  {
    set t | t in QueryTokens(query) && t in g
  }

  /** One hop of the search: every successor of `toVisit` not yet found is
      added to `found` and to the next frontier. */
  method ExpandLevel(g: Graph, toVisit: set<string>, found0: set<string>)
    returns (found: set<string>, next: set<string>)
    ensures found == found0 + Succ(g, toVisit)
    ensures next == Succ(g, toVisit) - found0
  {
    found, next := found0, {};
    var pending := toVisit;
    while pending != {}
      invariant pending <= toVisit
      invariant found == found0 + Succ(g, toVisit - pending)
      invariant next == Succ(g, toVisit - pending) - found0
      decreases pending
    {
      var node :| node in pending;
      var nbs := if node in g then g[node] else {};
      var rest := nbs;
      ghost var before := Succ(g, toVisit - pending);
      while rest != {}
        invariant rest <= nbs
        invariant found == found0 + before + (nbs - rest)
        invariant next == (before + (nbs - rest)) - found0
        decreases rest
      {
        var nb :| nb in rest;
        if nb !in found {
          found := found + {nb};
          next := next + {nb};
        }
        rest := rest - {nb};
      }
      SuccAdd(g, toVisit - pending, node);
      assert toVisit - (pending - {node}) == (toVisit - pending) + {node};
      pending := pending - {node};
    }
    assert toVisit - pending == toVisit;
  }

  /** The hops from one seed: `found` gains only nodes within `depth` hops of
      the seed, and all of the seed's direct successors when `depth >= 1`. */
  method VisitSeed(g: Graph, seed: string, depth: int, found0: set<string>) returns (found: set<string>)
    ensures found0 <= found
    ensures depth >= 1 ==> Succ(g, {seed}) <= found
    ensures forall n :: n in found && n !in found0 ==> Reachable(g, {seed}, n, depth)
  {
    found := found0;
    var toVisit := {seed};
    var levels := if depth > 0 then depth else 0;
    for level := 0 to levels
      invariant toVisit <= Reach(g, {seed}, level)
      invariant level == 0 ==> toVisit == {seed}
      invariant found0 <= found
      invariant forall n :: n in found && n !in found0 ==> Reachable(g, {seed}, n, level)
      invariant level >= 1 ==> Succ(g, {seed}) <= found
    {
      var f, next := ExpandLevel(g, toVisit, found);
      SuccMono(g, toVisit, Reach(g, {seed}, level));
      assert Reach(g, {seed}, level + 1) == Succ(g, Reach(g, {seed}, level));
      forall n | n in f && n !in found0
        ensures Reachable(g, {seed}, n, level + 1)
      {
        if n !in found {
          assert n in Reach(g, {seed}, level + 1);
        }
      }
      found, toVisit := f, next;
    }
  }

  /** `graph_context(query, depth)`: the nodes found from every seed, as a list
      without duplicates. */
  method Context(g: Graph, query: string, depth: int) returns (r: seq<string>)
    ensures forall i, j :: 0 <= i < j < |r| ==> r[i] != r[j]
    ensures depth <= 0 ==> r == []
    ensures forall n :: n in r ==> Reachable(g, Seeds(g, query), n, depth)
    ensures depth >= 1 ==> forall n :: n in Succ(g, Seeds(g, query)) ==> n in r
    ensures depth == 1 ==> forall n :: n in r <==> n in Succ(g, Seeds(g, query))
  {
    var seeds := Seeds(g, query);
    var found: set<string> := {};
    var pending := seeds;
    while pending != {}
      invariant pending <= seeds
      invariant forall n :: n in found ==> Reachable(g, seeds, n, depth)
      invariant depth >= 1 ==> Succ(g, seeds - pending) <= found
      invariant depth <= 0 ==> found == {}
      decreases pending
    {
      var seed :| seed in pending;
      var f := VisitSeed(g, seed, depth, found);
      forall n | n in f && n !in found
        ensures Reachable(g, seeds, n, depth)
      {
        var j :| 1 <= j <= depth && n in Reach(g, {seed}, j);
        ReachMono(g, {seed}, seeds, j);
      }
      if depth >= 1 {
        SuccAdd(g, seeds - pending, seed);
        SuccAdd(g, {}, seed);
        assert {} + {seed} == {seed};
      }
      assert seeds - (pending - {seed}) == (seeds - pending) + {seed};
      found := f;
      pending := pending - {seed};
    }
    assert seeds - pending == seeds;
    if depth == 1 {
      forall n | n in found
        ensures n in Succ(g, seeds)
      {
        var j :| 1 <= j <= depth && n in Reach(g, seeds, j);
        assert Reach(g, seeds, 1) == Succ(g, Reach(g, seeds, 0));
      }
    }
    // list(found)
    r := [];
    var rest := found;
    while rest != {}
      invariant rest <= found
      invariant forall n :: n in r <==> n in found - rest
      invariant forall i, j :: 0 <= i < j < |r| ==> r[i] != r[j]
      invariant found == {} ==> r == []
      decreases rest
    {
      var n :| n in rest;
      assert n !in r;
      r := r + [n];
      rest := rest - {n};
    }
  }
}
