/** The builders of EDAMannot.py draw by a sequence of pygraphviz calls,
    each node insertion guarded by `has_node`. This module gives that
    sequence as a value (`Call`) and its effect on a graph (`Run`), and
    proves once what every such sequence does: it never changes a node
    already drawn nor removes an edge, it draws every edge it adds, and
    the first guarded insertion of a node decides that node's attributes. */
module GraphCalls {
  import opened AnnotationGraphs

  /** One step of a builder. */
  datatype Call =
      /** `if not graph.has_node(n): graph.add_node(n, **attrs)` */
    | NodeIfAbsent(n: string, attrs: Attrs)
      /** `graph.add_edge(u, v, **attrs)` */
    | EdgeAdd(u: string, v: string, attrs: Attrs)
      /** `if not graph.has_edge(u, v): graph.add_edge(u, v, **attrs)` */
    | EdgeIfAbsent(u: string, v: string, attrs: Attrs)
      /** `if not graph.has_node(n): graph.add_node(n, **attrs)` followed,
          inside the same `if`, by the calls of `body` */
    | NewNodeThen(n: string, attrs: Attrs, body: seq<Call>)

  function Apply(g: Graph, c: Call): Graph
    decreases c, 1
  {
    match c
    case NodeIfAbsent(n, attrs) => WithNodeIfAbsent(g, n, attrs)
    case EdgeAdd(u, v, attrs) => WithEdge(g, u, v, attrs)
    case EdgeIfAbsent(u, v, attrs) => WithEdgeIfAbsent(g, u, v, attrs)
    case NewNodeThen(n, attrs, body) => if n in g.nodes then g else Run(WithNode(g, n, attrs), body)
  }

  /** The graph after the calls, in order. */
  function Run(g: Graph, calls: seq<Call>): Graph
    decreases calls, 0
  {
    if calls == [] then g else Run(Apply(g, calls[0]), calls[1..])
  }

  /** Running two sequences one after the other is running their
      concatenation. */
  lemma {:induction false} RunAppend(g: Graph, first: seq<Call>, second: seq<Call>)
    ensures Run(g, first + second) == Run(Run(g, first), second)
    decreases first
  {
    if first == [] {
      assert first + second == second;
    } else {
      assert (first + second)[0] == first[0] && (first + second)[1..] == first[1..] + second;
      RunAppend(Apply(g, first[0]), first[1..], second);
    }
  }

  /** One more call at the end. */
  lemma RunSnoc(g: Graph, calls: seq<Call>, c: Call)
    ensures Run(g, calls + [c]) == Apply(Run(g, calls), c)
  {
    RunAppend(g, calls, [c]);
    assert [c][1..] == [];
  }

  /** Two calls in a row. */
  lemma RunPair(g: Graph, c1: Call, c2: Call)
    ensures Run(g, [c1, c2]) == Apply(Apply(g, c1), c2)
  {
    assert [c1, c2] == [c1] + [c2];
    assert [c1][1..] == [];
    RunSnoc(g, [c1], c2);
  }

  /** Every call keeps a given node, with its attributes, and a given edge. */
  lemma {:induction false} ApplyKeeps(g: Graph, c: Call, x: string, e: Edge)
    ensures Keeps(g, Apply(g, c), x, e)
    decreases c, 1
  {
    match c
    case NodeIfAbsent(n, attrs) =>
      NodeInsertionKeeps(g, n, attrs, x, e);
    case EdgeAdd(u, v, attrs) =>
      EdgeInsertionKeeps(g, u, v, attrs, x, e);
    case EdgeIfAbsent(u, v, attrs) =>
      EdgeInsertionKeeps(g, u, v, attrs, x, e);
    case NewNodeThen(n, attrs, body) =>
      if n !in g.nodes {
        NodeInsertionKeeps(g, n, attrs, x, e);
        RunKeeps(WithNode(g, n, attrs), body, x, e);
        KeepsTransitive(g, WithNode(g, n, attrs), Apply(g, c), x, e);
      }
  }

  lemma {:induction false} RunKeeps(g: Graph, calls: seq<Call>, x: string, e: Edge)
    ensures Keeps(g, Run(g, calls), x, e)
    decreases calls, 0
  {
    if calls != [] {
      ApplyKeeps(g, calls[0], x, e);
      RunKeeps(Apply(g, calls[0]), calls[1..], x, e);
      KeepsTransitive(g, Apply(g, calls[0]), Run(g, calls), x, e);
    }
  }

  /** Drawing never changes a node already in the graph and never removes
      an edge. */
  lemma RunExtends(g: Graph, calls: seq<Call>)
    ensures Extends(g, Run(g, calls))
  {
    forall x, e ensures Keeps(g, Run(g, calls), x, e) {
      RunKeeps(g, calls, x, e);
    }
    ExtendsByPoints(g, Run(g, calls));
  }

  /** What a longer sequence draws keeps what its prefix drew. */
  lemma PrefixKeeps(g: Graph, prefix: seq<Call>, calls: seq<Call>, x: string, e: Edge)
    requires prefix <= calls
    ensures Keeps(Run(g, prefix), Run(g, calls), x, e)
  {
    assert calls == prefix + calls[|prefix|..];
    RunAppend(g, prefix, calls[|prefix|..]);
    RunKeeps(Run(g, prefix), calls[|prefix|..], x, e);
  }

  /** Every edge a top-level call adds is in the graph afterwards. */
  lemma {:induction false} RunHasEdge(g: Graph, calls: seq<Call>, c: Call)
    requires c in calls && (c.EdgeAdd? || c.EdgeIfAbsent?)
    ensures (c.u, c.v) in Run(g, calls).edges
    decreases calls
  {
    if calls[0] == c {
      RunKeeps(Apply(g, c), calls[1..], c.u, (c.u, c.v));
    } else {
      assert c in calls[1..];
      RunHasEdge(Apply(g, calls[0]), calls[1..], c);
    }
  }

  /** Every node a top-level call inserts is in the graph afterwards. */
  lemma {:induction false} RunHasNode(g: Graph, calls: seq<Call>, c: Call)
    requires c in calls && c.NodeIfAbsent?
    ensures c.n in Run(g, calls).nodes
    decreases calls
  {
    if calls[0] == c {
      RunKeeps(Apply(g, c), calls[1..], c.n, (c.n, c.n));
    } else {
      assert c in calls[1..];
      RunHasNode(Apply(g, calls[0]), calls[1..], c);
    }
  }

  /** Whether a call may create node `x`, directly or as an edge's end. */
  predicate Touches(c: Call, x: string)
    decreases c, 1
  {
    match c
    case NodeIfAbsent(n, _) => n == x
    case EdgeAdd(u, v, _) => u == x || v == x
    case EdgeIfAbsent(u, v, _) => u == x || v == x
    case NewNodeThen(n, _, body) => n == x || TouchesAny(body, x)
  }

  predicate TouchesAny(calls: seq<Call>, x: string)
    decreases calls, 0
  {
    calls != [] && (Touches(calls[0], x) || TouchesAny(calls[1..], x))
  }

  lemma {:induction false} TouchesAnyAppend(first: seq<Call>, second: seq<Call>, x: string)
    ensures TouchesAny(first + second, x) <==> TouchesAny(first, x) || TouchesAny(second, x)
    decreases first
  {
    if first == [] {
      assert first + second == second;
    } else {
      assert (first + second)[0] == first[0] && (first + second)[1..] == first[1..] + second;
      TouchesAnyAppend(first[1..], second, x);
    }
  }

  lemma TouchesAnySingle(c: Call, x: string)
    ensures TouchesAny([c], x) <==> Touches(c, x)
  {
    assert [c][1..] == [];
  }

  lemma TouchesAnyPair(c1: Call, c2: Call, x: string)
    ensures TouchesAny([c1, c2], x) <==> Touches(c1, x) || Touches(c2, x)
  {
    assert [c1, c2][1..] == [c2];
    TouchesAnySingle(c2, x);
  }

  /** Calls that never name `x` leave it out of the graph when it was out. */
  lemma {:induction false} ApplyUntouched(g: Graph, c: Call, x: string)
    requires !Touches(c, x)
    ensures x in Apply(g, c).nodes <==> x in g.nodes
    decreases c, 1
  {
    match c
    case NodeIfAbsent(n, attrs) =>
    case EdgeAdd(u, v, attrs) =>
      WithEdgeMerges(g, u, v, attrs, (u, v), x);
    case EdgeIfAbsent(u, v, attrs) =>
      WithEdgeMerges(g, u, v, attrs, (u, v), x);
    case NewNodeThen(n, attrs, body) =>
      if n !in g.nodes {
        WithNodeMerges(g, n, attrs, x, x);
        RunUntouched(WithNode(g, n, attrs), body, x);
      }
  }

  lemma {:induction false} RunUntouched(g: Graph, calls: seq<Call>, x: string)
    requires !TouchesAny(calls, x)
    ensures x in Run(g, calls).nodes <==> x in g.nodes
    decreases calls, 0
  {
    if calls != [] {
      ApplyUntouched(g, calls[0], x);
      RunUntouched(Apply(g, calls[0]), calls[1..], x);
    }
  }

  /** The first guarded insertion of a node not yet drawn decides its
      attributes: later calls keep them. */
  lemma FirstInsertion(g: Graph, before: seq<Call>, x: string, attrs: Attrs, calls: seq<Call>)
    requires x !in g.nodes && !TouchesAny(before, x)
    requires before + [NodeIfAbsent(x, attrs)] <= calls
    ensures x in Run(g, calls).nodes && Run(g, calls).nodes[x] == attrs
  {
    var prefix := before + [NodeIfAbsent(x, attrs)];
    RunUntouched(g, before, x);
    RunSnoc(g, before, NodeIfAbsent(x, attrs));
    PrefixKeeps(g, prefix, calls, x, (x, x));
  }

  // Prefixes of call sequences, one step at a time.

  lemma PrefixExtend(p: seq<Call>, q: seq<Call>)
    ensures p <= p + q
  {
    assert (p + q)[..|p|] == p;
  }

  lemma PrefixHead(h: seq<Call>, p: seq<Call>, q: seq<Call>)
    requires p <= q
    ensures h + p <= h + q
  {
    assert q == p + q[|p|..];
    assert h + q == (h + p) + q[|p|..];
    PrefixExtend(h + p, q[|p|..]);
  }

  lemma PrefixTransitive(p: seq<Call>, q: seq<Call>, r: seq<Call>)
    requires p <= q && q <= r
    ensures p <= r
  {
    assert r[..|p|] == q[..|p|];
  }

  /** Calls that only insert nodes leave the edges as they are. */
  predicate OnlyNodes(calls: seq<Call>) {
    forall i :: 0 <= i < |calls| ==> calls[i].NodeIfAbsent?
  }

  lemma {:induction false} OnlyNodesKeepEdges(g: Graph, calls: seq<Call>)
    requires OnlyNodes(calls)
    ensures Run(g, calls).edges == g.edges
    decreases calls
  {
    if calls != [] {
      assert calls[0].NodeIfAbsent?;
      OnlyNodesKeepEdges(Apply(g, calls[0]), calls[1..]);
    }
  }
}
