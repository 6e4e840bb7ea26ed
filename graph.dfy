/** The part of a pygraphviz `AGraph` that EDAMannot.py relies on. The
    graph is strict and directed: at most one edge per ordered pair of
    nodes. Adding a node or an edge that already exists merges the given
    attributes into the existing ones. Adding an edge creates missing
    endpoints without attributes. Layout, rendering and subgraph clusters
    are not modelled. */
module AnnotationGraphs {

  /** A node's or an edge's attributes; a key is present once it is set. */
  type Attrs = map<string, string>

  type Edge = (string, string)

  /** The content of a graph as a value. */
  datatype Graph = Graph(nodes: map<string, Attrs>, edges: map<Edge, Attrs>)

  /** Every edge joins two nodes of the graph. */
  predicate Closed(g: Graph) {
    forall e :: e in g.edges ==> e.0 in g.nodes && e.1 in g.nodes
  }

  /** `h` keeps every node of `g` with unchanged attributes, and every edge. */
  predicate Extends(g: Graph, h: Graph) {
    && (forall n :: n in g.nodes ==> n in h.nodes && h.nodes[n] == g.nodes[n])
    && (forall e :: e in g.edges ==> e in h.edges)
  }

  lemma ExtendsTransitive(g1: Graph, g2: Graph, g3: Graph)
    requires Extends(g1, g2) && Extends(g2, g3)
    ensures Extends(g1, g3)
  {
  }

  /** Every attribute of `wanted` is set in `m` with the same value. */
  predicate HasAttrs(m: Attrs, wanted: Attrs) {
    forall k :: k in wanted ==> k in m && m[k] == wanted[k]
  }

  /** The pointwise form of `Extends`: node `n`, if `g` has it, is in `h`
      with the same attributes, and edge `e`, if `g` has it, is in `h`. */
  predicate Keeps(g: Graph, h: Graph, n: string, e: Edge) {
    && (n in g.nodes ==> n in h.nodes && h.nodes[n] == g.nodes[n])
    && (e in g.edges ==> e in h.edges)
  }

  /** `h` extends `g` when it keeps every node and every edge of `g`. */
  lemma ExtendsByPoints(g: Graph, h: Graph)
    requires forall n, e :: Keeps(g, h, n, e)
    ensures Extends(g, h)
  {
    forall n | n in g.nodes ensures n in h.nodes && h.nodes[n] == g.nodes[n] {
      assert Keeps(g, h, n, (n, n));
    }
    forall e | e in g.edges ensures e in h.edges {
      assert Keeps(g, h, e.0, e);
    }
  }

  const EmptyGraph := Graph(map[], map[])

  /** `add_node(n, **attrs)`: creates the node or merges into it. */
  function WithNode(g: Graph, n: string, attrs: Attrs): (h: Graph)
    ensures n in h.nodes && h.edges == g.edges
    ensures n !in g.nodes ==> h.nodes[n] == attrs
  {
    Graph(g.nodes[n := (if n in g.nodes then g.nodes[n] else map[]) + attrs], g.edges)
  }

  /** Merging into a node sets every attribute given, keeps the attributes
      it does not name, keeps the other nodes, and adds no other node. */
  lemma WithNodeMerges(g: Graph, n: string, attrs: Attrs, m: string, k: string)
    ensures HasAttrs(WithNode(g, n, attrs).nodes[n], attrs)
    ensures n in g.nodes && k in g.nodes[n] && k !in attrs ==> WithNode(g, n, attrs).nodes[n][k] == g.nodes[n][k]
    ensures m != n ==> (m in WithNode(g, n, attrs).nodes <==> m in g.nodes)
    ensures m in g.nodes && m != n ==> WithNode(g, n, attrs).nodes[m] == g.nodes[m]
  {
  }

  /** `if not graph.has_node(n): graph.add_node(n, **attrs)`: the first
      insertion's attributes are the ones that stay. */
  function WithNodeIfAbsent(g: Graph, n: string, attrs: Attrs): (h: Graph)
    ensures n in h.nodes && h.edges == g.edges
    ensures n !in g.nodes ==> h.nodes[n] == attrs
    ensures n in g.nodes ==> h == g
  {
    if n in g.nodes then g else WithNode(g, n, attrs)
  }

  /** A node created without attributes unless it already exists. */
  function Touched(nodes: map<string, Attrs>, n: string): map<string, Attrs> {
    if n in nodes then nodes else nodes[n := map[]]
  }

  /** `add_edge(u, v, **attrs)`: creates the edge or merges into it, and
      creates missing endpoints bare. */
  function WithEdge(g: Graph, u: string, v: string, attrs: Attrs): (h: Graph)
    ensures (u, v) in h.edges && u in h.nodes && v in h.nodes
    ensures (u, v) !in g.edges ==> h.edges[(u, v)] == attrs
  {
    Graph(Touched(Touched(g.nodes, u), v),
          g.edges[(u, v) := (if (u, v) in g.edges then g.edges[(u, v)] else map[]) + attrs])
  }

  /** `if not graph.has_edge(u, v): graph.add_edge(u, v, **attrs)`. */
  function WithEdgeIfAbsent(g: Graph, u: string, v: string, attrs: Attrs): (h: Graph)
    ensures (u, v) in h.edges
    ensures (u, v) !in g.edges ==> h.edges[(u, v)] == attrs
    ensures (u, v) in g.edges ==> h == g
  {
    if (u, v) in g.edges then g else WithEdge(g, u, v, attrs)
  }

  /** The guarded node insertion and both edge insertions keep every node
      and every edge, and every edge joins two nodes afterwards when it did
      before. */
  lemma AdditionsExtend(g: Graph, n: string, u: string, v: string, attrs: Attrs)
    ensures Extends(g, WithNodeIfAbsent(g, n, attrs))
    ensures Extends(g, WithEdge(g, u, v, attrs)) && Extends(g, WithEdgeIfAbsent(g, u, v, attrs))
    ensures Closed(g) ==> Closed(WithNode(g, n, attrs)) && Closed(WithNodeIfAbsent(g, n, attrs))
    ensures Closed(g) ==> Closed(WithEdge(g, u, v, attrs)) && Closed(WithEdgeIfAbsent(g, u, v, attrs))
  {
  }

  /** Point by point: each insertion keeps a given node and a given edge. */
  lemma NodeInsertionKeeps(g: Graph, n: string, attrs: Attrs, x: string, e: Edge)
    ensures Keeps(g, WithNodeIfAbsent(g, n, attrs), x, e)
    ensures n !in g.nodes ==> Keeps(g, WithNode(g, n, attrs), x, e)
  {
  }

  lemma EdgeInsertionKeeps(g: Graph, u: string, v: string, attrs: Attrs, x: string, e: Edge)
    ensures Keeps(g, WithEdge(g, u, v, attrs), x, e) && Keeps(g, WithEdgeIfAbsent(g, u, v, attrs), x, e)
  {
  }

  lemma KeepsTransitive(g1: Graph, g2: Graph, g3: Graph, x: string, e: Edge)
    requires Keeps(g1, g2, x, e) && Keeps(g2, g3, x, e)
    ensures Keeps(g1, g3, x, e)
  {
  }

  /** Adding an edge merges the given attributes into it and leaves the
      attributes of every other edge as they were; the graph gains at most
      the edge and its two endpoints. */
  lemma WithEdgeMerges(g: Graph, u: string, v: string, attrs: Attrs, e: Edge, m: string)
    ensures HasAttrs(WithEdge(g, u, v, attrs).edges[(u, v)], attrs)
    ensures e in g.edges && e != (u, v) ==> WithEdge(g, u, v, attrs).edges[e] == g.edges[e]
    ensures e in WithEdge(g, u, v, attrs).edges <==> e in g.edges || e == (u, v)
    ensures m in WithEdge(g, u, v, attrs).nodes <==> m in g.nodes || m == u || m == v
  {
  }

  /** `graph.get_node(n).attr[key] = value` on an existing node. */
  function WithNodeAttr(g: Graph, n: string, key: string, value: string): (h: Graph)
    requires n in g.nodes
    ensures n in h.nodes && key in h.nodes[n] && h.nodes[n][key] == value && h.edges == g.edges
  {
    g.(nodes := g.nodes[n := g.nodes[n][key := value]])
  }

  /** Setting one attribute leaves the node's other attributes and every
      other node as they were. */
  lemma WithNodeAttrKeepsOthers(g: Graph, n: string, key: string, value: string, m: string, k: string)
    requires n in g.nodes
    ensures k in g.nodes[n] && k != key ==> WithNodeAttr(g, n, key, value).nodes[n][k] == g.nodes[n][k]
    ensures m != n ==> (m in WithNodeAttr(g, n, key, value).nodes <==> m in g.nodes)
    ensures m in g.nodes && m != n ==> WithNodeAttr(g, n, key, value).nodes[m] == g.nodes[m]
  {
  }

  /** Adding a node that is already there leaves the graph as it is, so a
      repeated guarded insertion is harmless. */
  lemma WithNodeIfAbsentIdempotent(g: Graph, n: string, a1: Attrs, a2: Attrs)
    ensures WithNodeIfAbsent(WithNodeIfAbsent(g, n, a1), n, a2) == WithNodeIfAbsent(g, n, a1)
  {
  }

  /** Without the guard, a second insertion overrides the attributes it
      names: this is why the builders test `has_node` first. */
  lemma WithNodeOverrides(g: Graph, n: string, a1: Attrs, a2: Attrs, k: string)
    requires k in a2
    ensures WithNode(WithNode(g, n, a1), n, a2).nodes[n][k] == a2[k]
  {
  }

  /** A strict graph keeps one edge per ordered pair: adding it twice with
      the same attributes is adding it once. */
  lemma WithEdgeIdempotent(g: Graph, u: string, v: string, attrs: Attrs)
    ensures WithEdge(WithEdge(g, u, v, attrs), u, v, attrs) == WithEdge(g, u, v, attrs)
  {
    var h := WithEdge(g, u, v, attrs);
    var m := if (u, v) in g.edges then g.edges[(u, v)] else map[];
    assert (m + attrs) + attrs == m + attrs;
  }

  /** A pygraphviz graph object, updated in place by the builders and by the
      colouring. */
  class AnnotationGraph {
    var nodes: map<string, Attrs>
    var edges: map<Edge, Attrs>

    function Value(): Graph
      reads this
    {
      Graph(nodes, edges)
    }

    ghost predicate Valid()
      reads this
    {
      Closed(Value())
    }

    /** `pgv.AGraph(directed=True, rankdir="BT")`. */
    constructor ()
      ensures Valid() && Value() == EmptyGraph
    {
      nodes, edges := map[], map[];
    }

    method AddNode(n: string, attrs: Attrs)
      requires Valid()
      modifies this
      ensures Valid() && Value() == WithNode(old(Value()), n, attrs)
    {
      nodes := nodes[n := (if n in nodes then nodes[n] else map[]) + attrs];
    }

    method AddNodeIfAbsent(n: string, attrs: Attrs)
      requires Valid()
      modifies this
      ensures Valid() && Value() == WithNodeIfAbsent(old(Value()), n, attrs)
    {
      if n !in nodes {
        AddNode(n, attrs);
      }
    }

    method AddEdge(u: string, v: string, attrs: Attrs)
      requires Valid()
      modifies this
      ensures Valid() && Value() == WithEdge(old(Value()), u, v, attrs)
    {
      nodes := Touched(Touched(nodes, u), v);
      edges := edges[(u, v) := (if (u, v) in edges then edges[(u, v)] else map[]) + attrs];
    }

    method AddEdgeIfAbsent(u: string, v: string, attrs: Attrs)
      requires Valid()
      modifies this
      ensures Valid() && Value() == WithEdgeIfAbsent(old(Value()), u, v, attrs)
    {
      if (u, v) !in edges {
        AddEdge(u, v, attrs);
      }
    }

    method SetNodeAttr(n: string, key: string, value: string)
      requires Valid() && n in nodes
      modifies this
      ensures Valid() && Value() == WithNodeAttr(old(Value()), n, key, value)
    {
      nodes := nodes[n := nodes[n][key := value]];
    }
  }
}
