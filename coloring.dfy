/** `colorGraphNodesAccordingToScore`: fills topic and operation nodes with a
    colour scaled by their score. */
module Coloring {
  import opened AnnotationGraphs
  import opened ScoreColor

  lemma NonEmptyHasElement(values: set<real>)
    requires values != {}
    ensures exists v :: v in values
  {
    if forall u :: u !in values {
      assert false;
    }
  }

  lemma NonEmptyHasValue(scores: map<string, real>)
    requires scores != map[]
    ensures scores.Values != {}
  {
    if forall k :: k !in scores {
      assert false;
    }
    var k :| k in scores;
    assert scores[k] in scores.Values;
  }

  /** The largest element of a non-empty set of scores. */
  ghost function MaxOf(values: set<real>): (m: real)
    requires values != {}
    ensures m in values && forall v :: v in values ==> v <= m
    decreases |values|
  {
    NonEmptyHasElement(values);
    var v :| v in values;
    if values == {v} then v
    else
      var rest := MaxOf(values - {v});
      assert forall w :: w in values ==> w == v || w in values - {v};
      if v < rest then rest else v
  }

  /** `max(scores.values(), default=0)`. */
  ghost function MaxOrZero(scores: map<string, real>): real {
    if scores == map[] then 0.0
    else
      NonEmptyHasValue(scores);
      MaxOf(scores.Values)
  }

  lemma MaxOfUnique(values: set<real>, m: real)
    requires m in values && forall v :: v in values ==> v <= m
    ensures MaxOf(values) == m
  {
  }

  /** Computes `max(scores.values(), default=0)`: the largest score, or 0
      for an empty dictionary. */
  method MaxScore(scores: map<string, real>) returns (m: real)
    ensures m == MaxOrZero(scores)
    ensures scores == map[] ==> m == 0.0
    ensures scores != map[] ==> (exists k :: k in scores && scores[k] == m) && forall k :: k in scores ==> scores[k] <= m
  {
    if scores == map[] {
      return 0.0;
    }
    var todo := scores.Keys;
    var first :| first in todo;
    m := scores[first];
    todo := todo - {first};
    while todo != {}
      invariant todo <= scores.Keys
      invariant m in scores.Values
      invariant forall k :: k in scores && k !in todo ==> scores[k] <= m
      decreases |todo|
    {
      var k :| k in todo;
      if m < scores[k] {
        m := scores[k];
      }
      todo := todo - {k};
    }
    MaxOfUnique(scores.Values, m);
  }

  /** A node's attributes after recolouring: a node whose `nodeType` is
      exactly "Topic" and whose identifier has a topic score takes the
      colour of that score against `topicMax`; likewise for "Operation";
      every other node keeps its attributes. */
  function RecolouredAttrs(n: string, attrs: Attrs, topicScores: map<string, real>, topicMax: real,
                           operationScores: map<string, real>, operationMax: real, color: string): Attrs
  {
    if "nodeType" in attrs && attrs["nodeType"] == "Topic" && n in topicScores then
      attrs["fillcolor" := ScoreColorRgb(topicScores[n], topicMax, color)]
    else if "nodeType" in attrs && attrs["nodeType"] == "Operation" && n in operationScores then
      attrs["fillcolor" := ScoreColorRgb(operationScores[n], operationMax, color)]
    else attrs
  }

  /** Whether the recolouring touches node `n`. */
  predicate IsScored(n: string, attrs: Attrs, topicScores: map<string, real>, operationScores: map<string, real>) {
    "nodeType" in attrs &&
    ((attrs["nodeType"] == "Topic" && n in topicScores) || (attrs["nodeType"] == "Operation" && n in operationScores))
  }

  /** The graph after recolouring every node. */
  function Recoloured(g: Graph, topicScores: map<string, real>, topicMax: real,
                      operationScores: map<string, real>, operationMax: real, color: string): Graph {
    Graph(map n | n in g.nodes :: RecolouredAttrs(n, g.nodes[n], topicScores, topicMax, operationScores, operationMax, color),
          g.edges)
  }

  /** The body of the node loop: sets the fill of one node when it is a
      scored topic or operation node. */
  method RecolourNode(g: AnnotationGraph, n: string, topicScores: map<string, real>, topicMax: real,
                      operationScores: map<string, real>, operationMax: real, color: string)
    requires g.Valid() && n in g.nodes
    modifies g
    ensures g.Valid() && g.edges == old(g.edges)
    ensures g.nodes == old(g.nodes)[n := RecolouredAttrs(n, old(g.nodes)[n], topicScores, topicMax,
                                                         operationScores, operationMax, color)]
  {
    var attrs := g.nodes[n];
    if "nodeType" in attrs {
      if attrs["nodeType"] == "Topic" {
        if n in topicScores {
          g.SetNodeAttr(n, "fillcolor", ScoreColorRgb(topicScores[n], topicMax, color));
        }
      } else if attrs["nodeType"] == "Operation" {
        if n in operationScores {
          g.SetNodeAttr(n, "fillcolor", ScoreColorRgb(operationScores[n], operationMax, color));
        }
      }
    }
    assert g.nodes == old(g.nodes)[n := g.nodes[n]];
  }

  /** Visits every node and sets the `fillcolor` of the scored topic and
      operation nodes; each kind is scaled against the maximum of its own
      dictionary. */
  method ColorGraphNodesAccordingToScore(g: AnnotationGraph, topicScores: map<string, real>,
                                         operationScores: map<string, real>, color: string)
    requires g.Valid()
    modifies g
    ensures g.Valid()
    ensures g.Value() == Recoloured(old(g.Value()), topicScores, MaxOrZero(topicScores),
                                    operationScores, MaxOrZero(operationScores), color)
  {
    var topicMax := MaxScore(topicScores);
    var operationMax := MaxScore(operationScores);
    RecolourAll(g, topicScores, topicMax, operationScores, operationMax, color);
  }

  /** The node loop, with the two maxima already computed. */
  method RecolourAll(g: AnnotationGraph, topicScores: map<string, real>, topicMax: real,
                     operationScores: map<string, real>, operationMax: real, color: string)
    requires g.Valid()
    modifies g
    ensures g.Valid()
    ensures g.Value() == Recoloured(old(g.Value()), topicScores, topicMax, operationScores, operationMax, color)
  {
    ghost var start := g.Value();
    ghost var target := Recoloured(start, topicScores, topicMax, operationScores, operationMax, color);
    var todo := g.nodes.Keys;
    while todo != {}
      invariant g.Valid() && todo <= start.nodes.Keys
      invariant g.nodes.Keys == start.nodes.Keys && g.edges == start.edges
      invariant RecolouredExcept(start.nodes, target.nodes, g.nodes, todo)
      decreases |todo|
    {
      var n :| n in todo;
      ghost var before := g.nodes;
      assert before[n] == start.nodes[n];
      assert target.nodes[n] == RecolouredAttrs(n, start.nodes[n], topicScores, topicMax, operationScores, operationMax, color);
      RecolourNode(g, n, topicScores, topicMax, operationScores, operationMax, color);
      RecolouredExceptStep(start.nodes, target.nodes, before, todo, n);
      todo := todo - {n};
    }
    assert g.nodes == target.nodes;
  }

  /** Every node outside `todo` already carries its new attributes, every
      node inside still its old ones. */
  ghost predicate RecolouredExcept(start: map<string, Attrs>, target: map<string, Attrs>, current: map<string, Attrs>,
                                   todo: set<string>)
  {
    current.Keys == start.Keys && todo <= start.Keys &&
    forall n :: n in start ==> n in target && current[n] == if n in todo then start[n] else target[n]
  }

  lemma RecolouredExceptStep(start: map<string, Attrs>, target: map<string, Attrs>, current: map<string, Attrs>,
                             todo: set<string>, n: string)
    requires RecolouredExcept(start, target, current, todo) && n in todo
    ensures RecolouredExcept(start, target, current[n := target[n]], todo - {n})
  {
  }

  /** Nothing but the `fillcolor` of scored topic and operation nodes
      changes: the node set, the edges, every attribute of an unscored node
      and every other attribute of a scored one stay as they were. */
  lemma RecolouredChangesOnlyFill(g: Graph, topicScores: map<string, real>, topicMax: real,
                                  operationScores: map<string, real>, operationMax: real, color: string, n: string)
    requires n in g.nodes
    ensures var h := Recoloured(g, topicScores, topicMax, operationScores, operationMax, color);
      && h.nodes.Keys == g.nodes.Keys && h.edges == g.edges
      && (!IsScored(n, g.nodes[n], topicScores, operationScores) ==> h.nodes[n] == g.nodes[n])
      && (IsScored(n, g.nodes[n], topicScores, operationScores) ==>
            h.nodes[n].Keys == g.nodes[n].Keys + {"fillcolor"} &&
            forall k :: k in g.nodes[n] && k != "fillcolor" ==> h.nodes[n][k] == g.nodes[n][k])
  {
  }

  /** A scored topic node is filled with its score's colour on the topic
      scale, a scored operation node with its score's colour on the
      operation scale. */
  lemma RecolouredFill(g: Graph, topicScores: map<string, real>, operationScores: map<string, real>,
                       color: string, n: string)
    requires n in g.nodes && IsScored(n, g.nodes[n], topicScores, operationScores)
    ensures var h := Recoloured(g, topicScores, MaxOrZero(topicScores), operationScores, MaxOrZero(operationScores), color);
      "fillcolor" in h.nodes[n] &&
      h.nodes[n]["fillcolor"] == if g.nodes[n]["nodeType"] == "Topic"
                                 then ScoreColorRgb(topicScores[n], MaxOrZero(topicScores), color)
                                 else ScoreColorRgb(operationScores[n], MaxOrZero(operationScores), color)
  {
  }

  /** Recolouring twice gives the same graph as recolouring once: the new
      fill depends only on the node type, which is left alone. */
  lemma RecolouredIdempotent(g: Graph, topicScores: map<string, real>, topicMax: real,
                             operationScores: map<string, real>, operationMax: real, color: string)
    ensures var once := Recoloured(g, topicScores, topicMax, operationScores, operationMax, color);
      Recoloured(once, topicScores, topicMax, operationScores, operationMax, color) == once
  {
    var once := Recoloured(g, topicScores, topicMax, operationScores, operationMax, color);
    var twice := Recoloured(once, topicScores, topicMax, operationScores, operationMax, color);
    forall n | n in g.nodes ensures twice.nodes[n] == once.nodes[n] {
      var a := g.nodes[n];
      if "nodeType" in a && a["nodeType"] == "Topic" && n in topicScores {
        assert once.nodes[n]["nodeType"] == "Topic";
      } else if "nodeType" in a && a["nodeType"] == "Operation" && n in operationScores {
        assert once.nodes[n]["nodeType"] == "Operation";
      }
    }
  }

  /** The best-scored topic node, with a maximum of at least 1 and a palette
      colour, is filled with exactly that colour; a node scored 0 stays
      white. */
  lemma TopAndZeroScores(g: Graph, topicScores: map<string, real>, operationScores: map<string, real>,
                         color: string, n: string)
    requires n in g.nodes && "nodeType" in g.nodes[n] && g.nodes[n]["nodeType"] == "Topic" && n in topicScores
    ensures var h := Recoloured(g, topicScores, MaxOrZero(topicScores), operationScores, MaxOrZero(operationScores), color);
      && (topicScores[n] == 0.0 ==> h.nodes[n]["fillcolor"] == "#ffffff")
      && (topicScores[n] == MaxOrZero(topicScores) >= 1.0 && PaletteTarget(color).Some? ==>
            h.nodes[n]["fillcolor"] == FormatRgb(PaletteTarget(color).value))
  {
    var m := MaxOrZero(topicScores);
    ZeroScoreIsWhite(m, color);
    if m >= 1.0 && PaletteTarget(color).Some? {
      ScoreAtMaxIsTarget(m, color);
    }
  }
}
