/** `addToolAndAnnotationsToGraph` and `addToolsAndAnnotationsToGraph`: the
    graph of one or several tools, their direct EDAM annotations, the
    ancestors of those annotations and, on request, their deprecated
    annotations with the suggested replacements. The store's answers are
    inputs (`StoreAnswers.Answers`). Each builder is specified by the calls
    it makes (`GraphCalls.Call`), so what holds of every call sequence holds
    of each builder: a node is added only when absent and keeps the
    attributes of its first insertion, and no edge disappears. */
module GraphBuilder {
  import opened Wrappers
  import opened Ident
  import opened StoreAnswers
  import opened AnnotationGraphs
  import opened GraphCalls
  import Scores

  /** The values of the `nodeType` attribute, which also select the
      `style` (the `conceptStyle` table). */
  datatype NodeKind =
    | ToolNode | TopicNode | DeprecatedTopicNode | AlternativeTopicNode
    | OperationNode | DeprecatedOperationNode | AlternativeOperationNode

  function KindName(k: NodeKind): string {
    match k
    case ToolNode => "Tool"
    case TopicNode => "Topic"
    case DeprecatedTopicNode => "TopicDeprecated"
    case AlternativeTopicNode => "TopicAlternative"
    case OperationNode => "Operation"
    case DeprecatedOperationNode => "OperationDeprecated"
    case AlternativeOperationNode => "OperationAlternative"
  }

  function KindStyle(k: NodeKind): string {
    match k
    case ToolNode => "filled"
    case TopicNode => "filled"
    case DeprecatedTopicNode => "filled,dashed"
    case AlternativeTopicNode => "filled,dotted"
    case OperationNode => "rounded,filled"
    case DeprecatedOperationNode => "rounded,filled,dashed"
    case AlternativeOperationNode => "rounded,filled,dotted"
  }

  /** Only the `TopicNode` kind is named "Topic" and only the `OperationNode` kind
      "Operation", so the colouring by score touches exactly the
      non-deprecated concept nodes the builders add. */
  lemma KindNamesDistinct(k: NodeKind)
    ensures KindName(k) == "Topic" <==> k == TopicNode
    ensures KindName(k) == "Operation" <==> k == OperationNode
  {
  }

  const White := "#ffffff"

  function ToolNodeAttrs(labelText: string): Attrs {
    map["label" := labelText, "shape" := "ellipse", "color" := "blue", "nodeType" := KindName(ToolNode),
        "style" := KindStyle(ToolNode), "fillcolor" := White]
  }

  /** A directly asserted (or deprecated, or alternative) concept:
      `"{label}\n({ident})"`. */
  function DirectNodeAttrs(labelText: string, ident: string, kind: NodeKind, color: string): Attrs {
    map["label" := labelText + "\n(" + ident + ")", "nodeType" := KindName(kind), "shape" := "box",
        "color" := color, "style" := KindStyle(kind), "fillcolor" := White]
  }

  /** A concept met through the hierarchy: `"{label}\n{ident}"`. */
  function HierarchyNodeAttrs(labelText: string, ident: string, kind: NodeKind, color: string): Attrs {
    map["label" := labelText + "\n" + ident, "shape" := "box", "color" := color, "nodeType" := KindName(kind),
        "style" := KindStyle(kind), "fillcolor" := White]
  }

  const AnnotationEdgeAttrs: Attrs :=
    map["arrowhead" := "vee", "color" := "blue", "fontcolor" := "blue", "style" := "dashed"]
  const SubclassEdgeAttrs: Attrs := map["arrowhead" := "onormal"]
  const DeprecatedEdgeAttrs: Attrs :=
    map["arrowhead" := "vee", "color" := "grey", "fontcolor" := "grey", "style" := "dashed"]
  const AlternativeSubclassEdgeAttrs: Attrs := map["arrowhead" := "onormal", "color" := "grey", "style" := "dotted"]
  const ConsiderEdgeAttrs: Attrs :=
    map["arrowhead" := "vee", "color" := "grey", "fontcolor" := "grey", "style" := "dotted"]

  /** The five attributes set on a node common to all tools. */
  const HighlightAttrs: Attrs :=
    map["color" := "red", "penwidth" := "3", "style" := "filled,bold", "fillcolor" := "red",
        "highlightIntersection" := "True"]

  /** The colour of directly asserted concepts. */
  function DirectColor(highlightDirect: bool): string {
    if highlightDirect then "red" else "black"
  }

  // ---------------------------------------------------------------------
  // The calls each loop makes, in order. Each list over rows covers the
  // first `n` of them.

  /** The tool node, once per label row. */
  function ToolNodeCalls(toolIdent: string, labels: seq<string>, n: nat): seq<Call>
    requires n <= |labels|
  {
    if n == 0 then []
    else ToolNodeCalls(toolIdent, labels, n - 1) + [NodeIfAbsent(toolIdent, ToolNodeAttrs(labels[n - 1]))]
  }

  /** One direct annotation: its node if absent, and the tool's edge to it. */
  function DirectRowCalls(toolIdent: string, row: ConceptRow, kind: NodeKind, color: string): seq<Call> {
    var ident := ConceptIdent(row.uri);
    [NodeIfAbsent(ident, DirectNodeAttrs(row.labelText, ident, kind, color)), EdgeAdd(toolIdent, ident, AnnotationEdgeAttrs)]
  }

  function DirectCalls(toolIdent: string, rows: seq<ConceptRow>, n: nat, kind: NodeKind, color: string): seq<Call>
    requires n <= |rows|
  {
    if n == 0 then []
    else DirectCalls(toolIdent, rows, n - 1, kind, color) + DirectRowCalls(toolIdent, rows[n - 1], kind, color)
  }

  /** One hierarchy row: both ends if absent, and the subclass edge. The
      replacement-concept hierarchy adds its edge only when absent, with
      its own attributes. */
  function AncestryRowCalls(row: HierarchyRow, kind: NodeKind, color: string, alternative: bool): seq<Call> {
    var sub, super := ConceptIdent(row.sub), ConceptIdent(row.super);
    [NodeIfAbsent(sub, HierarchyNodeAttrs(row.subLabel, sub, kind, color)),
     NodeIfAbsent(super, HierarchyNodeAttrs(row.superLabel, super, kind, color))]
    + [if alternative then EdgeIfAbsent(sub, super, AlternativeSubclassEdgeAttrs) else EdgeAdd(sub, super, SubclassEdgeAttrs)]
  }

  function AncestryCalls(rows: seq<HierarchyRow>, n: nat, kind: NodeKind, color: string, alternative: bool): seq<Call>
    requires n <= |rows|
  {
    if n == 0 then []
    else AncestryCalls(rows, n - 1, kind, color, alternative) + AncestryRowCalls(rows[n - 1], kind, color, alternative)
  }

  /** The whole hierarchy above one concept, drawn in black. */
  function HierarchyCalls(a: Answers, c: ConceptRow, kind: NodeKind): seq<Call> {
    var rows := Ancestry(a, c.uri);
    AncestryCalls(rows, |rows|, kind, "black", false)
  }

  /** The hierarchy above each direct annotation, one concept after the
      other. */
  function AllAncestryCalls(a: Answers, concepts: seq<ConceptRow>, n: nat, kind: NodeKind): seq<Call>
    requires n <= |concepts|
  {
    if n == 0 then []
    else AllAncestryCalls(a, concepts, n - 1, kind) + HierarchyCalls(a, concepts[n - 1], kind)
  }

  /** The direct annotations of one kind, then the hierarchy above them. */
  function AnnotationCalls(a: Answers, toolIdent: string, direct: seq<ConceptRow>, kind: NodeKind, color: string)
    : seq<Call>
  {
    DirectCalls(toolIdent, direct, |direct|, kind, color) + AllAncestryCalls(a, direct, |direct|, kind)
  }

  /** A deprecated annotation's grey node, if absent, and the tool's edge
      to it. */
  function DeprecatedNodeCalls(toolIdent: string, row: DeprecatedRow, kind: NodeKind): seq<Call> {
    var ident := ConceptIdent(row.uri);
    [NodeIfAbsent(ident, DirectNodeAttrs(row.labelText, ident, kind, "grey")), EdgeAdd(toolIdent, ident, DeprecatedEdgeAttrs)]
  }

  /** A replacement concept: when not drawn yet, its node and the grey
      hierarchy above it; then the `consider` edge from the deprecated
      concept `ident`. */
  function AlternativeCalls(a: Answers, ident: string, alt: Alternative, kind: NodeKind): seq<Call> {
    var altIdent, rows := ConceptIdent(alt.uri), Ancestry(a, alt.uri);
    [NewNodeThen(altIdent, DirectNodeAttrs(alt.labelText, altIdent, kind, "grey"),
                 AncestryCalls(rows, |rows|, kind, "grey", true)),
     EdgeAdd(ident, altIdent, ConsiderEdgeAttrs)]
  }

  /** One deprecated annotation and its replacement, if it has one. */
  function DeprecatedRowCalls(a: Answers, toolIdent: string, row: DeprecatedRow, kind: NodeKind,
                              alternativeKind: NodeKind): seq<Call>
  {
    DeprecatedNodeCalls(toolIdent, row, kind) +
      match row.alternative
      case None => []
      case Some(alt) => AlternativeCalls(a, ConceptIdent(row.uri), alt, alternativeKind)
  }

  function DeprecatedCalls(a: Answers, toolIdent: string, rows: seq<DeprecatedRow>, n: nat, kind: NodeKind,
                           alternativeKind: NodeKind): seq<Call>
    requires n <= |rows|
  {
    if n == 0 then []
    else DeprecatedCalls(a, toolIdent, rows, n - 1, kind, alternativeKind)
         + DeprecatedRowCalls(a, toolIdent, rows[n - 1], kind, alternativeKind)
  }

  /** The deprecated topics, then the deprecated operations. */
  function AllDeprecatedCalls(a: Answers, toolUri: string): seq<Call> {
    var toolIdent := ToolIdent(toolUri);
    var topics, operations := RowsOf(a.deprecatedTopics, toolUri), RowsOf(a.deprecatedOperations, toolUri);
    DeprecatedCalls(a, toolIdent, topics, |topics|, DeprecatedTopicNode, AlternativeTopicNode)
    + DeprecatedCalls(a, toolIdent, operations, |operations|, DeprecatedOperationNode, AlternativeOperationNode)
  }

  /** The calls of `addToolAndAnnotationsToGraph`: the tool node, then the
      topics, the operations and the deprecated annotations, each when
      shown. */
  function ToolCalls(a: Answers, toolUri: string, showTopics: bool, showOperations: bool, showDeprecated: bool,
                     highlightDirect: bool): seq<Call>
  {
    var toolIdent, labels, color := ToolIdent(toolUri), RowsOf(a.toolLabels, toolUri), DirectColor(highlightDirect);
    ToolNodeCalls(toolIdent, labels, |labels|)
    + (if showTopics then AnnotationCalls(a, toolIdent, ToolTopics(a, toolUri, false), TopicNode, color) else [])
    + (if showOperations then AnnotationCalls(a, toolIdent, ToolOperations(a, toolUri, false), OperationNode, color)
       else [])
    + (if showDeprecated then AllDeprecatedCalls(a, toolUri) else [])
  }

  /** The first `n` tools in turn, deprecated annotations not shown. */
  function ToolsCalls(a: Answers, tools: seq<string>, n: nat, showTopics: bool, showOperations: bool,
                      highlightDirect: bool): seq<Call>
    requires n <= |tools|
  {
    if n == 0 then []
    else ToolsCalls(a, tools, n - 1, showTopics, showOperations, highlightDirect)
         + ToolCalls(a, tools[n - 1], showTopics, showOperations, false, highlightDirect)
  }

  // ---------------------------------------------------------------------
  // One more row of each loop.

  lemma ToolNodeCallsStep(g: Graph, toolIdent: string, labels: seq<string>, i: nat)
    requires i < |labels|
    ensures Run(g, ToolNodeCalls(toolIdent, labels, i + 1))
      == Apply(Run(g, ToolNodeCalls(toolIdent, labels, i)), NodeIfAbsent(toolIdent, ToolNodeAttrs(labels[i])))
  {
    RunSnoc(g, ToolNodeCalls(toolIdent, labels, i), NodeIfAbsent(toolIdent, ToolNodeAttrs(labels[i])));
  }

  lemma DirectCallsStep(g: Graph, toolIdent: string, rows: seq<ConceptRow>, i: nat, kind: NodeKind, color: string)
    requires i < |rows|
    ensures Run(g, DirectCalls(toolIdent, rows, i + 1, kind, color))
      == Run(Run(g, DirectCalls(toolIdent, rows, i, kind, color)), DirectRowCalls(toolIdent, rows[i], kind, color))
  {
    RunAppend(g, DirectCalls(toolIdent, rows, i, kind, color), DirectRowCalls(toolIdent, rows[i], kind, color));
  }

  lemma AncestryCallsStep(g: Graph, rows: seq<HierarchyRow>, i: nat, kind: NodeKind, color: string, alternative: bool)
    requires i < |rows|
    ensures Run(g, AncestryCalls(rows, i + 1, kind, color, alternative))
      == Run(Run(g, AncestryCalls(rows, i, kind, color, alternative)), AncestryRowCalls(rows[i], kind, color, alternative))
  {
    RunAppend(g, AncestryCalls(rows, i, kind, color, alternative), AncestryRowCalls(rows[i], kind, color, alternative));
  }

  lemma AllAncestryCallsStep(g: Graph, a: Answers, concepts: seq<ConceptRow>, i: nat, kind: NodeKind)
    requires i < |concepts|
    ensures Run(g, AllAncestryCalls(a, concepts, i + 1, kind))
      == Run(Run(g, AllAncestryCalls(a, concepts, i, kind)), HierarchyCalls(a, concepts[i], kind))
  {
    RunAppend(g, AllAncestryCalls(a, concepts, i, kind), HierarchyCalls(a, concepts[i], kind));
  }

  lemma DeprecatedCallsStep(g: Graph, a: Answers, toolIdent: string, rows: seq<DeprecatedRow>, i: nat, kind: NodeKind,
                            alternativeKind: NodeKind)
    requires i < |rows|
    ensures Run(g, DeprecatedCalls(a, toolIdent, rows, i + 1, kind, alternativeKind))
      == Run(Run(g, DeprecatedCalls(a, toolIdent, rows, i, kind, alternativeKind)),
             DeprecatedRowCalls(a, toolIdent, rows[i], kind, alternativeKind))
  {
    RunAppend(g, DeprecatedCalls(a, toolIdent, rows, i, kind, alternativeKind),
              DeprecatedRowCalls(a, toolIdent, rows[i], kind, alternativeKind));
  }

  /** The calls of one tool, part after part. */
  lemma ToolCallsSplit(g: Graph, a: Answers, toolUri: string, showTopics: bool, showOperations: bool,
                       showDeprecated: bool, highlightDirect: bool)
    ensures var toolIdent, labels, color := ToolIdent(toolUri), RowsOf(a.toolLabels, toolUri), DirectColor(highlightDirect);
      var g1 := Run(g, ToolNodeCalls(toolIdent, labels, |labels|));
      var g2 := if showTopics then Run(g1, AnnotationCalls(a, toolIdent, ToolTopics(a, toolUri, false), TopicNode, color))
                else g1;
      var g3 := if showOperations
                then Run(g2, AnnotationCalls(a, toolIdent, ToolOperations(a, toolUri, false), OperationNode, color))
                else g2;
      Run(g, ToolCalls(a, toolUri, showTopics, showOperations, showDeprecated, highlightDirect))
        == if showDeprecated then Run(g3, AllDeprecatedCalls(a, toolUri)) else g3
  {
    var toolIdent, labels, color := ToolIdent(toolUri), RowsOf(a.toolLabels, toolUri), DirectColor(highlightDirect);
    var nodeCalls := ToolNodeCalls(toolIdent, labels, |labels|);
    var topicCalls := if showTopics then AnnotationCalls(a, toolIdent, ToolTopics(a, toolUri, false), TopicNode, color)
                      else [];
    var operationCalls := if showOperations
                          then AnnotationCalls(a, toolIdent, ToolOperations(a, toolUri, false), OperationNode, color)
                          else [];
    var deprecatedCalls := if showDeprecated then AllDeprecatedCalls(a, toolUri) else [];
    RunAppend(g, nodeCalls, topicCalls);
    RunAppend(g, nodeCalls + topicCalls, operationCalls);
    RunAppend(g, nodeCalls + topicCalls + operationCalls, deprecatedCalls);
  }

  lemma AllDeprecatedCallsSplit(g: Graph, a: Answers, toolUri: string)
    ensures var toolIdent := ToolIdent(toolUri);
      var topics, operations := RowsOf(a.deprecatedTopics, toolUri), RowsOf(a.deprecatedOperations, toolUri);
      Run(g, AllDeprecatedCalls(a, toolUri))
        == Run(Run(g, DeprecatedCalls(a, toolIdent, topics, |topics|, DeprecatedTopicNode, AlternativeTopicNode)),
               DeprecatedCalls(a, toolIdent, operations, |operations|, DeprecatedOperationNode, AlternativeOperationNode))
  {
    var toolIdent := ToolIdent(toolUri);
    var topics, operations := RowsOf(a.deprecatedTopics, toolUri), RowsOf(a.deprecatedOperations, toolUri);
    RunAppend(g, DeprecatedCalls(a, toolIdent, topics, |topics|, DeprecatedTopicNode, AlternativeTopicNode),
              DeprecatedCalls(a, toolIdent, operations, |operations|, DeprecatedOperationNode, AlternativeOperationNode));
  }

  lemma ToolsCallsStep(g: Graph, a: Answers, tools: seq<string>, i: nat, showTopics: bool, showOperations: bool,
                       highlightDirect: bool)
    requires i < |tools|
    ensures Run(g, ToolsCalls(a, tools, i + 1, showTopics, showOperations, highlightDirect))
      == Run(Run(g, ToolsCalls(a, tools, i, showTopics, showOperations, highlightDirect)),
             ToolCalls(a, tools[i], showTopics, showOperations, false, highlightDirect))
  {
    RunAppend(g, ToolsCalls(a, tools, i, showTopics, showOperations, highlightDirect),
              ToolCalls(a, tools[i], showTopics, showOperations, false, highlightDirect));
  }

  // ---------------------------------------------------------------------
  // Where each call is in the lists.

  lemma {:induction false} ToolNodeCallsHave(toolIdent: string, labels: seq<string>, n: nat, j: nat)
    requires j < n <= |labels|
    ensures NodeIfAbsent(toolIdent, ToolNodeAttrs(labels[j])) in ToolNodeCalls(toolIdent, labels, n)
  {
    if j < n - 1 {
      ToolNodeCallsHave(toolIdent, labels, n - 1, j);
    }
  }

  /** The label rows name no node but the tool and insert nothing else. */
  lemma {:induction false} ToolNodeCallsShape(toolIdent: string, labels: seq<string>, n: nat, x: string)
    requires n <= |labels|
    ensures OnlyNodes(ToolNodeCalls(toolIdent, labels, n))
    ensures x != toolIdent ==> !TouchesAny(ToolNodeCalls(toolIdent, labels, n), x)
  {
    if n > 0 {
      var c := NodeIfAbsent(toolIdent, ToolNodeAttrs(labels[n - 1]));
      ToolNodeCallsShape(toolIdent, labels, n - 1, x);
      TouchesAnyAppend(ToolNodeCalls(toolIdent, labels, n - 1), [c], x);
      TouchesAnySingle(c, x);
    }
  }

  lemma {:induction false} ToolNodeCallsPrefix(toolIdent: string, labels: seq<string>, m: nat, n: nat)
    requires m <= n <= |labels|
    ensures ToolNodeCalls(toolIdent, labels, m) <= ToolNodeCalls(toolIdent, labels, n)
  {
    if m < n {
      ToolNodeCallsPrefix(toolIdent, labels, m, n - 1);
    }
  }

  lemma {:induction false} DirectCallsEdge(toolIdent: string, rows: seq<ConceptRow>, n: nat, kind: NodeKind,
                                           color: string, j: nat)
    requires j < n <= |rows|
    ensures EdgeAdd(toolIdent, ConceptIdent(rows[j].uri), AnnotationEdgeAttrs) in DirectCalls(toolIdent, rows, n, kind, color)
  {
    if j < n - 1 {
      DirectCallsEdge(toolIdent, rows, n - 1, kind, color, j);
    }
  }

  /** The direct rows name only the tool and their own concepts. */
  lemma {:induction false} DirectCallsUntouched(toolIdent: string, rows: seq<ConceptRow>, n: nat, kind: NodeKind,
                                                color: string, x: string)
    requires n <= |rows| && x != toolIdent
    requires forall j :: 0 <= j < n ==> ConceptIdent(rows[j].uri) != x
    ensures !TouchesAny(DirectCalls(toolIdent, rows, n, kind, color), x)
  {
    if n > 0 {
      var row := DirectRowCalls(toolIdent, rows[n - 1], kind, color);
      DirectCallsUntouched(toolIdent, rows, n - 1, kind, color, x);
      TouchesAnyAppend(DirectCalls(toolIdent, rows, n - 1, kind, color), row, x);
      TouchesAnyPair(row[0], row[1], x);
    }
  }

  lemma {:induction false} DirectCallsPrefix(toolIdent: string, rows: seq<ConceptRow>, m: nat, n: nat, kind: NodeKind,
                                             color: string)
    requires m <= n <= |rows|
    ensures DirectCalls(toolIdent, rows, m, kind, color) <= DirectCalls(toolIdent, rows, n, kind, color)
  {
    if m < n {
      DirectCallsPrefix(toolIdent, rows, m, n - 1, kind, color);
    }
  }

  lemma {:induction false} AncestryCallsEdge(rows: seq<HierarchyRow>, n: nat, kind: NodeKind, color: string, j: nat)
    requires j < n <= |rows|
    ensures EdgeAdd(ConceptIdent(rows[j].sub), ConceptIdent(rows[j].super), SubclassEdgeAttrs)
      in AncestryCalls(rows, n, kind, color, false)
  {
    if j < n - 1 {
      AncestryCallsEdge(rows, n - 1, kind, color, j);
    }
  }

  lemma {:induction false} AllAncestryCallsEdge(a: Answers, concepts: seq<ConceptRow>, n: nat, kind: NodeKind, j: nat,
                                                r: HierarchyRow)
    requires j < n <= |concepts| && r in Ancestry(a, concepts[j].uri)
    ensures EdgeAdd(ConceptIdent(r.sub), ConceptIdent(r.super), SubclassEdgeAttrs) in AllAncestryCalls(a, concepts, n, kind)
  {
    if j < n - 1 {
      AllAncestryCallsEdge(a, concepts, n - 1, kind, j, r);
    } else {
      var rows := Ancestry(a, concepts[j].uri);
      var k :| 0 <= k < |rows| && rows[k] == r;
      AncestryCallsEdge(rows, |rows|, kind, "black", k);
    }
  }

  /** Every direct annotation is an edge from the tool, and every row of
      the hierarchy above one a subclass edge. */
  lemma AnnotationCallsEdges(a: Answers, toolIdent: string, direct: seq<ConceptRow>, kind: NodeKind, color: string)
    ensures forall r :: r in direct ==>
      EdgeAdd(toolIdent, ConceptIdent(r.uri), AnnotationEdgeAttrs) in AnnotationCalls(a, toolIdent, direct, kind, color)
    ensures forall c, r :: c in direct && r in Ancestry(a, c.uri) ==>
      EdgeAdd(ConceptIdent(r.sub), ConceptIdent(r.super), SubclassEdgeAttrs) in AnnotationCalls(a, toolIdent, direct, kind, color)
  {
    forall r | r in direct
      ensures EdgeAdd(toolIdent, ConceptIdent(r.uri), AnnotationEdgeAttrs) in AnnotationCalls(a, toolIdent, direct, kind, color)
    {
      var j :| 0 <= j < |direct| && direct[j] == r;
      DirectCallsEdge(toolIdent, direct, |direct|, kind, color, j);
    }
    forall c, r | c in direct && r in Ancestry(a, c.uri)
      ensures EdgeAdd(ConceptIdent(r.sub), ConceptIdent(r.super), SubclassEdgeAttrs)
        in AnnotationCalls(a, toolIdent, direct, kind, color)
    {
      var j :| 0 <= j < |direct| && direct[j] == c;
      AllAncestryCallsEdge(a, direct, |direct|, kind, j, r);
    }
  }

  lemma {:induction false} DeprecatedCallsEdges(a: Answers, toolIdent: string, rows: seq<DeprecatedRow>, n: nat,
                                                kind: NodeKind, alternativeKind: NodeKind, j: nat)
    requires j < n <= |rows|
    ensures var calls := DeprecatedCalls(a, toolIdent, rows, n, kind, alternativeKind);
      && EdgeAdd(toolIdent, ConceptIdent(rows[j].uri), DeprecatedEdgeAttrs) in calls
      && (rows[j].alternative.Some? ==>
            EdgeAdd(ConceptIdent(rows[j].uri), ConceptIdent(rows[j].alternative.value.uri), ConsiderEdgeAttrs) in calls)
  {
    var prev := DeprecatedCalls(a, toolIdent, rows, n - 1, kind, alternativeKind);
    var last := DeprecatedRowCalls(a, toolIdent, rows[n - 1], kind, alternativeKind);
    assert DeprecatedCalls(a, toolIdent, rows, n, kind, alternativeKind) == prev + last;
    if j < n - 1 {
      DeprecatedCallsEdges(a, toolIdent, rows, n - 1, kind, alternativeKind, j);
    } else {
      DeprecatedRowCallsEdges(a, toolIdent, rows[j], kind, alternativeKind);
    }
  }

  lemma DeprecatedRowCallsEdges(a: Answers, toolIdent: string, row: DeprecatedRow, kind: NodeKind,
                                alternativeKind: NodeKind)
    ensures var calls := DeprecatedRowCalls(a, toolIdent, row, kind, alternativeKind);
      && EdgeAdd(toolIdent, ConceptIdent(row.uri), DeprecatedEdgeAttrs) in calls
      && (row.alternative.Some? ==>
            EdgeAdd(ConceptIdent(row.uri), ConceptIdent(row.alternative.value.uri), ConsiderEdgeAttrs) in calls)
  {
    var calls := DeprecatedRowCalls(a, toolIdent, row, kind, alternativeKind);
    assert calls[1] == EdgeAdd(toolIdent, ConceptIdent(row.uri), DeprecatedEdgeAttrs);
    if row.alternative.Some? {
      assert calls[3] == EdgeAdd(ConceptIdent(row.uri), ConceptIdent(row.alternative.value.uri), ConsiderEdgeAttrs);
    }
  }

  /** Every deprecated annotation is an edge from the tool, and each
      replacement a `consider` edge from the deprecated concept. */
  lemma AllDeprecatedCallsEdges(a: Answers, toolUri: string)
    ensures forall r :: r in RowsOf(a.deprecatedTopics, toolUri) || r in RowsOf(a.deprecatedOperations, toolUri) ==>
      && EdgeAdd(ToolIdent(toolUri), ConceptIdent(r.uri), DeprecatedEdgeAttrs) in AllDeprecatedCalls(a, toolUri)
      && (r.alternative.Some? ==>
            EdgeAdd(ConceptIdent(r.uri), ConceptIdent(r.alternative.value.uri), ConsiderEdgeAttrs)
              in AllDeprecatedCalls(a, toolUri))
  {
    var toolIdent := ToolIdent(toolUri);
    var topics, operations := RowsOf(a.deprecatedTopics, toolUri), RowsOf(a.deprecatedOperations, toolUri);
    forall r | r in topics
      ensures EdgeAdd(toolIdent, ConceptIdent(r.uri), DeprecatedEdgeAttrs) in AllDeprecatedCalls(a, toolUri)
      ensures r.alternative.Some? ==>
        EdgeAdd(ConceptIdent(r.uri), ConceptIdent(r.alternative.value.uri), ConsiderEdgeAttrs) in AllDeprecatedCalls(a, toolUri)
    {
      var j :| 0 <= j < |topics| && topics[j] == r;
      DeprecatedCallsEdges(a, toolIdent, topics, |topics|, DeprecatedTopicNode, AlternativeTopicNode, j);
    }
    forall r | r in operations
      ensures EdgeAdd(toolIdent, ConceptIdent(r.uri), DeprecatedEdgeAttrs) in AllDeprecatedCalls(a, toolUri)
      ensures r.alternative.Some? ==>
        EdgeAdd(ConceptIdent(r.uri), ConceptIdent(r.alternative.value.uri), ConsiderEdgeAttrs) in AllDeprecatedCalls(a, toolUri)
    {
      var j :| 0 <= j < |operations| && operations[j] == r;
      DeprecatedCallsEdges(a, toolIdent, operations, |operations|, DeprecatedOperationNode, AlternativeOperationNode, j);
    }
  }

  lemma {:induction false} ToolsCallsToolNode(a: Answers, tools: seq<string>, n: nat, showTopics: bool,
                                              showOperations: bool, highlightDirect: bool, j: nat)
    requires j < n <= |tools| && RowsOf(a.toolLabels, tools[j]) != []
    ensures NodeIfAbsent(ToolIdent(tools[j]), ToolNodeAttrs(RowsOf(a.toolLabels, tools[j])[0]))
      in ToolsCalls(a, tools, n, showTopics, showOperations, highlightDirect)
  {
    if j < n - 1 {
      ToolsCallsToolNode(a, tools, n - 1, showTopics, showOperations, highlightDirect, j);
    } else {
      var labels := RowsOf(a.toolLabels, tools[j]);
      ToolNodeCallsHave(ToolIdent(tools[j]), labels, |labels|, 0);
    }
  }

  // ---------------------------------------------------------------------
  // The builders, updating the graph in place; each makes its calls.

  method AddToolNode(g: AnnotationGraph, toolIdent: string, labels: seq<string>)
    requires g.Valid()
    modifies g
    ensures g.Valid() && g.Value() == Run(old(g.Value()), ToolNodeCalls(toolIdent, labels, |labels|))
  {
    ghost var start := g.Value();
    var i := 0;
    while i < |labels|
      invariant 0 <= i <= |labels|
      invariant g.Valid() && g.Value() == Run(start, ToolNodeCalls(toolIdent, labels, i))
    {
      ToolNodeCallsStep(start, toolIdent, labels, i);
      g.AddNodeIfAbsent(toolIdent, ToolNodeAttrs(labels[i]));
      i := i + 1;
    }
  }

  /** One direct annotation. */
  method AddDirectConcept(g: AnnotationGraph, toolIdent: string, row: ConceptRow, kind: NodeKind, color: string)
    requires g.Valid()
    modifies g
    ensures g.Valid() && g.Value() == Run(old(g.Value()), DirectRowCalls(toolIdent, row, kind, color))
  {
    var ident := ConceptIdent(row.uri);
    var calls := DirectRowCalls(toolIdent, row, kind, color);
    RunPair(g.Value(), calls[0], calls[1]);
    g.AddNodeIfAbsent(ident, DirectNodeAttrs(row.labelText, ident, kind, color));
    g.AddEdge(toolIdent, ident, AnnotationEdgeAttrs);
  }

  method AddDirectConcepts(g: AnnotationGraph, toolIdent: string, rows: seq<ConceptRow>, kind: NodeKind, color: string)
    requires g.Valid()
    modifies g
    ensures g.Valid() && g.Value() == Run(old(g.Value()), DirectCalls(toolIdent, rows, |rows|, kind, color))
  {
    ghost var start := g.Value();
    var i := 0;
    while i < |rows|
      invariant 0 <= i <= |rows|
      invariant g.Valid() && g.Value() == Run(start, DirectCalls(toolIdent, rows, i, kind, color))
    {
      DirectCallsStep(start, toolIdent, rows, i, kind, color);
      AddDirectConcept(g, toolIdent, rows[i], kind, color);
      i := i + 1;
    }
  }

  /** One hierarchy row. */
  method AddAncestryRow(g: AnnotationGraph, row: HierarchyRow, kind: NodeKind, color: string, alternative: bool)
    requires g.Valid()
    modifies g
    ensures g.Valid() && g.Value() == Run(old(g.Value()), AncestryRowCalls(row, kind, color, alternative))
  {
    var sub, super := ConceptIdent(row.sub), ConceptIdent(row.super);
    var calls := AncestryRowCalls(row, kind, color, alternative);
    RunPair(g.Value(), calls[0], calls[1]);
    RunSnoc(g.Value(), calls[..2], calls[2]);
    assert calls[..2] + [calls[2]] == calls;
    g.AddNodeIfAbsent(sub, HierarchyNodeAttrs(row.subLabel, sub, kind, color));
    g.AddNodeIfAbsent(super, HierarchyNodeAttrs(row.superLabel, super, kind, color));
    if alternative {
      g.AddEdgeIfAbsent(sub, super, AlternativeSubclassEdgeAttrs);
    } else {
      g.AddEdge(sub, super, SubclassEdgeAttrs);
    }
  }

  method AddAncestry(g: AnnotationGraph, rows: seq<HierarchyRow>, kind: NodeKind, color: string, alternative: bool)
    requires g.Valid()
    modifies g
    ensures g.Valid() && g.Value() == Run(old(g.Value()), AncestryCalls(rows, |rows|, kind, color, alternative))
  {
    ghost var start := g.Value();
    var i := 0;
    while i < |rows|
      invariant 0 <= i <= |rows|
      invariant g.Valid() && g.Value() == Run(start, AncestryCalls(rows, i, kind, color, alternative))
    {
      AncestryCallsStep(start, rows, i, kind, color, alternative);
      AddAncestryRow(g, rows[i], kind, color, alternative);
      i := i + 1;
    }
  }

  /** The loop over the direct concepts asking for each one's hierarchy. */
  method AddAllAncestry(g: AnnotationGraph, a: Answers, concepts: seq<ConceptRow>, kind: NodeKind)
    requires g.Valid()
    modifies g
    ensures g.Valid() && g.Value() == Run(old(g.Value()), AllAncestryCalls(a, concepts, |concepts|, kind))
  {
    ghost var start := g.Value();
    var i := 0;
    while i < |concepts|
      invariant 0 <= i <= |concepts|
      invariant g.Valid() && g.Value() == Run(start, AllAncestryCalls(a, concepts, i, kind))
    {
      AllAncestryCallsStep(start, a, concepts, i, kind);
      AddAncestry(g, Ancestry(a, concepts[i].uri), kind, "black", false);
      i := i + 1;
    }
  }

  /** The direct annotations of one kind, then the hierarchy above them. */
  method AddAnnotations(g: AnnotationGraph, a: Answers, toolIdent: string, direct: seq<ConceptRow>, kind: NodeKind,
                        color: string)
    requires g.Valid()
    modifies g
    ensures g.Valid() && g.Value() == Run(old(g.Value()), AnnotationCalls(a, toolIdent, direct, kind, color))
  {
    RunAppend(g.Value(), DirectCalls(toolIdent, direct, |direct|, kind, color), AllAncestryCalls(a, direct, |direct|, kind));
    AddDirectConcepts(g, toolIdent, direct, kind, color);
    AddAllAncestry(g, a, direct, kind);
  }

  /** The replacement of a deprecated concept, looked up by its own URI,
      then the `consider` edge. */
  method AddAlternative(g: AnnotationGraph, a: Answers, ident: string, alt: Alternative, kind: NodeKind)
    requires g.Valid()
    modifies g
    ensures g.Valid() && g.Value() == Run(old(g.Value()), AlternativeCalls(a, ident, alt, kind))
  {
    var altIdent := ConceptIdent(alt.uri);
    var calls := AlternativeCalls(a, ident, alt, kind);
    RunPair(g.Value(), calls[0], calls[1]);
    if altIdent !in g.nodes {
      g.AddNode(altIdent, DirectNodeAttrs(alt.labelText, altIdent, kind, "grey"));
      AddAncestry(g, Ancestry(a, alt.uri), kind, "grey", true);
    }
    g.AddEdge(ident, altIdent, ConsiderEdgeAttrs);
  }

  /** A deprecated concept's grey node, if absent, and the tool's edge to it. */
  method AddDeprecatedNode(g: AnnotationGraph, toolIdent: string, row: DeprecatedRow, kind: NodeKind)
    requires g.Valid()
    modifies g
    ensures g.Valid() && g.Value() == Run(old(g.Value()), DeprecatedNodeCalls(toolIdent, row, kind))
  {
    var ident := ConceptIdent(row.uri);
    var calls := DeprecatedNodeCalls(toolIdent, row, kind);
    RunPair(g.Value(), calls[0], calls[1]);
    g.AddNodeIfAbsent(ident, DirectNodeAttrs(row.labelText, ident, kind, "grey"));
    g.AddEdge(toolIdent, ident, DeprecatedEdgeAttrs);
  }

  /** One deprecated annotation. */
  method AddDeprecatedConcept(g: AnnotationGraph, a: Answers, toolIdent: string, row: DeprecatedRow,
                              kind: NodeKind, alternativeKind: NodeKind)
    requires g.Valid()
    modifies g
    ensures g.Valid() && g.Value() == Run(old(g.Value()), DeprecatedRowCalls(a, toolIdent, row, kind, alternativeKind))
  {
    ghost var start := g.Value();
    AddDeprecatedNode(g, toolIdent, row, kind);
    if row.alternative.Some? {
      AddAlternative(g, a, ConceptIdent(row.uri), row.alternative.value, alternativeKind);
      RunAppend(start, DeprecatedNodeCalls(toolIdent, row, kind),
                AlternativeCalls(a, ConceptIdent(row.uri), row.alternative.value, alternativeKind));
    } else {
      assert DeprecatedRowCalls(a, toolIdent, row, kind, alternativeKind) == DeprecatedNodeCalls(toolIdent, row, kind);
    }
  }

  /** The deprecated annotations of one kind, each with its replacement. */
  method AddDeprecatedConcepts(g: AnnotationGraph, a: Answers, toolIdent: string, rows: seq<DeprecatedRow>,
                               kind: NodeKind, alternativeKind: NodeKind)
    requires g.Valid()
    modifies g
    ensures g.Valid()
    ensures g.Value() == Run(old(g.Value()), DeprecatedCalls(a, toolIdent, rows, |rows|, kind, alternativeKind))
  {
    ghost var start := g.Value();
    var i := 0;
    while i < |rows|
      invariant 0 <= i <= |rows|
      invariant g.Valid() && g.Value() == Run(start, DeprecatedCalls(a, toolIdent, rows, i, kind, alternativeKind))
    {
      DeprecatedCallsStep(start, a, toolIdent, rows, i, kind, alternativeKind);
      AddDeprecatedConcept(g, a, toolIdent, rows[i], kind, alternativeKind);
      i := i + 1;
    }
  }

  /** `addToolAndAnnotationsToGraph(toolURI, graph, showTopics,
      showOperations, showDeprecatedAnnotations, highlightDirectAnnotations)`,
      with the replacement of a deprecated topic looked up by its own URI. */
  method AddToolAndAnnotationsToGraph(g: AnnotationGraph, a: Answers, toolUri: string, showTopics: bool,
                                      showOperations: bool, showDeprecated: bool, highlightDirect: bool)
    requires g.Valid()
    modifies g
    ensures g.Valid()
    ensures g.Value() == Run(old(g.Value()), ToolCalls(a, toolUri, showTopics, showOperations, showDeprecated,
                                                       highlightDirect))
  {
    var toolIdent, labels := ToolIdent(toolUri), RowsOf(a.toolLabels, toolUri);
    var color := DirectColor(highlightDirect);
    ToolCallsSplit(g.Value(), a, toolUri, showTopics, showOperations, showDeprecated, highlightDirect);
    AddToolNode(g, toolIdent, labels);
    if showTopics {
      AddAnnotations(g, a, toolIdent, ToolTopics(a, toolUri, false), TopicNode, color);
    }
    if showOperations {
      AddAnnotations(g, a, toolIdent, ToolOperations(a, toolUri, false), OperationNode, color);
    }
    if showDeprecated {
      AllDeprecatedCallsSplit(g.Value(), a, toolUri);
      AddDeprecatedConcepts(g, a, toolIdent, RowsOf(a.deprecatedTopics, toolUri), DeprecatedTopicNode, AlternativeTopicNode);
      AddDeprecatedConcepts(g, a, toolIdent, RowsOf(a.deprecatedOperations, toolUri),
                            DeprecatedOperationNode, AlternativeOperationNode);
    }
  }

  /** The loop of `addToolsAndAnnotationsToGraph` over the tools. */
  method AddTools(g: AnnotationGraph, a: Answers, tools: seq<string>, showTopics: bool, showOperations: bool,
                  highlightDirect: bool)
    requires g.Valid()
    modifies g
    ensures g.Valid()
    ensures g.Value() == Run(old(g.Value()), ToolsCalls(a, tools, |tools|, showTopics, showOperations, highlightDirect))
  {
    ghost var start := g.Value();
    var i := 0;
    while i < |tools|
      invariant 0 <= i <= |tools|
      invariant g.Valid() && g.Value() == Run(start, ToolsCalls(a, tools, i, showTopics, showOperations, highlightDirect))
    {
      ToolsCallsStep(start, a, tools, i, showTopics, showOperations, highlightDirect);
      AddToolAndAnnotationsToGraph(g, a, tools[i], showTopics, showOperations, false, highlightDirect);
      i := i + 1;
    }
  }

  /** The concepts common to all the tools, transitively: topics when shown,
      operations when shown. */
  method CommonConceptRows(a: Answers, tools: seq<string>, showTopics: bool, showOperations: bool)
    returns (common: set<ConceptRow>)
    ensures (set c | c in common :: ConceptIdent(c.uri)) == CommonIdents(a, tools, showTopics, showOperations)
    ensures forall c :: c in common ==> forall t :: t in tools ==>
      (showTopics && c in ToolTopics(a, t, true)) || (showOperations && c in ToolOperations(a, t, true))
  {
    common := {};
    if showTopics {
      var topics := Scores.ToolsCommonTopics(a, tools, true);
      common := common + topics;
    }
    if showOperations {
      var operations := Scores.ToolsCommonOperations(a, tools, true);
      common := common + operations;
    }
  }

  /** `addToolsAndAnnotationsToGraph(listToolURI, graph, showTopics,
      showOperations, highlightDirectAnnotations, highlightIntersection)`.
      Highlighting fails (`ok == false`, the source's `KeyError`) when a
      common concept has no node; the nodes met before it stay highlighted. */
  method AddToolsAndAnnotationsToGraph(g: AnnotationGraph, a: Answers, tools: seq<string>, showTopics: bool,
                                       showOperations: bool, highlightDirect: bool, highlightIntersection: bool)
    returns (ok: bool)
    requires g.Valid()
    modifies g
    ensures g.Valid()
    ensures var built := Run(old(g.Value()), ToolsCalls(a, tools, |tools|, showTopics, showOperations, highlightDirect));
      var common := CommonIdents(a, tools, showTopics, showOperations);
      && (!highlightIntersection ==> ok && g.Value() == built)
      && (highlightIntersection ==> (ok <==> common <= built.nodes.Keys))
      && (highlightIntersection && ok ==> g.Value() == Highlighted(built, common))
      && g.nodes.Keys == built.nodes.Keys && g.edges == built.edges
      && (forall n :: n in built.nodes ==>
            g.nodes[n] == built.nodes[n] || (n in common && g.nodes[n] == built.nodes[n] + HighlightAttrs))
  {
    AddTools(g, a, tools, showTopics, showOperations, highlightDirect);
    ok := true;
    if highlightIntersection {
      var common := CommonConceptRows(a, tools, showTopics, showOperations);
      ok := HighlightAll(g, common);
    }
  }
  /** The highlighting loop over the common concepts, in whatever order the
      set yields them. */
  method HighlightAll(g: AnnotationGraph, common: set<ConceptRow>) returns (ok: bool)
    requires g.Valid()
    modifies g
    ensures g.Valid()
    ensures var idents := set c | c in common :: ConceptIdent(c.uri);
      && (ok <==> idents <= old(g.nodes.Keys))
      && (ok ==> g.Value() == Highlighted(old(g.Value()), idents))
      && g.nodes.Keys == old(g.nodes.Keys) && g.edges == old(g.edges)
      && (forall n :: n in old(g.nodes) ==>
            g.nodes[n] == old(g.nodes[n]) || (n in idents && g.nodes[n] == old(g.nodes[n]) + HighlightAttrs))
  {
    ghost var start := g.Value();
    ghost var idents := set c | c in common :: ConceptIdent(c.uri);
    ghost var done: set<string> := {};
    var todo := common;
    while todo != {}
      invariant todo <= common
      invariant g.Valid() && g.nodes.Keys == start.nodes.Keys && g.edges == start.edges
      invariant done <= start.nodes.Keys
      invariant forall c :: c in common && c !in todo ==> ConceptIdent(c.uri) in done
      invariant done <= idents
      invariant g.Value() == Highlighted(start, done)
      decreases |todo|
    {
      var c :| c in todo;
      var ident := ConceptIdent(c.uri);
      if ident !in g.nodes {
        assert !(idents <= start.nodes.Keys);
        return false;
      }
      HighlightNode(g, ident);
      HighlightedStep(start, done, ident);
      done := done + {ident};
      todo := todo - {c};
    }
    assert idents == done;
    return true;
  }


  // ---------------------------------------------------------------------
  // What one tool's graph contains.

  /** Every shown direct topic is an edge from the tool, and every row of
      the hierarchy above one is a subclass edge. */
  lemma ToolGraphTopicEdges(g: Graph, a: Answers, toolUri: string, showOperations: bool, showDeprecated: bool,
                            highlightDirect: bool)
    ensures var h, topics := Run(g, ToolCalls(a, toolUri, true, showOperations, showDeprecated, highlightDirect)),
                             ToolTopics(a, toolUri, false);
      && (forall r :: r in topics ==> (ToolIdent(toolUri), ConceptIdent(r.uri)) in h.edges)
      && (forall c, r :: c in topics && r in Ancestry(a, c.uri) ==> (ConceptIdent(r.sub), ConceptIdent(r.super)) in h.edges)
  {
    var toolIdent, topics := ToolIdent(toolUri), ToolTopics(a, toolUri, false);
    var calls := ToolCalls(a, toolUri, true, showOperations, showDeprecated, highlightDirect);
    AnnotationCallsEdges(a, toolIdent, topics, TopicNode, DirectColor(highlightDirect));
    forall r | r in topics ensures (toolIdent, ConceptIdent(r.uri)) in Run(g, calls).edges {
      RunHasEdge(g, calls, EdgeAdd(toolIdent, ConceptIdent(r.uri), AnnotationEdgeAttrs));
    }
    forall c, r | c in topics && r in Ancestry(a, c.uri)
      ensures (ConceptIdent(r.sub), ConceptIdent(r.super)) in Run(g, calls).edges
    {
      RunHasEdge(g, calls, EdgeAdd(ConceptIdent(r.sub), ConceptIdent(r.super), SubclassEdgeAttrs));
    }
  }

  /** Every shown direct operation is an edge from the tool, and every row
      of the hierarchy above one is a subclass edge. */
  lemma ToolGraphOperationEdges(g: Graph, a: Answers, toolUri: string, showTopics: bool, showDeprecated: bool,
                                highlightDirect: bool)
    ensures var h, operations := Run(g, ToolCalls(a, toolUri, showTopics, true, showDeprecated, highlightDirect)),
                                 ToolOperations(a, toolUri, false);
      && (forall r :: r in operations ==> (ToolIdent(toolUri), ConceptIdent(r.uri)) in h.edges)
      && (forall c, r :: c in operations && r in Ancestry(a, c.uri) ==> (ConceptIdent(r.sub), ConceptIdent(r.super)) in h.edges)
  {
    var toolIdent, operations := ToolIdent(toolUri), ToolOperations(a, toolUri, false);
    var calls := ToolCalls(a, toolUri, showTopics, true, showDeprecated, highlightDirect);
    AnnotationCallsEdges(a, toolIdent, operations, OperationNode, DirectColor(highlightDirect));
    forall r | r in operations ensures (toolIdent, ConceptIdent(r.uri)) in Run(g, calls).edges {
      RunHasEdge(g, calls, EdgeAdd(toolIdent, ConceptIdent(r.uri), AnnotationEdgeAttrs));
    }
    forall c, r | c in operations && r in Ancestry(a, c.uri)
      ensures (ConceptIdent(r.sub), ConceptIdent(r.super)) in Run(g, calls).edges
    {
      RunHasEdge(g, calls, EdgeAdd(ConceptIdent(r.sub), ConceptIdent(r.super), SubclassEdgeAttrs));
    }
  }

  /** Every shown deprecated annotation is an edge from the tool, and each
      replacement a `consider` edge from the deprecated concept. */
  lemma ToolGraphDeprecatedEdges(g: Graph, a: Answers, toolUri: string, showTopics: bool, showOperations: bool,
                                 highlightDirect: bool)
    ensures var h := Run(g, ToolCalls(a, toolUri, showTopics, showOperations, true, highlightDirect));
      forall r :: r in RowsOf(a.deprecatedTopics, toolUri) || r in RowsOf(a.deprecatedOperations, toolUri) ==>
        && (ToolIdent(toolUri), ConceptIdent(r.uri)) in h.edges
        && (r.alternative.Some? ==> (ConceptIdent(r.uri), ConceptIdent(r.alternative.value.uri)) in h.edges)
  {
    var toolIdent := ToolIdent(toolUri);
    var calls := ToolCalls(a, toolUri, showTopics, showOperations, true, highlightDirect);
    AllDeprecatedCallsEdges(a, toolUri);
    forall r | r in RowsOf(a.deprecatedTopics, toolUri) || r in RowsOf(a.deprecatedOperations, toolUri)
      ensures (toolIdent, ConceptIdent(r.uri)) in Run(g, calls).edges
      ensures r.alternative.Some? ==> (ConceptIdent(r.uri), ConceptIdent(r.alternative.value.uri)) in Run(g, calls).edges
    {
      RunHasEdge(g, calls, EdgeAdd(toolIdent, ConceptIdent(r.uri), DeprecatedEdgeAttrs));
      if r.alternative.Some? {
        RunHasEdge(g, calls, EdgeAdd(ConceptIdent(r.uri), ConceptIdent(r.alternative.value.uri), ConsiderEdgeAttrs));
      }
    }
  }

  /** With nothing shown, the graph only gains the tool node: no edge and no
      other node. */
  lemma NothingShownAddsOnlyTheTool(g: Graph, a: Answers, toolUri: string, highlightDirect: bool)
    ensures var h := Run(g, ToolCalls(a, toolUri, false, false, false, highlightDirect));
      h.edges == g.edges && h.nodes.Keys <= g.nodes.Keys + {ToolIdent(toolUri)}
  {
    var toolIdent, labels := ToolIdent(toolUri), RowsOf(a.toolLabels, toolUri);
    var calls := ToolNodeCalls(toolIdent, labels, |labels|);
    assert ToolCalls(a, toolUri, false, false, false, highlightDirect) == calls;
    ToolNodeCallsShape(toolIdent, labels, |labels|, toolIdent);
    OnlyNodesKeepEdges(g, calls);
    forall x | x in Run(g, calls).nodes && x != toolIdent ensures x in g.nodes {
      ToolNodeCallsShape(toolIdent, labels, |labels|, x);
      RunUntouched(g, calls, x);
    }
  }

  /** A tool not yet drawn is labelled with the first label the store gives
      for it, whatever else is shown. */
  lemma ToolNodeFirstInsertion(g: Graph, a: Answers, toolUri: string, showTopics: bool, showOperations: bool,
                               showDeprecated: bool, highlightDirect: bool)
    requires ToolIdent(toolUri) !in g.nodes && RowsOf(a.toolLabels, toolUri) != []
    ensures var h := Run(g, ToolCalls(a, toolUri, showTopics, showOperations, showDeprecated, highlightDirect));
      ToolIdent(toolUri) in h.nodes && h.nodes[ToolIdent(toolUri)] == ToolNodeAttrs(RowsOf(a.toolLabels, toolUri)[0])
  {
    var toolIdent, labels := ToolIdent(toolUri), RowsOf(a.toolLabels, toolUri);
    var color := DirectColor(highlightDirect);
    var first := NodeIfAbsent(toolIdent, ToolNodeAttrs(labels[0]));
    var nodeCalls := ToolNodeCalls(toolIdent, labels, |labels|);
    var topicCalls := if showTopics then AnnotationCalls(a, toolIdent, ToolTopics(a, toolUri, false), TopicNode, color)
                      else [];
    var operationCalls := if showOperations
                          then AnnotationCalls(a, toolIdent, ToolOperations(a, toolUri, false), OperationNode, color)
                          else [];
    var deprecatedCalls := if showDeprecated then AllDeprecatedCalls(a, toolUri) else [];
    ToolNodeCallsPrefix(toolIdent, labels, 1, |labels|);
    assert ToolNodeCalls(toolIdent, labels, 1) == [] + [first];
    PrefixExtend(nodeCalls, topicCalls);
    PrefixExtend(nodeCalls + topicCalls, operationCalls);
    PrefixExtend(nodeCalls + topicCalls + operationCalls, deprecatedCalls);
    PrefixTransitive([] + [first], nodeCalls, nodeCalls + topicCalls);
    PrefixTransitive([] + [first], nodeCalls + topicCalls, nodeCalls + topicCalls + operationCalls);
    PrefixTransitive([] + [first], nodeCalls + topicCalls + operationCalls,
                     nodeCalls + topicCalls + operationCalls + deprecatedCalls);
    FirstInsertion(g, [], toolIdent, ToolNodeAttrs(labels[0]),
                   ToolCalls(a, toolUri, showTopics, showOperations, showDeprecated, highlightDirect));
  }

  /** Before the first row naming a topic, the calls of its tool never
      name it. */
  lemma TopicCallsBefore(a: Answers, toolUri: string, highlightDirect: bool, i: nat)
    requires var rows := ToolTopics(a, toolUri, false);
      && i < |rows| && ConceptIdent(rows[i].uri) != ToolIdent(toolUri)
      && forall j :: 0 <= j < i ==> ConceptIdent(rows[j].uri) != ConceptIdent(rows[i].uri)
    ensures var toolIdent, labels, rows := ToolIdent(toolUri), RowsOf(a.toolLabels, toolUri), ToolTopics(a, toolUri, false);
      !TouchesAny(ToolNodeCalls(toolIdent, labels, |labels|) + DirectCalls(toolIdent, rows, i, TopicNode, DirectColor(highlightDirect)),
                  ConceptIdent(rows[i].uri))
  {
    var toolIdent, labels := ToolIdent(toolUri), RowsOf(a.toolLabels, toolUri);
    var rows, color := ToolTopics(a, toolUri, false), DirectColor(highlightDirect);
    var ident := ConceptIdent(rows[i].uri);
    ToolNodeCallsShape(toolIdent, labels, |labels|, ident);
    DirectCallsUntouched(toolIdent, rows, i, TopicNode, color, ident);
    TouchesAnyAppend(ToolNodeCalls(toolIdent, labels, |labels|), DirectCalls(toolIdent, rows, i, TopicNode, color), ident);
  }

  /** The node insertion of the `i`-th row comes after the rows before it. */
  lemma DirectNodePrefix(toolIdent: string, rows: seq<ConceptRow>, i: nat, kind: NodeKind, color: string)
    requires i < |rows|
    ensures var ident := ConceptIdent(rows[i].uri);
      DirectCalls(toolIdent, rows, i, kind, color) + [NodeIfAbsent(ident, DirectNodeAttrs(rows[i].labelText, ident, kind, color))]
        <= DirectCalls(toolIdent, rows, |rows|, kind, color)
  {
    var ident := ConceptIdent(rows[i].uri);
    var before := DirectCalls(toolIdent, rows, i, kind, color);
    var node := NodeIfAbsent(ident, DirectNodeAttrs(rows[i].labelText, ident, kind, color));
    var upTo := DirectCalls(toolIdent, rows, i + 1, kind, color);
    assert upTo == before + [node] + [EdgeAdd(toolIdent, ident, AnnotationEdgeAttrs)];
    PrefixExtend(before + [node], [EdgeAdd(toolIdent, ident, AnnotationEdgeAttrs)]);
    DirectCallsPrefix(toolIdent, rows, i + 1, |rows|, kind, color);
    PrefixTransitive(before + [node], upTo, DirectCalls(toolIdent, rows, |rows|, kind, color));
  }

  /** What starts the direct topic calls starts, behind the tool node, the
      calls of the tool. */
  lemma TopicCallsPrefix(a: Answers, toolUri: string, showOperations: bool, showDeprecated: bool, highlightDirect: bool,
                         p: seq<Call>)
    requires var rows := ToolTopics(a, toolUri, false);
      p <= DirectCalls(ToolIdent(toolUri), rows, |rows|, TopicNode, DirectColor(highlightDirect))
    ensures var toolIdent, labels := ToolIdent(toolUri), RowsOf(a.toolLabels, toolUri);
      ToolNodeCalls(toolIdent, labels, |labels|) + p <= ToolCalls(a, toolUri, true, showOperations, showDeprecated, highlightDirect)
  {
    var toolIdent, labels := ToolIdent(toolUri), RowsOf(a.toolLabels, toolUri);
    var rows, color := ToolTopics(a, toolUri, false), DirectColor(highlightDirect);
    var nodeCalls := ToolNodeCalls(toolIdent, labels, |labels|);
    var all := DirectCalls(toolIdent, rows, |rows|, TopicNode, color);
    var topicCalls := AnnotationCalls(a, toolIdent, rows, TopicNode, color);
    var operationCalls := if showOperations
                          then AnnotationCalls(a, toolIdent, ToolOperations(a, toolUri, false), OperationNode, color)
                          else [];
    var deprecatedCalls := if showDeprecated then AllDeprecatedCalls(a, toolUri) else [];
    PrefixExtend(all, AllAncestryCalls(a, rows, |rows|, TopicNode));
    PrefixTransitive(p, all, topicCalls);
    PrefixHead(nodeCalls, p, topicCalls);
    PrefixExtend(nodeCalls + topicCalls, operationCalls);
    PrefixExtend(nodeCalls + topicCalls + operationCalls, deprecatedCalls);
    PrefixTransitive(nodeCalls + p, nodeCalls + topicCalls, nodeCalls + topicCalls + operationCalls);
    PrefixTransitive(nodeCalls + p, nodeCalls + topicCalls + operationCalls,
                     nodeCalls + topicCalls + operationCalls + deprecatedCalls);
  }

  /** A direct topic not yet drawn takes the attributes of its first answer
      row, in red when direct annotations are highlighted and in black
      otherwise, whatever else is shown. */
  lemma TopicFirstInsertion(g: Graph, a: Answers, toolUri: string, showOperations: bool, showDeprecated: bool,
                            highlightDirect: bool, i: nat)
    requires var rows := ToolTopics(a, toolUri, false);
      && i < |rows| && ConceptIdent(rows[i].uri) !in g.nodes && ConceptIdent(rows[i].uri) != ToolIdent(toolUri)
      && forall j :: 0 <= j < i ==> ConceptIdent(rows[j].uri) != ConceptIdent(rows[i].uri)
    ensures var rows, h := ToolTopics(a, toolUri, false),
                           Run(g, ToolCalls(a, toolUri, true, showOperations, showDeprecated, highlightDirect));
      var ident := ConceptIdent(rows[i].uri);
      ident in h.nodes && h.nodes[ident] == DirectNodeAttrs(rows[i].labelText, ident, TopicNode, DirectColor(highlightDirect))
  {
    var toolIdent, labels := ToolIdent(toolUri), RowsOf(a.toolLabels, toolUri);
    var rows, color := ToolTopics(a, toolUri, false), DirectColor(highlightDirect);
    var ident := ConceptIdent(rows[i].uri);
    var before := ToolNodeCalls(toolIdent, labels, |labels|) + DirectCalls(toolIdent, rows, i, TopicNode, color);
    TopicCallsBefore(a, toolUri, highlightDirect, i);
    var node := NodeIfAbsent(ident, DirectNodeAttrs(rows[i].labelText, ident, TopicNode, color));
    DirectNodePrefix(toolIdent, rows, i, TopicNode, color);
    TopicCallsPrefix(a, toolUri, showOperations, showDeprecated, highlightDirect,
                     DirectCalls(toolIdent, rows, i, TopicNode, color) + [node]);
    assert before + [node] == ToolNodeCalls(toolIdent, labels, |labels|) + (DirectCalls(toolIdent, rows, i, TopicNode, color) + [node]);
    FirstInsertion(g, before, ident, DirectNodeAttrs(rows[i].labelText, ident, TopicNode, color),
                   ToolCalls(a, toolUri, true, showOperations, showDeprecated, highlightDirect));
  }

  /** Every tool with a label is drawn, whatever the others draw. */
  lemma ToolsAllDrawn(g: Graph, a: Answers, tools: seq<string>, showTopics: bool, showOperations: bool,
                      highlightDirect: bool)
    ensures var h := Run(g, ToolsCalls(a, tools, |tools|, showTopics, showOperations, highlightDirect));
      forall t :: t in tools && RowsOf(a.toolLabels, t) != [] ==> ToolIdent(t) in h.nodes
  {
    var calls := ToolsCalls(a, tools, |tools|, showTopics, showOperations, highlightDirect);
    forall t | t in tools && RowsOf(a.toolLabels, t) != [] ensures ToolIdent(t) in Run(g, calls).nodes {
      var j :| 0 <= j < |tools| && tools[j] == t;
      ToolsCallsToolNode(a, tools, |tools|, showTopics, showOperations, highlightDirect, j);
      RunHasNode(g, calls, NodeIfAbsent(ToolIdent(t), ToolNodeAttrs(RowsOf(a.toolLabels, t)[0])));
    }
  }

  // ---------------------------------------------------------------------
  // Several tools and their common annotations.
  /** The identifiers of the concepts every tool is annotated with,
      transitively: topics when shown, operations when shown. */
  function CommonIdents(a: Answers, tools: seq<string>, showTopics: bool, showOperations: bool): set<string> {
    var topics := if showTopics then Scores.CommonOf(Scores.TopicAnswers(a, tools, true)) else {};
    var operations := if showOperations then Scores.CommonOf(Scores.OperationAnswers(a, tools, true)) else {};
    set c | c in topics + operations :: ConceptIdent(c.uri)
  }

  /** The nodes named in `idents` with the five highlight attributes set. */
  function Highlighted(g: Graph, idents: set<string>): (h: Graph)
    ensures h.nodes.Keys == g.nodes.Keys && h.edges == g.edges
    ensures Closed(g) ==> Closed(h)
    ensures forall n :: n in g.nodes && n in idents ==>
      HasAttrs(h.nodes[n], HighlightAttrs) &&
      forall k :: k in g.nodes[n] && k !in HighlightAttrs ==> k in h.nodes[n] && h.nodes[n][k] == g.nodes[n][k]
    ensures forall n :: n in g.nodes && n !in idents ==> h.nodes[n] == g.nodes[n]
  {
    Graph(map n | n in g.nodes :: if n in idents then g.nodes[n] + HighlightAttrs else g.nodes[n], g.edges)
  }

  /** With a single tool, the highlighted nodes are that tool's own
      transitive annotations. */
  lemma SingleToolCommonIdents(a: Answers, tool: string)
    ensures CommonIdents(a, [tool], true, true) ==
      set c | c in ToolTopics(a, tool, true) + ToolOperations(a, tool, true) :: ConceptIdent(c.uri)
  {
    var lists := Scores.TopicAnswers(a, [tool], true);
    assert lists == [ToolTopics(a, tool, true)];
    var olists := Scores.OperationAnswers(a, [tool], true);
    assert olists == [ToolOperations(a, tool, true)];
    forall c ensures c in Scores.CommonOf(lists) <==> c in ToolTopics(a, tool, true) {
      Scores.CommonOfMembership(lists, c);
    }
    forall c ensures c in Scores.CommonOf(olists) <==> c in ToolOperations(a, tool, true) {
      Scores.CommonOfMembership(olists, c);
    }
  }

  /** Highlighting does not depend on the order of the tools. */
  lemma CommonIdentsOrderFree(a: Answers, tools: seq<string>, other: seq<string>, showTopics: bool, showOperations: bool)
    requires multiset(tools) == multiset(other)
    ensures CommonIdents(a, tools, showTopics, showOperations) == CommonIdents(a, other, showTopics, showOperations)
  {
    SameToolsSameAnswers(tools, other);
    SameAnswerLists(a, tools, other);
    SameAnswerLists(a, other, tools);
    Scores.CommonOfSameTools(Scores.TopicAnswers(a, tools, true), Scores.TopicAnswers(a, other, true));
    Scores.CommonOfSameTools(Scores.OperationAnswers(a, tools, true), Scores.OperationAnswers(a, other, true));
  }

  lemma SameToolsSameAnswers(tools: seq<string>, other: seq<string>)
    requires multiset(tools) == multiset(other)
    ensures |tools| == |other|
    ensures forall t :: t in tools <==> t in other
  {
    assert |tools| == |multiset(tools)| == |multiset(other)| == |other|;
    forall t ensures t in tools <==> t in other {
      assert t in tools <==> t in multiset(tools);
    }
  }

  /** Every answer list for a tool of `tools` is also one for a tool of
      `other` when every tool of the first is in the second. */
  lemma SameAnswerLists(a: Answers, tools: seq<string>, other: seq<string>)
    requires forall t :: t in tools ==> t in other
    ensures forall l :: l in Scores.TopicAnswers(a, tools, true) ==> l in Scores.TopicAnswers(a, other, true)
    ensures forall l :: l in Scores.OperationAnswers(a, tools, true) ==> l in Scores.OperationAnswers(a, other, true)
  {
    var xs, ys := Scores.TopicAnswers(a, tools, true), Scores.TopicAnswers(a, other, true);
    forall l | l in xs ensures l in ys {
      var i :| 0 <= i < |xs| && xs[i] == l;
      assert tools[i] in other;
      var j :| 0 <= j < |other| && other[j] == tools[i];
      assert ys[j] == l;
    }
    var us, vs := Scores.OperationAnswers(a, tools, true), Scores.OperationAnswers(a, other, true);
    forall l | l in us ensures l in vs {
      var i :| 0 <= i < |us| && us[i] == l;
      assert tools[i] in other;
      var j :| 0 <= j < |other| && other[j] == tools[i];
      assert vs[j] == l;
    }
  }


  // ---------------------------------------------------------------------
  // The deprecated-topic branch as written: its hierarchy query for a new
  // replacement concept reads a variable only the operation branch
  // assigns, so it fails right after adding the replacement node.

  /** One deprecated topic as written: `false` when the replacement node was
      absent, after that node is added and before the `consider` edge. */
  function DeprecatedTopicStepAsWritten(g: Graph, toolIdent: string, row: DeprecatedRow): (Graph, bool) {
    var ident := ConceptIdent(row.uri);
    var g1 := WithEdge(WithNodeIfAbsent(g, ident, DirectNodeAttrs(row.labelText, ident, DeprecatedTopicNode, "grey")),
                       toolIdent, ident, DeprecatedEdgeAttrs);
    match row.alternative
    case None => (g1, true)
    case Some(alt) =>
      var altIdent := ConceptIdent(alt.uri);
      if altIdent in g1.nodes then (WithEdge(g1, ident, altIdent, ConsiderEdgeAttrs), true)
      else (WithNode(g1, altIdent, DirectNodeAttrs(alt.labelText, altIdent, AlternativeTopicNode, "grey")), false)
  }

  /** The first `n` deprecated topics as written, stopping at the first
      failure. */
  function DeprecatedTopicsAddedAsWritten(g: Graph, toolIdent: string, rows: seq<DeprecatedRow>, n: nat): (Graph, bool)
    requires n <= |rows|
  {
    if n == 0 then (g, true)
    else
      var prev := DeprecatedTopicsAddedAsWritten(g, toolIdent, rows, n - 1);
      if !prev.1 then prev else DeprecatedTopicStepAsWritten(prev.0, toolIdent, rows[n - 1])
  }

  /** A deprecated topic the code as written gets through is drawn as the
      corrected branch draws it. */
  lemma AsWrittenStepAgrees(g: Graph, a: Answers, toolIdent: string, row: DeprecatedRow)
    ensures var r := DeprecatedTopicStepAsWritten(g, toolIdent, row);
      r.1 ==> r.0 == Run(g, DeprecatedRowCalls(a, toolIdent, row, DeprecatedTopicNode, AlternativeTopicNode))
  {
    var ident := ConceptIdent(row.uri);
    var nodeCalls := DeprecatedNodeCalls(toolIdent, row, DeprecatedTopicNode);
    var g1 := WithEdge(WithNodeIfAbsent(g, ident, DirectNodeAttrs(row.labelText, ident, DeprecatedTopicNode, "grey")),
                       toolIdent, ident, DeprecatedEdgeAttrs);
    RunPair(g, nodeCalls[0], nodeCalls[1]);
    assert Run(g, nodeCalls) == g1;
    match row.alternative
    case None =>
      assert DeprecatedRowCalls(a, toolIdent, row, DeprecatedTopicNode, AlternativeTopicNode) == nodeCalls;
    case Some(alt) =>
      var altCalls := AlternativeCalls(a, ident, alt, AlternativeTopicNode);
      RunAppend(g, nodeCalls, altCalls);
      RunPair(g1, altCalls[0], altCalls[1]);
      if ConceptIdent(alt.uri) in g1.nodes {
        assert Apply(g1, altCalls[0]) == g1;
      }
  }

  /** The counterexample: a deprecated topic whose replacement is not drawn
      yet makes the code as written fail without the `consider` edge, where
      the corrected branch draws it. */
  lemma DeprecatedTopicWithNewAlternativeFails(g: Graph, a: Answers, toolIdent: string, row: DeprecatedRow)
    requires Closed(g) && row.alternative.Some?
    requires var altIdent := ConceptIdent(row.alternative.value.uri);
      altIdent !in g.nodes && altIdent != toolIdent && altIdent != ConceptIdent(row.uri)
    ensures var r, edge := DeprecatedTopicsAddedAsWritten(g, toolIdent, [row], 1),
                           (ConceptIdent(row.uri), ConceptIdent(row.alternative.value.uri));
      && !r.1
      && edge !in r.0.edges
      && edge in Run(g, DeprecatedCalls(a, toolIdent, [row], 1, DeprecatedTopicNode, AlternativeTopicNode)).edges
  {
    var ident, altIdent := ConceptIdent(row.uri), ConceptIdent(row.alternative.value.uri);
    var g0 := WithNodeIfAbsent(g, ident, DirectNodeAttrs(row.labelText, ident, DeprecatedTopicNode, "grey"));
    WithEdgeMerges(g0, toolIdent, ident, DeprecatedEdgeAttrs, (ident, altIdent), altIdent);
    RunHasEdge(g, DeprecatedCalls(a, toolIdent, [row], 1, DeprecatedTopicNode, AlternativeTopicNode),
               EdgeAdd(ident, altIdent, ConsiderEdgeAttrs));
  }

  /** The deprecated-topic loop as written; `ok == false` is the
      `UnboundLocalError` that ends the call. When it gets through all the
      rows, it has drawn what the corrected branch draws. */
  method AddDeprecatedTopicsAsWritten(g: AnnotationGraph, a: Answers, toolIdent: string, rows: seq<DeprecatedRow>)
    returns (ok: bool)
    requires g.Valid()
    modifies g
    ensures g.Valid()
    ensures (g.Value(), ok) == DeprecatedTopicsAddedAsWritten(old(g.Value()), toolIdent, rows, |rows|)
    ensures ok ==> g.Value() == Run(old(g.Value()), DeprecatedCalls(a, toolIdent, rows, |rows|, DeprecatedTopicNode,
                                                                    AlternativeTopicNode))
  {
    ghost var start := g.Value();
    var i := 0;
    while i < |rows|
      invariant 0 <= i <= |rows|
      invariant g.Valid() && (g.Value(), true) == DeprecatedTopicsAddedAsWritten(start, toolIdent, rows, i)
      invariant g.Value() == Run(start, DeprecatedCalls(a, toolIdent, rows, i, DeprecatedTopicNode, AlternativeTopicNode))
    {
      ghost var before := g.Value();
      AsWrittenStepAgrees(before, a, toolIdent, rows[i]);
      DeprecatedCallsStep(start, a, toolIdent, rows, i, DeprecatedTopicNode, AlternativeTopicNode);
      ok := AddDeprecatedTopicAsWritten(g, toolIdent, rows[i]);
      assert (g.Value(), ok) == DeprecatedTopicStepAsWritten(before, toolIdent, rows[i]);
      if !ok {
        assert DeprecatedTopicsAddedAsWritten(start, toolIdent, rows, i + 1) == (g.Value(), false);
        FailureIsFinal(start, toolIdent, rows, i + 1);
        return;
      }
      i := i + 1;
    }
    ok := true;
  }

  /** Once the loop as written has failed, later rows change nothing. */
  lemma {:induction false} FailureIsFinal(g: Graph, toolIdent: string, rows: seq<DeprecatedRow>, n: nat)
    requires n <= |rows|
    requires !DeprecatedTopicsAddedAsWritten(g, toolIdent, rows, n).1
    ensures DeprecatedTopicsAddedAsWritten(g, toolIdent, rows, |rows|) == DeprecatedTopicsAddedAsWritten(g, toolIdent, rows, n)
    decreases |rows| - n
  {
    if n < |rows| {
      assert DeprecatedTopicsAddedAsWritten(g, toolIdent, rows, n + 1) == DeprecatedTopicsAddedAsWritten(g, toolIdent, rows, n);
      FailureIsFinal(g, toolIdent, rows, n + 1);
    }
  }

  /** One deprecated topic as written. */
  method AddDeprecatedTopicAsWritten(g: AnnotationGraph, toolIdent: string, row: DeprecatedRow)
    returns (ok: bool)
    requires g.Valid()
    modifies g
    ensures g.Valid() && (g.Value(), ok) == DeprecatedTopicStepAsWritten(old(g.Value()), toolIdent, row)
  {
    var ident := ConceptIdent(row.uri);
    g.AddNodeIfAbsent(ident, DirectNodeAttrs(row.labelText, ident, DeprecatedTopicNode, "grey"));
    g.AddEdge(toolIdent, ident, DeprecatedEdgeAttrs);
    ok := true;
    if row.alternative.Some? {
      var alt := row.alternative.value;
      var altIdent := ConceptIdent(alt.uri);
      if altIdent !in g.nodes {
        g.AddNode(altIdent, DirectNodeAttrs(alt.labelText, altIdent, AlternativeTopicNode, "grey"));
        return false;
      }
      g.AddEdge(ident, altIdent, ConsiderEdgeAttrs);
    }
  }
  /** Highlighting one more node of the graph merges the highlight
      attributes into it, whether or not it was highlighted already. */
  lemma HighlightedStep(g: Graph, done: set<string>, n: string)
    requires n in g.nodes
    ensures var h := Highlighted(g, done);
      Highlighted(g, done + {n}) == Graph(h.nodes[n := h.nodes[n] + HighlightAttrs], h.edges)
  {
    var h, k := Highlighted(g, done), Highlighted(g, done + {n});
    var updated := h.nodes[n := h.nodes[n] + HighlightAttrs];
    forall x | x in updated ensures k.nodes[x] == updated[x] {
      if x == n {
        assert k.nodes[n] == g.nodes[n] + HighlightAttrs;
        if n in done {
          assert h.nodes[n] == g.nodes[n] + HighlightAttrs;
          HighlightTwice(g.nodes[n]);
        }
      } else {
        assert k.nodes[x] == h.nodes[x];
      }
    }
    assert k.nodes == updated;
  }

  /** Highlighting is idempotent on one node's attributes. */
  lemma HighlightTwice(m: Attrs)
    ensures (m + HighlightAttrs) + HighlightAttrs == m + HighlightAttrs
  {
  }

  /** The five attribute assignments of the highlighting, one after the
      other, on a node that exists. */
  function HighlightSteps(g: Graph, n: string): Graph
    requires n in g.nodes
  {
    var g1 := WithNodeAttr(g, n, "color", "red");
    var g2 := WithNodeAttr(g1, n, "penwidth", "3");
    var g3 := WithNodeAttr(g2, n, "style", "filled,bold");
    var g4 := WithNodeAttr(g3, n, "fillcolor", "red");
    WithNodeAttr(g4, n, "highlightIntersection", "True")
  }

  /** The five assignments amount to merging `HighlightAttrs` into the node. */
  lemma HighlightStepsMerge(g: Graph, n: string)
    requires n in g.nodes
    ensures HighlightSteps(g, n) == Graph(g.nodes[n := g.nodes[n] + HighlightAttrs], g.edges)
  {
    var m := g.nodes[n];
    var m1 := m["color" := "red"];
    var m2 := m1["penwidth" := "3"];
    var m3 := m2["style" := "filled,bold"];
    var m4 := m3["fillcolor" := "red"];
    var m5 := m4["highlightIntersection" := "True"];
    var g1 := WithNodeAttr(g, n, "color", "red");
    assert g1 == Graph(g.nodes[n := m1], g.edges);
    var g2 := WithNodeAttr(g1, n, "penwidth", "3");
    assert g2 == Graph(g.nodes[n := m2], g.edges);
    var g3 := WithNodeAttr(g2, n, "style", "filled,bold");
    assert g3 == Graph(g.nodes[n := m3], g.edges);
    var g4 := WithNodeAttr(g3, n, "fillcolor", "red");
    assert g4 == Graph(g.nodes[n := m4], g.edges);
    assert HighlightSteps(g, n) == Graph(g.nodes[n := m5], g.edges);
    HighlightUpdates(m);
  }

  lemma HighlightUpdates(m: Attrs)
    ensures m["color" := "red"]["penwidth" := "3"]["style" := "filled,bold"]["fillcolor" := "red"]
             ["highlightIntersection" := "True"] == m + HighlightAttrs
  {
  }

  /** The five attribute assignments on one node. */
  method HighlightNode(g: AnnotationGraph, n: string)
    requires g.Valid() && n in g.nodes
    modifies g
    ensures g.Valid() && g.edges == old(g.edges)
    ensures g.nodes == old(g.nodes)[n := old(g.nodes)[n] + HighlightAttrs]
  {
    ghost var start := g.Value();
    g.SetNodeAttr(n, "color", "red");
    g.SetNodeAttr(n, "penwidth", "3");
    g.SetNodeAttr(n, "style", "filled,bold");
    g.SetNodeAttr(n, "fillcolor", "red");
    g.SetNodeAttr(n, "highlightIntersection", "True");
    assert g.Value() == HighlightSteps(start, n);
    HighlightStepsMerge(start, n);
  }
}
