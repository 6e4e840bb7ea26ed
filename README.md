# EDAMannot core, modelled in Dafny

EDAMannot is a Python library. It explores how bioinformatics tools from
bio.tools are annotated with EDAM ontology concepts (topics and operations). Most
of its code builds SPARQL queries and hands them to a triple store. The store
computes the subsumption closure, the redundancy of annotations and the label
fallbacks. This model takes the store's answers as inputs
(`StoreAnswers.Answers`) and models the logic EDAMannot.py runs around those
answers:

- `ScoreColor` (color.dfy): `getScoreColorRGB`. It interpolates from white to
  one of seven palette colours and formats the result as `#rrggbb`. Python's
  `int()` truncates toward zero, and `"{:02x}"` formats negative numbers too;
  both are written out explicitly.
- `Coloring` (coloring.dfy): `colorGraphNodesAccordingToScore`. It updates
  the `fillcolor` of scored nodes in place, one node per loop iteration.
- `Scores` (scores.dfy): `getToolScore`, with its two accumulation loops, and
  `getToolsCommonTopics` / `getToolsCommonOperations`, with their
  intersection loop.
- `Tables` (tables.dfy): the redundancy filters
  `generate_df_topic_no_redundancy` and `generate_df_operation_no_redundancy`.
  Also the per-tool count joins in `get_dftools_with_nbTopics_nbOperations`,
  `generate_dfTool_transitive`, `generate_dfTool_no_transitive` and
  `generate_dfTool_no_transitive_no_redundancy`. The module-level tables
  these functions read from file (EDAMannot.py:30-40) are gathered in the
  `LoadedTables` parameter. These include the stored redundancy tables and the
  stored tables without redundancy; the latter are independent inputs and
  need not agree with what the filters compute.
- `SparqlFrames` (sparql.dfy): `sparql_results_to_dataframe`.
- `Ident` (ident.dfy): the string helpers.
  - `str.replace(uri, "")` is modelled as Python runs it: one left-to-right
    scan that removes every non-overlapping occurrence, not only a prefix.
  - `"<" + uri + ">"` wrapping is applied to terms that start with `http`.
  - EDAM identifiers are classified by their prefix.
- `AnnotationGraphs` (graph.dfy): the part of a strict, directed pygraphviz
  `AGraph` that the code uses. Adding an existing node or edge merges the
  given attributes into it. `add_edge` creates missing endpoints with no
  attributes.
- `GraphCalls` (calls.dfy) and `GraphBuilder` (builder.dfy):
  `addToolAndAnnotationsToGraph` and `addToolsAndAnnotationsToGraph`.
  - Each builder loop is a method on the graph object. It is proved to
    leave the graph equal to `Run(old graph, calls)`, where `calls` is the
    sequence of guarded `add_node` / `add_edge` calls it makes.
  - Facts about every call sequence are proved once in `GraphCalls`:
    - nodes already drawn keep their attributes, and no edge disappears;
    - the first guarded insertion of a node decides its attributes.
  - Properties of the builders follow from these facts and from where each
    call sits in the sequence.

The deprecated-topic branch of `addToolAndAnnotationsToGraph` is modelled
twice, as written and as evidently intended (see "## Findings"). The rest of
the builder uses the intended version.

## Model

| member | source | states |
|---|---|---|
| Ident.RemoveAllAbsent | EDAMannot.py:1443 | a URI in which the namespace does not occur comes back from `replace(edamURI, "")` unchanged |
| Ident.RemoveAllLeading | EDAMannot.py:1443 | a leading occurrence of the namespace is removed and the scan goes on after it |
| Ident.RemoveAllKeepsChar | EDAMannot.py:1443 | a character that cannot start the namespace is kept and the scan goes on at the next one |
| Ident.RemoveAllInterior | EDAMannot.py:1443 | an occurrence in the middle of the string is removed too; the replace is not a prefix strip |
| Ident.RemoveAllCanLeaveOccurrence | EDAMannot.py:1443 | one pass can leave an occurrence that its own deletions create: removing "ab" from "aabb" gives "ab" |
| Ident.ConceptIdentOfEdamUri | EDAMannot.py:1443 | the identifier of namespace + local name is the local name, when the namespace does not occur in the local name |
| Ident.EntityIdentOfBothSpellings | EDAMannot.py:193 | the full-URI spelling and the `edam:` spelling of an entity give the same local identifier |
| Ident.RemoveAllDamPrefix | EDAMannot.py:193 | removing the namespace from `dam:` + local leaves it unchanged, so the second replace sees the `edam:` prefix whole |
| Ident.WrapIriInverse | EDAMannot.py:207-208 | a term starting with `http` becomes `<` term `>`, and dropping the brackets gives the term back; any other term is left as it is |
| Ident.WrapIriIdempotent | EDAMannot.py:1209-1210 | wrapping an already wrapped term changes nothing |
| Ident.HierarchyEntityType | EDAMannot.py:195-199 | the hierarchy view classifies only as topic, operation or plain class |
| Ident.NeighborTypeByPrefix | EDAMannot.py:529-537 | the neighbour type is Topic, Operation, Data or Format exactly when the identifier starts with `topic_`, `operation_`, `data_` or `format_` |
| Ident.HierarchyTypeAgreesWithNeighborType | EDAMannot.py:195-199 | the two classifications agree, except that data and format identifiers count as plain classes in the hierarchy view |
| ScoreColor.PaletteTarget | EDAMannot.py:1378-1393 | every one of the seven palette colours is a triple of bytes |
| ScoreColor.Truncate | EDAMannot.py:1396-1398 | `int()` truncates toward zero for both signs |
| ScoreColor.EffectiveMax | EDAMannot.py:1374 | `max(1, scoreMaxValue)` is at least 1 and at least the maximum, and it is one of the two |
| ScoreColor.ScoreColorRgb | EDAMannot.py:1392-1393 | a colour name outside the palette gives `#ffffff`, whatever the score |
| ScoreColor.FormatRgbRoundTrip | EDAMannot.py:1400 | a colour whose channels are bytes formats to `#` and six lowercase hex digits, which parse back to the same colour |
| ScoreColor.ZeroScoreIsWhite | EDAMannot.py:1374-1400 | a score of 0 gives `#ffffff` for every maximum and every colour name |
| ScoreColor.ScoreAtMaxIsTarget | EDAMannot.py:1374-1400 | when the score equals the maximum and the maximum is at least 1, the colour is exactly the palette target, and the returned string is that target's hex code |
| ScoreColor.PrimaryHexCodes | EDAMannot.py:1378-1400 | red, green, blue and yellow format as `#ff0000`, `#00ff00`, `#0000ff` and `#ffff00` |
| ScoreColor.OrangeHexCode | EDAMannot.py:1384-1400 | orange formats as `#ffa500` |
| ScoreColor.PinkHexCode | EDAMannot.py:1388-1400 | pink formats as `#ffc0cb` |
| ScoreColor.GreyHexCode | EDAMannot.py:1390-1400 | grey formats as `#808080` |
| ScoreColor.ChannelBetween | EDAMannot.py:1396-1398 | for a fraction in [0, 1], a channel lies between its target and 255 |
| ScoreColor.ChannelAntitone | EDAMannot.py:1396-1398 | a larger fraction never gives a larger channel |
| ScoreColor.ScoreRgbBounds | EDAMannot.py:1374-1398 | for a score between 0 and `max(1, scoreMaxValue)`, each channel lies between the target's channel and 255 |
| ScoreColor.ScoreRgbAntitone | EDAMannot.py:1374-1398 | a higher score never makes any channel lighter |
| ScoreColor.ScoreColorWellFormed | EDAMannot.py:1374-1400 | for a palette colour and a score in range, the result is `#` and six lowercase hex digits that parse back to the interpolated colour |
| Coloring.MaxScore | EDAMannot.py:1414-1415 | `max(values, default=0)`: 0 for an empty dictionary, otherwise a value of the dictionary that no value exceeds |
| Coloring.ColorGraphNodesAccordingToScore | EDAMannot.py:1403-1429 | the graph afterwards is every node recoloured, topics scaled by the topic maximum and operations by the operation maximum |
| Coloring.RecolourAll | EDAMannot.py:1416-1429 | the node loop, visiting the nodes in any order, leaves every node recoloured |
| Coloring.RecolourNode | EDAMannot.py:1417-1429 | one iteration changes only the visited node, as `RecolouredAttrs` says |
| Coloring.RecolouredChangesOnlyFill | EDAMannot.py:1416-1429 | node set and edges are unchanged; an unscored node keeps every attribute; a scored node only gains or changes `fillcolor` |
| Coloring.RecolouredFill | EDAMannot.py:1420-1429 | a scored topic node is filled with the colour of its score against the topic maximum, and a scored operation node against the operation maximum |
| Coloring.RecolouredIdempotent | EDAMannot.py:1403-1429 | recolouring twice gives the same graph as recolouring once |
| Coloring.TopAndZeroScores | EDAMannot.py:1414-1429 | a topic scored 0 is white; the best-scored topic, with a maximum of at least 1, gets exactly the palette colour |
| Scores.ToolScore | EDAMannot.py:1432-1450 | the score is the topic sum plus the operation sum over the tool's answer rows |
| Scores.AddScores | EDAMannot.py:1441-1449 | each loop adds the dictionary score of every row whose identifier is a key |
| Scores.SumScoresUnscored | EDAMannot.py:1442-1449 | annotations missing from the dictionary add nothing, and a tool with no scored annotation scores 0 |
| Scores.SumScoresOnlyScored | EDAMannot.py:1442-1449 | the sum equals the sum over the scored annotations alone |
| Scores.SumScoresAppend | EDAMannot.py:1441-1449 | the sum over two lists of rows is the sum of their sums |
| Scores.SumScoresNonNegative | EDAMannot.py:1432-1450 | with non-negative dictionary scores, the tool score is non-negative |
| Scores.SumScoresReorder | EDAMannot.py:1441-1449 | the score does not depend on the order in which the store returns the rows |
| Scores.ScoredAppend | EDAMannot.py:1442-1449 | selecting the scored rows distributes over concatenation |
| Scores.CommonOfMembership | EDAMannot.py:1288-1294 | a concept is common exactly when there is at least one tool and every tool's answer contains it |
| Scores.CommonOfSubsetOfEach | EDAMannot.py:1288-1294 | the common set is contained in each tool's set |
| Scores.CommonOfSameTools | EDAMannot.py:1288-1294 | two tool lists with the same members give the same common set, whatever their order or repetitions |
| Scores.CommonConcepts | EDAMannot.py:1288-1294 | the intersection loop computes the fold over the tools' sets |
| Scores.ToolsCommonTopics | EDAMannot.py:1281-1294 | no tool gives the empty set; one tool gives its own set; otherwise a topic is in the result exactly when every tool has it |
| Scores.ToolsCommonOperations | EDAMannot.py:1297-1310 | the same for operations |
| SparqlFrames.RowOf | EDAMannot.py:139-145 | a row has exactly the declared variables; a bound variable holds its `"value"`, and an unbound one holds `None` |
| SparqlFrames.ResultsToFrame | EDAMannot.py:127-152 | the columns are the declared variables, and there is one row per binding, in binding order |
| SparqlFrames.RowOfRecoversBinding | EDAMannot.py:139-145 | the non-empty cells of a row are exactly the values the binding gives the declared variables |
| Tables.RedundancyKeyOfEdamConcept | EDAMannot.py:1756-1759 | for an EDAM concept and a bio.tools tool, the `(Tool, Redundant … ID)` cells of the stored row are the `(tool, concept)` pair itself |
| Tables.WithoutRedundancyMembership | EDAMannot.py:1853-1861 | a row is in the output exactly when it is in the input and its `(tool, concept)` pair is not redundant |
| Tables.WithoutRedundancyPositions | EDAMannot.py:1853-1861 | the output is the input rows at strictly increasing positions, and a position is kept exactly when its pair is not redundant |
| Tables.KeptPositionsExactly | EDAMannot.py:1859-1861 | the position of a row is kept exactly when its pair is not in the redundant set |
| Tables.WithoutRedundancyIdempotent | EDAMannot.py:1859-1861 | filtering twice gives the same table as filtering once |
| Tables.TopicNoRedundancy | EDAMannot.py:1829-1866 | a topic row is in the result exactly when it is a direct topic row whose `(tool, topic)` pair is not in the loaded topic redundancy table; the result is no longer than the direct table |
| Tables.OperationNoRedundancy | EDAMannot.py:1869-1906 | an operation row is in the result exactly when it is a direct operation row whose `(tool, operation)` pair is not in the loaded operation redundancy table; the result is no longer than the direct table |
| Tables.NoRedundancyKeepsClosure | EDAMannot.py:1829-1906 | if the redundancy table lists only pairs that lie strictly above another direct annotation, every concept at or above a direct annotation of a tool is still at or above a kept one |
| Tables.GroupSizes | EDAMannot.py:1679-1692 | `groupby("tool").size()` gives each tool of the table its number of rows |
| Tables.ToolsWithCounts | EDAMannot.py:1679-1700 | the tool table row for row and in order, with each tool's number of topic and operation rows, or 0 when it has none; tools found only in the annotation tables are dropped |
| Tables.CountZeroIffAbsent | EDAMannot.py:1699-1700 | a count is 0 exactly when the table has no row for the tool |
| Tables.ToolCountsTransitive | EDAMannot.py:1933-1958 | the counts are taken over the transitive tables |
| Tables.ToolCountsDirect | EDAMannot.py:1990-2016 | the counts are taken over the direct tables |
| Tables.ToolCountsDirectNoRedundancy | EDAMannot.py:2047-2071 | the counts are taken over the loaded tables without redundancy (`df_topic_no_redundancy`, `df_operation_no_redundancy`) |
| Tables.FilterCountNoLarger | EDAMannot.py:1859-1861 | filtering never raises a tool's count |
| Tables.NoRedundancyCounts | EDAMannot.py:2024-2077 | provided the loaded tables without redundancy are what the two filters compute from the loaded direct and redundancy tables, the redundancy-free counts never exceed the direct counts; for sound redundancy tables, a tool has a direct annotation exactly when it keeps one |
| Tables.FilterKeepsTool | EDAMannot.py:1859-1861 | filtering never raises a tool's row count, and with a sound redundancy set a tool with a row keeps one |
| AnnotationGraphs.AdditionsExtend | EDAMannot.py:659-678 | a guarded node insertion and both kinds of edge insertion keep every node with its attributes and every edge, and keep edges between nodes |
| AnnotationGraphs.WithNodeMerges | EDAMannot.py:660-669 | `add_node` sets every attribute it is given, keeps the ones it does not name, and touches no other node |
| AnnotationGraphs.WithEdgeMerges | EDAMannot.py:671-678 | `add_edge` merges its attributes into the edge and creates only its missing endpoints |
| AnnotationGraphs.WithNodeIfAbsentIdempotent | EDAMannot.py:659-669 | a second guarded insertion of the same node changes nothing |
| AnnotationGraphs.WithNodeOverrides | EDAMannot.py:659-669 | without the guard, a second insertion overrides the attributes it names |
| AnnotationGraphs.WithEdgeIdempotent | EDAMannot.py:671-678 | adding the same edge twice is adding it once, because the graph is strict |
| AnnotationGraphs.AnnotationGraph.AddNodeIfAbsent | EDAMannot.py:659-669 | `if not has_node: add_node` on the graph object |
| AnnotationGraphs.AnnotationGraph.AddEdgeIfAbsent | EDAMannot.py:971-978 | `if not has_edge: add_edge` on the graph object |
| GraphCalls.RunAppend | EDAMannot.py:558-1137 | running two call sequences one after the other is running their concatenation |
| GraphCalls.RunExtends | EDAMannot.py:558-1137 | any call sequence keeps every node already drawn, with its attributes, and removes no edge |
| GraphCalls.RunHasEdge | EDAMannot.py:671-678 | every edge a top-level call adds is in the final graph |
| GraphCalls.RunHasNode | EDAMannot.py:615-629 | every node a top-level guarded insertion adds is in the final graph |
| GraphCalls.RunUntouched | EDAMannot.py:558-1137 | calls that never name a node leave its presence as it was |
| GraphCalls.FirstInsertion | EDAMannot.py:659-669 | the first guarded insertion of a node not yet drawn decides its attributes for good |
| GraphCalls.OnlyNodesKeepEdges | EDAMannot.py:613-629 | node insertions alone leave the edges as they are |
| GraphBuilder.KindNamesDistinct | EDAMannot.py:586-593 | only the direct topic kind is named "Topic", and only the direct operation kind "Operation" |
| GraphBuilder.AddToolNode | EDAMannot.py:613-629 | the tool-label loop makes one guarded tool-node insertion per label row |
| GraphBuilder.AddDirectConcepts | EDAMannot.py:655-678 | the direct-concept loop makes a guarded node insertion and the tool's edge for each row |
| GraphBuilder.AddAncestry | EDAMannot.py:706-733 | the hierarchy loop makes guarded insertions of both ends and the subclass edge for each row |
| GraphBuilder.AddAllAncestry | EDAMannot.py:680-733 | the hierarchy of every direct concept, in order |
| GraphBuilder.AddAnnotations | EDAMannot.py:632-733 | the direct concepts of one kind, then the hierarchy above them |
| GraphBuilder.AddAlternative | EDAMannot.py:1049-1135 | a replacement not yet drawn gets its node and its grey hierarchy, with each edge guarded; then the `consider` edge |
| GraphBuilder.AddDeprecatedConcepts | EDAMannot.py:872-987 | the deprecated-topic loop, with the replacement's hierarchy looked up by the replacement's own URI (the corrected branch) |
| GraphBuilder.AddToolAndAnnotationsToGraph | EDAMannot.py:558-1137 | the graph afterwards is the tool node, then the shown topics, operations and deprecated annotations, applied to the graph before |
| GraphBuilder.AddTools | EDAMannot.py:1334-1341 | each tool in turn, with deprecated annotations not shown |
| GraphBuilder.CommonConceptRows | EDAMannot.py:1343-1348 | the identifiers to highlight are those of the transitive common topics when topics are shown, plus those of the common operations when operations are shown; every row returned belongs to every tool's transitive answers of a shown kind |
| GraphBuilder.AddToolsAndAnnotationsToGraph | EDAMannot.py:1313-1359 | without highlighting, the graph is all tools drawn; with it, it fails (`KeyError`) exactly when a common concept has no node, and on success every common node has the five highlight attributes merged in; nodes and edges are unchanged either way |
| GraphBuilder.HighlightAll | EDAMannot.py:1350-1357 | the highlight loop fails exactly when some common concept has no node; otherwise the five attributes are merged into exactly the common nodes |
| GraphBuilder.HighlightStepsMerge | EDAMannot.py:1353-1357 | the five attribute assignments amount to merging the highlight attributes into the node |
| GraphBuilder.HighlightedStep | EDAMannot.py:1350-1357 | highlighting one more node merges the attributes into it, whether or not it was highlighted already |
| GraphBuilder.ToolGraphTopicEdges | EDAMannot.py:632-733 | with topics shown, every direct topic is an edge from the tool, and every row of the hierarchy above one is a subclass edge |
| GraphBuilder.ToolGraphOperationEdges | EDAMannot.py:735-836 | the same for operations |
| GraphBuilder.ToolGraphDeprecatedEdges | EDAMannot.py:838-1135 | with deprecated annotations shown, each one is an edge from the tool, and each replacement a `consider` edge from the deprecated concept |
| GraphBuilder.NothingShownAddsOnlyTheTool | EDAMannot.py:613-629 | with nothing shown, the graph only gains the tool node: no edge and no other node |
| GraphBuilder.ToolNodeFirstInsertion | EDAMannot.py:613-629 | a tool not yet drawn is labelled with the first label row, whatever else is drawn |
| GraphBuilder.TopicFirstInsertion | EDAMannot.py:655-669 | a direct topic not yet drawn gets the attributes of its first answer row, red when direct annotations are highlighted and black otherwise |
| GraphBuilder.ToolsAllDrawn | EDAMannot.py:1334-1341 | every tool with a label is drawn, whatever the other tools draw |
| GraphBuilder.SingleToolCommonIdents | EDAMannot.py:1343-1348 | with a single tool, the highlighted concepts are that tool's own transitive annotations |
| GraphBuilder.CommonIdentsOrderFree | EDAMannot.py:1343-1348 | the highlighted concepts do not depend on the order of the tools |
| GraphBuilder.AddDeprecatedTopicsAsWritten | EDAMannot.py:872-987 | the deprecated-topic loop as written; it stops at the first replacement that is not yet drawn, and when it gets through every row it draws what the corrected branch draws |
| GraphBuilder.AsWrittenStepAgrees | EDAMannot.py:872-987 | a deprecated topic that the code as written gets through is drawn as the corrected branch draws it |
| GraphBuilder.FailureIsFinal | EDAMannot.py:872-919 | once the loop as written has failed, later rows change nothing |
| GraphBuilder.DeprecatedTopicWithNewAlternativeFails | EDAMannot.py:902-919 | a deprecated topic whose replacement is not drawn yet makes the code as written fail before the `consider` edge, which the corrected branch draws |

## Left out

- SPARQL query construction and execution (`SPARQLWrapper`, `sparqldataframe`). The store's answers are the `Answers` parameter, and the closure and redundancy detection are not re-derived.
- `getToolTopics` / `getToolOperations` are modelled only as lookups of those answers (`StoreAnswers.ToolTopics`, `StoreAnswers.ToolOperations`). `getToolLabel` (with its `[0]` on a possibly empty answer, EDAMannot.py:1167) and `getToolURIByLabel` are not part of this model.
- `getHierarchyGraph`, `getEntityDescriptionGraph` and the neighbour dataframes are outside the modelled core. Only their identifier helpers (prefix classification and `<…>` wrapping) are modelled.
- The `generate_df_redundancy_*` functions run a query. Only the stored row they derive from each query binding is modelled (`Tables.RedundancyEntryOf`). The module loads these rows from file as ready-made strings (`Tables.RedundancyEntry`), and nothing ties that file to a fresh query.
- Compressed TSV writes, the reading of the module-level tables from file (their contents are the `LoadedTables` parameter) and `set_file_paths`.
- pygraphviz rendering and layout, the `cluster_tools` subgraph in which tool nodes are placed, and the IPython HTML display. The tool node is modelled as a node of the graph itself.
- The `graph=None` default of the builders (a fresh `AGraph`): the methods take the graph object to draw into; `AnnotationGraph.constructor` is the empty graph.
- `getMutualInformation` (floating-point `log2`), `get_edam_version` (float parsing), the information-content and entropy tables, and CLI.py.
- ScoreColor.ScoreColorRgb: scores and fractions are real numbers, so IEEE-754 rounding before `int()` is not modelled.
- Scores.ToolScore: sums are over real numbers, so floating-point rounding and the order-dependence of float addition are not modelled.
- Coloring.RecolourAll: the loop takes the nodes in any order, where pygraphviz fixes one. The result is the same for every order, so nothing depends on it.
- Pandas `sort_values` on the per-tool counts is not modelled, because the left join keeps the tool table's order regardless.
- `get_dfToolTopic_NotOWLClass` and `get_dfTool_ObsoleteOperation` only run queries and are not part of this model.

## Findings

| source | as written | input that shows it | evidently intended | confidence | as-written member | corrected member |
|---|---|---|---|---|---|---|
| EDAMannot.py:919 | The deprecated-topic branch builds the hierarchy query of a new replacement concept from `alternativeURI`. That variable is assigned only in the deprecated-operation branch (EDAMannot.py:1049), so the call raises `UnboundLocalError` right after adding the replacement node. | A tool with one deprecated topic whose `oboInOwl:consider` replacement is not yet a node, with deprecated annotations shown | The query uses the replacement's own URI (`result["conceptAlternative"]["value"]`), as the operation branch does; the grey hierarchy is drawn, then the `consider` edge | not executed | GraphBuilder.DeprecatedTopicWithNewAlternativeFails | GraphBuilder.ToolGraphDeprecatedEdges |
