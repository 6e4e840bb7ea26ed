/** What the triple store answers to the query templates of EDAMannot.py.
    The store evaluates the subsumption closure (`rdfs:subClassOf*`), the
    deprecation filters and the label fallbacks itself; the model takes its
    answers as given, per query and per tool or concept. */
module StoreAnswers {
  import opened Wrappers

  /** One `(URI, label)` answer row of a topic or operation query. */
  datatype ConceptRow = ConceptRow(uri: string, labelText: string)

  /** One row of the ancestor query: `sub rdfs:subClassOf super`, both with
      their labels ("" when absent). */
  datatype HierarchyRow = HierarchyRow(sub: string, subLabel: string, super: string, superLabel: string)

  /** The `oboInOwl:consider` successor of a deprecated concept. */
  datatype Alternative = Alternative(uri: string, labelText: string)

  /** One row of the deprecated-annotation query. */
  datatype DeprecatedRow = DeprecatedRow(uri: string, labelText: string, alternative: Option<Alternative>)

  /** The answers, keyed by tool URI (or by concept URI for `ancestry`); a
      missing key is the empty answer, as for an unknown tool. */
  datatype Answers = Answers(
    toolLabels: map<string, seq<string>>,
    directTopics: map<string, seq<ConceptRow>>,
    transitiveTopics: map<string, seq<ConceptRow>>,
    directOperations: map<string, seq<ConceptRow>>,
    transitiveOperations: map<string, seq<ConceptRow>>,
    ancestry: map<string, seq<HierarchyRow>>,
    deprecatedTopics: map<string, seq<DeprecatedRow>>,
    deprecatedOperations: map<string, seq<DeprecatedRow>>)

  function RowsOf<T>(m: map<string, seq<T>>, key: string): seq<T> {
    if key in m then m[key] else []
  }

  /** `getToolTopics(toolURI, transitive)`. */
  function ToolTopics(a: Answers, toolUri: string, transitive: bool): seq<ConceptRow> {
    RowsOf(if transitive then a.transitiveTopics else a.directTopics, toolUri)
  }

  /** `getToolOperations(toolURI, transitive)`. */
  function ToolOperations(a: Answers, toolUri: string, transitive: bool): seq<ConceptRow> {
    RowsOf(if transitive then a.transitiveOperations else a.directOperations, toolUri)
  }

  /** The ancestor chain of one concept. */
  function Ancestry(a: Answers, conceptUri: string): seq<HierarchyRow> {
    RowsOf(a.ancestry, conceptUri)
  }
}
