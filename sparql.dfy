/** `sparql_results_to_dataframe`: the JSON answer of a SPARQL SELECT query
    turned into a table with one column per projected variable and one row
    per solution. */
module SparqlFrames {
  import opened Wrappers

  /** One bound RDF term of a solution (`{"type": ..., "value": ...}`). */
  datatype RdfTerm = RdfTerm(termType: string, value: string)

  /** One solution: the variables it binds. Unbound variables are absent. */
  type Binding = map<string, RdfTerm>

  /** `results["head"]["vars"]` and `results["results"]["bindings"]`. */
  datatype QueryResults = QueryResults(vars: seq<string>, bindings: seq<Binding>)

  /** A row of the frame: every column maps to a value or to `None`. */
  type FrameRow = map<string, Option<string>>

  datatype Frame = Frame(columns: seq<string>, rows: seq<FrameRow>)

  /** The row built for one solution: each listed variable maps to the value
      it is bound to, or to `None` when the solution leaves it unbound. */
  function RowOf(vars: seq<string>, b: Binding): (row: FrameRow)
    ensures forall v :: v in row <==> v in vars
    ensures forall v :: v in row ==> row[v] == if v in b then Some(b[v].value) else None
  {
    if vars == [] then map[]
    else
      var v := vars[|vars| - 1];
      assert vars == vars[..|vars| - 1] + [v];
      RowOf(vars[..|vars| - 1], b)[v := if v in b then Some(b[v].value) else None]
  }

  /** Converts the solutions one by one, filling each row variable by
      variable. */
  method ResultsToFrame(results: QueryResults) returns (frame: Frame)
    ensures frame.columns == results.vars
    ensures |frame.rows| == |results.bindings|
    ensures forall i :: 0 <= i < |frame.rows| ==> frame.rows[i] == RowOf(results.vars, results.bindings[i])
  {
    var rows: seq<FrameRow> := [];
    var i := 0;
    while i < |results.bindings|
      invariant 0 <= i <= |results.bindings|
      invariant |rows| == i
      invariant forall k :: 0 <= k < i ==> rows[k] == RowOf(results.vars, results.bindings[k])
    {
      var b := results.bindings[i];
      var rowData: FrameRow := map[];
      var j := 0;
      while j < |results.vars|
        invariant 0 <= j <= |results.vars|
        invariant rowData == RowOf(results.vars[..j], b)
      {
        var v := results.vars[j];
        assert results.vars[..j + 1][..j] == results.vars[..j];
        if v in b {
          rowData := rowData[v := Some(b[v].value)];
        } else {
          rowData := rowData[v := None];
        }
        j := j + 1;
      }
      assert results.vars[..j] == results.vars;
      rows := rows + [rowData];
      i := i + 1;
    }
    frame := Frame(results.vars, rows);
  }

  /** The values a solution binds, restricted to the projected variables. */
  function BoundValues(vars: seq<string>, b: Binding): map<string, string> {
    map v | v in vars && v in b :: b[v].value
  }

  /** The non-empty cells of a frame row. */
  function FilledCells(row: FrameRow): map<string, string> {
    map v | v in row && row[v].Some? :: row[v].value
  }

  /** Nothing bound is lost and nothing is invented: reading back the
      non-empty cells of a row gives exactly the solution's values for the
      projected variables. */
  lemma RowOfRecoversBinding(vars: seq<string>, b: Binding)
    ensures FilledCells(RowOf(vars, b)) == BoundValues(vars, b)
  {
    var row := RowOf(vars, b);
    assert forall v :: v in FilledCells(row) <==> v in BoundValues(vars, b);
  }
}
