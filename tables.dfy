/** The dataframe side of EDAMannot.py: removing redundant direct
    annotations (`generate_df_topic_no_redundancy`,
    `generate_df_operation_no_redundancy`) and joining per-tool annotation
    counts onto the tool table (`get_dftools_with_nbTopics_nbOperations` and
    the three `generate_dfTool_*` functions). Tables are sequences of rows;
    the module-level tables the source reads are gathered in `LoadedTables`. */
module Tables {
  import opened Ident

  /** A row of a tool-annotation table (`tool`, `topic`/`operation`, label). */
  datatype AnnotationRow = AnnotationRow(tool: string, concept: string, labelText: string)

  /** A row of the tool table (`tool`, `toolLabel`). */
  datatype ToolRow = ToolRow(tool: string, labelText: string)

  /** A tool row with its two annotation counts. */
  datatype ToolCountRow = ToolCountRow(tool: string, labelText: string, nbTopics: nat, nbOperations: nat)

  /** A binding of the redundancy query: for `tool`, `redundant` is a strict
      ancestor of the also directly asserted `direct`. A missing value is
      the empty string, as `result.get(..., {}).get('value', '')` gives. */
  datatype RedundancyRow = RedundancyRow(tool: string, direct: string, directLabel: string,
                                         redundant: string, redundantLabel: string)

  /** A row of the stored redundancy table (`Tool`, `Direct … ID`,
      `Direct … Label`, `Redundant … ID`, `Redundant … Label`), as the
      module loads it from file. */
  datatype RedundancyEntry = RedundancyEntry(tool: string, directId: string, directLabel: string,
                                             redundantId: string, redundantLabel: string)

  type Pair = (string, string)

  /** The tables the source keeps as module-level dataframes. */
  datatype LoadedTables = LoadedTables(
    tool: seq<ToolRow>,
    toolTopic: seq<AnnotationRow>,
    toolTopicTransitive: seq<AnnotationRow>,
    toolOperation: seq<AnnotationRow>,
    toolOperationTransitive: seq<AnnotationRow>,
    redundancyTopic: seq<RedundancyEntry>,
    redundancyOperation: seq<RedundancyEntry>,
    topicNoRedundancy: seq<AnnotationRow>,
    operationNoRedundancy: seq<AnnotationRow>)

  // ---------------------------------------------------------------------
  // Redundancy filter.

  /** The stored row `generate_df_redundancy_*` derives from a query
      binding: the tool with `edamURI` removed, each concept with `edamURI`
      removed and put back in front. */
  function RedundancyEntryOf(r: RedundancyRow): RedundancyEntry {
    RedundancyEntry(RemoveAll(r.tool, EdamUri), EdamUri + RemoveAll(r.direct, EdamUri), r.directLabel,
                    EdamUri + RemoveAll(r.redundant, EdamUri), r.redundantLabel)
  }

  /** The `("Tool", "Redundant ... ID")` cells of a stored row. */
  function RedundancyKey(e: RedundancyEntry): Pair {
    (e.tool, e.redundantId)
  }

  function RedundantPairs(rows: seq<RedundancyEntry>): set<Pair> {
    set e | e in rows :: RedundancyKey(e)
  }

  /** For a tool URI outside the EDAM namespace and an EDAM concept URI the
      key of the stored row is the `(tool, concept)` pair itself, so it can
      match an annotation row. */
  lemma RedundancyKeyOfEdamConcept(r: RedundancyRow, local: string)
    requires !Occurs(r.tool, EdamUri)
    requires r.redundant == EdamUri + local && !Occurs(local, EdamUri)
    ensures RedundancyKey(RedundancyEntryOf(r)) == (r.tool, r.redundant)
  {
    RemoveAllAbsent(r.tool, EdamUri);
    ConceptIdentOfEdamUri(local);
  }

  function KeyOf(row: AnnotationRow): Pair {
    (row.tool, row.concept)
  }

  /** The rows whose `(tool, concept)` pair is not listed as redundant. */
  function WithoutRedundancy(rows: seq<AnnotationRow>, redundant: set<Pair>): (r: seq<AnnotationRow>)
    ensures |r| <= |rows|
  {
    if rows == [] then []
    else (if KeyOf(rows[0]) in redundant then [] else [rows[0]]) + WithoutRedundancy(rows[1..], redundant)
  }

  /** A row is kept exactly when it is an input row whose pair is not
      redundant; so no redundant pair survives. */
  lemma {:induction false} WithoutRedundancyMembership(rows: seq<AnnotationRow>, redundant: set<Pair>, x: AnnotationRow)
    ensures x in WithoutRedundancy(rows, redundant) <==> x in rows && KeyOf(x) !in redundant
  {
    if rows != [] {
      WithoutRedundancyMembership(rows[1..], redundant, x);
      assert rows == [rows[0]] + rows[1..];
    }
  }

  /** The input positions of the rows `WithoutRedundancy` keeps, counting
      the first row as position `from`. */
  function KeptPositions(rows: seq<AnnotationRow>, redundant: set<Pair>, from: nat): (kept: seq<nat>)
    ensures |kept| == |WithoutRedundancy(rows, redundant)|
  {
    if rows == [] then []
    else (if KeyOf(rows[0]) in redundant then [] else [from]) + KeptPositions(rows[1..], redundant, from + 1)
  }

  /** Kept positions lie within the input and strictly increase: the output
      keeps the input order. */
  lemma {:induction false} KeptPositionsIncrease(rows: seq<AnnotationRow>, redundant: set<Pair>, from: nat)
    ensures forall i :: 0 <= i < |KeptPositions(rows, redundant, from)| ==>
      from <= KeptPositions(rows, redundant, from)[i] < from + |rows|
    ensures forall i, j :: 0 <= i < j < |KeptPositions(rows, redundant, from)| ==>
      KeptPositions(rows, redundant, from)[i] < KeptPositions(rows, redundant, from)[j]
  {
    if rows != [] {
      KeptPositionsIncrease(rows[1..], redundant, from + 1);
      var head: seq<nat> := if KeyOf(rows[0]) in redundant then [] else [from];
      var rest, kept := KeptPositions(rows[1..], redundant, from + 1), KeptPositions(rows, redundant, from);
      assert kept == head + rest;
      forall i | |head| <= i < |kept| ensures kept[i] == rest[i - |head|] {
      }
    }
  }

  /** The `i`-th kept position lies within the input. */
  lemma {:induction false} KeptPositionBound(rows: seq<AnnotationRow>, redundant: set<Pair>, from: nat, i: nat)
    requires i < |KeptPositions(rows, redundant, from)|
    ensures from <= KeptPositions(rows, redundant, from)[i] < from + |rows|
  {
    var rest := KeptPositions(rows[1..], redundant, from + 1);
    if KeyOf(rows[0]) in redundant {
      KeptPositionBound(rows[1..], redundant, from + 1, i);
      assert KeptPositions(rows, redundant, from)[i] == rest[i];
    } else if i > 0 {
      KeptPositionBound(rows[1..], redundant, from + 1, i - 1);
      assert KeptPositions(rows, redundant, from)[i] == rest[i - 1];
    }
  }

  /** The `i`-th kept position holds the `i`-th output row. */
  lemma {:induction false} KeptPositionAt(rows: seq<AnnotationRow>, redundant: set<Pair>, from: nat, i: nat)
    requires i < |KeptPositions(rows, redundant, from)|
    ensures from <= KeptPositions(rows, redundant, from)[i] < from + |rows|
    ensures rows[KeptPositions(rows, redundant, from)[i] - from] == WithoutRedundancy(rows, redundant)[i]
  {
    KeptPositionBound(rows, redundant, from, i);
    var rest, tail := KeptPositions(rows[1..], redundant, from + 1), WithoutRedundancy(rows[1..], redundant);
    if KeyOf(rows[0]) in redundant {
      KeptPositionAt(rows[1..], redundant, from + 1, i);
      assert KeptPositions(rows, redundant, from)[i] == rest[i];
      assert WithoutRedundancy(rows, redundant)[i] == tail[i];
      assert rows[1..][rest[i] - (from + 1)] == rows[rest[i] - from];
    } else if i > 0 {
      KeptPositionAt(rows[1..], redundant, from + 1, i - 1);
      assert KeptPositions(rows, redundant, from)[i] == rest[i - 1];
      assert WithoutRedundancy(rows, redundant)[i] == tail[i - 1];
      assert rows[1..][rest[i - 1] - (from + 1)] == rows[rest[i - 1] - from];
    }
  }

  /** Each kept position holds the corresponding output row. */
  lemma KeptPositionsPointAtOutput(rows: seq<AnnotationRow>, redundant: set<Pair>, from: nat)
    ensures forall i :: 0 <= i < |KeptPositions(rows, redundant, from)| ==>
      from <= KeptPositions(rows, redundant, from)[i] < from + |rows| &&
      rows[KeptPositions(rows, redundant, from)[i] - from] == WithoutRedundancy(rows, redundant)[i]
  {
    forall i | 0 <= i < |KeptPositions(rows, redundant, from)|
      ensures from <= KeptPositions(rows, redundant, from)[i] < from + |rows| &&
        rows[KeptPositions(rows, redundant, from)[i] - from] == WithoutRedundancy(rows, redundant)[i]
    {
      KeptPositionAt(rows, redundant, from, i);
    }
  }

  /** A position is kept exactly when its row's pair is not redundant. */
  lemma {:induction false} KeptPositionsExactly(rows: seq<AnnotationRow>, redundant: set<Pair>, from: nat, p: nat)
    requires from <= p < from + |rows|
    ensures p in KeptPositions(rows, redundant, from) <==> KeyOf(rows[p - from]) !in redundant
  {
    var head: seq<nat> := if KeyOf(rows[0]) in redundant then [] else [from];
    var rest := KeptPositions(rows[1..], redundant, from + 1);
    assert KeptPositions(rows, redundant, from) == head + rest;
    if p == from {
      KeptPositionsIncrease(rows[1..], redundant, from + 1);
      assert p !in rest;
    } else {
      KeptPositionsExactly(rows[1..], redundant, from + 1, p);
      assert rows[1..][p - (from + 1)] == rows[p - from];
    }
  }

  /** The output is the input with the redundant rows taken out, in the
      original order: `kept` lists the input positions of the output rows,
      increasing, and a position is listed exactly when its row's pair is
      not redundant. */
  lemma WithoutRedundancyPositions(rows: seq<AnnotationRow>, redundant: set<Pair>)
    returns (kept: seq<nat>)
    ensures |kept| == |WithoutRedundancy(rows, redundant)|
    ensures forall i :: 0 <= i < |kept| ==> kept[i] < |rows| && rows[kept[i]] == WithoutRedundancy(rows, redundant)[i]
    ensures forall i, j :: 0 <= i < j < |kept| ==> kept[i] < kept[j]
    ensures forall p :: 0 <= p < |rows| ==> (p in kept <==> KeyOf(rows[p]) !in redundant)
  {
    kept := KeptPositions(rows, redundant, 0);
    KeptPositionsPointAtOutput(rows, redundant, 0);
    KeptPositionsIncrease(rows, redundant, 0);
    forall p | 0 <= p < |rows| ensures p in kept <==> KeyOf(rows[p]) !in redundant {
      KeptPositionsExactly(rows, redundant, 0, p);
    }
  }

  /** Filtering twice is filtering once. */
  lemma {:induction false} WithoutRedundancyIdempotent(rows: seq<AnnotationRow>, redundant: set<Pair>)
    ensures WithoutRedundancy(WithoutRedundancy(rows, redundant), redundant) == WithoutRedundancy(rows, redundant)
  {
    if rows != [] {
      WithoutRedundancyIdempotent(rows[1..], redundant);
      var tail := WithoutRedundancy(rows[1..], redundant);
      if KeyOf(rows[0]) !in redundant {
        assert ([rows[0]] + tail)[1..] == tail;
      } else {
        assert [] + tail == tail;
      }
    }
  }

  lemma WithoutRedundancyMembershipAll(rows: seq<AnnotationRow>, redundant: set<Pair>)
    ensures forall x :: x in WithoutRedundancy(rows, redundant) <==> x in rows && KeyOf(x) !in redundant
  {
    forall x {
      WithoutRedundancyMembership(rows, redundant, x);
    }
  }

  /** `generate_df_topic_no_redundancy`: the direct topic rows whose
      `(tool, topic)` pair is not in the loaded topic redundancy table. */
  function TopicNoRedundancy(t: LoadedTables): (r: seq<AnnotationRow>)
    ensures |r| <= |t.toolTopic|
    ensures forall x :: x in r <==> x in t.toolTopic && KeyOf(x) !in RedundantPairs(t.redundancyTopic)
  {
    WithoutRedundancyMembershipAll(t.toolTopic, RedundantPairs(t.redundancyTopic));
    WithoutRedundancy(t.toolTopic, RedundantPairs(t.redundancyTopic))
  }

  /** `generate_df_operation_no_redundancy`: the direct operation rows whose
      `(tool, operation)` pair is not in the loaded operation redundancy
      table. */
  function OperationNoRedundancy(t: LoadedTables): (r: seq<AnnotationRow>)
    ensures |r| <= |t.toolOperation|
    ensures forall x :: x in r <==> x in t.toolOperation && KeyOf(x) !in RedundantPairs(t.redundancyOperation)
  {
    WithoutRedundancyMembershipAll(t.toolOperation, RedundantPairs(t.redundancyOperation));
    WithoutRedundancy(t.toolOperation, RedundantPairs(t.redundancyOperation))
  }

  // ---------------------------------------------------------------------
  // What the filter keeps, given the subsumption relation the store used.

  /** `below` holds `(x, y)` when x is a strict descendant of y
      (`x rdfs:subClassOf+ y`): transitive and irreflexive. */
  ghost predicate StrictOrder(below: set<Pair>) {
    && (forall x, y, z :: (x, y) in below && (y, z) in below ==> (x, z) in below)
    && (forall x :: (x, x) !in below)
  }

  /** Every pair listed as redundant for a direct row has, for the same
      tool, a direct annotation strictly below it — which is what the
      redundancy query selects. */
  ghost predicate SoundRedundancy(direct: seq<AnnotationRow>, redundant: set<Pair>, below: set<Pair>) {
    forall x :: x in direct && KeyOf(x) in redundant ==>
      exists y :: y in direct && y.tool == x.tool && (y.concept, x.concept) in below
  }

  ghost function RowsBelow(direct: seq<AnnotationRow>, tool: string, concept: string, below: set<Pair>): set<AnnotationRow> {
    set y | y in direct && y.tool == tool && (y.concept, concept) in below
  }

  /** Removing redundant annotations never loses a lineage: each direct
      annotation is kept or has a kept annotation of the same tool strictly
      below it. */
  lemma {:induction false} KeptAtOrBelow(direct: seq<AnnotationRow>, redundant: set<Pair>, below: set<Pair>, x: AnnotationRow)
    requires StrictOrder(below) && SoundRedundancy(direct, redundant, below)
    requires x in direct
    ensures exists k :: k in WithoutRedundancy(direct, redundant) && k.tool == x.tool &&
                        (k.concept == x.concept || (k.concept, x.concept) in below)
    decreases |RowsBelow(direct, x.tool, x.concept, below)|
  {
    if KeyOf(x) !in redundant {
      WithoutRedundancyMembership(direct, redundant, x);
    } else {
      var y :| y in direct && y.tool == x.tool && (y.concept, x.concept) in below;
      var belowX := RowsBelow(direct, x.tool, x.concept, below);
      var belowY := RowsBelow(direct, y.tool, y.concept, below);
      assert belowY < belowX by {
        assert y in belowX && y !in belowY;
      }
      assert belowX == belowY + (belowX - belowY);
      assert y in belowX - belowY;
      KeptAtOrBelow(direct, redundant, below, y);
      var k :| k in WithoutRedundancy(direct, redundant) && k.tool == y.tool &&
               (k.concept == y.concept || (k.concept, y.concept) in below);
      assert (k.concept, x.concept) in below;
    }
  }

  /** The closure over ancestors is the same before and after the filter:
      every concept at or above a direct annotation of a tool is at or above
      a kept annotation of that tool. */
  lemma NoRedundancyKeepsClosure(direct: seq<AnnotationRow>, redundant: set<Pair>, below: set<Pair>,
                                 x: AnnotationRow, ancestor: string)
    requires StrictOrder(below) && SoundRedundancy(direct, redundant, below)
    requires x in direct && (ancestor == x.concept || (x.concept, ancestor) in below)
    ensures exists k :: k in WithoutRedundancy(direct, redundant) && k.tool == x.tool &&
                        (k.concept == ancestor || (k.concept, ancestor) in below)
  {
    KeptAtOrBelow(direct, redundant, below, x);
    var k :| k in WithoutRedundancy(direct, redundant) && k.tool == x.tool &&
             (k.concept == x.concept || (k.concept, x.concept) in below);
    assert k.concept == ancestor || (k.concept, ancestor) in below;
  }

  // ---------------------------------------------------------------------
  // Per-tool counts.

  /** The `tool` column of a table as a multiset: its multiplicity of `t`
      is the number of rows for `t`. */
  function ToolColumn(rows: seq<AnnotationRow>): multiset<string> {
    multiset(seq(|rows|, i requires 0 <= i < |rows| => rows[i].tool))
  }

  lemma ToolColumnAppend(rows: seq<AnnotationRow>, last: AnnotationRow)
    ensures ToolColumn(rows + [last]) == ToolColumn(rows) + multiset{last.tool}
  {
    var a := seq(|rows|, i requires 0 <= i < |rows| => rows[i].tool);
    var b := seq(|rows + [last]|, i requires 0 <= i < |rows + [last]| => (rows + [last])[i].tool);
    assert b == a + [last.tool];
  }

  /** `table.groupby("tool").size()`: for each tool occurring in the table,
      its number of rows. */
  function GroupSizes(rows: seq<AnnotationRow>): (sizes: map<string, nat>)
    ensures forall t :: t in sizes <==> t in ToolColumn(rows)
    ensures forall t :: t in sizes ==> sizes[t] == ToolColumn(rows)[t]
  {
    if rows == [] then map[]
    else
      var init, last := rows[..|rows| - 1], rows[|rows| - 1];
      var sizes := GroupSizes(init);
      assert rows == init + [last];
      ToolColumnAppend(init, last);
      sizes[last.tool := (if last.tool in sizes then sizes[last.tool] else 0) + 1]
  }

  /** `.fillna(0)` after the left join: a tool without rows counts 0. */
  function SizeOrZero(sizes: map<string, nat>, tool: string): nat {
    if tool in sizes then sizes[tool] else 0
  }

  /** `get_dftools_with_nbTopics_nbOperations`: the tool table, row for row
      and in order, with the number of topic rows and operation rows of each
      tool (0 for a tool with none); tools that only occur in the
      annotation tables are not added. */
  function ToolsWithCounts(tools: seq<ToolRow>, topics: seq<AnnotationRow>, operations: seq<AnnotationRow>)
    : (r: seq<ToolCountRow>)
    ensures |r| == |tools|
    ensures forall i :: 0 <= i < |r| ==> r[i].tool == tools[i].tool && r[i].labelText == tools[i].labelText
    ensures forall i :: 0 <= i < |r| ==>
      r[i].nbTopics == ToolColumn(topics)[tools[i].tool] &&
      r[i].nbOperations == ToolColumn(operations)[tools[i].tool]
  {
    var topicSizes, operationSizes := GroupSizes(topics), GroupSizes(operations);
    seq(|tools|, i requires 0 <= i < |tools| =>
      ToolCountRow(tools[i].tool, tools[i].labelText,
                   SizeOrZero(topicSizes, tools[i].tool), SizeOrZero(operationSizes, tools[i].tool)))
  }

  /** A tool's count is 0 exactly when the table has no row for it. */
  lemma CountZeroIffAbsent(rows: seq<AnnotationRow>, tool: string)
    ensures ToolColumn(rows)[tool] == 0 <==> forall x :: x in rows ==> x.tool != tool
  {
    var column := seq(|rows|, i requires 0 <= i < |rows| => rows[i].tool);
    if ToolColumn(rows)[tool] == 0 {
      forall x | x in rows ensures x.tool != tool {
        var i :| 0 <= i < |rows| && rows[i] == x;
        assert column[i] == x.tool;
      }
    } else {
      assert tool in column;
    }
  }

  /** `generate_dfTool_transitive`: counts over the transitive tables. */
  function ToolCountsTransitive(t: LoadedTables): (r: seq<ToolCountRow>)
    ensures |r| == |t.tool|
    ensures forall i :: 0 <= i < |r| ==>
      r[i].nbTopics == ToolColumn(t.toolTopicTransitive)[t.tool[i].tool] &&
      r[i].nbOperations == ToolColumn(t.toolOperationTransitive)[t.tool[i].tool]
  {
    ToolsWithCounts(t.tool, t.toolTopicTransitive, t.toolOperationTransitive)
  }

  /** `generate_dfTool_no_transitive`: counts over the direct tables. */
  function ToolCountsDirect(t: LoadedTables): (r: seq<ToolCountRow>)
    ensures |r| == |t.tool|
    ensures forall i :: 0 <= i < |r| ==>
      r[i].nbTopics == ToolColumn(t.toolTopic)[t.tool[i].tool] &&
      r[i].nbOperations == ToolColumn(t.toolOperation)[t.tool[i].tool]
  {
    ToolsWithCounts(t.tool, t.toolTopic, t.toolOperation)
  }

  /** `generate_dfTool_no_transitive_no_redundancy`: counts over the loaded
      tables without redundancy. */
  function ToolCountsDirectNoRedundancy(t: LoadedTables): (r: seq<ToolCountRow>)
    ensures |r| == |t.tool|
    ensures forall i :: 0 <= i < |r| ==>
      r[i].nbTopics == ToolColumn(t.topicNoRedundancy)[t.tool[i].tool] &&
      r[i].nbOperations == ToolColumn(t.operationNoRedundancy)[t.tool[i].tool]
  {
    ToolsWithCounts(t.tool, t.topicNoRedundancy, t.operationNoRedundancy)
  }

  /** Removing rows never raises a tool's count. */
  lemma {:induction false} FilterCountNoLarger(rows: seq<AnnotationRow>, redundant: set<Pair>, tool: string)
    ensures ToolColumn(WithoutRedundancy(rows, redundant))[tool] <= ToolColumn(rows)[tool]
  {
    if rows != [] {
      var tail := WithoutRedundancy(rows[1..], redundant);
      FilterCountNoLarger(rows[1..], redundant, tool);
      assert rows == [rows[0]] + rows[1..];
      ToolColumnPrepend(rows[0], rows[1..]);
      if KeyOf(rows[0]) in redundant {
        assert WithoutRedundancy(rows, redundant) == tail;
      } else {
        assert WithoutRedundancy(rows, redundant) == [rows[0]] + tail;
        ToolColumnPrepend(rows[0], tail);
      }
    }
  }

  lemma ToolColumnPrepend(first: AnnotationRow, rows: seq<AnnotationRow>)
    ensures ToolColumn([first] + rows) == multiset{first.tool} + ToolColumn(rows)
  {
    var a := seq(|rows|, i requires 0 <= i < |rows| => rows[i].tool);
    var b := seq(|[first] + rows|, i requires 0 <= i < |[first] + rows| => ([first] + rows)[i].tool);
    assert b == [first.tool] + a;
  }

  /** When the loaded tables without redundancy are what the two filters
      produce from the loaded direct and redundancy tables, the
      redundancy-free counts never exceed the direct counts, and — when the
      redundancy tables only list genuinely redundant pairs — a tool with at
      least one direct annotation keeps at least one. */
  lemma NoRedundancyCounts(t: LoadedTables, i: nat, belowTopics: set<Pair>, belowOperations: set<Pair>)
    requires i < |t.tool|
    requires t.topicNoRedundancy == TopicNoRedundancy(t) && t.operationNoRedundancy == OperationNoRedundancy(t)
    requires StrictOrder(belowTopics) && SoundRedundancy(t.toolTopic, RedundantPairs(t.redundancyTopic), belowTopics)
    requires StrictOrder(belowOperations) &&
             SoundRedundancy(t.toolOperation, RedundantPairs(t.redundancyOperation), belowOperations)
    ensures var direct, kept := ToolCountsDirect(t)[i], ToolCountsDirectNoRedundancy(t)[i];
      kept.nbTopics <= direct.nbTopics && kept.nbOperations <= direct.nbOperations &&
      (direct.nbTopics > 0 <==> kept.nbTopics > 0) &&
      (direct.nbOperations > 0 <==> kept.nbOperations > 0)
  {
    var tool := t.tool[i].tool;
    FilterKeepsTool(t.toolTopic, RedundantPairs(t.redundancyTopic), belowTopics, tool);
    FilterKeepsTool(t.toolOperation, RedundantPairs(t.redundancyOperation), belowOperations, tool);
  }

  /** Filtering a table never raises a tool's count, and with a sound
      redundancy set a tool that has a row keeps one. */
  lemma FilterKeepsTool(direct: seq<AnnotationRow>, redundant: set<Pair>, below: set<Pair>, tool: string)
    requires StrictOrder(below) && SoundRedundancy(direct, redundant, below)
    ensures var n, k := ToolColumn(direct)[tool], ToolColumn(WithoutRedundancy(direct, redundant))[tool];
      k <= n && (n > 0 <==> k > 0)
  {
    FilterCountNoLarger(direct, redundant, tool);
    CountZeroIffAbsent(direct, tool);
    CountZeroIffAbsent(WithoutRedundancy(direct, redundant), tool);
    if ToolColumn(direct)[tool] > 0 {
      var x :| x in direct && x.tool == tool;
      KeptAtOrBelow(direct, redundant, below, x);
    }
  }
}
