/** `getToolScore` and `getToolsCommonTopics` / `getToolsCommonOperations`. */
module Scores {
  import opened Ident
  import opened StoreAnswers

  /** What one annotation adds to a tool's score: its dictionary score,
      looked up by identifier, or nothing when the identifier is not a key. */
  function AnnotationScore(row: ConceptRow, scores: map<string, real>): real {
    var ident := ConceptIdent(row.uri);
    if ident in scores then scores[ident] else 0.0
  }

  /** The sum of the annotation scores of a list of answer rows. */
  function SumScores(rows: seq<ConceptRow>, scores: map<string, real>): real {
    if rows == [] then 0.0
    else SumScores(rows[..|rows| - 1], scores) + AnnotationScore(rows[|rows| - 1], scores)
  }

  /** `getToolScore(toolURI, transitive, dictTopicScore, dictOperationScore)`:
      the topic sum plus the operation sum over the tool's answer rows. */
  method ToolScore(a: Answers, toolUri: string, transitive: bool,
                   topicScores: map<string, real>, operationScores: map<string, real>)
    returns (score: real)
    ensures score == SumScores(ToolTopics(a, toolUri, transitive), topicScores)
                   + SumScores(ToolOperations(a, toolUri, transitive), operationScores)
  {
    score := AddScores(0.0, ToolTopics(a, toolUri, transitive), topicScores);
    score := AddScores(score, ToolOperations(a, toolUri, transitive), operationScores);
  }

  /** One of the two loops of `getToolScore`: adds to `score` the dictionary
      score of every row whose identifier is a key. */
  method AddScores(start: real, rows: seq<ConceptRow>, scores: map<string, real>) returns (score: real)
    ensures score == start + SumScores(rows, scores)
  {
    score := start;
    var i := 0;
    while i < |rows|
      invariant 0 <= i <= |rows|
      invariant score == start + SumScores(rows[..i], scores)
    {
      var ident := ConceptIdent(rows[i].uri);
      if ident in scores {
        score := score + scores[ident];
      }
      assert rows[..i + 1][..i] == rows[..i];
      i := i + 1;
    }
    assert rows[..i] == rows;
  }

  lemma {:induction false} SumScoresAppend(xs: seq<ConceptRow>, ys: seq<ConceptRow>, scores: map<string, real>)
    ensures SumScores(xs + ys, scores) == SumScores(xs, scores) + SumScores(ys, scores)
    decreases |ys|
  {
    if ys == [] {
      assert xs + ys == xs;
    } else {
      var n := |ys| - 1;
      assert (xs + ys)[..|xs + ys| - 1] == xs + ys[..n];
      SumScoresAppend(xs, ys[..n], scores);
    }
  }

  /** Annotations whose identifier is not a key of the dictionary add
      nothing; a tool none of whose annotations is scored scores 0. */
  lemma {:induction false} SumScoresUnscored(rows: seq<ConceptRow>, scores: map<string, real>)
    requires forall i :: 0 <= i < |rows| ==> ConceptIdent(rows[i].uri) !in scores
    ensures SumScores(rows, scores) == 0.0
  {
    if rows != [] {
      SumScoresUnscored(rows[..|rows| - 1], scores);
    }
  }

  /** Dropping the unscored annotations leaves the sum unchanged. */
  lemma {:induction false} SumScoresOnlyScored(rows: seq<ConceptRow>, scores: map<string, real>)
    ensures SumScores(rows, scores) == SumScores(Scored(rows, scores), scores)
  {
    if rows != [] {
      var init, last := rows[..|rows| - 1], rows[|rows| - 1];
      assert rows == init + [last];
      SumScoresOnlyScored(init, scores);
      ScoredAppend(init, [last], scores);
      SumScoresAppend(Scored(init, scores), Scored([last], scores), scores);
      SingleRowScored(last, scores);
    }
  }

  lemma SingleRowScored(row: ConceptRow, scores: map<string, real>)
    ensures SumScores(Scored([row], scores), scores) == SumScores([row], scores)
  {
    assert [row][1..] == [];
    assert [row][..0] == [];
  }

  /** The annotations whose identifier is a key of the dictionary. */
  function Scored(rows: seq<ConceptRow>, scores: map<string, real>): (r: seq<ConceptRow>)
    ensures forall x :: x in r ==> x in rows && ConceptIdent(x.uri) in scores
  {
    if rows == [] then []
    else (if ConceptIdent(rows[0].uri) in scores then [rows[0]] else []) + Scored(rows[1..], scores)
  }

  lemma {:induction false} ScoredAppend(xs: seq<ConceptRow>, ys: seq<ConceptRow>, scores: map<string, real>)
    ensures Scored(xs + ys, scores) == Scored(xs, scores) + Scored(ys, scores)
  {
    if xs != [] {
      assert (xs + ys)[1..] == xs[1..] + ys;
      ScoredAppend(xs[1..], ys, scores);
    } else {
      assert xs + ys == ys;
    }
  }

  /** With non-negative dictionary scores a tool's score is non-negative. */
  lemma {:induction false} SumScoresNonNegative(rows: seq<ConceptRow>, scores: map<string, real>)
    requires forall k :: k in scores ==> scores[k] >= 0.0
    ensures SumScores(rows, scores) >= 0.0
  {
    if rows != [] {
      SumScoresNonNegative(rows[..|rows| - 1], scores);
    }
  }

  /** Taking one row out of a list takes its score out of the sum. */
  lemma SumScoresRemove(ys: seq<ConceptRow>, k: nat, scores: map<string, real>)
    requires k < |ys|
    ensures SumScores(ys, scores) == SumScores(ys[..k] + ys[k + 1..], scores) + AnnotationScore(ys[k], scores)
  {
    assert ys == ys[..k] + [ys[k]] + ys[k + 1..];
    SumScoresAppend(ys[..k] + [ys[k]], ys[k + 1..], scores);
    SumScoresAppend(ys[..k], [ys[k]], scores);
    SumScoresAppend(ys[..k], ys[k + 1..], scores);
    assert [ys[k]][..0] == [];
  }

  lemma MultisetRemove(xs: seq<ConceptRow>, ys: seq<ConceptRow>, k: nat)
    requires xs != [] && multiset(xs) == multiset(ys)
    requires k < |ys| && ys[k] == xs[|xs| - 1]
    ensures multiset(xs[..|xs| - 1]) == multiset(ys[..k] + ys[k + 1..])
  {
    var n := |xs| - 1;
    assert xs == xs[..n] + [xs[n]];
    assert ys == ys[..k] + [ys[k]] + ys[k + 1..];
    assert multiset(xs) == multiset(xs[..n]) + multiset{xs[n]};
    assert multiset(ys) == multiset(ys[..k]) + multiset{ys[k]} + multiset(ys[k + 1..]);
    assert multiset(ys[..k] + ys[k + 1..]) == multiset(ys[..k]) + multiset(ys[k + 1..]);
    assert multiset(xs[..n]) == multiset(xs) - multiset{xs[n]};
    assert multiset(ys[..k] + ys[k + 1..]) == multiset(ys) - multiset{ys[k]};
  }

  /** The sum does not depend on the order in which the store returns the
      rows (SPARQL results are unordered). */
  lemma {:induction false} SumScoresReorder(xs: seq<ConceptRow>, ys: seq<ConceptRow>, scores: map<string, real>)
    requires multiset(xs) == multiset(ys)
    ensures SumScores(xs, scores) == SumScores(ys, scores)
    decreases |xs|
  {
    if xs == [] {
      assert ys == [] by { assert |multiset(ys)| == 0; }
    } else {
      var n := |xs| - 1;
      assert xs[n] in multiset(ys);
      var k :| 0 <= k < |ys| && ys[k] == xs[n];
      MultisetRemove(xs, ys, k);
      SumScoresReorder(xs[..n], ys[..k] + ys[k + 1..], scores);
      SumScoresRemove(ys, k, scores);
    }
  }

  // ---------------------------------------------------------------------
  // Annotations common to several tools.

  function SetOf(rows: seq<ConceptRow>): set<ConceptRow> {
    set x | x in rows
  }

  /** The source's fold: the first tool's set, intersected in turn with the
      set of each further tool; empty for no tool. */
  function CommonOf(lists: seq<seq<ConceptRow>>): set<ConceptRow> {
    if |lists| == 0 then {}
    else if |lists| == 1 then SetOf(lists[0])
    else CommonOf(lists[..|lists| - 1]) * SetOf(lists[|lists| - 1])
  }

  /** A row is common exactly when there is at least one tool and every
      tool's answer contains it. */
  lemma {:induction false} CommonOfMembership(lists: seq<seq<ConceptRow>>, c: ConceptRow)
    ensures c in CommonOf(lists) <==> |lists| > 0 && forall i :: 0 <= i < |lists| ==> c in lists[i]
  {
    if |lists| > 1 {
      var n := |lists| - 1;
      CommonOfMembership(lists[..n], c);
      assert forall i :: 0 <= i < n ==> lists[..n][i] == lists[i];
    }
  }

  /** The common set is contained in each tool's set. */
  lemma CommonOfSubsetOfEach(lists: seq<seq<ConceptRow>>, i: nat)
    requires i < |lists|
    ensures CommonOf(lists) <= SetOf(lists[i])
  {
    forall c | c in CommonOf(lists) ensures c in SetOf(lists[i]) {
      CommonOfMembership(lists, c);
    }
  }

  /** The common set does not depend on the order (or repetition) of the
      tools: lists with the same members give the same result. */
  lemma CommonOfSameTools(xs: seq<seq<ConceptRow>>, ys: seq<seq<ConceptRow>>)
    requires |xs| > 0 <==> |ys| > 0
    requires forall l :: l in xs <==> l in ys
    ensures CommonOf(xs) == CommonOf(ys)
  {
    forall c ensures c in CommonOf(xs) <==> c in CommonOf(ys) {
      CommonOfMembership(xs, c);
      CommonOfMembership(ys, c);
      if forall i :: 0 <= i < |xs| ==> c in xs[i] {
        forall j | 0 <= j < |ys| ensures c in ys[j] {
          assert ys[j] in xs;
        }
      }
      if forall j :: 0 <= j < |ys| ==> c in ys[j] {
        forall i | 0 <= i < |xs| ensures c in xs[i] {
          assert xs[i] in ys;
        }
      }
    }
  }

  /** The intersection loop shared by the two entry points below. */
  method CommonConcepts(lists: seq<seq<ConceptRow>>) returns (common: set<ConceptRow>)
    ensures common == CommonOf(lists)
  {
    common := {};
    if |lists| > 0 {
      common := SetOf(lists[0]);
    }
    var i := 1;
    while i < |lists|
      invariant |lists| > 0 ==> 1 <= i <= |lists|
      invariant common == CommonOf(lists[..if |lists| == 0 then 0 else i])
    {
      assert lists[..i + 1][..i] == lists[..i];
      common := common * SetOf(lists[i]);
      i := i + 1;
    }
    assert lists[..|lists|] == lists;
    if |lists| > 0 {
      assert i == |lists|;
    }
  }

  function TopicAnswers(a: Answers, tools: seq<string>, transitive: bool): seq<seq<ConceptRow>> {
    seq(|tools|, i requires 0 <= i < |tools| => ToolTopics(a, tools[i], transitive))
  }

  function OperationAnswers(a: Answers, tools: seq<string>, transitive: bool): seq<seq<ConceptRow>> {
    seq(|tools|, i requires 0 <= i < |tools| => ToolOperations(a, tools[i], transitive))
  }

  /** `getToolsCommonTopics(listToolURI, transitive)`. */
  method ToolsCommonTopics(a: Answers, tools: seq<string>, transitive: bool) returns (common: set<ConceptRow>)
    ensures common == CommonOf(TopicAnswers(a, tools, transitive))
    ensures tools == [] ==> common == {}
    ensures |tools| == 1 ==> common == SetOf(ToolTopics(a, tools[0], transitive))
    ensures forall c :: c in common <==>
      |tools| > 0 && forall i :: 0 <= i < |tools| ==> c in ToolTopics(a, tools[i], transitive)
  {
    common := CommonConcepts(TopicAnswers(a, tools, transitive));
    assert forall i :: 0 <= i < |tools| ==> TopicAnswers(a, tools, transitive)[i] == ToolTopics(a, tools[i], transitive);
    forall c ensures c in common <==>
      |tools| > 0 && forall i :: 0 <= i < |tools| ==> c in ToolTopics(a, tools[i], transitive)
    {
      CommonOfMembership(TopicAnswers(a, tools, transitive), c);
    }
  }

  /** `getToolsCommonOperations(listToolURI, transitive)`. */
  method ToolsCommonOperations(a: Answers, tools: seq<string>, transitive: bool) returns (common: set<ConceptRow>)
    ensures common == CommonOf(OperationAnswers(a, tools, transitive))
    ensures tools == [] ==> common == {}
    ensures |tools| == 1 ==> common == SetOf(ToolOperations(a, tools[0], transitive))
    ensures forall c :: c in common <==>
      |tools| > 0 && forall i :: 0 <= i < |tools| ==> c in ToolOperations(a, tools[i], transitive)
  {
    common := CommonConcepts(OperationAnswers(a, tools, transitive));
    assert forall i :: 0 <= i < |tools| ==> OperationAnswers(a, tools, transitive)[i] == ToolOperations(a, tools[i], transitive);
    forall c ensures c in common <==>
      |tools| > 0 && forall i :: 0 <= i < |tools| ==> c in ToolOperations(a, tools[i], transitive)
    {
      CommonOfMembership(OperationAnswers(a, tools, transitive), c);
    }
  }
}
