/**
 * The test ranking page (src/pages/TestRankingPage.tsx): per-question
 * correct rates over every recorded attempt at one test set, shown sorted
 * by rate.
 */
module Ranking {
  import opened Wrappers
  import opened Seqs
  import opened Types
  import opened StableSort
  import opened LocalStore

  /** A derived row of the ranking list; never stored. */
  datatype QuestionRanking = QuestionRanking(id: int, question: string, correctRate: real)

  /** The `{correct, total}` counter kept per question id. */
  datatype Stats = Stats(correct: nat, total: nat)

  datatype SortOrder = Asc | Desc

  // ---------------------------------------------------------------------
  // Specification of the aggregation

  function OfTestSet(testId: int): TestResult -> bool
  {
    (r: TestResult) => r.testSetId == testId
  }

  /** The results of one test set, in stored order (the filter in fetchData). */
  function ResultsFor(results: seq<TestResult>, testId: int): (r: seq<TestResult>)
    ensures forall i :: 0 <= i < |r| ==> r[i].testSetId == testId
    ensures forall i :: 0 <= i < |results| && results[i].testSetId == testId ==> results[i] in r
    ensures IsSubsequence(r, results)
    ensures forall x :: multiset(r)[x] == if x.testSetId == testId then multiset(results)[x] else 0
  {
    FilterIsSubsequence(results, OfTestSet(testId));
    FilterCounts(results, OfTestSet(testId));
    forall i | 0 <= i < |results| && results[i].testSetId == testId
      ensures results[i] in Filter(results, OfTestSet(testId))
    {
      FilterMembers(results, OfTestSet(testId), results[i]);
    }
    Filter(results, OfTestSet(testId))
  }

  function CorrectlyAnswers(qid: int): AnswerRecord -> bool
  {
    (a: AnswerRecord) => a.questionId == qid && a.isCorrect
  }

  /** Answer records for question `qid` in one history. */
  function HistoryAttempts(h: seq<AnswerRecord>, qid: int): nat
  {
    |Filter(h, AnswersTo(qid))|
  }

  /** Answer records for question `qid` in one history that are marked correct. */
  function HistorySuccesses(h: seq<AnswerRecord>, qid: int): nat
  {
    |Filter(h, CorrectlyAnswers(qid))|
  }

  /** How many answer records for question `qid` the results hold. */
  function Attempts(rs: seq<TestResult>, qid: int): nat
  {
    if rs == [] then 0
    else Attempts(rs[..|rs| - 1], qid) + HistoryAttempts(rs[|rs| - 1].answerHistory, qid)
  }

  /** How many of those records are marked correct. */
  function Successes(rs: seq<TestResult>, qid: int): nat
  {
    if rs == [] then 0
    else Successes(rs[..|rs| - 1], qid) + HistorySuccesses(rs[|rs| - 1].answerHistory, qid)
  }

  /** Counting one more record of a history. */
  lemma HistoryStep(h: seq<AnswerRecord>, j: nat, qid: int)
    requires j < |h|
    ensures HistoryAttempts(h[..j + 1], qid) == HistoryAttempts(h[..j], qid) + (if h[j].questionId == qid then 1 else 0)
    ensures HistorySuccesses(h[..j + 1], qid) ==
      HistorySuccesses(h[..j], qid) + (if h[j].questionId == qid && h[j].isCorrect then 1 else 0)
  {
    assert h[..j + 1] == h[..j] + [h[j]];
    FilterSnoc(h[..j], h[j], AnswersTo(qid));
    FilterSnoc(h[..j], h[j], CorrectlyAnswers(qid));
  }

  /** Counting one more result. */
  lemma ResultsStep(rs: seq<TestResult>, i: nat, qid: int)
    requires i < |rs|
    ensures Attempts(rs[..i + 1], qid) == Attempts(rs[..i], qid) + HistoryAttempts(rs[i].answerHistory, qid)
    ensures Successes(rs[..i + 1], qid) == Successes(rs[..i], qid) + HistorySuccesses(rs[i].answerHistory, qid)
  {
    assert rs[..i + 1][..i] == rs[..i];
  }

  lemma {:induction false} SuccessesAtMostAttempts(rs: seq<TestResult>, qid: int)
    ensures Successes(rs, qid) <= Attempts(rs, qid)
  {
    if rs != [] {
      SuccessesAtMostAttempts(rs[..|rs| - 1], qid);
      FilterMonotone(rs[|rs| - 1].answerHistory, CorrectlyAnswers(qid), AnswersTo(qid));
      assert HistorySuccesses(rs[|rs| - 1].answerHistory, qid) <= HistoryAttempts(rs[|rs| - 1].answerHistory, qid);
    }
  }

  /** `total > 0 ? correct / total * 100 : 0`. */
  function Rate(correct: nat, total: nat): (rate: real)
    ensures total == 0 ==> rate == 0.0
    ensures total > 0 ==> rate * total as real == correct as real * 100.0
    ensures correct <= total ==> 0.0 <= rate <= 100.0
  {
    if total > 0 then (correct as real / total as real) * 100.0 else 0.0
  }

  function QuestionIds(qs: seq<Question>): set<int>
  {
    set i | 0 <= i < |qs| :: qs[i].id
  }

  /** Every answer record of every result names a question of the test set. */
  predicate AnswersKnown(rs: seq<TestResult>, ids: set<int>)
  {
    forall i, j :: 0 <= i < |rs| && 0 <= j < |rs[i].answerHistory| ==> rs[i].answerHistory[j].questionId in ids
  }

  /**
   * The rankings of `qs` over the results `rs`: one row per question, in
   * question order. `None` when some record names an unknown question, where
   * the page's code throws.
   */
  function Rankings(qs: seq<Question>, rs: seq<TestResult>): Option<seq<QuestionRanking>>
  {
    if !AnswersKnown(rs, QuestionIds(qs)) then None
    else Some(seq(|qs|, i requires 0 <= i < |qs| =>
      QuestionRanking(qs[i].id, qs[i].question, Rate(Successes(rs, qs[i].id), Attempts(rs, qs[i].id)))))
  }

  /** The rankings have one row per question, in order, each rate within [0, 100]. */
  lemma RankingsShape(qs: seq<Question>, rs: seq<TestResult>)
    requires Rankings(qs, rs).Some?
    ensures |Rankings(qs, rs).value| == |qs|
    ensures forall i :: 0 <= i < |qs| ==>
      var r := Rankings(qs, rs).value[i];
      r.id == qs[i].id && r.question == qs[i].question && 0.0 <= r.correctRate <= 100.0
  {
    forall i | 0 <= i < |qs| ensures 0.0 <= Rankings(qs, rs).value[i].correctRate <= 100.0 {
      SuccessesAtMostAttempts(rs, qs[i].id);
    }
  }

  /** A question nobody answered has rate 0, which the page highlights like a failed one. */
  lemma UnansweredRanksZero(qs: seq<Question>, rs: seq<TestResult>, i: nat)
    requires Rankings(qs, rs).Some? && i < |qs|
    requires Attempts(rs, qs[i].id) == 0
    ensures Rankings(qs, rs).value[i].correctRate == 0.0
    ensures IsHighlighted(Rankings(qs, rs).value[i])
  {
  }

  /** A result list that names only known questions ranks; one that names an unknown question fails. */
  lemma RankingFailsExactlyOnUnknownQuestion(qs: seq<Question>, rs: seq<TestResult>)
    ensures Rankings(qs, rs).None? <==>
      exists i, j :: 0 <= i < |rs| && 0 <= j < |rs[i].answerHistory| &&
        forall k :: 0 <= k < |qs| ==> qs[k].id != rs[i].answerHistory[j].questionId
  {
    if Rankings(qs, rs).None? {
      var i, j :| 0 <= i < |rs| && 0 <= j < |rs[i].answerHistory| &&
        rs[i].answerHistory[j].questionId !in QuestionIds(qs);
      forall k | 0 <= k < |qs| ensures qs[k].id != rs[i].answerHistory[j].questionId {
        assert qs[k].id in QuestionIds(qs);
      }
    } else if exists i, j :: 0 <= i < |rs| && 0 <= j < |rs[i].answerHistory| &&
                forall k :: 0 <= k < |qs| ==> qs[k].id != rs[i].answerHistory[j].questionId
    {
      var i, j :| 0 <= i < |rs| && 0 <= j < |rs[i].answerHistory| &&
        forall k :: 0 <= k < |qs| ==> qs[k].id != rs[i].answerHistory[j].questionId;
      assert rs[i].answerHistory[j].questionId !in QuestionIds(qs);
    }
  }

  // ---------------------------------------------------------------------
  // The aggregation as the page computes it

  /** The `questions.reduce` that starts a `{correct: 0, total: 0}` counter for every question id. */
  function ZeroStats(questions: seq<Question>): (stats: map<int, Stats>)
    ensures stats.Keys == QuestionIds(questions)
    ensures forall id :: id in stats ==> stats[id] == Stats(0, 0)
  {
    map id | id in QuestionIds(questions) :: Stats(0, 0)
  }

  /** `stats'` is `stats` with every counter advanced by the records of `history`. */
  ghost predicate Bumped(stats: map<int, Stats>, stats': map<int, Stats>, history: seq<AnswerRecord>)
  {
    && stats'.Keys == stats.Keys
    && forall id :: id in stats ==>
        stats'[id] == Stats(stats[id].correct + HistorySuccesses(history, id), stats[id].total + HistoryAttempts(history, id))
  }

  /** Bumping the counter of one more (known) record. */
  lemma BumpStep(stats: map<int, Stats>, prev: map<int, Stats>, bumped: map<int, Stats>, history: seq<AnswerRecord>, j: nat)
    requires j < |history| && history[j].questionId in prev
    requires Bumped(stats, prev, history[..j])
    requires var s := prev[history[j].questionId];
      bumped == prev[history[j].questionId := Stats(if history[j].isCorrect then s.correct + 1 else s.correct, s.total + 1)]
    ensures Bumped(stats, bumped, history[..j + 1])
  {
    assert bumped.Keys == stats.Keys;
    forall id | id in stats
      ensures bumped[id] == Stats(stats[id].correct + HistorySuccesses(history[..j + 1], id),
                                  stats[id].total + HistoryAttempts(history[..j + 1], id))
    {
      HistoryStep(history, j, id);
    }
  }

  /** The inner `answerHistory.forEach` of calculateQuestionRankings: bumps one counter per record. */
  method TallyHistory(stats: map<int, Stats>, history: seq<AnswerRecord>)
    returns (stats': map<int, Stats>, known: bool)
    ensures known <==> forall j :: 0 <= j < |history| ==> history[j].questionId in stats
    ensures known ==> stats'.Keys == stats.Keys
    ensures known ==> forall id :: id in stats ==>
      stats'[id] == Stats(stats[id].correct + HistorySuccesses(history, id), stats[id].total + HistoryAttempts(history, id))
  {
    stats' := stats;
    var j := 0;
    while j < |history|
      invariant 0 <= j <= |history|
      invariant Bumped(stats, stats', history[..j])
      invariant forall j' :: 0 <= j' < j ==> history[j'].questionId in stats
    {
      var answer := history[j];
      if answer.questionId !in stats' {
        assert history[j].questionId !in stats;
        return stats', false;
      }
      var s := stats'[answer.questionId];
      var bumped := stats'[answer.questionId := Stats(if answer.isCorrect then s.correct + 1 else s.correct, s.total + 1)];
      BumpStep(stats, stats', bumped, history, j);
      stats' := bumped;
      j := j + 1;
    }
    assert history[..j] == history;
    known := true;
  }

  /** The counters hold the tallies of `rs`, which names only known questions. */
  ghost predicate Tallied(stats: map<int, Stats>, rs: seq<TestResult>, ids: set<int>)
  {
    && stats.Keys == ids
    && (forall id :: id in stats ==> stats[id] == Stats(Successes(rs, id), Attempts(rs, id)))
    && AnswersKnown(rs, ids)
  }

  lemma ZeroStatsTallyNothing(questions: seq<Question>, rs: seq<TestResult>)
    requires rs == []
    ensures Tallied(ZeroStats(questions), rs, QuestionIds(questions))
  {
  }

  /** Tallying one more history extends the tallies by one result. */
  lemma TallyStep(stats: map<int, Stats>, stats': map<int, Stats>, rs: seq<TestResult>, i: nat, ids: set<int>)
    requires i < |rs| && Tallied(stats, rs[..i], ids)
    requires forall j :: 0 <= j < |rs[i].answerHistory| ==> rs[i].answerHistory[j].questionId in stats
    requires stats'.Keys == stats.Keys
    requires forall id :: id in stats ==>
      stats'[id] == Stats(stats[id].correct + HistorySuccesses(rs[i].answerHistory, id),
                          stats[id].total + HistoryAttempts(rs[i].answerHistory, id))
    ensures Tallied(stats', rs[..i + 1], ids)
  {
    forall id | id in stats' ensures stats'[id] == Stats(Successes(rs[..i + 1], id), Attempts(rs[..i + 1], id)) {
      ResultsStep(rs, i, id);
    }
    forall i', j' | 0 <= i' < i + 1 && 0 <= j' < |rs[i'].answerHistory|
      ensures rs[i'].answerHistory[j'].questionId in ids
    {
      if i' < i {
        assert rs[..i][i'] == rs[i'];
      }
    }
    assert forall i' :: 0 <= i' < i + 1 ==> rs[..i + 1][i'] == rs[i'];
  }

  /** The counters after the last result tally the whole list. */
  lemma TalliedWhole(stats: map<int, Stats>, rs: seq<TestResult>, ids: set<int>)
    requires Tallied(stats, rs[..|rs|], ids)
    ensures Tallied(stats, rs, ids)
  {
    assert rs[..|rs|] == rs;
  }

  /** One record naming an unknown question is enough to break AnswersKnown. */
  lemma UnknownAnswer(rs: seq<TestResult>, i: nat, j: nat, ids: set<int>)
    requires i < |rs| && j < |rs[i].answerHistory| && rs[i].answerHistory[j].questionId !in ids
    ensures !AnswersKnown(rs, ids)
  {
  }

  /** The outer `testResults.forEach`: tallies every history into a fresh counter per question id. */
  method TallyResults(questions: seq<Question>, testResults: seq<TestResult>)
    returns (questionStats: map<int, Stats>, known: bool)
    ensures known ==> Tallied(questionStats, testResults, QuestionIds(questions))
    ensures !known ==> !AnswersKnown(testResults, QuestionIds(questions))
  {
    var ids := QuestionIds(questions);
    questionStats := ZeroStats(questions);
    ZeroStatsTallyNothing(questions, testResults[..0]);
    var i := 0;
    while i < |testResults|
      invariant 0 <= i <= |testResults|
      invariant Tallied(questionStats, testResults[..i], ids)
    {
      var history := testResults[i].answerHistory;
      var stats', historyKnown := TallyHistory(questionStats, history);
      if !historyKnown {
        // some questionStats[answer.questionId] is undefined: reading `.total` throws
        var j :| 0 <= j < |history| && history[j].questionId !in questionStats;
        UnknownAnswer(testResults, i, j, ids);
        return questionStats, false;
      }
      TallyStep(questionStats, stats', testResults, i, ids);
      questionStats := stats';
      i := i + 1;
    }
    TalliedWhole(questionStats, testResults, ids);
    known := true;
  }

  /** The final `questions.map`: one ranking per question from its counter. */
  function RankingsFromStats(questions: seq<Question>, stats: map<int, Stats>): seq<QuestionRanking>
    requires forall n :: 0 <= n < |questions| ==> questions[n].id in stats
  {
    seq(|questions|, n requires 0 <= n < |questions| =>
      var s := stats[questions[n].id];
      QuestionRanking(questions[n].id, questions[n].question, Rate(s.correct, s.total)))
  }

  /** Counters that tally all results give exactly the specified rankings. */
  lemma TalliedRankings(questions: seq<Question>, rs: seq<TestResult>, stats: map<int, Stats>)
    requires Tallied(stats, rs, QuestionIds(questions))
    ensures forall n :: 0 <= n < |questions| ==> questions[n].id in stats
    ensures Rankings(questions, rs) == Some(RankingsFromStats(questions, stats))
  {
    forall n | 0 <= n < |questions| ensures questions[n].id in stats {
      assert questions[n].id in QuestionIds(questions);
    }
    var a := Rankings(questions, rs).value;
    var b := RankingsFromStats(questions, stats);
    assert |a| == |b|;
    forall n | 0 <= n < |questions| ensures a[n] == b[n] {
      assert questions[n].id in stats;
    }
    assert a == b;
  }

  /** calculateQuestionRankings: a counter per question id, bumped record by record. */
  method CalculateQuestionRankings(questions: seq<Question>, testResults: seq<TestResult>)
    returns (r: Option<seq<QuestionRanking>>)
    ensures r == Rankings(questions, testResults)
  {
    var questionStats, known := TallyResults(questions, testResults);
    if !known {
      return None;
    }
    TalliedRankings(questions, testResults, questionStats);
    r := Some(RankingsFromStats(questions, questionStats));
  }

  // ---------------------------------------------------------------------
  // Sorting, toggles and highlighting

  function RateKey(order: SortOrder): QuestionRanking -> real
  {
    if order == Asc then (q: QuestionRanking) => q.correctRate else (q: QuestionRanking) => -q.correctRate
  }

  function RateIs(v: real): QuestionRanking -> bool
  {
    (q: QuestionRanking) => q.correctRate == v
  }

  /** sortedQuestions: a copy sorted by rate with `a - b` (asc) or `b - a` (desc). */
  function SortedQuestions(rankings: seq<QuestionRanking>, order: SortOrder): seq<QuestionRanking>
  {
    SortByKey(rankings, RateKey(order))
  }

  /** The sorted list is a permutation of the rankings, ordered by rate in the chosen direction. */
  lemma SortedQuestionsOrdered(rankings: seq<QuestionRanking>, order: SortOrder)
    ensures multiset(SortedQuestions(rankings, order)) == multiset(rankings)
    ensures order == Asc ==> forall i, j :: 0 <= i < j < |rankings| ==>
      SortedQuestions(rankings, order)[i].correctRate <= SortedQuestions(rankings, order)[j].correctRate
    ensures order == Desc ==> forall i, j :: 0 <= i < j < |rankings| ==>
      SortedQuestions(rankings, order)[i].correctRate >= SortedQuestions(rankings, order)[j].correctRate
  {
    SortPermutes(rankings, RateKey(order));
    SortSorted(rankings, RateKey(order));
    var sorted := SortedQuestions(rankings, order);
    assert |sorted| == |rankings| by {
      assert |multiset(sorted)| == |multiset(rankings)|;
    }
  }

  /** Rankings with equal rates keep their aggregation (question) order. */
  lemma SortedQuestionsStable(rankings: seq<QuestionRanking>, order: SortOrder, v: real)
    ensures Filter(SortedQuestions(rankings, order), RateIs(v)) == Filter(rankings, RateIs(v))
  {
    var key := RateKey(order);
    var k := if order == Asc then v else -v;
    SortStable(rankings, key, k);
    FilterCongruent(SortedQuestions(rankings, order), HasKey(key, k), RateIs(v));
    FilterCongruent(rankings, HasKey(key, k), RateIs(v));
  }

  /** toggleSortOrder. */
  function ToggledOrder(order: SortOrder): (r: SortOrder)
    ensures r != order
  {
    if order == Asc then Desc else Asc
  }

  /** toggleQuestionExpansion: collapse the open question, or open another one. */
  function ToggledExpansion(expanded: Option<int>, questionId: int): (r: Option<int>)
    ensures r.None? <==> expanded == Some(questionId)
    ensures r.Some? ==> r.value == questionId
  {
    if expanded == Some(questionId) then None else Some(questionId)
  }

  lemma ToggleTwiceRestores(order: SortOrder, expanded: Option<int>, questionId: int)
    ensures ToggledOrder(ToggledOrder(order)) == order
    ensures expanded.None? || expanded == Some(questionId) ==>
      ToggledExpansion(ToggledExpansion(expanded, questionId), questionId) == expanded
  {
  }

  /** A ranking is shown in red when its rate is below 30%. */
  predicate IsHighlighted(r: QuestionRanking)
  {
    r.correctRate < 30.0
  }

  // ---------------------------------------------------------------------
  // The page

  class RankingPage {
    var testName: string
    var questions: seq<QuestionRanking>
    var sortOrder: SortOrder
    var isError: bool
    var expandedQuestionId: Option<int>

    /** Mounting the page: fetchData for the route's test id. */
    constructor Load(store: Store, testId: int)
      ensures sortOrder == Asc && expandedQuestionId.None?
      ensures (store.testSets.IsFalsy() || store.testResults.IsFalsy()) ==>
        !isError && testName == "" && questions == []
      ensures !store.testSets.IsFalsy() && !store.testResults.IsFalsy() ==>
        (isError <==>
          store.testSets.Garbage? || store.testResults.Garbage? ||
          Find(store.testSets.items, TestSetIdIs(testId)).None? ||
          Rankings(Find(store.testSets.items, TestSetIdIs(testId)).value.questions,
                   ResultsFor(store.testResults.items, testId)).None?)
      ensures !isError && store.testSets.Json? && store.testResults.Json? ==>
        var found := Find(store.testSets.items, TestSetIdIs(testId)).value;
        testName == found.name &&
        questions == Rankings(found.questions, ResultsFor(store.testResults.items, testId)).value
    {
      testName, questions, sortOrder, isError, expandedQuestionId := "", [], Asc, false, None;
      var sets, results := store.testSets, store.testResults;
      if !sets.IsFalsy() && !results.IsFalsy() {
        if sets.Garbage? {
          isError := true;
        } else {
          var testSet := Find(sets.items, TestSetIdIs(testId));
          if testSet.None? {
            isError := true;   // testSet.name on undefined
          } else {
            testName := testSet.value.name;
            if results.Garbage? {
              isError := true;
            } else {
              var rankings := CalculateQuestionRankings(testSet.value.questions, ResultsFor(results.items, testId));
              if rankings.None? {
                isError := true;
              } else {
                questions := rankings.value;
              }
            }
          }
        }
      }
    }

    /** The list as rendered. */
    function Shown(): seq<QuestionRanking>
      reads this
    {
      SortedQuestions(questions, sortOrder)
    }

    method ToggleSortOrder()
      modifies this
      ensures sortOrder == ToggledOrder(old(sortOrder))
      ensures questions == old(questions) && expandedQuestionId == old(expandedQuestionId)
      ensures testName == old(testName) && isError == old(isError)
    {
      sortOrder := ToggledOrder(sortOrder);
    }

    method ToggleQuestionExpansion(questionId: int)
      modifies this
      ensures expandedQuestionId == ToggledExpansion(old(expandedQuestionId), questionId)
      ensures questions == old(questions) && sortOrder == old(sortOrder)
      ensures testName == old(testName) && isError == old(isError)
    {
      expandedQuestionId := ToggledExpansion(expandedQuestionId, questionId);
    }
  }
}
