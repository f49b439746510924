/**
 * Start-up seeding (src/App.tsx): before any page renders, each of the five
 * keys that holds a falsy value is given its sample list. The sample lists
 * double as the store of a first run and as worked examples for the pages.
 */
module AppSeed {
  import opened Wrappers
  import opened Types
  import opened Seqs
  import opened LocalStore
  import opened TestSession
  import opened Ranking

  // ---------------------------------------------------------------------
  // The sample data

  const SeedSubjects: seq<Subject> := [Subject(1, "英語"), Subject(2, "数学"), Subject(3, "理科")]

  const SeedWords: seq<Word> := [
    Word(1, 1, "Apple", "<p>りんご</p><p><strong>果物の一種</strong></p>", [1, 2], false, "2023-05-01T10:00:00Z"),
    Word(2, 1, "Book", "<p>本</p><p><em>情報を記録するための媒体</em></p>", [1], true, "2023-05-02T11:30:00Z"),
    Word(3, 1, "Cat", "<p>猫</p><p><u>ネコ科の動物</u></p>", [3], false, "2023-05-03T09:15:00Z")
  ]

  const SeedTags: seq<Tag> := [Tag(1, "名詞"), Tag(2, "食べ物"), Tag(3, "動物")]

  const BasicEnglish: seq<Question> := [
    Question(1, "「りんご」の英語は？", ["Apple", "Banana", "Orange", "Grape"], "Apple"),
    Question(2, "「犬」の英語は？", ["Cat", "Dog", "Bird", "Fish"], "Dog"),
    Question(3, "「本」の英語は？", ["Pen", "Pencil", "Book", "Notebook"], "Book")
  ]

  const IntermediateEnglish: seq<Question> := [
    Question(1, "「勤勉な」の英語は？", ["Diligent", "Lazy", "Careless", "Reckless"], "Diligent"),
    Question(2, "「曖昧な」の英語は？", ["Clear", "Ambiguous", "Precise", "Exact"], "Ambiguous"),
    Question(3, "「遺産」の英語は？", ["Legacy", "Inheritance", "Heritage", "All of the above"], "All of the above")
  ]

  const BasicMath: seq<Question> := [
    Question(1, "2 + 3 × 4 = ?", ["14", "20", "24", "None of the above"], "14"),
    Question(2, "√16 = ?", ["2", "4", "8", "16"], "4"),
    Question(3, "3の2乗は？", ["6", "8", "9", "12"], "9")
  ]

  const SeedTestSets: seq<TestSet> := [
    TestSet(1, 1, "基礎英単語テスト", BasicEnglish),
    TestSet(2, 1, "中級英単語テスト", IntermediateEnglish),
    TestSet(3, 2, "基礎数学テスト", BasicMath)
  ]

  function Attempt(q1: string, c1: bool, q2: string, c2: bool, q3: string, c3: bool): seq<AnswerRecord>
  {
    [AnswerRecord(1, q1, c1), AnswerRecord(2, q2, c2), AnswerRecord(3, q3, c3)]
  }

  const SeedTestResults: seq<TestResult> := [
    TestResult(1, 1, 1, 2, 3, "2024-07-08T12:50:05.004Z", Attempt("Apple", true, "Fish", false, "Book", true)),
    TestResult(2, 1, 1, 1, 3, "2024-07-08T13:10:28.715Z", Attempt("Apple", true, "Bird", false, "Notebook", false)),
    TestResult(3, 1, 1, 1, 3, "2024-07-08T13:21:41.239Z", Attempt("Apple", true, "Bird", false, "NoteBook", false)),
    TestResult(4, 1, 1, 2, 3, "2024-07-08T14:06:48.881Z", Attempt("Apple", true, "Dog", true, "Notebook", false)),
    TestResult(5, 1, 1, 2, 3, "2024-07-10T15:06:38.054Z", Attempt("Apple", true, "Dog", true, "Notebook", false))
  ]

  // ---------------------------------------------------------------------
  // Seeding

  /** One key's value after start-up: its sample list when the value is falsy, the value otherwise. */
  function Seeded<T>(stored: Stored<T>, seed: seq<T>): Stored<T>
  {
    if stored.IsFalsy() then Json(seed) else stored
  }

  /**
   * Seeding never leaves a key falsy, never overwrites a value that is not
   * falsy (an unreadable one included), and a second start-up changes
   * nothing.
   */
  lemma SeededSpec<T>(stored: Stored<T>, seed: seq<T>)
    ensures !Seeded(stored, seed).IsFalsy()
    ensures !stored.IsFalsy() ==> Seeded(stored, seed) == stored
    ensures stored.IsFalsy() ==> Seeded(stored, seed) == Json(seed)
    ensures Seeded(Seeded(stored, seed), seed) == Seeded(stored, seed)
  {
  }

  /** The five checks and writes at the top of App, in order. */
  method SeedStore(store: Store)
    modifies store
    ensures store.subjects == Seeded(old(store.subjects), SeedSubjects)
    ensures store.words == Seeded(old(store.words), SeedWords)
    ensures store.tags == Seeded(old(store.tags), SeedTags)
    ensures store.testSets == Seeded(old(store.testSets), SeedTestSets)
    ensures store.testResults == Seeded(old(store.testResults), SeedTestResults)
  {
    if store.subjects.IsFalsy() {
      store.subjects := Json(SeedSubjects);
    }
    if store.words.IsFalsy() {
      store.words := Json(SeedWords);
    }
    if store.tags.IsFalsy() {
      store.tags := Json(SeedTags);
    }
    if store.testSets.IsFalsy() {
      store.testSets := Json(SeedTestSets);
    }
    if store.testResults.IsFalsy() {
      store.testResults := Json(SeedTestResults);
    }
  }

  /** A first run: every key starts out missing and ends up holding its sample list. */
  method FirstRun() returns (store: Store)
    ensures fresh(store)
    ensures store.subjects == Json(SeedSubjects) && store.words == Json(SeedWords) && store.tags == Json(SeedTags)
    ensures store.testSets == Json(SeedTestSets) && store.testResults == Json(SeedTestResults)
  {
    store := new Store.Empty();
    SeedStore(store);
  }

  /** Starting the app a second time leaves the store as the first start left it. */
  method StartTwice(store: Store)
    modifies store
    ensures store.subjects == Seeded(old(store.subjects), SeedSubjects)
    ensures store.words == Seeded(old(store.words), SeedWords)
    ensures store.tags == Seeded(old(store.tags), SeedTags)
    ensures store.testSets == Seeded(old(store.testSets), SeedTestSets)
    ensures store.testResults == Seeded(old(store.testResults), SeedTestResults)
  {
    SeedStore(store);
    SeedStore(store);
  }

  // ---------------------------------------------------------------------
  // What the sample data satisfies

  /** Every sample question's correct answer is one of its choices. */
  lemma SeedAnswersAmongChoices()
    ensures forall t, i :: 0 <= t < |SeedTestSets| && 0 <= i < |SeedTestSets[t].questions| ==>
      SeedTestSets[t].questions[i].correctAnswer in SeedTestSets[t].questions[i].choices
  {
    assert SeedTestSets[0].questions == BasicEnglish;
    assert SeedTestSets[1].questions == IntermediateEnglish;
    assert SeedTestSets[2].questions == BasicMath;
  }

  /**
   * Every sample result is an attempt the quiz page could have stored: its
   * history answers the questions of test set 1 in order, graded by exact
   * string equality ("NoteBook" is wrong like "Notebook"), and its counts
   * agree with the history. The ids run 1..5, so the next result gets 6.
   */
  lemma SeedResultsRecorded()
    ensures forall k :: 0 <= k < |SeedTestResults| ==>
      && SeedTestResults[k].testSetId == SeedTestSets[0].id
      && HistoryMatches(SeedTestSets[0].questions, SeedTestResults[k].answerHistory)
      && Consistent(SeedTestResults[k])
    ensures TestSession.NumberedInOrder(SeedTestResults)
  {
    forall k | 0 <= k < |SeedTestResults|
      ensures HistoryMatches(BasicEnglish, SeedTestResults[k].answerHistory)
      ensures Consistent(SeedTestResults[k])
    {
      CorrectCountOfThree(SeedTestResults[k].answerHistory);
    }
  }

  lemma CorrectCountOfThree(h: seq<AnswerRecord>)
    requires |h| == 3
    ensures CorrectCount(h) == (if h[0].isCorrect then 1 else 0) + (if h[1].isCorrect then 1 else 0) + (if h[2].isCorrect then 1 else 0)
  {
    assert h[..0] == [];
    assert h[..1] == h[..0] + [h[0]] && h[..2] == h[..1] + [h[1]] && h == h[..2] + [h[2]];
    CorrectCountSnoc(h[..0], h[0]);
    CorrectCountSnoc(h[..1], h[1]);
    CorrectCountSnoc(h[..2], h[2]);
  }

  /**
   * The ranking page for sample test set 1 shows question 1 at 100%,
   * question 2 at 40% and question 3 at 20%: 5, 2 and 1 correct answers
   * out of 5.
   */
  lemma SeedRanking()
    ensures Rankings(BasicEnglish, ResultsFor(SeedTestResults, 1)) == Some([
      QuestionRanking(1, "「りんご」の英語は？", 100.0),
      QuestionRanking(2, "「犬」の英語は？", 40.0),
      QuestionRanking(3, "「本」の英語は？", 20.0)])
  {
    SeedResultsOfSet1();
    SeedAnswersKnown();
    RankingsOfThree(BasicEnglish, SeedTestResults);
    SeedRates();
  }

  /** The three rates of sample test set 1. */
  lemma SeedRates()
    ensures Rate(Successes(SeedTestResults, 1), Attempts(SeedTestResults, 1)) == 100.0
    ensures Rate(Successes(SeedTestResults, 2), Attempts(SeedTestResults, 2)) == 40.0
    ensures Rate(Successes(SeedTestResults, 3), Attempts(SeedTestResults, 3)) == 20.0
  {
    SeedTally(1);
    SeedTally(2);
    SeedTally(3);
  }

  /** The rankings of a three-question test, written out row by row. */
  lemma RankingsOfThree(qs: seq<Question>, rs: seq<TestResult>)
    requires |qs| == 3 && AnswersKnown(rs, QuestionIds(qs))
    ensures Rankings(qs, rs) == Some([
      QuestionRanking(qs[0].id, qs[0].question, Rate(Successes(rs, qs[0].id), Attempts(rs, qs[0].id))),
      QuestionRanking(qs[1].id, qs[1].question, Rate(Successes(rs, qs[1].id), Attempts(rs, qs[1].id))),
      QuestionRanking(qs[2].id, qs[2].question, Rate(Successes(rs, qs[2].id), Attempts(rs, qs[2].id)))])
  {
    var r := Rankings(qs, rs).value;
    assert r == [r[0], r[1], r[2]];
  }

  /** All five sample results belong to test set 1. */
  lemma SeedResultsOfSet1()
    ensures ResultsFor(SeedTestResults, 1) == SeedTestResults
  {
    assert forall k :: 0 <= k < |SeedTestResults| ==> OfTestSet(1)(SeedTestResults[k]);
    FilterKeepsAll(SeedTestResults, OfTestSet(1));
  }

  /** Every sample record names a question of test set 1, so the ranking page does not fail on them. */
  lemma SeedAnswersKnown()
    ensures AnswersKnown(SeedTestResults, QuestionIds(BasicEnglish))
  {
    var ids := QuestionIds(BasicEnglish);
    assert BasicEnglish[0].id in ids && BasicEnglish[1].id in ids && BasicEnglish[2].id in ids;
    assert forall k :: 0 <= k < |SeedTestResults| ==> ThreeAnswers(SeedTestResults[k].answerHistory);
  }

  /** Counting one sample attempt: one record per question, marked as the attempt says. */
  lemma AttemptTally(a: string, ca: bool, b: string, cb: bool, c: string, cc: bool, qid: int)
    requires 1 <= qid <= 3
    ensures HistoryAttempts(Attempt(a, ca, b, cb, c, cc), qid) == 1
    ensures HistorySuccesses(Attempt(a, ca, b, cb, c, cc), qid) ==
      if qid == 1 then (if ca then 1 else 0) else if qid == 2 then (if cb then 1 else 0) else (if cc then 1 else 0)
  {
    var h := Attempt(a, ca, b, cb, c, cc);
    FilterThree(h[0], h[1], h[2], AnswersTo(qid));
    FilterThree(h[0], h[1], h[2], CorrectlyAnswers(qid));
  }

  lemma FilterThree<T>(x: T, y: T, z: T, p: T -> bool)
    ensures Filter([x, y, z], p) == (if p(x) then [x] else []) + (if p(y) then [y] else []) + (if p(z) then [z] else [])
  {
    assert [z][1..] == [];
    assert Filter([z], p) == (if p(z) then [z] else []) + Filter([], p);
    assert [y, z][1..] == [z];
    assert Filter([y, z], p) == (if p(y) then [y] else []) + Filter([z], p);
    assert [x, y, z][1..] == [y, z];
    assert Filter([x, y, z], p) == (if p(x) then [x] else []) + Filter([y, z], p);
  }

  /** A history that answers questions 1, 2 and 3 in that order, as every sample attempt does. */
  predicate ThreeAnswers(h: seq<AnswerRecord>)
  {
    |h| == 3 && h[0].questionId == 1 && h[1].questionId == 2 && h[2].questionId == 3
  }

  function Sum(s: seq<int>): int
  {
    if s == [] then 0 else s[0] + Sum(s[1..])
  }

  lemma {:induction false} SumLast(s: seq<int>)
    requires s != []
    ensures Sum(s) == Sum(s[..|s| - 1]) + s[|s| - 1]
  {
    if |s| > 1 {
      SumLast(s[1..]);
      assert s[1..][..|s| - 2] == s[..|s| - 1][1..];
    }
  }

  /**
   * Over results that each answer questions 1..3 once, question `qid` has
   * one record per result, and `wins` says which of them are correct.
   */
  lemma {:induction false} TallyThreeAnswers(rs: seq<TestResult>, qid: int, wins: seq<int>)
    requires 1 <= qid <= 3 && |wins| == |rs|
    requires forall k :: 0 <= k < |rs| ==>
      ThreeAnswers(rs[k].answerHistory) && wins[k] == if rs[k].answerHistory[qid - 1].isCorrect then 1 else 0
    ensures Attempts(rs, qid) == |rs| && Successes(rs, qid) == Sum(wins)
  {
    if rs != [] {
      var n := |rs| - 1;
      TallyThreeAnswers(rs[..n], qid, wins[..n]);
      SumLast(wins);
      ThreeAnswersTally(rs[n].answerHistory, qid);
    }
  }

  /** One history of the sample shape holds one record of `qid`, correct as its entry says. */
  lemma ThreeAnswersTally(h: seq<AnswerRecord>, qid: int)
    requires 1 <= qid <= 3 && ThreeAnswers(h)
    ensures HistoryAttempts(h, qid) == 1
    ensures HistorySuccesses(h, qid) == if h[qid - 1].isCorrect then 1 else 0
  {
    assert h == Attempt(h[0].userAnswer, h[0].isCorrect, h[1].userAnswer, h[1].isCorrect, h[2].userAnswer, h[2].isCorrect);
    AttemptTally(h[0].userAnswer, h[0].isCorrect, h[1].userAnswer, h[1].isCorrect, h[2].userAnswer, h[2].isCorrect, qid);
  }

  /** Question `qid` of test set 1 over the five sample results: 5 records, of which 5, 2 or 1 are correct. */
  lemma SeedTally(qid: int)
    requires 1 <= qid <= 3
    ensures Attempts(SeedTestResults, qid) == 5
    ensures Successes(SeedTestResults, qid) == if qid == 1 then 5 else if qid == 2 then 2 else 1
  {
    if qid == 1 {
      assert Sum([1, 1, 1, 1, 1]) == 5;
      TallyThreeAnswers(SeedTestResults, qid, [1, 1, 1, 1, 1]);
    } else if qid == 2 {
      assert Sum([0, 0, 0, 1, 1]) == 2;
      TallyThreeAnswers(SeedTestResults, qid, [0, 0, 0, 1, 1]);
    } else {
      assert Sum([1, 0, 0, 0, 0]) == 1;
      TallyThreeAnswers(SeedTestResults, qid, [1, 0, 0, 0, 0]);
    }
  }
}
