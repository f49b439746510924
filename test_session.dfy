/**
 * Taking a test (src/pages/AllQuestionsPage/main.tsx together with the
 * question card of src/pages/AllQuestionsPage/QuestionCard.tsx): questions
 * are shown one at a time, each answered once, and the finished attempt is
 * appended to the stored results.
 */
module TestSession {
  import opened Wrappers
  import opened Seqs
  import opened Types
  import opened LocalStore

  // ---------------------------------------------------------------------
  // Grading and counting

  /** The card's correctness test: exact string equality with the expected answer. */
  function Grade(q: Question, answer: string): (correct: bool)
    ensures correct <==> answer == q.correctAnswer
  {
    answer == q.correctAnswer
  }

  function IsCorrectRecord(): AnswerRecord -> bool
  {
    (a: AnswerRecord) => a.isCorrect
  }

  /** The number of records of a history that are marked correct. */
  function CorrectCount(h: seq<AnswerRecord>): nat
  {
    |Filter(h, IsCorrectRecord())|
  }

  /** Appending one record raises the count by one exactly when that record is correct. */
  lemma CorrectCountSnoc(h: seq<AnswerRecord>, a: AnswerRecord)
    ensures CorrectCount(h + [a]) == CorrectCount(h) + (if a.isCorrect then 1 else 0)
  {
    FilterSnoc(h, a, IsCorrectRecord());
  }

  lemma CorrectCountAtMostLength(h: seq<AnswerRecord>)
    ensures CorrectCount(h) <= |h|
  {
  }

  /**
   * The history a test-taker leaves when every question is answered once, in
   * order: one record per question, carrying its id, the answer and its grade.
   */
  predicate HistoryMatches(qs: seq<Question>, h: seq<AnswerRecord>)
  {
    && |h| == |qs|
    && forall i :: 0 <= i < |h| ==>
         h[i] == AnswerRecord(qs[i].id, h[i].userAnswer, Grade(qs[i], h[i].userAnswer))
  }

  /** Answering the next question extends a matching history by one question. */
  lemma HistoryMatchesSnoc(qs: seq<Question>, h: seq<AnswerRecord>, answer: string)
    requires |h| < |qs| && HistoryMatches(qs[..|h|], h)
    ensures HistoryMatches(qs[..|h| + 1], h + [AnswerRecord(qs[|h|].id, answer, Grade(qs[|h|], answer))])
  {
  }

  /** The history of answering every question of `qs` with the matching entry of `answers`. */
  function Graded(qs: seq<Question>, answers: seq<string>): (h: seq<AnswerRecord>)
    requires |answers| == |qs|
    ensures HistoryMatches(qs, h)
    ensures forall i :: 0 <= i < |h| ==> h[i].userAnswer == answers[i]
  {
    seq(|qs|, i requires 0 <= i < |qs| => AnswerRecord(qs[i].id, answers[i], Grade(qs[i], answers[i])))
  }

  // ---------------------------------------------------------------------
  // Recording a finished attempt

  /** The stored results have ids 1, 2, ..., n, which is what appending with `length + 1` keeps. */
  predicate NumberedInOrder(rs: seq<TestResult>)
  {
    forall i :: 0 <= i < |rs| ==> rs[i].id == i + 1
  }

  /**
   * saveTestResult's read-append-write: a present list gains one result
   * numbered `length + 1`; an absent, empty or unreadable value is left as it is.
   */
  function WithResult(stored: Stored<TestResult>, testId: int, subjectId: int, correct: int, total: int,
                      date: string, history: seq<AnswerRecord>): Stored<TestResult>
  {
    match stored
    case Json(rs) => Json(rs + [TestResult(|rs| + 1, testId, subjectId, correct, total, date, history)])
    case _ => stored
  }

  /** Saving keeps every earlier result and adds exactly one, numbered one past the old count. */
  lemma WithResultAppendsOne(stored: Stored<TestResult>, testId: int, subjectId: int, correct: int, total: int,
                             date: string, history: seq<AnswerRecord>)
    ensures var r := WithResult(stored, testId, subjectId, correct, total, date, history);
      && (stored.Json? <==> r.Json?)
      && (!stored.Json? ==> r == stored)
      && (stored.Json? ==>
            && |r.items| == |stored.items| + 1
            && r.items[..|stored.items|] == stored.items
            && var last := r.items[|stored.items|];
               last.id == |stored.items| + 1 && last.testSetId == testId && last.subjectId == subjectId
               && last.correctAnswers == correct && last.totalQuestions == total && last.answerHistory == history)
  {
  }

  /** Saving keeps the results numbered 1..n. */
  lemma WithResultKeepsNumbering(rs: seq<TestResult>, testId: int, subjectId: int, correct: int, total: int,
                                 date: string, history: seq<AnswerRecord>)
    requires NumberedInOrder(rs)
    ensures NumberedInOrder(WithResult(Json(rs), testId, subjectId, correct, total, date, history).items)
  {
  }

  // ---------------------------------------------------------------------
  // The page

  /** What the page renders. */
  datatype View =
    | FetchError         // "Failed to fetch test data. Please try again later."
    | NoTestData         // "No test data available."
    | RenderCrash        // `testSet.questions[currentQuestionIndex]` is undefined and the card dereferences it
    | QuestionView(index: nat)
    | ResultView

  class AllQuestionsPage {
    const testId: int
    const subjectId: int
    var testSet: Option<TestSet>
    var subjectName: string
    var error: bool
    var currentQuestionIndex: nat
    var correctAnswers: nat
    var showResult: bool
    var answerHistory: seq<AnswerRecord>
    // The question card's own state; the card is remounted after the result screen.
    var selectedAnswer: Option<string>
    var isAnswered: bool

    /** The session's counting invariant and the card's two flags moving together. */
    ghost predicate Valid()
      reads this
    {
      && correctAnswers == CorrectCount(answerHistory)
      && (isAnswered <==> selectedAnswer.Some?)
    }

    /**
     * Driven only through the card, the history holds one graded record for
     * each question already answered, in order; once the result shows, one for
     * every question.
     */
    ghost predicate InFlow()
      reads this
    {
      testSet.Some? ==>
        var qs := testSet.value.questions;
        if showResult then HistoryMatches(qs, answerHistory)
        else
          && currentQuestionIndex < |qs|
          && |answerHistory| == currentQuestionIndex + (if isAnswered then 1 else 0)
          && HistoryMatches(qs[..|answerHistory|], answerHistory)
          && (isAnswered ==> selectedAnswer == Some(answerHistory[currentQuestionIndex].userAnswer))
    }

    function CurrentView(): View
      reads this
    {
      if error then FetchError
      else if testSet.None? then NoTestData
      else if showResult then ResultView
      else if currentQuestionIndex < |testSet.value.questions| then QuestionView(currentQuestionIndex)
      else RenderCrash
    }

    /** The card shows "correct" exactly when the selected answer is the expected one. */
    predicate FeedbackCorrect()
      reads this
      requires testSet.Some? && currentQuestionIndex < |testSet.value.questions|
    {
      selectedAnswer == Some(testSet.value.questions[currentQuestionIndex].correctAnswer)
    }

    /** Mounting the page: fetchTestData for the route's test and subject ids. */
    constructor Load(store: Store, testId: int, subjectId: int)
      ensures this.testId == testId && this.subjectId == subjectId
      ensures testSet == (if store.testSets.Json? then Find(store.testSets.items, TestSetIdIs(testId)) else None)
      ensures error <==>
        || store.testSets.Garbage?
        || (!store.subjects.IsFalsy() &&
            (store.subjects.Garbage? || Find(store.subjects.items, SubjectIdIs(subjectId)).None?))
      ensures subjectName ==
        if !error && store.subjects.Json? then Find(store.subjects.items, SubjectIdIs(subjectId)).value.name else ""
      ensures currentQuestionIndex == 0 && correctAnswers == 0 && !showResult && answerHistory == []
      ensures selectedAnswer.None? && !isAnswered
      ensures Valid()
      ensures store.testSets.Json? && !error && Find(store.testSets.items, TestSetIdIs(testId)).None? ==>
        CurrentView() == NoTestData
      ensures testSet.Some? && testSet.value.questions != [] ==> InFlow()
      ensures !error && testSet.Some? && testSet.value.questions == [] ==> CurrentView() == RenderCrash
    {
      this.testId, this.subjectId := testId, subjectId;
      testSet, subjectName, error := None, "", false;
      currentQuestionIndex, correctAnswers, showResult, answerHistory := 0, 0, false, [];
      selectedAnswer, isAnswered := None, false;
      new;
      var sets, subjects := store.testSets, store.subjects;
      if !sets.IsFalsy() {
        if sets.Garbage? {
          error := true;   // JSON.parse throws; the subjects are not read
        } else {
          testSet := Find(sets.items, TestSetIdIs(testId));
        }
      }
      if !error && !subjects.IsFalsy() {
        if subjects.Garbage? {
          error := true;
        } else {
          var subject := Find(subjects.items, SubjectIdIs(subjectId));
          if subject.None? {
            error := true;   // `.name` of undefined
          } else {
            subjectName := subject.value.name;
          }
        }
      }
    }

    /** handleAnswerSelect: record the answer to the current question. */
    method HandleAnswerSelect(answer: string, isCorrect: bool)
      requires Valid()
      requires testSet.Some? ==> currentQuestionIndex < |testSet.value.questions|
      modifies this
      ensures testSet == old(testSet) && subjectName == old(subjectName) && error == old(error)
      ensures currentQuestionIndex == old(currentQuestionIndex) && showResult == old(showResult)
      ensures selectedAnswer == old(selectedAnswer) && isAnswered == old(isAnswered)
      ensures testSet.None? ==> unchanged(this)
      ensures testSet.Some? ==>
        && answerHistory == old(answerHistory) +
             [AnswerRecord(testSet.value.questions[currentQuestionIndex].id, answer, isCorrect)]
        && correctAnswers == old(correctAnswers) + (if isCorrect then 1 else 0)
      ensures Valid()
    {
      if testSet.None? {
        return;
      }
      var currentQuestion := testSet.value.questions[currentQuestionIndex];
      if isCorrect {
        correctAnswers := correctAnswers + 1;
      }
      var record := AnswerRecord(currentQuestion.id, answer, isCorrect);
      CorrectCountSnoc(answerHistory, record);
      answerHistory := answerHistory + [record];
    }

    /** handleAnswerClick on the card: the first click on a choice answers the question; later clicks are ignored. */
    method AnswerClick(answer: string)
      requires Valid() && CurrentView().QuestionView?
      modifies this
      ensures testSet == old(testSet) && error == old(error) && subjectName == old(subjectName)
      ensures currentQuestionIndex == old(currentQuestionIndex) && showResult == old(showResult)
      ensures old(isAnswered) ==> unchanged(this)
      ensures !old(isAnswered) ==>
        var q := testSet.value.questions[currentQuestionIndex];
        && selectedAnswer == Some(answer) && isAnswered
        && answerHistory == old(answerHistory) + [AnswerRecord(q.id, answer, Grade(q, answer))]
        && correctAnswers == old(correctAnswers) + (if Grade(q, answer) then 1 else 0)
        && (FeedbackCorrect() <==> Grade(q, answer))
      ensures Valid() && CurrentView() == old(CurrentView())
      ensures old(InFlow()) ==> InFlow()
    {
      if isAnswered {
        return;
      }
      selectedAnswer := Some(answer);
      isAnswered := true;
      var q := testSet.value.questions[currentQuestionIndex];
      var isCorrect := Grade(q, answer);
      HandleAnswerSelect(answer, isCorrect);
      if old(InFlow()) {
        HistoryMatchesSnoc(testSet.value.questions, old(answerHistory), answer);
      }
    }

    /** saveTestResult: append the attempt to the stored results, when a list is stored. */
    method SaveTestResult(store: Store, now: string)
      modifies store
      ensures testSet.None? ==> unchanged(store)
      ensures testSet.Some? ==>
        store.testResults == WithResult(old(store.testResults), testId, subjectId, correctAnswers,
                                        |testSet.value.questions|, now, answerHistory)
      ensures store.subjects == old(store.subjects) && store.words == old(store.words)
      ensures store.tags == old(store.tags) && store.testSets == old(store.testSets)
    {
      if testSet.None? {
        return;
      }
      var stored := store.testResults;
      if !stored.IsFalsy() {
        if stored.Json? {
          var testResults := stored.items;
          var newResult := TestResult(|testResults| + 1, testId, subjectId, correctAnswers,
                                      |testSet.value.questions|, now, answerHistory);
          store.testResults := Json(testResults + [newResult]);
        }
        // on unparsable text JSON.parse throws; the error is logged and nothing is written
      }
    }

    /** handleShowResult: show the result screen and save; it has no test-set guard of its own. */
    method HandleShowResult(store: Store, now: string)
      modifies this, store
      ensures showResult
      ensures testSet == old(testSet) && error == old(error) && subjectName == old(subjectName)
      ensures currentQuestionIndex == old(currentQuestionIndex)
      ensures correctAnswers == old(correctAnswers) && answerHistory == old(answerHistory)
      ensures selectedAnswer == old(selectedAnswer) && isAnswered == old(isAnswered)
      ensures testSet.None? ==> unchanged(store)
      ensures testSet.Some? ==>
        store.testResults == WithResult(old(store.testResults), testId, subjectId, correctAnswers,
                                        |testSet.value.questions|, now, answerHistory)
      ensures store.subjects == old(store.subjects) && store.words == old(store.words)
      ensures store.tags == old(store.tags) && store.testSets == old(store.testSets)
    {
      showResult := true;
      SaveTestResult(store, now);
    }

    /** handleNextQuestion: move to the next question, or finish and save after the last one. */
    method HandleNextQuestion(store: Store, now: string)
      modifies this, store
      ensures testSet == old(testSet) && error == old(error) && subjectName == old(subjectName)
      ensures testSet.None? ==> unchanged(this) && unchanged(store)
      ensures testSet.Some? && old(currentQuestionIndex) < |testSet.value.questions| - 1 ==>
        currentQuestionIndex == old(currentQuestionIndex) + 1 && showResult == old(showResult) && unchanged(store)
      ensures testSet.Some? && old(currentQuestionIndex) >= |testSet.value.questions| - 1 ==>
        && currentQuestionIndex == old(currentQuestionIndex) && showResult
        && store.testResults == WithResult(old(store.testResults), testId, subjectId, correctAnswers,
                                           |testSet.value.questions|, now, answerHistory)
      ensures correctAnswers == old(correctAnswers) && answerHistory == old(answerHistory)
      ensures selectedAnswer == old(selectedAnswer) && isAnswered == old(isAnswered)
      ensures store.subjects == old(store.subjects) && store.words == old(store.words)
      ensures store.tags == old(store.tags) && store.testSets == old(store.testSets)
    {
      if testSet.None? {
        return;
      }
      if currentQuestionIndex < |testSet.value.questions| - 1 {
        currentQuestionIndex := currentQuestionIndex + 1;
      } else {
        HandleShowResult(store, now);
      }
    }

    /** handleNextClick on the card (shown only once the question is answered): next question or result, then clear the card. */
    method NextClick(store: Store, now: string)
      requires Valid() && CurrentView().QuestionView? && isAnswered
      modifies this, store
      ensures testSet == old(testSet) && error == old(error) && subjectName == old(subjectName)
      ensures selectedAnswer.None? && !isAnswered
      ensures old(currentQuestionIndex) < |testSet.value.questions| - 1 ==>
        currentQuestionIndex == old(currentQuestionIndex) + 1 && !showResult && unchanged(store)
      ensures old(currentQuestionIndex) == |testSet.value.questions| - 1 ==>
        && currentQuestionIndex == old(currentQuestionIndex) && showResult
        && store.testResults == WithResult(old(store.testResults), testId, subjectId, correctAnswers,
                                           |testSet.value.questions|, now, answerHistory)
      ensures correctAnswers == old(correctAnswers) && answerHistory == old(answerHistory)
      ensures store.subjects == old(store.subjects) && store.words == old(store.words)
      ensures store.tags == old(store.tags) && store.testSets == old(store.testSets)
      ensures Valid()
      ensures old(InFlow()) ==> InFlow()
    {
      if currentQuestionIndex < |testSet.value.questions| - 1 {
        HandleNextQuestion(store, now);
      } else {
        HandleShowResult(store, now);
      }
      selectedAnswer := None;
      isAnswered := false;
    }

    /** restartTest: back to the first question with an empty history; the stored results stay. */
    method RestartTest()
      requires Valid()
      modifies this
      ensures currentQuestionIndex == 0 && correctAnswers == 0 && !showResult && answerHistory == []
      ensures selectedAnswer.None? && !isAnswered
      ensures testSet == old(testSet) && error == old(error) && subjectName == old(subjectName)
      ensures Valid()
      ensures testSet.Some? && testSet.value.questions != [] ==> InFlow()
    {
      currentQuestionIndex, correctAnswers, showResult, answerHistory := 0, 0, false, [];
      selectedAnswer, isAnswered := None, false;
    }
  }

  /** A stored result whose count and total agree with its own history. */
  predicate Consistent(r: TestResult)
  {
    r.correctAnswers == CorrectCount(r.answerHistory) && r.totalQuestions == |r.answerHistory|
  }

  /**
   * One whole attempt through the card: answer each question with the
   * matching entry of `answers` and press the advance button after each.
   * The attempt ends on the result screen and stores one consistent result
   * with the graded history.
   */
  method TakeTest(page: AllQuestionsPage, store: Store, answers: seq<string>, now: string)
    requires page.Valid() && page.InFlow()
    requires page.CurrentView() == QuestionView(0) && !page.isAnswered
    requires |answers| == |page.testSet.value.questions|
    modifies page, store
    ensures page.testSet == old(page.testSet) && page.CurrentView() == ResultView
    ensures page.Valid() && page.InFlow()
    ensures page.answerHistory == Graded(page.testSet.value.questions, answers)
    ensures page.correctAnswers == CorrectCount(page.answerHistory)
    ensures store.testResults == WithResult(old(store.testResults), page.testId, page.subjectId,
      page.correctAnswers, |answers|, now, page.answerHistory)
    ensures old(store.testResults).Json? ==> Consistent(store.testResults.items[|old(store.testResults).items|])
    ensures store.subjects == old(store.subjects) && store.words == old(store.words)
    ensures store.tags == old(store.tags) && store.testSets == old(store.testSets)
  {
    var qs := page.testSet.value.questions;
    ghost var graded := Graded(qs, answers);
    var i := 0;
    while i < |qs|
      invariant 0 <= i <= |qs|
      invariant page.testSet == old(page.testSet) && !page.error
      invariant page.Valid() && page.InFlow() && !page.isAnswered
      invariant i < |qs| ==> page.CurrentView() == QuestionView(i) && store.testResults == old(store.testResults)
      invariant i == |qs| ==>
        && page.CurrentView() == ResultView
        && store.testResults == WithResult(old(store.testResults), page.testId, page.subjectId,
             page.correctAnswers, |qs|, now, page.answerHistory)
      invariant page.answerHistory == graded[..i]
      invariant store.subjects == old(store.subjects) && store.words == old(store.words)
      invariant store.tags == old(store.tags) && store.testSets == old(store.testSets)
    {
      page.AnswerClick(answers[i]);
      assert page.answerHistory == graded[..i + 1];
      page.NextClick(store, now);
      i := i + 1;
    }
    assert graded[..i] == graded;
    WithResultAppendsOne(old(store.testResults), page.testId, page.subjectId,
      page.correctAnswers, |qs|, now, page.answerHistory);
  }
}
