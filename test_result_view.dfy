/**
 * The result screen of a finished attempt
 * (src/pages/AllQuestionsPage/TestResult.tsx): the score, its percentage and
 * one row per question with the answer that was given to it.
 */
module TestResultView {
  import opened Wrappers
  import opened Seqs
  import opened Types
  import opened TestSession

  /**
   * `correctAnswers / totalQuestions * 100`. `None` stands for the
   * non-finite quotient of a zero total (NaN or Infinity).
   */
  function Percentage(correct: int, total: int): (p: Option<real>)
    ensures p.Some? <==> total != 0
    ensures p.Some? ==> p.value * total as real == correct as real * 100.0
  {
    if total == 0 then None else Some((correct as real / total as real) * 100.0)
  }

  lemma PercentageBounds(correct: int, total: int)
    requires 0 <= correct <= total && total > 0
    ensures 0.0 <= Percentage(correct, total).value <= 100.0
    ensures Percentage(correct, total).value == 100.0 <==> correct == total
  {
    var p := Percentage(correct, total).value;
    assert p * total as real == correct as real * 100.0;
  }

  /** One `ResultCard`: the question, its position and the answer found for it, if any. */
  datatype ResultRow = ResultRow(question: Question, index: nat, userAnswer: Option<string>, isCorrect: Option<bool>)

  /** `questions.map` with `answerHistory.find(h => h.questionId === question.id)` per question. */
  function Rows(questions: seq<Question>, history: seq<AnswerRecord>): (rows: seq<ResultRow>)
    ensures |rows| == |questions|
    ensures forall i :: 0 <= i < |rows| ==> rows[i].question == questions[i] && rows[i].index == i
    ensures forall i :: 0 <= i < |rows| ==>
      (rows[i].userAnswer.None? <==> forall j :: 0 <= j < |history| ==> history[j].questionId != questions[i].id)
    ensures forall i :: 0 <= i < |rows| ==> (rows[i].userAnswer.None? <==> rows[i].isCorrect.None?)
  {
    seq(|questions|, i requires 0 <= i < |questions| =>
      var found := Find(history, AnswersTo(questions[i].id));
      ResultRow(questions[i], i,
        if found.Some? then Some(found.value.userAnswer) else None,
        if found.Some? then Some(found.value.isCorrect) else None))
  }

  /** A row carries the first record for its question, even when later records answer it too. */
  lemma RowShowsFirstRecord(questions: seq<Question>, history: seq<AnswerRecord>, i: nat, j: nat)
    requires i < |questions| && j < |history| && history[j].questionId == questions[i].id
    requires forall k :: 0 <= k < j ==> history[k].questionId != questions[i].id
    ensures Rows(questions, history)[i].userAnswer == Some(history[j].userAnswer)
    ensures Rows(questions, history)[i].isCorrect == Some(history[j].isCorrect)
  {
    FindFirst(history, AnswersTo(questions[i].id), j);
  }

  /**
   * After an attempt through the card, with distinct question ids, every row
   * shows the answer given to its own question and that answer's grade.
   */
  lemma RowsOfCompletedAttempt(questions: seq<Question>, history: seq<AnswerRecord>)
    requires HistoryMatches(questions, history)
    requires forall a, b :: 0 <= a < b < |questions| ==> questions[a].id != questions[b].id
    ensures forall i :: 0 <= i < |questions| ==>
      && Rows(questions, history)[i].userAnswer == Some(history[i].userAnswer)
      && Rows(questions, history)[i].isCorrect == Some(Grade(questions[i], history[i].userAnswer))
  {
    forall i | 0 <= i < |questions|
      ensures Rows(questions, history)[i].userAnswer == Some(history[i].userAnswer)
      ensures Rows(questions, history)[i].isCorrect == Some(Grade(questions[i], history[i].userAnswer))
    {
      RowShowsFirstRecord(questions, history, i, i);
    }
  }

  /** Answering twice (possible only by calling the page's handler directly) hides the second answer. */
  lemma SecondAnswerHidden(q: Question, first: string, second: string)
    requires first != second
    ensures var h := [AnswerRecord(q.id, first, Grade(q, first)), AnswerRecord(q.id, second, Grade(q, second))];
      Rows([q], h)[0].userAnswer == Some(first)
  {
    var h := [AnswerRecord(q.id, first, Grade(q, first)), AnswerRecord(q.id, second, Grade(q, second))];
    RowShowsFirstRecord([q], h, 0, 0);
  }
}
