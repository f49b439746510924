/**
 * The records kept in the browser store (src/types.ts). Numbers that the
 * app uses as identifiers are `int`; timestamps are opaque strings.
 */
module Types {

  datatype Subject = Subject(id: int, name: string)

  datatype Word = Word(
    id: int,
    subjectId: int,
    word: string,
    meaning: string,   // HTML produced by the rich-text editor
    tagIds: seq<int>,
    isMarked: bool,
    createdAt: string)

  datatype Tag = Tag(id: int, name: string)

  datatype Question = Question(
    id: int,
    question: string,
    choices: seq<string>,
    correctAnswer: string)

  datatype TestSet = TestSet(
    id: int,
    subjectId: int,
    name: string,
    questions: seq<Question>)

  /** One entry of a `TestResult`'s answer history. */
  datatype AnswerRecord = AnswerRecord(questionId: int, userAnswer: string, isCorrect: bool)

  /** One finished attempt at a test set. */
  datatype TestResult = TestResult(
    id: int,
    testSetId: int,
    subjectId: int,
    correctAnswers: int,
    totalQuestions: int,
    date: string,
    answerHistory: seq<AnswerRecord>)

  function TestSetIdIs(id: int): TestSet -> bool
  {
    (t: TestSet) => t.id == id
  }

  function AnswersTo(qid: int): AnswerRecord -> bool
  {
    (a: AnswerRecord) => a.questionId == qid
  }

  function SubjectIdIs(id: int): Subject -> bool
  {
    (s: Subject) => s.id == id
  }

  function TagIdIs(id: int): Tag -> bool
  {
    (t: Tag) => t.id == id
  }
}
