/**
 * The browser's key/value store as the app uses it: five keys, each holding
 * the JSON text of one list. Serialising with JSON.stringify and parsing the
 * same text back gives the list again, so a slot that the app wrote is
 * modelled by the list itself.
 */
module LocalStore {
  import opened Types

  /**
   * What `localStorage.getItem(key)` can hand back for one key:
   * `Absent` (null), `Blank` (the empty string, which is falsy like null),
   * `Garbage` (text on which JSON.parse throws) or the JSON of a list.
   */
  datatype Stored<T> = Absent | Blank | Garbage | Json(items: seq<T>)
  {
    /** The app tests the raw value with `if (value)`: null and "" fail that test. */
    predicate IsFalsy() {
      Absent? || Blank?
    }
  }

  /** One slot per key: `subjects`, `words`, `tags`, `testSets`, `testResults`. */
  class Store {
    var subjects: Stored<Subject>
    var words: Stored<Word>
    var tags: Stored<Tag>
    var testSets: Stored<TestSet>
    var testResults: Stored<TestResult>

    /** A browser profile in which the app has never run. */
    constructor Empty()
      ensures subjects == Absent && words == Absent && tags == Absent
      ensures testSets == Absent && testResults == Absent
    {
      subjects, words, tags := Absent, Absent, Absent;
      testSets, testResults := Absent, Absent;
    }
  }
}
