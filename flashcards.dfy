/**
 * The word list of one subject (src/pages/FlashcardsPage/main.tsx): load the
 * subject's words, show them filtered by mark and sorted, toggle a word's
 * mark and delete a word, writing the page's list back to the store.
 */
module Flashcards {
  import opened Wrappers
  import opened Seqs
  import opened Types
  import opened StableSort
  import opened LocalStore

  // ---------------------------------------------------------------------
  // Loading

  function OfSubject(subjectId: int): Word -> bool
  {
    (w: Word) => w.subjectId == subjectId
  }

  /** fetchWords' filter: the stored words of one subject, in stored order. */
  function WordsOfSubject(words: seq<Word>, subjectId: int): (r: seq<Word>)
    ensures forall i :: 0 <= i < |r| ==> r[i].subjectId == subjectId
    ensures forall i :: 0 <= i < |words| && words[i].subjectId == subjectId ==> words[i] in r
    ensures IsSubsequence(r, words)
    ensures forall x :: multiset(r)[x] == if x.subjectId == subjectId then multiset(words)[x] else 0
  {
    FilterIsSubsequence(words, OfSubject(subjectId));
    FilterCounts(words, OfSubject(subjectId));
    forall i | 0 <= i < |words| && words[i].subjectId == subjectId
      ensures words[i] in Filter(words, OfSubject(subjectId))
    {
      FilterMembers(words, OfSubject(subjectId), words[i]);
    }
    Filter(words, OfSubject(subjectId))
  }

  // ---------------------------------------------------------------------
  // Filtering by mark

  datatype MarkFilter = All | Marked | Unmarked

  function IsMarked(): Word -> bool
  {
    (w: Word) => w.isMarked
  }

  function IsUnmarked(): Word -> bool
  {
    (w: Word) => !w.isMarked
  }

  /** The `filterMarked` step of applyFilterAndSort. */
  function FilterMarked(words: seq<Word>, filter: MarkFilter): (r: seq<Word>)
    ensures filter == All ==> r == words
    ensures filter == Marked ==> forall i :: 0 <= i < |r| ==> r[i].isMarked
    ensures filter == Unmarked ==> forall i :: 0 <= i < |r| ==> !r[i].isMarked
    ensures IsSubsequence(r, words)
  {
    match filter
    case All => IsSubsequenceRefl(words); words
    case Marked => FilterIsSubsequence(words, IsMarked()); Filter(words, IsMarked())
    case Unmarked => FilterIsSubsequence(words, IsUnmarked()); Filter(words, IsUnmarked())
  }

  /** A word survives the filter exactly when its mark agrees with it. */
  lemma FilterMarkedMembers(words: seq<Word>, filter: MarkFilter, w: Word)
    ensures w in FilterMarked(words, filter) <==>
      w in words && (filter == Marked ==> w.isMarked) && (filter == Unmarked ==> !w.isMarked)
  {
    match filter
    case All =>
    case Marked => FilterMembers(words, IsMarked(), w);
    case Unmarked => FilterMembers(words, IsUnmarked(), w);
  }

  /** Every word is either marked or unmarked: the two filtered lists split the list. */
  lemma {:induction false} MarkedUnmarkedSplit(words: seq<Word>)
    ensures |FilterMarked(words, Marked)| + |FilterMarked(words, Unmarked)| == |words|
  {
    if words != [] {
      MarkedUnmarkedSplit(words[1..]);
    }
  }

  // ---------------------------------------------------------------------
  // Sorting

  /**
   * The comparator of applyFilterAndSort as a sort key. `wordRank` places a
   * word in `localeCompare` order and `timeOf` is `new Date(createdAt).getTime()`;
   * a descending order negates the key, and an unknown method compares
   * everything equal.
   */
  function SortKey(sortMethod: string, wordRank: string -> real, timeOf: string -> real): Word -> real
  {
    if sortMethod == "word-asc" then (w: Word) => wordRank(w.word)
    else if sortMethod == "word-desc" then (w: Word) => -wordRank(w.word)
    else if sortMethod == "createdAt-asc" then (w: Word) => timeOf(w.createdAt)
    else if sortMethod == "createdAt-desc" then (w: Word) => -timeOf(w.createdAt)
    else (w: Word) => 0.0
  }

  predicate KnownSortMethod(sortMethod: string)
  {
    sortMethod in ["word-asc", "word-desc", "createdAt-asc", "createdAt-desc"]
  }

  /** applyFilterAndSort: filter by mark, then a stable sort of a copy. */
  function ApplyFilterAndSort(words: seq<Word>, filter: MarkFilter, sortMethod: string,
                              wordRank: string -> real, timeOf: string -> real): seq<Word>
  {
    SortByKey(FilterMarked(words, filter), SortKey(sortMethod, wordRank, timeOf))
  }

  /** The shown list is a permutation of the filtered list, ordered by the chosen key. */
  lemma ApplyFilterAndSortSpec(words: seq<Word>, filter: MarkFilter, sortMethod: string,
                               wordRank: string -> real, timeOf: string -> real)
    ensures multiset(ApplyFilterAndSort(words, filter, sortMethod, wordRank, timeOf)) ==
            multiset(FilterMarked(words, filter))
    ensures SortedBy(ApplyFilterAndSort(words, filter, sortMethod, wordRank, timeOf),
                     SortKey(sortMethod, wordRank, timeOf))
  {
    SortPermutes(FilterMarked(words, filter), SortKey(sortMethod, wordRank, timeOf));
    SortSorted(FilterMarked(words, filter), SortKey(sortMethod, wordRank, timeOf));
  }

  /** The default order, newest first. */
  lemma NewestFirst(words: seq<Word>, filter: MarkFilter, wordRank: string -> real, timeOf: string -> real)
    ensures var r := ApplyFilterAndSort(words, filter, "createdAt-desc", wordRank, timeOf);
      forall i, j :: 0 <= i < j < |r| ==> timeOf(r[i].createdAt) >= timeOf(r[j].createdAt)
  {
    SortSorted(FilterMarked(words, filter), SortKey("createdAt-desc", wordRank, timeOf));
  }

  /** An unknown sort method leaves the filtered list in stored order. */
  lemma UnknownSortKeepsOrder(words: seq<Word>, filter: MarkFilter, sortMethod: string,
                              wordRank: string -> real, timeOf: string -> real)
    requires !KnownSortMethod(sortMethod)
    ensures ApplyFilterAndSort(words, filter, sortMethod, wordRank, timeOf) == FilterMarked(words, filter)
  {
    SortConstantKey(FilterMarked(words, filter), SortKey(sortMethod, wordRank, timeOf), 0.0);
  }

  // ---------------------------------------------------------------------
  // Toggling a mark and deleting

  /** toggleMarkWord's map: every entry with the word's id becomes the passed word with its mark flipped. */
  function MarkToggled(words: seq<Word>, word: Word): seq<Word>
  {
    seq(|words|, i requires 0 <= i < |words| =>
      if words[i].id == word.id then word.(isMarked := !word.isMarked) else words[i])
  }

  /**
   * Only entries with the word's id change. Each of them becomes the passed
   * word with its mark flipped, so an entry that shares the id but differs
   * from the passed word loses its own text, meaning, tags, subject and time.
   */
  lemma MarkToggledChanges(words: seq<Word>, word: Word)
    ensures |MarkToggled(words, word)| == |words|
    ensures forall i :: 0 <= i < |words| && words[i].id != word.id ==> MarkToggled(words, word)[i] == words[i]
    ensures forall i :: 0 <= i < |words| && words[i].id == word.id ==>
      MarkToggled(words, word)[i] == word.(isMarked := !word.isMarked)
  {
  }

  /** Toggling a word and then its toggled copy restores the list, when the word is the list's entry for its id. */
  lemma MarkToggledTwice(words: seq<Word>, word: Word)
    requires forall i :: 0 <= i < |words| && words[i].id == word.id ==> words[i] == word
    ensures MarkToggled(MarkToggled(words, word), word.(isMarked := !word.isMarked)) == words
  {
  }

  function IdIsNot(id: int): Word -> bool
  {
    (w: Word) => w.id != id
  }

  /** deleteWord's filter. */
  function WithoutWord(words: seq<Word>, id: int): (r: seq<Word>)
    ensures forall i :: 0 <= i < |r| ==> r[i].id != id
    ensures IsSubsequence(r, words)
    ensures forall x :: multiset(r)[x] == if x.id != id then multiset(words)[x] else 0
  {
    FilterIsSubsequence(words, IdIsNot(id));
    FilterCounts(words, IdIsNot(id));
    Filter(words, IdIsNot(id))
  }

  /** Deleting keeps every word with another id, and removes nothing else. */
  lemma WithoutWordMembers(words: seq<Word>, id: int, w: Word)
    ensures w in WithoutWord(words, id) <==> w in words && w.id != id
  {
    FilterMembers(words, IdIsNot(id), w);
  }

  /** A list without the id is left as it is. */
  lemma WithoutAbsentWord(words: seq<Word>, id: int)
    requires forall i :: 0 <= i < |words| ==> words[i].id != id
    ensures WithoutWord(words, id) == words
  {
    FilterKeepsAll(words, IdIsNot(id));
  }

  /**
   * Writing back the page's list after a toggle or a delete keeps only the
   * subject's words: every stored word of another subject is gone.
   */
  lemma WriteBackDropsOtherSubjects(stored: seq<Word>, subjectId: int, word: Word, id: int)
    requires word.subjectId == subjectId
    ensures forall x :: x in MarkToggled(WordsOfSubject(stored, subjectId), word) ==> x.subjectId == subjectId
    ensures forall x :: x in WithoutWord(WordsOfSubject(stored, subjectId), id) ==> x.subjectId == subjectId
  {
    forall x | x in WithoutWord(WordsOfSubject(stored, subjectId), id) ensures x.subjectId == subjectId {
      WithoutWordMembers(WordsOfSubject(stored, subjectId), id, x);
    }
  }

  // ---------------------------------------------------------------------
  // The page

  class FlashcardsPage {
    const subjectId: int
    var subjectName: string
    var words: seq<Word>
    var tags: seq<Tag>
    var filterMarked: MarkFilter
    var sortMethod: string

    /**
     * Mounting the page: fetchWords, fetchTags and fetchSubjectName each
     * catch their own failures, so an unreadable or missing value only leaves
     * the initial state in place and the page never shows its error.
     */
    constructor Load(store: Store, subjectId: int)
      ensures this.subjectId == subjectId
      ensures words == (if store.words.Json? then WordsOfSubject(store.words.items, subjectId) else [])
      ensures tags == (if store.tags.Json? then store.tags.items else [])
      ensures subjectName ==
        if store.subjects.Json? && Find(store.subjects.items, SubjectIdIs(subjectId)).Some?
        then Find(store.subjects.items, SubjectIdIs(subjectId)).value.name else ""
      ensures filterMarked == All && sortMethod == "createdAt-desc"
    {
      this.subjectId := subjectId;
      subjectName, words, tags := "", [], [];
      filterMarked, sortMethod := All, "createdAt-desc";
      new;
      if store.words.Json? {
        words := WordsOfSubject(store.words.items, subjectId);
      }
      if store.tags.Json? {
        tags := store.tags.items;
      }
      if store.subjects.Json? {
        var subject := Find(store.subjects.items, SubjectIdIs(subjectId));
        if subject.Some? {
          subjectName := subject.value.name;
        }
      }
    }

    /** The list handed to the card list, for the locale and date orders given. */
    function FilteredWords(wordRank: string -> real, timeOf: string -> real): seq<Word>
      reads this
    {
      ApplyFilterAndSort(words, filterMarked, sortMethod, wordRank, timeOf)
    }

    method SetFilter(filter: MarkFilter)
      modifies this
      ensures filterMarked == filter
      ensures words == old(words) && tags == old(tags) && sortMethod == old(sortMethod)
      ensures subjectName == old(subjectName)
    {
      filterMarked := filter;
    }

    method SetSortMethod(sort: string)
      modifies this
      ensures sortMethod == sort
      ensures words == old(words) && tags == old(tags) && filterMarked == old(filterMarked)
      ensures subjectName == old(subjectName)
    {
      sortMethod := sort;
    }

    /** toggleMarkWord: flip the word's mark and overwrite the stored words with the page's list. */
    method ToggleMarkWord(store: Store, word: Word)
      modifies this, store
      ensures words == MarkToggled(old(words), word)
      ensures store.words == Json(words)
      ensures tags == old(tags) && filterMarked == old(filterMarked) && sortMethod == old(sortMethod)
      ensures subjectName == old(subjectName)
      ensures store.subjects == old(store.subjects) && store.tags == old(store.tags)
      ensures store.testSets == old(store.testSets) && store.testResults == old(store.testResults)
    {
      var markedWord := word.(isMarked := !word.isMarked);
      var current := words;
      var putWord := seq(|current|, i requires 0 <= i < |current| =>
        if current[i].id == markedWord.id then markedWord else current[i]);
      store.words := Json(putWord);
      words := putWord;
    }

    /** deleteWord: drop every word with the id and overwrite the stored words with the page's list. */
    method DeleteWord(store: Store, id: int)
      modifies this, store
      ensures words == WithoutWord(old(words), id)
      ensures store.words == Json(words)
      ensures tags == old(tags) && filterMarked == old(filterMarked) && sortMethod == old(sortMethod)
      ensures subjectName == old(subjectName)
      ensures store.subjects == old(store.subjects) && store.tags == old(store.tags)
      ensures store.testSets == old(store.testSets) && store.testResults == old(store.testResults)
    {
      var deleteWords := WithoutWord(words, id);
      store.words := Json(deleteWords);
      words := deleteWords;
    }
  }
}
