/**
 * The word form (src/pages/FlashcardsPage/WordEditForm.tsx): loading the word
 * being edited, toggling its tags, creating a tag on the spot, and saving a
 * new or edited word into the stored `words`.
 */
module WordEdit {
  import opened Wrappers
  import opened Types
  import opened Seqs
  import opened Text
  import opened LocalStore
  import opened TagList

  /**
   * What the form receives as `wordId`: nothing under the route
   * `/flashcard/:subjectId/new`, which declares no such parameter (the add
   * button's link); the word's id under `/flashcard/:subjectId/edit/:wordId`
   * (the edit links); or the text `new` in that same position.
   */
  datatype WordIdParam = NoWordId | WordIdOf(id: int) | NewText

  /** Which word the form works on: a new one, or the stored word with the id. */
  datatype WordRoute = NewWord | EditWord(id: int)

  /** The form's reading of its parameter: both ways of asking for a new word give a new word. */
  function RouteOf(param: WordIdParam): (route: WordRoute)
    ensures route.NewWord? <==> !param.WordIdOf?
    ensures param.WordIdOf? ==> route == EditWord(param.id)
  {
    match param
    case WordIdOf(id) => EditWord(id)
    case _ => NewWord
  }

  datatype EditError = LoadFailed | SaveFailed

  // ---------------------------------------------------------------------
  // Selecting tags

  function Differs(tagId: int): int -> bool
  {
    (x: int) => x != tagId
  }

  /** toggleTag: drop every occurrence of a selected tag, or append an unselected one. */
  function Toggled(selected: seq<int>, tagId: int): (r: seq<int>)
    ensures tagId in selected ==> IsSubsequence(r, selected)
    ensures tagId in selected ==> forall x :: multiset(r)[x] == if x == tagId then 0 else multiset(selected)[x]
    ensures tagId !in selected ==> |r| == |selected| + 1 && r[..|selected|] == selected
  {
    if tagId in selected then
      FilterIsSubsequence(selected, Differs(tagId));
      FilterCounts(selected, Differs(tagId));
      Filter(selected, Differs(tagId))
    else selected + [tagId]
  }

  /** Toggling flips whether the tag is selected and leaves every other tag as it was. */
  lemma ToggledMembers(selected: seq<int>, tagId: int, x: int)
    ensures tagId in Toggled(selected, tagId) <==> tagId !in selected
    ensures x != tagId ==> (x in Toggled(selected, tagId) <==> x in selected)
  {
    FilterMembers(selected, Differs(tagId), x);
    FilterMembers(selected, Differs(tagId), tagId);
  }

  /** Toggling an unselected tag twice gives the selection back exactly. */
  lemma ToggleAbsentTwice(selected: seq<int>, tagId: int)
    requires tagId !in selected
    ensures Toggled(Toggled(selected, tagId), tagId) == selected
  {
    FilterAppend(selected, [tagId], Differs(tagId));
    FilterKeepsAll(selected, Differs(tagId));
    assert Filter([tagId], Differs(tagId)) == [] + Filter([tagId][1..], Differs(tagId));
  }

  /** Toggling a selected tag twice moves it to the end, once, and drops its repeats. */
  lemma TogglePresentTwice(selected: seq<int>, tagId: int)
    requires tagId in selected
    ensures Toggled(Toggled(selected, tagId), tagId) == Filter(selected, Differs(tagId)) + [tagId]
  {
    FilterMembers(selected, Differs(tagId), tagId);
  }

  // ---------------------------------------------------------------------
  // Looking a word up, and saving

  function IsWord(id: int, subjectId: int): Word -> bool
  {
    (w: Word) => w.id == id && w.subjectId == subjectId
  }

  /** fetchWord's lookup: the first word with both the id and the subject of the route. */
  function FindWord(words: seq<Word>, id: int, subjectId: int): (r: Option<Word>)
    ensures r.Some? ==> r.value in words && r.value.id == id && r.value.subjectId == subjectId
    ensures r.None? <==> forall i :: 0 <= i < |words| ==> !(words[i].id == id && words[i].subjectId == subjectId)
    ensures forall i :: (0 <= i < |words| && words[i].id == id && words[i].subjectId == subjectId &&
      forall j :: 0 <= j < i ==> !(words[j].id == id && words[j].subjectId == subjectId)) ==> r == Some(words[i])
  {
    FindIsFirst(words, IsWord(id, subjectId));
    var r := Find(words, IsWord(id, subjectId));
    assert r.None? <==> forall i :: 0 <= i < |words| ==> !IsWord(id, subjectId)(words[i]);
    r
  }

  /** handleSave for `new`: a word numbered `length + 1`, unmarked, appended after the others. */
  function WithNewWord(words: seq<Word>, subjectId: int, word: string, meaning: string, tagIds: seq<int>, now: string): (r: seq<Word>)
    ensures |r| == |words| + 1 && r[..|words|] == words
    ensures r[|words|] == Word(|words| + 1, subjectId, word, meaning, tagIds, false, now)
  {
    words + [Word(|words| + 1, subjectId, word, meaning, tagIds, false, now)]
  }

  /** handleSave for an edit: the entries with the id and the subject take the form's fields. */
  function Edited(words: seq<Word>, id: int, subjectId: int, word: string, meaning: string, tagIds: seq<int>): (r: seq<Word>)
    ensures |r| == |words|
  {
    seq(|words|, i requires 0 <= i < |words| =>
      if words[i].id == id && words[i].subjectId == subjectId
      then words[i].(word := word, meaning := meaning, tagIds := tagIds)
      else words[i])
  }

  /**
   * An edit touches only the entries of that word, and every one of them
   * takes the form's text, meaning and tags: id, subject, mark and creation
   * time stay.
   */
  lemma EditedKeepsRest(words: seq<Word>, id: int, subjectId: int, word: string, meaning: string, tagIds: seq<int>)
    ensures forall i :: 0 <= i < |words| && !(words[i].id == id && words[i].subjectId == subjectId) ==>
      Edited(words, id, subjectId, word, meaning, tagIds)[i] == words[i]
    ensures forall i :: 0 <= i < |words| ==>
      var e := Edited(words, id, subjectId, word, meaning, tagIds)[i];
      e.id == words[i].id && e.subjectId == words[i].subjectId
      && e.isMarked == words[i].isMarked && e.createdAt == words[i].createdAt
    ensures forall i :: 0 <= i < |words| && words[i].id == id && words[i].subjectId == subjectId ==>
      var e := Edited(words, id, subjectId, word, meaning, tagIds)[i];
      e.word == word && e.meaning == meaning && e.tagIds == tagIds
  {
  }

  /** Opening the form again after an edit shows what was saved; a word that was not there still is not. */
  lemma EditedThenFound(words: seq<Word>, id: int, subjectId: int, word: string, meaning: string, tagIds: seq<int>)
    ensures FindWord(Edited(words, id, subjectId, word, meaning, tagIds), id, subjectId) ==
      if FindWord(words, id, subjectId).Some?
      then Some(FindWord(words, id, subjectId).value.(word := word, meaning := meaning, tagIds := tagIds))
      else None
  {
    var r := Edited(words, id, subjectId, word, meaning, tagIds);
    var p := IsWord(id, subjectId);
    if Find(words, p).Some? {
      var i :| 0 <= i < |words| && words[i] == Find(words, p).value && p(words[i])
        && forall j :: 0 <= j < i ==> !p(words[j]);
      assert p(r[i]);
      assert forall j :: 0 <= j < i ==> !p(r[j]);
      FindFirst(r, p, i);
    }
  }

  /** A new word is found again under its id, unless a word of the subject already had that id. */
  lemma NewWordFound(words: seq<Word>, subjectId: int, word: string, meaning: string, tagIds: seq<int>, now: string)
    requires FindWord(words, |words| + 1, subjectId).None?
    ensures FindWord(WithNewWord(words, subjectId, word, meaning, tagIds, now), |words| + 1, subjectId) ==
      Some(Word(|words| + 1, subjectId, word, meaning, tagIds, false, now))
  {
    FindSnoc(words, Word(|words| + 1, subjectId, word, meaning, tagIds, false, now), IsWord(|words| + 1, subjectId));
  }

  /** When the id `length + 1` is taken in the subject, opening the new word's id shows the older word. */
  lemma NewWordShadowed(words: seq<Word>, subjectId: int, word: string, meaning: string, tagIds: seq<int>, now: string, k: nat)
    requires k < |words| && words[k].id == |words| + 1 && words[k].subjectId == subjectId
    ensures FindWord(words, |words| + 1, subjectId).Some?
    ensures FindWord(WithNewWord(words, subjectId, word, meaning, tagIds, now), |words| + 1, subjectId) ==
      FindWord(words, |words| + 1, subjectId)
  {
    FindSnoc(words, Word(|words| + 1, subjectId, word, meaning, tagIds, false, now), IsWord(|words| + 1, subjectId));
  }

  /** handleSave's new list for a route, as the form intends it. */
  function Saved(words: seq<Word>, route: WordRoute, subjectId: int, word: string, meaning: string, tagIds: seq<int>, now: string): seq<Word>
  {
    match route
    case NewWord => WithNewWord(words, subjectId, word, meaning, tagIds, now)
    case EditWord(id) => Edited(words, id, subjectId, word, meaning, tagIds)
  }

  /** A JavaScript number as the edit branch sees it: an integer, or NaN. */
  datatype JsNumber = Num(n: int) | NaN

  /** `Number(wordId)`: the id when there is one; `Number(undefined)` is NaN. */
  function NumberOf(param: WordIdParam): JsNumber
  {
    match param
    case WordIdOf(id) => Num(id)
    case _ => NaN
  }

  /** handleSave's edit map with the id as a JavaScript number: `===` with NaN holds for no word. */
  function EditedByNumber(words: seq<Word>, id: JsNumber, subjectId: int, word: string, meaning: string, tagIds: seq<int>): (r: seq<Word>)
    ensures |r| == |words|
  {
    seq(|words|, i requires 0 <= i < |words| =>
      if id == Num(words[i].id) && words[i].subjectId == subjectId
      then words[i].(word := word, meaning := meaning, tagIds := tagIds)
      else words[i])
  }

  /** With an integer id the map is the edit the form intends. */
  lemma EditedByNumberAgrees(words: seq<Word>, id: int, subjectId: int, word: string, meaning: string, tagIds: seq<int>)
    ensures EditedByNumber(words, Num(id), subjectId, word, meaning, tagIds) == Edited(words, id, subjectId, word, meaning, tagIds)
  {
  }

  /** With NaN as the id no entry matches, so the map gives the list back unchanged. */
  lemma EditedByNaN(words: seq<Word>, subjectId: int, word: string, meaning: string, tagIds: seq<int>)
    ensures EditedByNumber(words, NaN, subjectId, word, meaning, tagIds) == words
  {
  }

  /**
   * handleSave's new list as the code is written: only the text `new` takes
   * the adding branch; every other parameter runs the edit map with
   * `Number(wordId)`.
   */
  function SavedAsWritten(words: seq<Word>, param: WordIdParam, subjectId: int, word: string, meaning: string, tagIds: seq<int>, now: string): seq<Word>
  {
    if param == NewText then WithNewWord(words, subjectId, word, meaning, tagIds, now)
    else EditedByNumber(words, NumberOf(param), subjectId, word, meaning, tagIds)
  }

  /**
   * Saving from the add button's route, as written, stores the list
   * unchanged: the word typed in is lost. Read as intended, the same save
   * adds one word.
   */
  lemma AddRouteAsWrittenSavesNothing(words: seq<Word>, subjectId: int, word: string, meaning: string, tagIds: seq<int>, now: string)
    ensures SavedAsWritten(words, NoWordId, subjectId, word, meaning, tagIds, now) == words
    ensures |Saved(words, RouteOf(NoWordId), subjectId, word, meaning, tagIds, now)| == |words| + 1
  {
    EditedByNaN(words, subjectId, word, meaning, tagIds);
  }

  /** The code and the intended reading differ on the missing parameter only. */
  lemma SavedAgreesWithCode(words: seq<Word>, param: WordIdParam, subjectId: int, word: string, meaning: string, tagIds: seq<int>, now: string)
    requires param != NoWordId
    ensures SavedAsWritten(words, param, subjectId, word, meaning, tagIds, now) == Saved(words, RouteOf(param), subjectId, word, meaning, tagIds, now)
  {
    if param.WordIdOf? {
      EditedByNumberAgrees(words, param.id, subjectId, word, meaning, tagIds);
    }
  }

  /**
   * Read as intended, saving from the add button's route keeps the stored
   * words and appends the new one, which opening its id then shows (unless
   * that id was already taken in the subject).
   */
  lemma AddRouteSavesWord(words: seq<Word>, subjectId: int, word: string, meaning: string, tagIds: seq<int>, now: string)
    requires FindWord(words, |words| + 1, subjectId).None?
    ensures var r := Saved(words, RouteOf(NoWordId), subjectId, word, meaning, tagIds, now);
      |r| == |words| + 1 && r[..|words|] == words
      && FindWord(r, |words| + 1, subjectId) == Some(Word(|words| + 1, subjectId, word, meaning, tagIds, false, now))
  {
    NewWordFound(words, subjectId, word, meaning, tagIds, now);
  }

  /** The list `handleSave` starts from: the stored words, or none when the value is falsy. */
  function SavedBase(stored: Stored<Word>): seq<Word>
    requires !stored.Garbage?
  {
    if stored.Json? then stored.items else []
  }

  // ---------------------------------------------------------------------
  // The page

  class WordEditPage {
    const subjectId: int
    const route: WordRoute
    var word: string
    var meaning: string
    var selectedTags: seq<int>
    var tags: seq<Tag>
    var error: Option<EditError>
    var showNewTagDialog: bool
    var newTagName: string

    /**
     * Mounting: the tags are read, then, for an existing word, its fields.
     * An unreadable value stops the fetch and shows the error; an id with
     * no word leaves the form blank.
     */
    constructor Load(store: Store, subjectId: int, param: WordIdParam)
      ensures this.subjectId == subjectId && route == RouteOf(param)
      ensures tags == (if store.tags.Json? then store.tags.items else [])
      ensures error == (if store.tags.Garbage? || (route.EditWord? && store.words.Garbage?) then Some(LoadFailed) else None)
      ensures
        var found := if !store.tags.Garbage? && route.EditWord? && store.words.Json?
          then FindWord(store.words.items, route.id, subjectId) else None;
        if found.Some?
        then word == found.value.word && meaning == found.value.meaning && selectedTags == found.value.tagIds
        else word == "" && meaning == "" && selectedTags == []
      ensures !showNewTagDialog && newTagName == ""
    {
      var route := RouteOf(param);
      this.subjectId, this.route := subjectId, route;
      word, meaning, selectedTags, tags := "", "", [], [];
      error, showNewTagDialog, newTagName := None, false, "";
      new;
      if store.tags.Garbage? {
        error := Some(LoadFailed);
      } else {
        if store.tags.Json? {
          tags := store.tags.items;
        }
        if route.EditWord? {
          if store.words.Garbage? {
            error := Some(LoadFailed);
          } else if store.words.Json? {
            var selectedWord := FindWord(store.words.items, route.id, subjectId);
            if selectedWord.Some? {
              word, meaning, selectedTags := selectedWord.value.word, selectedWord.value.meaning, selectedWord.value.tagIds;
            }
          }
        }
      }
    }

    method SetWord(text: string)
      modifies this
      ensures word == text
      ensures meaning == old(meaning) && selectedTags == old(selectedTags) && tags == old(tags)
      ensures error == old(error) && showNewTagDialog == old(showNewTagDialog) && newTagName == old(newTagName)
    {
      word := text;
    }

    method SetMeaning(html: string)
      modifies this
      ensures meaning == html
      ensures word == old(word) && selectedTags == old(selectedTags) && tags == old(tags)
      ensures error == old(error) && showNewTagDialog == old(showNewTagDialog) && newTagName == old(newTagName)
    {
      meaning := html;
    }

    method ToggleTag(tagId: int)
      modifies this
      ensures selectedTags == Toggled(old(selectedTags), tagId)
      ensures word == old(word) && meaning == old(meaning) && tags == old(tags)
      ensures error == old(error) && showNewTagDialog == old(showNewTagDialog) && newTagName == old(newTagName)
    {
      selectedTags := Toggled(selectedTags, tagId);
    }

    /**
     * handleSave: read the stored words (none when falsy), add or edit the
     * word, and store the list. An unreadable value shows the save error and
     * writes nothing. `now` is the creation time given to a new word.
     */
    method HandleSave(store: Store, now: string)
      modifies this, store
      ensures word == old(word) && meaning == old(meaning) && selectedTags == old(selectedTags) && tags == old(tags)
      ensures showNewTagDialog == old(showNewTagDialog) && newTagName == old(newTagName)
      ensures store.subjects == old(store.subjects) && store.tags == old(store.tags)
      ensures store.testSets == old(store.testSets) && store.testResults == old(store.testResults)
      ensures old(store.words).Garbage? ==> error == Some(SaveFailed) && store.words == old(store.words)
      ensures !old(store.words).Garbage? ==> error == old(error)
      ensures !old(store.words).Garbage? ==>
        store.words == Json(Saved(SavedBase(old(store.words)), route, subjectId, word, meaning, selectedTags, now))
    {
      if store.words.Garbage? {
        error := Some(SaveFailed);
      } else {
        var words := SavedBase(store.words);
        words := Saved(words, route, subjectId, word, meaning, selectedTags, now);
        store.words := Json(words);
      }
    }

    method SetShowNewTagDialog(show: bool)
      modifies this
      ensures showNewTagDialog == show
      ensures word == old(word) && meaning == old(meaning) && selectedTags == old(selectedTags) && tags == old(tags)
      ensures error == old(error) && newTagName == old(newTagName)
    {
      showNewTagDialog := show;
    }

    method SetNewTagName(name: string)
      modifies this
      ensures newTagName == name
      ensures word == old(word) && meaning == old(meaning) && selectedTags == old(selectedTags) && tags == old(tags)
      ensures error == old(error) && showNewTagDialog == old(showNewTagDialog)
    {
      newTagName := name;
    }

    /**
     * addNewTag: with a non-blank name, append a tag numbered `length + 1`
     * to the page's tags, store them, select the new tag and close the dialog.
     */
    method AddNewTag(store: Store)
      modifies this, store
      ensures word == old(word) && meaning == old(meaning) && error == old(error)
      ensures store.subjects == old(store.subjects) && store.words == old(store.words)
      ensures store.testSets == old(store.testSets) && store.testResults == old(store.testResults)
      ensures Trim(old(newTagName)) != [] ==>
        && tags == WithNewTag(old(tags), Trim(old(newTagName)))
        && store.tags == Json(tags)
        && selectedTags == old(selectedTags) + [|old(tags)| + 1]
        && newTagName == "" && !showNewTagDialog
      ensures Trim(old(newTagName)) == [] ==>
        && tags == old(tags) && store.tags == old(store.tags) && selectedTags == old(selectedTags)
        && newTagName == old(newTagName) && showNewTagDialog == old(showNewTagDialog)
    {
      var trimmed := Trim(newTagName);
      if trimmed != [] {
        var updatedTags := WithNewTag(tags, trimmed);
        store.tags := Json(updatedTags);
        tags := updatedTags;
        selectedTags := selectedTags + [|updatedTags|];
        newTagName := "";
        showNewTagDialog := false;
      }
    }
  }
}
