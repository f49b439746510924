/**
 * The tag list page (src/pages/TagListPage.tsx): counting the words that
 * carry a tag, renaming, deleting and adding tags. Every change computes a
 * new list and overwrites the stored `tags` with it.
 */
module TagList {
  import opened Wrappers
  import opened Types
  import opened Seqs
  import opened Text
  import opened LocalStore

  // ---------------------------------------------------------------------
  // Counting

  function HasTag(tagId: int): Word -> bool
  {
    (w: Word) => tagId in w.tagIds
  }

  /** getWordCountForTag: how many words list the tag among their `tagIds`. */
  function WordCountForTag(words: seq<Word>, tagId: int): (n: nat)
    ensures n <= |words|
  {
    |Filter(words, HasTag(tagId))|
  }

  /** The count, word by word: one more for each word carrying the tag. */
  lemma {:induction false} WordCountForTagSnoc(words: seq<Word>, w: Word, tagId: int)
    ensures WordCountForTag(words + [w], tagId) == WordCountForTag(words, tagId) + (if tagId in w.tagIds then 1 else 0)
  {
    FilterSnoc(words, w, HasTag(tagId));
  }

  /** The badge reads 0 exactly when no word carries the tag, and `|words|` exactly when every word does. */
  lemma {:induction false} WordCountForTagExtremes(words: seq<Word>, tagId: int)
    ensures WordCountForTag(words, tagId) == 0 <==> forall i :: 0 <= i < |words| ==> tagId !in words[i].tagIds
    ensures WordCountForTag(words, tagId) == |words| <==> forall i :: 0 <= i < |words| ==> tagId in words[i].tagIds
  {
    if words != [] {
      WordCountForTagExtremes(words[1..], tagId);
      assert forall i :: 1 <= i < |words| ==> words[i] == words[1..][i - 1];
      assert Filter(words, HasTag(tagId)) == (if HasTag(tagId)(words[0]) then [words[0]] else []) + Filter(words[1..], HasTag(tagId));
      if tagId !in words[0].tagIds {
        assert |Filter(words[1..], HasTag(tagId))| <= |words[1..]|;
      }
    }
  }

  // ---------------------------------------------------------------------
  // Renaming, deleting, adding

  /** saveEdit's map: tags with the id take the new name and keep their id. */
  function Renamed(tags: seq<Tag>, id: int, name: string): (r: seq<Tag>)
    ensures |r| == |tags|
  {
    seq(|tags|, i requires 0 <= i < |tags| => if tags[i].id == id then tags[i].(name := name) else tags[i])
  }

  /** A rename changes names only: the ids stay in place, and every other tag is left as it was. */
  lemma RenamedKeepsOthers(tags: seq<Tag>, id: int, name: string)
    ensures forall i :: 0 <= i < |tags| ==> Renamed(tags, id, name)[i].id == tags[i].id
    ensures forall i :: 0 <= i < |tags| && tags[i].id != id ==> Renamed(tags, id, name)[i] == tags[i]
    ensures forall i :: 0 <= i < |tags| && tags[i].id == id ==> Renamed(tags, id, name)[i] == Tag(id, name)
  {
  }

  /** After a rename, looking the id up finds the new name; an id with no tag stays unknown. */
  lemma RenamedFind(tags: seq<Tag>, id: int, name: string)
    ensures Find(Renamed(tags, id, name), TagIdIs(id)) ==
      if Find(tags, TagIdIs(id)).Some? then Some(Tag(id, name)) else None
  {
    var r := Renamed(tags, id, name);
    if Find(tags, TagIdIs(id)).Some? {
      var i :| 0 <= i < |tags| && tags[i] == Find(tags, TagIdIs(id)).value && TagIdIs(id)(tags[i])
        && forall j :: 0 <= j < i ==> !TagIdIs(id)(tags[j]);
      assert TagIdIs(id)(r[i]);
      FindFirst(r, TagIdIs(id), i);
    } else {
      assert forall i :: 0 <= i < |r| ==> !TagIdIs(id)(r[i]);
    }
  }

  /** Renaming again overrides the earlier rename. */
  lemma RenameTwice(tags: seq<Tag>, id: int, first: string, second: string)
    ensures Renamed(Renamed(tags, id, first), id, second) == Renamed(tags, id, second)
  {
  }

  function TagIdIsNot(id: int): Tag -> bool
  {
    (t: Tag) => t.id != id
  }

  /** executeDelete's filter. */
  function WithoutTag(tags: seq<Tag>, id: int): (r: seq<Tag>)
    ensures forall i :: 0 <= i < |r| ==> r[i].id != id
    ensures IsSubsequence(r, tags)
    ensures forall x :: multiset(r)[x] == if x.id != id then multiset(tags)[x] else 0
  {
    FilterIsSubsequence(tags, TagIdIsNot(id));
    FilterCounts(tags, TagIdIsNot(id));
    Filter(tags, TagIdIsNot(id))
  }

  /** Deleting keeps every tag with another id and nothing else. */
  lemma WithoutTagMembers(tags: seq<Tag>, id: int, t: Tag)
    ensures t in WithoutTag(tags, id) <==> t in tags && t.id != id
  {
    FilterMembers(tags, TagIdIsNot(id), t);
  }

  /** The tag added by `addNewTag`: numbered one past the length of the list. */
  function WithNewTag(tags: seq<Tag>, name: string): (r: seq<Tag>)
    ensures |r| == |tags| + 1 && r[..|tags|] == tags
    ensures r[|tags|] == Tag(|tags| + 1, name)
  {
    tags + [Tag(|tags| + 1, name)]
  }

  /** While the ids are exactly 1..n in order, a new tag keeps them so. */
  predicate NumberedInOrder(tags: seq<Tag>)
  {
    forall i :: 0 <= i < |tags| ==> tags[i].id == i + 1
  }

  lemma WithNewTagKeepsNumbering(tags: seq<Tag>, name: string)
    requires NumberedInOrder(tags)
    ensures NumberedInOrder(WithNewTag(tags, name))
    ensures forall i :: 0 <= i < |tags| ==> tags[i].id != |tags| + 1
  {
  }

  /** Whenever a tag already holds the id `length + 1`, adding a tag gives two tags that id. */
  lemma WithNewTagCollides(tags: seq<Tag>, name: string, k: nat)
    requires k < |tags| && tags[k].id == |tags| + 1
    ensures var r := WithNewTag(tags, name); k < |tags| < |r| && r[k].id == r[|tags|].id
  {
  }

  /** Tags 1, 2, 3; delete 2; add a tag: the new tag gets id 3, which tag 3 still has. */
  lemma DeleteThenAddCollides()
    ensures var tags := [Tag(1, "a"), Tag(2, "b"), Tag(3, "c")];
      WithNewTag(WithoutTag(tags, 2), "d") == [Tag(1, "a"), Tag(3, "c"), Tag(3, "d")]
  {
    var tags := [Tag(1, "a"), Tag(2, "b"), Tag(3, "c")];
    var p := TagIdIsNot(2);
    assert tags[1..][1..][1..] == [];
    assert Filter(tags[1..][1..], p) == [Tag(3, "c")];
    assert Filter(tags[1..], p) == [Tag(3, "c")];
    assert Filter(tags, p) == [Tag(1, "a"), Tag(3, "c")];
  }

  // ---------------------------------------------------------------------
  // The page

  class TagListPage {
    var tags: seq<Tag>
    var words: seq<Word>
    var editingTag: Option<Tag>
    var deleteTag: Option<Tag>
    var newTagName: string
    var showNewTagDialog: bool
    var error: bool

    /**
     * Mounting: the tags are read first; an unreadable value ends the fetch
     * with the error shown, before the words are read. A falsy value leaves
     * the list empty.
     */
    constructor Load(store: Store)
      ensures error <==> store.tags.Garbage? || store.words.Garbage?
      ensures tags == (if store.tags.Json? then store.tags.items else [])
      ensures words == (if !store.tags.Garbage? && store.words.Json? then store.words.items else [])
      ensures editingTag == None && deleteTag == None
      ensures newTagName == "" && !showNewTagDialog
    {
      tags, words := [], [];
      editingTag, deleteTag := None, None;
      newTagName, showNewTagDialog, error := "", false, false;
      new;
      if store.tags.Garbage? {
        error := true;
      } else {
        if store.tags.Json? {
          tags := store.tags.items;
        }
        if store.words.Garbage? {
          error := true;
        } else if store.words.Json? {
          words := store.words.items;
        }
      }
    }

    /** The page shows a list in which this count is the badge of each tag. */
    function WordCount(tagId: int): nat
      reads this
    {
      WordCountForTag(words, tagId)
    }

    method StartEditing(tag: Tag)
      modifies this
      ensures editingTag == Some(tag) && newTagName == tag.name
      ensures tags == old(tags) && words == old(words) && deleteTag == old(deleteTag)
      ensures showNewTagDialog == old(showNewTagDialog) && error == old(error)
    {
      editingTag := Some(tag);
      newTagName := tag.name;
    }

    method SetNewTagName(name: string)
      modifies this
      ensures newTagName == name
      ensures tags == old(tags) && words == old(words) && editingTag == old(editingTag) && deleteTag == old(deleteTag)
      ensures showNewTagDialog == old(showNewTagDialog) && error == old(error)
    {
      newTagName := name;
    }

    /** saveEdit: with a non-blank name and a tag being edited, rename it, store the list and close the editor. */
    method SaveEdit(store: Store)
      modifies this, store
      ensures words == old(words) && deleteTag == old(deleteTag)
      ensures showNewTagDialog == old(showNewTagDialog) && error == old(error)
      ensures store.subjects == old(store.subjects) && store.words == old(store.words)
      ensures store.testSets == old(store.testSets) && store.testResults == old(store.testResults)
      ensures Trim(old(newTagName)) != [] && old(editingTag).Some? ==>
        && tags == Renamed(old(tags), old(editingTag).value.id, Trim(old(newTagName)))
        && store.tags == Json(tags)
        && editingTag == None && newTagName == ""
      ensures !(Trim(old(newTagName)) != [] && old(editingTag).Some?) ==>
        && tags == old(tags) && store.tags == old(store.tags)
        && editingTag == old(editingTag) && newTagName == old(newTagName)
    {
      var trimmed := Trim(newTagName);
      if trimmed != [] && editingTag.Some? {
        var editingTags := Renamed(tags, editingTag.value.id, trimmed);
        store.tags := Json(editingTags);
        tags := editingTags;
        editingTag := None;
        newTagName := "";
      }
    }

    method CancelEdit()
      modifies this
      ensures editingTag == None && newTagName == ""
      ensures tags == old(tags) && words == old(words) && deleteTag == old(deleteTag)
      ensures showNewTagDialog == old(showNewTagDialog) && error == old(error)
    {
      editingTag := None;
      newTagName := "";
    }

    method ConfirmDelete(tag: Tag)
      modifies this
      ensures deleteTag == Some(tag)
      ensures tags == old(tags) && words == old(words) && editingTag == old(editingTag)
      ensures newTagName == old(newTagName) && showNewTagDialog == old(showNewTagDialog) && error == old(error)
    {
      deleteTag := Some(tag);
    }

    /**
     * executeDelete: remove the tag to delete from the list and the store.
     * The words keep their `tagIds`, in the store and on the page.
     */
    method ExecuteDelete(store: Store)
      modifies this, store
      ensures words == old(words) && editingTag == old(editingTag) && newTagName == old(newTagName)
      ensures showNewTagDialog == old(showNewTagDialog) && error == old(error)
      ensures store.subjects == old(store.subjects) && store.words == old(store.words)
      ensures store.testSets == old(store.testSets) && store.testResults == old(store.testResults)
      ensures old(deleteTag).Some? ==>
        && tags == WithoutTag(old(tags), old(deleteTag).value.id)
        && store.tags == Json(tags) && deleteTag == None
      ensures old(deleteTag).None? ==> tags == old(tags) && store.tags == old(store.tags) && deleteTag == None
    {
      if deleteTag.Some? {
        var deleteTags := WithoutTag(tags, deleteTag.value.id);
        store.tags := Json(deleteTags);
        tags := deleteTags;
        deleteTag := None;
      }
    }

    method CancelDelete()
      modifies this
      ensures deleteTag == None
      ensures tags == old(tags) && words == old(words) && editingTag == old(editingTag)
      ensures newTagName == old(newTagName) && showNewTagDialog == old(showNewTagDialog) && error == old(error)
    {
      deleteTag := None;
    }

    method SetShowNewTagDialog(show: bool)
      modifies this
      ensures showNewTagDialog == show
      ensures tags == old(tags) && words == old(words) && editingTag == old(editingTag) && deleteTag == old(deleteTag)
      ensures newTagName == old(newTagName) && error == old(error)
    {
      showNewTagDialog := show;
    }

    /** addNewTag: with a non-blank name, append a tag numbered `length + 1`, store the list and close the dialog. */
    method AddNewTag(store: Store)
      modifies this, store
      ensures words == old(words) && editingTag == old(editingTag) && deleteTag == old(deleteTag)
      ensures error == old(error)
      ensures store.subjects == old(store.subjects) && store.words == old(store.words)
      ensures store.testSets == old(store.testSets) && store.testResults == old(store.testResults)
      ensures Trim(old(newTagName)) != [] ==>
        && tags == WithNewTag(old(tags), Trim(old(newTagName)))
        && store.tags == Json(tags)
        && newTagName == "" && !showNewTagDialog
      ensures Trim(old(newTagName)) == [] ==>
        && tags == old(tags) && store.tags == old(store.tags)
        && newTagName == old(newTagName) && showNewTagDialog == old(showNewTagDialog)
    {
      var trimmed := Trim(newTagName);
      if trimmed != [] {
        var newTags := WithNewTag(tags, trimmed);
        store.tags := Json(newTags);
        tags := newTags;
        newTagName := "";
        showNewTagDialog := false;
      }
    }
  }

  /**
   * Deleting a tag leaves every word's count for it as it was: the words
   * that carried the tag still do.
   */
  method DeleteDoesNotCascade(page: TagListPage, store: Store, tag: Tag) returns (before: nat, after: nat)
    modifies page, store
    ensures before == after && after == page.WordCount(tag.id)
    ensures page.deleteTag == None && forall i :: 0 <= i < |page.tags| ==> page.tags[i].id != tag.id
    ensures store.words == old(store.words)
  {
    before := page.WordCount(tag.id);
    page.ConfirmDelete(tag);
    page.ExecuteDelete(store);
    after := page.WordCount(tag.id);
  }
}
