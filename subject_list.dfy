/**
 * The subject list page (src/pages/SubjectListPage.tsx): adding a subject
 * with a numbered default name, renaming one, and deleting one. Every change
 * overwrites the stored `subjects` with the page's new list.
 */
module SubjectList {
  import opened Wrappers
  import opened Types
  import opened Seqs
  import opened Text
  import opened LocalStore

  /** The prefix of a new subject's name: 新しい科目 ("new subject") and a space. */
  const NewSubjectPrefix: string := "新しい科目 "

  /** The default name of the subject added to a list of `n`: the prefix followed by `n + 1`. */
  function NewSubjectName(n: nat): (name: string)
    ensures |name| > |NewSubjectPrefix| && name[..|NewSubjectPrefix|] == NewSubjectPrefix
    ensures forall i :: |NewSubjectPrefix| <= i < |name| ==> '0' <= name[i] <= '9'
    ensures DigitsValue(name[|NewSubjectPrefix|..]) == n + 1
  {
    NatToStringRoundTrip(n + 1);
    assert (NewSubjectPrefix + NatToString(n + 1))[|NewSubjectPrefix|..] == NatToString(n + 1);
    NewSubjectPrefix + NatToString(n + 1)
  }

  /** Default names of lists of different lengths never coincide. */
  lemma NewSubjectNamesDiffer(m: nat, n: nat)
    requires m != n
    ensures NewSubjectName(m) != NewSubjectName(n)
  {
    var a, b := NewSubjectName(m), NewSubjectName(n);
    assert a[|NewSubjectPrefix|..] != b[|NewSubjectPrefix|..];
  }

  /** addNewSubject's list: a subject numbered `length + 1` with its default name, appended. */
  function WithNewSubject(subjects: seq<Subject>): (r: seq<Subject>)
    ensures |r| == |subjects| + 1 && r[..|subjects|] == subjects
    ensures r[|subjects|] == Subject(|subjects| + 1, NewSubjectName(|subjects|))
  {
    subjects + [Subject(|subjects| + 1, NewSubjectName(|subjects|))]
  }

  /** The new subject is found under its id exactly when no older subject holds that id. */
  lemma NewSubjectFound(subjects: seq<Subject>)
    ensures Find(WithNewSubject(subjects), SubjectIdIs(|subjects| + 1)) ==
      if Find(subjects, SubjectIdIs(|subjects| + 1)).Some? then Find(subjects, SubjectIdIs(|subjects| + 1))
      else Some(Subject(|subjects| + 1, NewSubjectName(|subjects|)))
  {
    FindSnoc(subjects, Subject(|subjects| + 1, NewSubjectName(|subjects|)), SubjectIdIs(|subjects| + 1));
  }

  /** saveEdit's map: the subjects with the edited one's id are replaced by it. */
  function Replaced(subjects: seq<Subject>, edited: Subject): (r: seq<Subject>)
    ensures |r| == |subjects|
  {
    seq(|subjects|, i requires 0 <= i < |subjects| => if subjects[i].id == edited.id then edited else subjects[i])
  }

  /** A save replaces every subject with the edited one's id by it, and leaves the others where they were. */
  lemma ReplacedEntries(subjects: seq<Subject>, edited: Subject)
    ensures forall i :: 0 <= i < |subjects| && subjects[i].id != edited.id ==> Replaced(subjects, edited)[i] == subjects[i]
    ensures forall i :: 0 <= i < |subjects| && subjects[i].id == edited.id ==> Replaced(subjects, edited)[i] == edited
  {
  }

  /** After a save, looking the id up finds the edited subject; an id with no subject stays unknown. */
  lemma ReplacedFind(subjects: seq<Subject>, edited: Subject)
    ensures Find(Replaced(subjects, edited), SubjectIdIs(edited.id)) ==
      if Find(subjects, SubjectIdIs(edited.id)).Some? then Some(edited) else None
  {
    var r := Replaced(subjects, edited);
    var p := SubjectIdIs(edited.id);
    if Find(subjects, p).Some? {
      var i :| 0 <= i < |subjects| && subjects[i] == Find(subjects, p).value && p(subjects[i])
        && forall j :: 0 <= j < i ==> !p(subjects[j]);
      assert p(r[i]);
      FindFirst(r, p, i);
    } else {
      assert forall j :: 0 <= j < |r| ==> !p(r[j]);
    }
  }

  /** Saving the same edit twice is saving it once. */
  lemma ReplacedIdempotent(subjects: seq<Subject>, edited: Subject)
    ensures Replaced(Replaced(subjects, edited), edited) == Replaced(subjects, edited)
  {
  }

  function SubjectIdIsNot(id: int): Subject -> bool
  {
    (s: Subject) => s.id != id
  }

  /** executeDelete's filter. */
  function WithoutSubject(subjects: seq<Subject>, id: int): (r: seq<Subject>)
    ensures forall i :: 0 <= i < |r| ==> r[i].id != id
    ensures IsSubsequence(r, subjects)
    ensures forall x :: multiset(r)[x] == if x.id != id then multiset(subjects)[x] else 0
  {
    FilterIsSubsequence(subjects, SubjectIdIsNot(id));
    FilterCounts(subjects, SubjectIdIsNot(id));
    Filter(subjects, SubjectIdIsNot(id))
  }

  /** Deleting keeps every subject with another id and nothing else. */
  lemma WithoutSubjectMembers(subjects: seq<Subject>, id: int, s: Subject)
    ensures s in WithoutSubject(subjects, id) <==> s in subjects && s.id != id
  {
    FilterMembers(subjects, SubjectIdIsNot(id), s);
  }

  /** Subjects 1 and 2; delete 1; add a subject: it gets id 2, which subject 2 still has. */
  lemma DeleteThenAddCollides()
    ensures var subjects := [Subject(1, "English"), Subject(2, "Math")];
      var r := WithNewSubject(WithoutSubject(subjects, 1));
      |r| == 2 && r[0] == Subject(2, "Math") && r[1].id == 2
  {
    var subjects := [Subject(1, "English"), Subject(2, "Math")];
    assert subjects[1..][1..] == [];
    assert WithoutSubject(subjects, 1) == [Subject(2, "Math")];
  }

  // ---------------------------------------------------------------------
  // The page

  class SubjectListPage {
    var subjects: seq<Subject>
    var editingSubject: Option<Subject>
    var deleteSubject: Option<Subject>
    var error: bool

    /** Mounting: the stored subjects, none when the value is falsy, the error when it is unreadable. */
    constructor Load(store: Store)
      ensures error <==> store.subjects.Garbage?
      ensures subjects == (if store.subjects.Json? then store.subjects.items else [])
      ensures editingSubject == None && deleteSubject == None
    {
      subjects := [];
      editingSubject, deleteSubject, error := None, None, false;
      new;
      if store.subjects.Garbage? {
        error := true;
      } else if store.subjects.Json? {
        subjects := store.subjects.items;
      }
    }

    /** addNewSubject: append the numbered subject and store the list. */
    method AddNewSubject(store: Store)
      modifies this, store
      ensures subjects == WithNewSubject(old(subjects)) && store.subjects == Json(subjects)
      ensures editingSubject == old(editingSubject) && deleteSubject == old(deleteSubject) && error == old(error)
      ensures store.words == old(store.words) && store.tags == old(store.tags)
      ensures store.testSets == old(store.testSets) && store.testResults == old(store.testResults)
    {
      var newSubjects := WithNewSubject(subjects);
      store.subjects := Json(newSubjects);
      subjects := newSubjects;
    }

    method StartEditing(subject: Subject)
      modifies this
      ensures editingSubject == Some(subject)
      ensures subjects == old(subjects) && deleteSubject == old(deleteSubject) && error == old(error)
    {
      editingSubject := Some(subject);
    }

    /** The name field of the subject being edited; typing with no subject open changes nothing. */
    method SetEditingName(name: string)
      modifies this
      ensures editingSubject == (if old(editingSubject).Some? then Some(old(editingSubject).value.(name := name)) else None)
      ensures subjects == old(subjects) && deleteSubject == old(deleteSubject) && error == old(error)
    {
      if editingSubject.Some? {
        editingSubject := Some(editingSubject.value.(name := name));
      }
    }

    /** saveEdit: store the list with the edited subject in place (the name is not checked) and close the editor. */
    method SaveEdit(store: Store)
      modifies this, store
      ensures deleteSubject == old(deleteSubject) && error == old(error)
      ensures store.words == old(store.words) && store.tags == old(store.tags)
      ensures store.testSets == old(store.testSets) && store.testResults == old(store.testResults)
      ensures old(editingSubject).Some? ==>
        && subjects == Replaced(old(subjects), old(editingSubject).value)
        && store.subjects == Json(subjects) && editingSubject == None
      ensures old(editingSubject).None? ==> subjects == old(subjects) && store.subjects == old(store.subjects) && editingSubject == None
    {
      if editingSubject.Some? {
        var editingSubjects := Replaced(subjects, editingSubject.value);
        store.subjects := Json(editingSubjects);
        subjects := editingSubjects;
        editingSubject := None;
      }
    }

    method CancelEdit()
      modifies this
      ensures editingSubject == None
      ensures subjects == old(subjects) && deleteSubject == old(deleteSubject) && error == old(error)
    {
      editingSubject := None;
    }

    method ConfirmDelete(subject: Subject)
      modifies this
      ensures deleteSubject == Some(subject)
      ensures subjects == old(subjects) && editingSubject == old(editingSubject) && error == old(error)
    {
      deleteSubject := Some(subject);
    }

    /**
     * executeDelete: remove the subject from the list and the store. Its
     * words and test sets stay in the store.
     */
    method ExecuteDelete(store: Store)
      modifies this, store
      ensures editingSubject == old(editingSubject) && error == old(error)
      ensures store.words == old(store.words) && store.tags == old(store.tags)
      ensures store.testSets == old(store.testSets) && store.testResults == old(store.testResults)
      ensures old(deleteSubject).Some? ==>
        && subjects == WithoutSubject(old(subjects), old(deleteSubject).value.id)
        && store.subjects == Json(subjects) && deleteSubject == None
      ensures old(deleteSubject).None? ==> subjects == old(subjects) && store.subjects == old(store.subjects) && deleteSubject == None
    {
      if deleteSubject.Some? {
        var deleteSubjects := WithoutSubject(subjects, deleteSubject.value.id);
        store.subjects := Json(deleteSubjects);
        subjects := deleteSubjects;
        deleteSubject := None;
      }
    }

    method CancelDelete()
      modifies this
      ensures deleteSubject == None
      ensures subjects == old(subjects) && editingSubject == old(editingSubject) && error == old(error)
    {
      deleteSubject := None;
    }
  }
}
