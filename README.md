# Flashcard and quiz app: a Dafny model of its list logic

The app keeps five lists in the browser's key/value store: `subjects`, `words`, `tags`, `testSets` and `testResults`. Each list is stored as JSON text. Every page reads the lists it needs when it mounts. Every action computes a new list with `map`, `filter` or an append, then overwrites the whole stored value. This project models that logic:

- **Store** (`LocalStore`): five typed slots. A slot holds the value `getItem` hands back: null, the empty string, text `JSON.parse` rejects, or a list. Null and the empty string are the two falsy values the app tests for.
- **Seeding** (`AppSeed`): at start-up, each key whose value is falsy is written with the sample data. The model includes that data and proves the sample ranking.
- **Taking a test** (`TestSession`, `TestResultView`): the quiz page is a class whose fields are the page's and the question card's state. Each question is answered once, by exact string comparison. One button advances or finishes. Finishing appends a numbered result to the stored results. The result screen shows one row per question.
- **Ranking** (`Ranking`, `StableSort`): per-question correct rates over every stored attempt at one test set. A method with nested loops bumps a counter per answer record, as the page does. It is proved equal to a specification function. The rates are then shown sorted with a stable sort.
- **Words** (`Flashcards`, `WordCardList`, `WordEdit`):
  - the subject filter, the mark filter and the sort;
  - toggling a mark and deleting a word;
  - the card's markup-stripping snippet and tag badges;
  - the word form's tag toggling, new-tag creation and save.
- **Tags and subjects** (`TagList`, `SubjectList`): counting, renaming, deleting and adding. This includes the id collisions that `length + 1` ids allow, and deletes that do not cascade.

Pure list transforms are functions, and lemmas state their properties. Page state is held in classes whose methods change the fields and the store. Each such method states the new state in terms of those functions.

Where this README and the code could differ, the model follows the code, with one exception: the word form's add route, which the model reads as intended (see Findings). One example of following the code: an answer record naming a question that is not in the test set makes the ranking code throw, and the page shows its error. The model gives `None` there and does not skip the record.

## Model

| member | source | states |
|---|---|---|
| LocalStore.Store.Empty | src/App.tsx:12-13 | A store in which the app never ran has every key missing |
| AppSeed.SeedStore | src/App.tsx:12-347 | Each of the five keys is written with its sample list exactly when its value is falsy (null or ""); other values, unreadable ones included, are left alone |
| AppSeed.SeededSpec | src/App.tsx:12-347 | After seeding no key is falsy; a non-falsy value is never overwritten; a falsy one gets the sample list; seeding twice is seeding once |
| AppSeed.StartTwice | src/App.tsx:12-347 | Running the start-up writes twice leaves the store as one run left it |
| AppSeed.FirstRun | src/App.tsx:12-347 | On a first run every key ends up holding its sample list |
| AppSeed.SeedAnswersAmongChoices | src/App.tsx:92-213 | Every sample question's correct answer is one of its choices |
| AppSeed.SeedResultsRecorded | src/App.tsx:219-345 | Each sample result answers the three questions of test set 1 in order, each record graded by exact equality; its correct count equals its correct records; its total equals its history length; the ids run 1..5 |
| AppSeed.SeedRanking | src/pages/TestRankingPage.tsx:87-109 | Over the sample results, test set 1 ranks question 1 at 100%, question 2 at 40% and question 3 at 20% |
| AppSeed.SeedRates | src/pages/TestRankingPage.tsx:105-107 | Over the sample results the rates of questions 1, 2 and 3 are 100, 40 and 20 |
| AppSeed.SeedResultsOfSet1 | src/pages/TestRankingPage.tsx:68 | All five sample results pass the filter for test set 1 |
| AppSeed.SeedAnswersKnown | src/pages/TestRankingPage.tsx:95 | Every sample record names a question of test set 1, so the aggregation does not throw on them |
| AppSeed.SeedTally | src/App.tsx:219-345 | Over the five sample results each question has 5 records; 5, 2 and 1 of them are correct |
| AppSeed.TallyThreeAnswers | src/pages/TestRankingPage.tsx:93-100 | Over results that each answer questions 1..3 once, a question's record count is the number of results and its correct count is the sum of the per-result outcomes |
| AppSeed.RankingsOfThree | src/pages/TestRankingPage.tsx:102-108 | For a three-question test the rankings are the three rows in question order, each with its id, text and rate |
| TestSession.CorrectCountSnoc | src/pages/AllQuestionsPage/main.tsx:85-96 | Appending a record raises the correct count by one exactly when the record is correct |
| TestSession.Graded | src/pages/AllQuestionsPage/main.tsx:89-96 | Answering every question in order gives one record per question with its id, the answer and its grade |
| TestSession.WithResultAppendsOne | src/pages/AllQuestionsPage/main.tsx:118-131 | Saving to a stored list keeps every earlier result and appends one with id `length + 1`, the test and subject ids, the count, the total and the history; a missing, empty or unreadable value is left as it is |
| TestSession.WithResultKeepsNumbering | src/pages/AllQuestionsPage/main.tsx:122 | While stored result ids run 1..n, saving keeps them so |
| TestSession.AllQuestionsPage.Load | src/pages/AllQuestionsPage/main.tsx:51-78 | The test set is the first stored set with the route's id; a missing one shows "No test data available."; an unreadable value or an unknown subject shows the fetch error; a set with no questions crashes the render; the session starts at question 0 with nothing answered |
| TestSession.AllQuestionsPage.HandleAnswerSelect | src/pages/AllQuestionsPage/main.tsx:80-97 | With a test set, one record for the current question is appended, and the count rises by one exactly when the answer is correct; without one nothing changes; the count stays equal to the correct records |
| TestSession.AllQuestionsPage.AnswerClick | src/pages/AllQuestionsPage/QuestionCard.tsx:27-33 | The first click records the graded answer and marks the card answered; later clicks change nothing; the feedback says correct exactly when the answer is; the session keeps one graded record per answered question |
| TestSession.AllQuestionsPage.SaveTestResult | src/pages/AllQuestionsPage/main.tsx:115-137 | With a test set the stored results become the saved list; without one, or with a falsy value, nothing is written; the other keys are untouched |
| TestSession.AllQuestionsPage.HandleShowResult | src/pages/AllQuestionsPage/main.tsx:110-113 | Shows the result screen and saves, leaving the session's answers as they are |
| TestSession.AllQuestionsPage.HandleNextQuestion | src/pages/AllQuestionsPage/main.tsx:100-108 | Before the last question the index moves on and nothing is stored; at the last one the result shows and is saved; without a test set nothing changes |
| TestSession.AllQuestionsPage.NextClick | src/pages/AllQuestionsPage/QuestionCard.tsx:35-43 | Advances or finishes as the index says, then clears the card's selection and answered flag; the counting invariant and the one-record-per-question invariant hold |
| TestSession.AllQuestionsPage.RestartTest | src/pages/AllQuestionsPage/main.tsx:139-144 | Back to question 0 with count 0, no history and no result screen; the store is not touched |
| TestSession.TakeTest | src/pages/AllQuestionsPage/QuestionCard.tsx:70-77 | Answering each question once through the card and pressing advance after each ends on the result screen; the history is the graded answers; one stored result is appended whose count and total agree with its history |
| TestResultView.Percentage | src/pages/AllQuestionsPage/TestResult.tsx:28 | The percentage times the total is the count times 100; there is no finite value for a zero total |
| TestResultView.PercentageBounds | src/pages/AllQuestionsPage/TestResult.tsx:28 | With 0 <= count <= total the percentage lies in [0, 100], and is 100 exactly when every answer was correct |
| TestResultView.Rows | src/pages/AllQuestionsPage/TestResult.tsx:38-46 | One row per question, in order, with its position; a row has no answer exactly when no record names the question |
| TestResultView.RowShowsFirstRecord | src/pages/AllQuestionsPage/TestResult.tsx:43-44 | A row shows the answer and grade of the first record naming its question |
| TestResultView.RowsOfCompletedAttempt | src/pages/AllQuestionsPage/TestResult.tsx:38-46 | After an attempt through the card, with distinct question ids, each row shows the answer given to its question and that answer's grade |
| TestResultView.SecondAnswerHidden | src/pages/AllQuestionsPage/TestResult.tsx:43 | When one question has two records, the row shows the first answer |
| Ranking.ResultsFor | src/pages/TestRankingPage.tsx:68 | Only results of the test set, in stored order, each kept as many times as it is stored |
| Ranking.Rate | src/pages/TestRankingPage.tsx:105-107 | 0 when there are no records; otherwise the rate times the total is the correct count times 100; within [0, 100] |
| Ranking.SuccessesAtMostAttempts | src/pages/TestRankingPage.tsx:93-100 | A question's correct count never exceeds its record count |
| Ranking.RankingsShape | src/pages/TestRankingPage.tsx:102-108 | One ranking per question, in question order, with its id and text and a rate within [0, 100] |
| Ranking.RankingFailsExactlyOnUnknownQuestion | src/pages/TestRankingPage.tsx:95 | The aggregation fails exactly when some record names a question outside the test set |
| Ranking.UnansweredRanksZero | src/pages/TestRankingPage.tsx:105-107 | A question nobody answered has rate 0 and is highlighted |
| Ranking.TallyHistory | src/pages/TestRankingPage.tsx:94-99 | Walking one history bumps each question's counters by its correct records and its records; it fails exactly when a record names an unknown question |
| Ranking.ZeroStatsTallyNothing | src/pages/TestRankingPage.tsx:88-91 | The starting counters, one `{0, 0}` per question id, are the specified totals over no results |
| Ranking.TallyResults | src/pages/TestRankingPage.tsx:93-100 | The nested walk leaves every counter equal to the specified totals over all results, or fails exactly when the results name an unknown question |
| Ranking.TalliedRankings | src/pages/TestRankingPage.tsx:102-108 | Counters holding the specified totals give exactly the specified rankings |
| Ranking.CalculateQuestionRankings | src/pages/TestRankingPage.tsx:87-109 | The page's loop-based computation equals the specification `Rankings` |
| Ranking.SortedQuestionsOrdered | src/pages/TestRankingPage.tsx:115-119 | The sorted list is a permutation of the rankings; non-decreasing by rate for ascending and non-increasing for descending |
| Ranking.SortedQuestionsStable | src/pages/TestRankingPage.tsx:115-119 | Rankings with equal rates keep their question order |
| Ranking.ToggledOrder | src/pages/TestRankingPage.tsx:111-113 | The order always flips |
| Ranking.ToggleTwiceRestores | src/pages/TestRankingPage.tsx:111-127 | Toggling the order twice restores it; toggling a question twice restores a closed list or that question open |
| Ranking.RankingPage.Load | src/pages/TestRankingPage.tsx:55-85 | A falsy key leaves the page empty without error; with both keys present, the page errs exactly when a value is unreadable, the test set is missing or a record names an unknown question; otherwise it shows the specified rankings of the set's results |
| Ranking.RankingPage.ToggleSortOrder | src/pages/TestRankingPage.tsx:111-113 | The order flips; the name, rankings, error flag and open question stay |
| Ranking.RankingPage.ToggleQuestionExpansion | src/pages/TestRankingPage.tsx:125-127 | Collapses exactly when the question is the open one and otherwise opens it; the name, rankings, error flag and order stay |
| StableSort.SortPermutes | src/pages/TestRankingPage.tsx:115 | Sorting returns a permutation of its input |
| StableSort.SortSorted | src/pages/TestRankingPage.tsx:115-119 | Sorting returns a list non-decreasing by the key |
| StableSort.SortStable | src/pages/TestRankingPage.tsx:115-119 | Elements with equal keys keep their relative order |
| StableSort.SortConstantKey | src/pages/FlashcardsPage/main.tsx:98-99 | A comparator that always answers 0 leaves the order unchanged |
| Flashcards.WordsOfSubject | src/pages/FlashcardsPage/main.tsx:50 | Only words of the subject, in stored order, each kept as many times as it is stored |
| Flashcards.FilterMarked | src/pages/FlashcardsPage/main.tsx:81-86 | `all` keeps the list; `marked` keeps only marked words, `unmarked` only unmarked ones, in order |
| Flashcards.FilterMarkedMembers | src/pages/FlashcardsPage/main.tsx:81-86 | A word survives the filter exactly when it is in the list and its mark agrees with the filter |
| Flashcards.MarkedUnmarkedSplit | src/pages/FlashcardsPage/main.tsx:81-86 | The marked and unmarked lists together are as long as the whole list |
| Flashcards.ApplyFilterAndSortSpec | src/pages/FlashcardsPage/main.tsx:80-104 | The shown list is a permutation of the filtered list, sorted by the chosen key |
| Flashcards.NewestFirst | src/pages/FlashcardsPage/main.tsx:96-97 | The default sort puts later creation times first |
| Flashcards.UnknownSortKeepsOrder | src/pages/FlashcardsPage/main.tsx:98-99 | An unknown sort method shows the filtered list in stored order |
| Flashcards.MarkToggledChanges | src/pages/FlashcardsPage/main.tsx:108-109 | Entries with another id are unchanged; every entry with the word's id becomes the passed word with its mark flipped, even one whose other fields differ |
| Flashcards.MarkToggledTwice | src/pages/FlashcardsPage/main.tsx:108-109 | Toggling a word and then its toggled copy restores the list |
| Flashcards.WithoutWord | src/pages/FlashcardsPage/main.tsx:119 | No word with the id is left; every other word keeps its order and every copy of it |
| Flashcards.WithoutWordMembers | src/pages/FlashcardsPage/main.tsx:119 | A word stays exactly when it was there and has another id |
| Flashcards.WithoutAbsentWord | src/pages/FlashcardsPage/main.tsx:119 | Deleting an id no word has leaves the list as it is |
| Flashcards.WriteBackDropsOtherSubjects | src/pages/FlashcardsPage/main.tsx:106-125 | The list written back after a toggle or a delete holds words of the page's subject only |
| Flashcards.FlashcardsPage.Load | src/pages/FlashcardsPage/main.tsx:45-78 | The page holds the subject's stored words, all tags and the subject's name; each fetch swallows its own failure and leaves the initial value |
| Flashcards.FlashcardsPage.ToggleMarkWord | src/pages/FlashcardsPage/main.tsx:106-115 | The page's list becomes the toggled list and is written over the stored words; other keys are untouched |
| Flashcards.FlashcardsPage.DeleteWord | src/pages/FlashcardsPage/main.tsx:117-125 | The page's list loses the id and is written over the stored words; other keys are untouched |
| Flashcards.FlashcardsPage.SetFilter | src/pages/FlashcardsPage/main.tsx:80-86 | Only the mark filter changes |
| Flashcards.FlashcardsPage.SetSortMethod | src/pages/FlashcardsPage/main.tsx:88-101 | Only the sort method changes |
| WordCardList.StripTagsLeavesNoTag | src/pages/FlashcardsPage/WordCardList.tsx:23 | No match of `<[^>]+>` is left after stripping |
| WordCardList.StripTagsAddsNoChar | src/pages/FlashcardsPage/WordCardList.tsx:23 | Stripping never introduces a character |
| WordCardList.StripTagsFixesTagless | src/pages/FlashcardsPage/WordCardList.tsx:23 | Text with no match is left as it is |
| WordCardList.StripTagsIdempotent | src/pages/FlashcardsPage/WordCardList.tsx:23 | Stripping twice is stripping once |
| WordCardList.StripTagsPlainText | src/pages/FlashcardsPage/WordCardList.tsx:23 | Text without `<` is shown unchanged |
| WordCardList.StripTagsDropsTag | src/pages/FlashcardsPage/WordCardList.tsx:23 | A complete tag at the front is dropped whole |
| WordCardList.StripTagsKeepsText | src/pages/FlashcardsPage/WordCardList.tsx:23 | Text without `<` at the front is kept and the rest stripped |
| WordCardList.TruncateContentBounds | src/pages/FlashcardsPage/WordCardList.tsx:22-26 | Stripped text within the limit is shown whole; longer text gives exactly `maxLength` of its first characters followed by `...`; a snippet is at most `maxLength + 3` long, at most 3 longer than the stripped text, and holds no tag |
| WordCardList.PlainThenBold | src/pages/FlashcardsPage/WordCardList.tsx:22-26 | A short plain paragraph followed by a bold one shows as the two texts run together |
| WordCardList.TagBadges | src/pages/FlashcardsPage/WordCardList.tsx:42-46 | At most one badge per id, each a tag of the list |
| WordCardList.TagBadgesAllKnown | src/pages/FlashcardsPage/WordCardList.tsx:42-46 | When every id names a tag there is one badge per id, in order, showing the first tag with that id |
| WordCardList.TagBadgesSkipUnknown | src/pages/FlashcardsPage/WordCardList.tsx:42-46 | An id naming no tag adds no badge wherever it sits among the word's tag ids: the badges are those of the list without it |
| WordEdit.Toggled | src/pages/FlashcardsPage/WordEditForm.tsx:107-111 | A selected tag loses every copy while the other tags keep theirs, in order; an unselected one is appended at the end |
| WordEdit.ToggledMembers | src/pages/FlashcardsPage/WordEditForm.tsx:107-111 | Toggling flips whether the tag is selected and leaves every other tag's selection as it was |
| WordEdit.ToggleAbsentTwice | src/pages/FlashcardsPage/WordEditForm.tsx:108-110 | Toggling an unselected tag twice restores the selection exactly |
| WordEdit.TogglePresentTwice | src/pages/FlashcardsPage/WordEditForm.tsx:108-110 | Toggling a selected tag twice moves it to the end, once |
| WordEdit.FindWord | src/pages/FlashcardsPage/WordEditForm.tsx:51 | The first word with both the id and the subject, or none exactly when no word has both |
| WordEdit.WithNewWord | src/pages/FlashcardsPage/WordEditForm.tsx:72-82 | The stored words are kept and the unmarked word numbered `length + 1`, with the subject, text, meaning, tags and time, is appended |
| WordEdit.EditedKeepsRest | src/pages/FlashcardsPage/WordEditForm.tsx:84-88 | Every entry with the id and the subject takes the form's text, meaning and tags, keeping its id, subject, mark and creation time; the others are unchanged |
| WordEdit.EditedThenFound | src/pages/FlashcardsPage/WordEditForm.tsx:84-88 | Opening the word after an edit shows the saved text, meaning and tags |
| WordEdit.NewWordFound | src/pages/FlashcardsPage/WordEditForm.tsx:72-82 | The new word, id `length + 1`, unmarked, is found under its id when that id was free in the subject |
| WordEdit.NewWordShadowed | src/pages/FlashcardsPage/WordEditForm.tsx:74 | When id `length + 1` is already taken in the subject, opening it still shows the older word |
| WordEdit.SavedAgreesWithCode | src/pages/FlashcardsPage/WordEditForm.tsx:72-89 | For the `new` text and for an id, the save as written and the intended save agree |
| WordEdit.EditedByNaN | src/pages/FlashcardsPage/WordEditForm.tsx:84-88 | The edit map with `Number(undefined)`, NaN, matches no word and gives the list back unchanged |
| WordEdit.EditedByNumberAgrees | src/pages/FlashcardsPage/WordEditForm.tsx:84-88 | The edit map with an integer id is the intended edit of that word |
| WordEdit.AddRouteAsWrittenSavesNothing | src/pages/FlashcardsPage/WordEditForm.tsx:72-89 | As written, saving from the add route runs the edit map with NaN as the id, which stores the list unchanged; the intended save adds one word |
| WordEdit.AddRouteSavesWord | src/pages/FlashcardsPage/WordEditForm.tsx:72-82 | Read as intended, saving from the add route keeps the stored words and appends the new one, which its id then finds |
| WordEdit.WordEditPage.Load | src/pages/FlashcardsPage/WordEditForm.tsx:27-65 | Tags are loaded; for an existing word its fields fill the form, and an unknown id leaves it blank; an unreadable value shows the load error |
| WordEdit.WordEditPage.ToggleTag | src/pages/FlashcardsPage/WordEditForm.tsx:107-111 | The selection becomes the toggled selection and nothing else changes |
| WordEdit.WordEditPage.HandleSave | src/pages/FlashcardsPage/WordEditForm.tsx:67-97 | A falsy value counts as no words; an unreadable one shows the save error and writes nothing; otherwise the stored words become the added-to or edited list |
| WordEdit.WordEditPage.AddNewTag | src/pages/FlashcardsPage/WordEditForm.tsx:113-130 | With a non-blank trimmed name a tag numbered `length + 1` is appended, stored and selected, and the dialog closes; otherwise nothing changes |
| WordEdit.WordEditPage.SetWord | src/pages/FlashcardsPage/WordEditForm.tsx:18 | Only the word text changes |
| WordEdit.WordEditPage.SetMeaning | src/pages/FlashcardsPage/WordEditForm.tsx:19 | Only the meaning changes |
| TagList.WordCountForTag | src/pages/TagListPage.tsx:57-59 | The count never exceeds the number of words |
| TagList.WordCountForTagSnoc | src/pages/TagListPage.tsx:57-59 | Each further word adds one exactly when it carries the tag |
| TagList.WordCountForTagExtremes | src/pages/TagListPage.tsx:57-59 | The count is 0 exactly when no word carries the tag, and all words exactly when every word does |
| TagList.RenamedKeepsOthers | src/pages/TagListPage.tsx:69 | Every tag with the id takes the new name; ids stay in place and every other tag is unchanged |
| TagList.RenamedFind | src/pages/TagListPage.tsx:69 | After a rename the id finds the new name; an unknown id stays unknown |
| TagList.RenameTwice | src/pages/TagListPage.tsx:69 | A second rename overrides the first |
| TagList.WithoutTag | src/pages/TagListPage.tsx:92 | No tag with the id is left; every other tag keeps its order and every copy of it |
| TagList.WithoutTagMembers | src/pages/TagListPage.tsx:92 | A tag stays exactly when it was there and has another id |
| TagList.WithNewTag | src/pages/TagListPage.tsx:110 | The tags are kept and one numbered `length + 1` with the name is appended |
| TagList.WithNewTagKeepsNumbering | src/pages/TagListPage.tsx:110 | While ids run 1..n, adding keeps them so and the new id is fresh |
| TagList.WithNewTagCollides | src/pages/TagListPage.tsx:110 | If some tag already has id `length + 1`, adding gives two tags that id |
| TagList.DeleteThenAddCollides | src/pages/TagListPage.tsx:92-110 | Tags 1, 2, 3; deleting 2 and adding gives two tags with id 3 |
| TagList.TagListPage.Load | src/pages/TagListPage.tsx:34-55 | Tags and words are loaded; the error shows exactly when a value is unreadable, and an unreadable tags value stops the words from being read |
| TagList.TagListPage.StartEditing | src/pages/TagListPage.tsx:61-64 | The tag is being edited and its name fills the field |
| TagList.TagListPage.SaveEdit | src/pages/TagListPage.tsx:66-78 | With a non-blank trimmed name and a tag open, the tag is renamed to the trimmed name, stored, and the editor closes; otherwise nothing changes |
| TagList.TagListPage.CancelEdit | src/pages/TagListPage.tsx:80-83 | The editor closes and the field clears |
| TagList.TagListPage.ConfirmDelete | src/pages/TagListPage.tsx:85-87 | The tag is marked for deletion |
| TagList.TagListPage.ExecuteDelete | src/pages/TagListPage.tsx:89-101 | With a tag marked, tags with its id are removed and stored; the words are not touched |
| TagList.TagListPage.CancelDelete | src/pages/TagListPage.tsx:103-105 | Nothing is marked for deletion |
| TagList.TagListPage.AddNewTag | src/pages/TagListPage.tsx:107-119 | With a non-blank trimmed name a tag numbered `length + 1` is appended and stored and the dialog closes; otherwise nothing changes |
| TagList.DeleteDoesNotCascade | src/pages/TagListPage.tsx:188 | After deleting a tag, every word that carried it still does, and the stored words are unchanged |
| SubjectList.NewSubjectName | src/pages/SubjectListPage.tsx:49 | The name is `新しい科目 ` followed by the decimal digits of `n + 1` |
| SubjectList.NewSubjectNamesDiffer | src/pages/SubjectListPage.tsx:49 | Lists of different lengths get different default names |
| SubjectList.WithNewSubject | src/pages/SubjectListPage.tsx:49-51 | The subjects are kept and the subject numbered `length + 1` with its default name is appended |
| SubjectList.ReplacedEntries | src/pages/SubjectListPage.tsx:66 | Every subject with the edited one's id is replaced by it; the others stay in place |
| SubjectList.NewSubjectFound | src/pages/SubjectListPage.tsx:49-51 | The new subject is found under its id exactly when no older subject holds that id |
| SubjectList.ReplacedFind | src/pages/SubjectListPage.tsx:66 | After a save the id finds the edited subject; an unknown id stays unknown |
| SubjectList.ReplacedIdempotent | src/pages/SubjectListPage.tsx:66 | Saving the same edit twice is saving it once |
| SubjectList.WithoutSubject | src/pages/SubjectListPage.tsx:87 | No subject with the id is left; every other subject keeps its order and every copy of it |
| SubjectList.WithoutSubjectMembers | src/pages/SubjectListPage.tsx:87 | A subject stays exactly when it was there and has another id |
| SubjectList.DeleteThenAddCollides | src/pages/SubjectListPage.tsx:49-87 | Subjects 1 and 2; deleting 1 and adding gives two subjects with id 2 |
| SubjectList.SubjectListPage.Load | src/pages/SubjectListPage.tsx:29-46 | The stored subjects are loaded; the error shows exactly when the value is unreadable |
| SubjectList.SubjectListPage.AddNewSubject | src/pages/SubjectListPage.tsx:48-57 | The numbered subject is appended and stored |
| SubjectList.SubjectListPage.StartEditing | src/pages/SubjectListPage.tsx:59-61 | The subject is being edited |
| SubjectList.SubjectListPage.SetEditingName | src/pages/SubjectListPage.tsx:139 | The open subject's name changes; with none open nothing changes |
| SubjectList.SubjectListPage.SaveEdit | src/pages/SubjectListPage.tsx:63-74 | With a subject open, it replaces the subjects with its id and is stored, without checking its name, and the editor closes |
| SubjectList.SubjectListPage.CancelEdit | src/pages/SubjectListPage.tsx:76-78 | The editor closes |
| SubjectList.SubjectListPage.ConfirmDelete | src/pages/SubjectListPage.tsx:80-82 | The subject is marked for deletion |
| SubjectList.SubjectListPage.ExecuteDelete | src/pages/SubjectListPage.tsx:84-95 | With a subject marked, subjects with its id are removed and stored; its words and test sets stay |
| SubjectList.SubjectListPage.CancelDelete | src/pages/SubjectListPage.tsx:97-99 | Nothing is marked for deletion |
| Text.TrimSpec | src/pages/TagListPage.tsx:67 | The trimmed name is the middle of the text; everything cut off on either side is a space, and it neither starts nor ends with one |
| Text.TrimAllSpaces | src/pages/TagListPage.tsx:67 | A name of spaces only trims to the empty name, which the pages refuse |
| Text.TrimIdempotent | src/pages/TagListPage.tsx:69 | Trimming twice is trimming once |
| Text.NatToString | src/pages/SubjectListPage.tsx:49 | Decimal digits, without a leading zero |
| Text.NatToStringRoundTrip | src/pages/SubjectListPage.tsx:49 | Reading the digits back gives the number |
| Text.NatToStringInjective | src/pages/SubjectListPage.tsx:49 | Different numbers render differently |

## Left out

- Rendering, routing and navigation. The route parameters become constructor arguments. Loading spinners are not modelled.
- JSON serialisation: a stored list is modelled as the list. Well-formed JSON of the wrong shape is not modelled; text that `JSON.parse` rejects is the `Garbage` value.
- `useEffect` scheduling and React's batching of state updates: handlers are sequential updates of the fields.
- Timestamps: `new Date().toISOString()` is a parameter `now`.
- The word sort's `localeCompare` and `Date` parsing: `Flashcards.SortKey` takes them as key functions, so a comparator is modelled as an order by a real-valued key.
- Floating-point display (`toFixed`): rates and percentages are exact `real`s. `TestResultView.Percentage` gives `None` where JavaScript gives NaN or Infinity.
- String length: JavaScript counts UTF-16 code units and the model counts characters, so snippets of text outside the Basic Multilingual Plane are cut at different places.
- `TagList.TagListPage.SetNewTagName`, `TagList.TagListPage.SetShowNewTagDialog`, `WordEdit.WordEditPage.SetNewTagName`, `WordEdit.WordEditPage.SetShowNewTagDialog`: plain field setters, with no row of their own.
- The new-tag dialog component and the other display-only components are not part of this model. Neither is the test list page, which only loads the test sets and navigates.
- The rich-text editor: the meaning is whatever text it produces.
- Failures of `localStorage.setItem` (a full store): every write is assumed to succeed.
- WordEdit.WordEditPage.HandleSave: follows the intended reading of the add route, so it appends the new word there. As written, that save stores the words unchanged; see the Findings row and `WordEdit.AddRouteAsWrittenSavesNothing`.
- WordEdit.WordEditPage.Load: follows the intended reading of the add route. As written, the add route also reads the stored words, so an unreadable value shows the load error there too.
- `AppSeed.SeedRanking`: covers test set 1 only. The other sample test sets have no sample results.

## Findings

| source | as written | input that shows it | evidently intended | confidence | as-written member | corrected member |
|---|---|---|---|---|---|---|
| src/pages/FlashcardsPage/WordEditForm.tsx:72 (with src/App.tsx:356 and src/pages/FlashcardsPage/main.tsx:132) | The save adds a word only when `wordId === 'new'`. The add button opens `/flashcard/:subjectId/new`, whose route declares no `wordId`, so `wordId` is undefined. The edit branch then runs with `Number(undefined)`, NaN, which matches no word, and the words are stored unchanged. | Open the add form from the word list, type a word and save: the stored words are the same list, and the new word is lost. | Saving from the add route appends a new word numbered `length + 1`. | not executed | WordEdit.AddRouteAsWrittenSavesNothing | WordEdit.AddRouteSavesWord |
