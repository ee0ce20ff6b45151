# BioLingua Learn: a verified model of its client-side rules

BioLingua Learn is a Next.js application for Turkish high-school biology
students. It translates Turkish terms and sentences, generates tests, notes
and fill-in-the-blank exercises, and solves photographed questions. The
language model behind each feature is an external service. What the
application itself decides is a set of small, sequential rules, and this
Dafny project models those rules and proves their properties:

- the translation page's activity history and favourites, kept in
  persisted state cells (`HistoryRules`, `LocalStorage`, `HomePage`);
- the translation form: its schema, the default merge, the mode switch and
  the Enter key (`InputForm`);
- grading in the three answer views (`TestDisplay`, `FillBlankDisplay`,
  `NoteDisplay`, with the shared option marking in `Marks`);
- the hover-translation guard (`WordHoverTranslate`);
- the state machines of the question-scanning page and the exercises page
  (`ScanQuestion`, `Exercises`);
- the validators of the three generator forms (`FormFields`, `TestForm`,
  `NoteForm`, `FillBlankForm`).

The modelling follows four conventions:

- **State.** Components that hold state are classes whose fields are the
  component's state variables. Each event handler is a method whose
  `modifies` clause names the fields it sets.
- **Outside world.** AI replies, generated ids, the clock, camera access,
  canvas capture and file loading are parameters of these methods. A handler
  that awaits a call is split into two methods. The first runs up to the call
  and returns the request. The second takes the settled reply.
- **Storage.** `localStorage` is a `Storage` object holding a map, plus two
  flags for environments where reads or writes throw. `JSON.stringify` and
  `JSON.parse` are abstract functions held by each cell; a parse that throws
  is `None`.
- **JavaScript truthiness.** Where the source tests a string for truthiness,
  the model uses the `Truthy` predicate, which is false for both `null` and
  `""`.

Points where the code, not a description of it, decides the behaviour:

- **Raw recording.** A submission is recorded exactly as typed. There is no
  trimming, no case folding and no lookup of an earlier identical entry.
- **Favourites.** They are an ordered list of ids, not a set. Toggling
  appends at the end. Clearing the history removes only the ids of entries
  that were in the history being cleared.
- **Remembered empty words.** A blank word is stored as itself in
  `translatedWord`. For the empty word `""` that value is falsy, so every
  opening of the tooltip classifies the word again. No translation request
  ever results (`EmptyWordIsReclassified`).
- **Silent scan errors.** A scan that throws an `Error` with an empty message
  leaves an error the preview does not display (`FailuresAreVisible`).
- **Unreachable "back to form".** The exercises page passes
  `onGoBackToForm` (src/app/exercises/page.tsx:116), but the exercise view
  declares no such prop (src/components/fill-blank-display.tsx:14-18) and
  no control calls it. `Exercises.ExercisesPage.GoBackToForm` models the
  handler's effect, but the page never runs it; "next" is the only way on
  from an exercise.
- **Fill-in-the-blank rendering.** Only the first two pieces of the split
  sentence are rendered. A sentence without the marker is shown whole, with
  the blank after it.

## Model

| member | source | states |
|---|---|---|
| HistoryRules.Filter | src/app/page.tsx:105 | `filter` keeps only elements satisfying the predicate, keeps every such element, and never grows the list |
| HistoryRules.FilterConcat | src/app/page.tsx:121 | filtering never reorders: the filter of a concatenation is the concatenation of the filters |
| HistoryRules.FilterKeepsAll | src/app/page.tsx:105 | when every element passes, the filter is the identity |
| HistoryRules.FilterKeepsNone | src/app/page.tsx:121 | when no element passes, the filter is empty |
| HistoryRules.FilterKeepsNoDuplicates | src/app/page.tsx:105 | a filtered duplicate-free list stays duplicate-free |
| HistoryRules.Record | src/app/page.tsx:85 | the new entry is the head; the length is min(old + 1, 50); positions 1.. hold the old entries in their order (drops happen only at the tail) |
| HistoryRules.RecordAllKeepsNewest | src/app/page.tsx:85 | after any run of recordings the history is the new entries newest first followed by the old history, cut to 50 |
| HistoryRules.Toggle | src/app/page.tsx:102-108 | a present id is removed everywhere and every other id keeps its membership; an absent id is appended at the end |
| HistoryRules.ToggleTwiceRestores | src/app/page.tsx:102-108 | toggling an absent id twice gives back the original list |
| HistoryRules.TogglePreservesNoDuplicates | src/app/page.tsx:102-108 | toggling keeps the favourites duplicate-free |
| HistoryRules.PruneFavorites | src/app/page.tsx:112 | the favourites left are exactly those no entry of the cleared history carries |
| HistoryRules.PruneKeepsUnrelatedFavorites | src/app/page.tsx:112 | when no favourite belongs to the cleared history, pruning leaves the list unchanged |
| HistoryRules.PruneConcat | src/app/page.tsx:112 | pruning works piecewise over any split of the favourites, so survivors keep their order |
| HistoryRules.PruneKeepsOthersInOrder | src/app/page.tsx:112 | in a mixed list an id of the cleared history drops out from between its neighbours, and any other id keeps its place among the survivors |
| HistoryRules.FavoriteView | src/app/page.tsx:121 | an entry is shown exactly when it is in the history and its id is a favourite |
| HistoryRules.FavoriteViewKeepsHistoryOrder | src/app/page.tsx:121 | the view follows history order: it splits over any split of the history |
| HistoryRules.FavoriteViewIgnoresOrphans | src/app/page.tsx:121 | a favourite id with no entry in the history does not change the view |
| LocalStorage.GetItem | src/hooks/use-local-storage.ts:17-18 | an item is found exactly when the key is present, and it is the stored string |
| LocalStorage.NextValue | src/hooks/use-local-storage.ts:32 | a plain value replaces the state; an updater is applied to the current state |
| LocalStorage.Loaded | src/hooks/use-local-storage.ts:13-27 | a missing item, a read error or a parse error keep the current value; an item that parses replaces it |
| LocalStorage.LoadAfterWriteYieldsValue | src/hooks/use-local-storage.ts:17-19 | when parse undoes serialise, loading the item written for v gives v |
| LocalStorage.Cell.constructor | src/hooks/use-local-storage.ts:9 | a new cell holds its fallback value |
| LocalStorage.Cell.LoadEffect | src/hooks/use-local-storage.ts:13-27 | the state becomes what `Loaded` gives for the key's item; nothing else changes |
| LocalStorage.Cell.SetValue | src/hooks/use-local-storage.ts:29-49 | the state becomes the new value even when writing fails; on success exactly the cell's key is rewritten with the serialised value |
| LocalStorage.Cell.SetValueFromRender | src/hooks/use-local-storage.ts:29-49 | a callback created by an earlier render applies an updater to that render's state, not the current one; storage is written as by `SetValue` |
| LocalStorage.ReloadAfterWrite | src/hooks/use-local-storage.ts:17-19 | a fresh cell loading after a successful write reads back the written value |
| LocalStorage.ReloadWithoutItem | src/hooks/use-local-storage.ts:9 | a fresh cell with no stored item keeps its fallback after loading |
| HomePage.BuildResults | src/app/page.tsx:43-74 | each result field is present exactly when its call was fulfilled, with that call's value; the explanation never supplies the term |
| HomePage.Page.constructor | src/app/page.tsx:24-30 | the page starts idle with the three cells on their keys and fallbacks |
| HomePage.Page.Mount | src/app/page.tsx:28-30 | each cell runs its load effect on its own key |
| HomePage.Page.HandleFormSubmit | src/app/page.tsx:36-94 | the mode is remembered; the results are assembled from the outcomes; an entry with the submitted text and mode unchanged heads the bounded history; favourites are untouched; loading ends |
| HomePage.Page.HandleSelectHistoryItem | src/app/page.tsx:96-100 | the selected entry's input and results are shown again |
| HomePage.Page.HandleToggleFavorite | src/app/page.tsx:102-108 | favourites become the toggle of the old list; the history is untouched; on a successful write only the favourites key is rewritten, with the new list |
| HomePage.Page.HandleClearHistory | src/app/page.tsx:110-114 | the history is emptied, favourites are pruned of the cleared entries' ids, and the favourites view is empty; on a successful write the history key holds `[]` and the favourites key the pruned list, no other key changes |
| HomePage.Page.HandleClearFavorites | src/app/page.tsx:116-119 | favourites are emptied, the history is untouched, and the favourites view is empty; on a successful write only the favourites key is rewritten, with `[]` |
| HomePage.ClearDuringSubmitAsWritten | src/app/page.tsx:85 | clearing a non-empty history while a submission awaits, then settling it through that submission's callback, brings the cleared entries back behind the new one |
| HomePage.ClearDuringSubmitIntended | src/app/page.tsx:110-114 | with the updater applied to the current state, the cleared history holds only the new entry |
| HomePage.Page.FormDefaults | src/app/page.tsx:131 | the form shows the current input if any, otherwise an empty text and the last mode |
| InputForm.ParseMode | src/components/input-form.tsx:18 | exactly the two mode names parse, each to the mode of that name |
| InputForm.Validate | src/components/input-form.tsx:16-19 | accepted exactly when the text has 1 to 500 characters and the mode is a mode name; accepted values are unchanged |
| InputForm.ValidateIsIdempotent | src/components/input-form.tsx:16-19 | valid values validate to themselves |
| InputForm.MergeDefaults | src/components/input-form.tsx:32-36 | each supplied field overrides the built-in default, each missing one keeps it |
| InputForm.BuiltInDefaultsAreRejected | src/components/input-form.tsx:32-36 | the built-in defaults fail the schema |
| InputForm.SwitchRoundTrips | src/components/input-form.tsx:91-92 | mode to switch to mode is the identity, and so is switch to mode to switch |
| InputForm.TextareaKeyDown | src/components/input-form.tsx:45-53 | the newline is suppressed exactly for Enter without Shift, and that key submits exactly when not loading |
| InputForm.SubmittedByKey | src/components/input-form.tsx:45-53 | a key press delivers values exactly when it submits and the schema accepts them |
| Marks.OptionMark | src/components/test-display.tsx:80-88 | before the check nothing is marked; after it, an option is marked correct exactly when it is the correct one and wrong exactly when it is chosen and not correct |
| Marks.OptionBorder | src/components/test-display.tsx:96-98 | the three border classes hold exactly under their conditions |
| Marks.BorderAgreesWithMark | src/components/fill-blank-display.tsx:85-102 | green borders go with the correct mark, the red border with the wrong mark |
| Marks.OneCorrectMark | src/components/fill-blank-display.tsx:85-93 | with distinct options, exactly the correct option is marked correct |
| TestDisplay.CorrectCount | src/components/test-display.tsx:29-35 | the count over k questions is at most k and zero only when none of them is answered correctly |
| TestDisplay.CorrectCountIsNumberOfCorrectIndices | src/components/test-display.tsx:29-35 | the count is the number of questions whose answer equals the correct index |
| TestDisplay.WellFormedQuestionMarksOneOption | src/components/test-display.tsx:80-88 | for a question of four options with a correct index in 0..3, exactly the option at the correct index is marked correct after the check |
| TestDisplay.AllAnsweredMeansEveryQuestion | src/components/test-display.tsx:51 | with keys among the question indices, the non-null count equals n exactly when every question has an answer |
| TestDisplay.SelectedOf | src/components/test-display.tsx:71 | the radio group has a value exactly when the entry exists and is not null |
| TestDisplay.ScoredExactlyWhenChosenIsGreen | src/components/test-display.tsx:96 | a question scores exactly when its chosen option shows the strong green border |
| TestDisplay.AllAnsweredExactlyWhenEveryQuestionIs | src/components/test-display.tsx:51 | the submit condition holds exactly when every question has a selected answer |
| TestDisplay.TestView.constructor | src/components/test-display.tsx:20-22 | a new view has no answers, is not submitted and scores 0 |
| TestDisplay.TestView.LoadTest | src/components/test-display.tsx:45-49 | new test data clears the answers, the submission and the score |
| TestDisplay.TestView.HandleAnswerChange | src/components/test-display.tsx:25-27 | only entry q changes, to the chosen answer |
| TestDisplay.TestView.HandleSubmitTest | src/components/test-display.tsx:29-42 | the score is the number of correct answers, between 0 and the question count, and the test is submitted |
| TestDisplay.TestView.HandleReset | src/components/test-display.tsx:145 | answers, submission and score are cleared |
| TestDisplay.TestView.AllQuestionsAnswered | src/components/test-display.tsx:51 | holds exactly when every question has an answer, given answers only for shown questions |
| FillBlankDisplay.FirstOccurrence | src/components/fill-blank-display.tsx:55 | finds the leftmost occurrence of the marker, or reports that there is none |
| FillBlankDisplay.Split | src/components/fill-blank-display.tsx:55 | the split always has at least one piece |
| FillBlankDisplay.JoinSplit | src/components/fill-blank-display.tsx:55 | joining the pieces with the marker gives back the sentence |
| FillBlankDisplay.SplitPiecesAreFree | src/components/fill-blank-display.tsx:55 | no piece contains the marker |
| FillBlankDisplay.SplitWithoutSeparator | src/components/fill-blank-display.tsx:55 | a sentence without the marker is a single piece |
| FillBlankDisplay.BlankText | src/components/fill-blank-display.tsx:70 | the blank shows the correct answer once checked, before that the choice, or `...` for no or an empty choice |
| FillBlankDisplay.OneMarkerIsReplaced | src/components/fill-blank-display.tsx:68-72 | with one marker, the rendered sentence is the sentence with the marker replaced by the blank text |
| FillBlankDisplay.NoMarkerShowsBlankAtEnd | src/components/fill-blank-display.tsx:68-72 | a sentence without the marker is shown whole with the blank after it |
| FillBlankDisplay.FillBlankView.constructor | src/components/fill-blank-display.tsx:21-22 | a new view has no choice and is not checked |
| FillBlankDisplay.FillBlankView.LoadExercise | src/components/fill-blank-display.tsx:50-53 | new exercise data clears the choice and the check |
| FillBlankDisplay.FillBlankView.Select | src/components/fill-blank-display.tsx:77 | the chosen option's text becomes the selection |
| FillBlankDisplay.FillBlankView.HandleCheckAnswer | src/components/fill-blank-display.tsx:25-47 | without a choice nothing changes; with one the exercise is checked, and the verdict is correct exactly when the choice equals the correct answer |
| FillBlankDisplay.CheckedSentenceShowsCorrectAnswer | src/components/fill-blank-display.tsx:68-93 | after a check the sentence reads with the correct answer, and the choice is marked wrong exactly when it differs |
| NoteDisplay.FeedbackTellsRightFromWrong | src/components/note-display.tsx:34-43 | the feedback is the success text exactly for the correct index; otherwise it quotes the correct option, which is in bounds for a well-formed quiz and reads "undefined" out of bounds |
| NoteDisplay.ReplaceNewlinesConcat | src/components/note-display.tsx:70 | the replacement works piecewise over any split of the text |
| NoteDisplay.ReplaceNewlinesRemovesAll | src/components/note-display.tsx:70 | no newline is left, and the text grows by 5 characters per newline |
| NoteDisplay.ReplaceNewlinesKeepsPlainText | src/components/note-display.tsx:70 | text without newlines is unchanged |
| NoteDisplay.NoteView.constructor | src/components/note-display.tsx:21-23 | a new view has no choice, no feedback and a closed explanation |
| NoteDisplay.NoteView.LoadNote | src/components/note-display.tsx:54-58 | new note data clears the choice, the feedback and the explanation |
| NoteDisplay.NoteView.SelectAnswer | src/components/note-display.tsx:159 | the chosen index becomes the selection |
| NoteDisplay.NoteView.HandleQuizSubmit | src/components/note-display.tsx:26-51 | without a choice nothing changes; with one the feedback is set and the explanation opens, and the green box shows exactly with the success text |
| WordHoverTranslate.TrimStart | src/components/word-hover-translate.tsx:25 | the result is the suffix left after removing all leading white space |
| WordHoverTranslate.TrimEnd | src/components/word-hover-translate.tsx:25 | the result is the prefix left after removing all trailing white space |
| WordHoverTranslate.Trim | src/components/word-hover-translate.tsx:25 | the trimmed word has no white space at either end |
| WordHoverTranslate.TrimKeepsTrimmed | src/components/word-hover-translate.tsx:25 | a word without surrounding white space is its own trim |
| WordHoverTranslate.TrimIsIdempotent | src/components/word-hover-translate.tsx:25 | trimming twice is trimming once |
| WordHoverTranslate.TrimEmptyExactlyForBlank | src/components/word-hover-translate.tsx:27 | the trim is empty exactly for a word of white space only |
| WordHoverTranslate.PlanFor | src/components/word-hover-translate.tsx:25-43 | a word is sent exactly when its trim is non-empty, not a single non-letter and not all digits, and then trimmed; a blank word is kept untrimmed, the others trimmed |
| WordHoverTranslate.QueriesAreWords | src/components/word-hover-translate.tsx:36-49 | a query is trimmed, is a letter or two or more characters, and has a non-digit |
| WordHoverTranslate.PlanIgnoresSurroundingSpace | src/components/word-hover-translate.tsx:25-43 | a non-blank word and its trim are treated alike |
| WordHoverTranslate.WordHover.constructor | src/components/word-hover-translate.tsx:15-18 | nothing translated, loading, open or failed at first |
| WordHoverTranslate.WordHover.OnOpenChange | src/components/word-hover-translate.tsx:23-49 | the open state is recorded; without the guard nothing else changes; with it a skipped word is stored, and a translatable one starts loading with the error cleared and its trim requested |
| WordHoverTranslate.WordHover.TranslationSettled | src/components/word-hover-translate.tsx:47-57 | success stores the reply; failure sets "Çeviri hatası" and clears the translation; loading ends |
| WordHoverTranslate.ShownMatchesMarkup | src/components/word-hover-translate.tsx:77-81 | in every valid state at most one of the four spans is rendered, and `Shown` is the one that is, with its text; nothing is shown when none is |
| WordHoverTranslate.FailureIsFinal | src/components/word-hover-translate.tsx:62-68 | once the error is set, opening never requests again and the error stays shown |
| WordHoverTranslate.TranslatedIsFinal | src/components/word-hover-translate.tsx:62-68 | a non-empty translation is never requested again |
| WordHoverTranslate.EmptyWordIsReclassified | src/components/word-hover-translate.tsx:27-31 | the empty word is stored as `""`, the guard stays open, and no request is ever made |
| ScanQuestion.ScanError | src/app/scan-question/page.tsx:119-134 | no error exactly for a biology reply; otherwise the solver's explanation or its default, the thrown Error's message, or the unknown-error default |
| ScanQuestion.FailuresAreVisible | src/app/scan-question/page.tsx:124-134 | every failure leaves a displayable error except a thrown Error with an empty message |
| ScanQuestion.ScanPage.constructor | src/app/scan-question/page.tsx:19-24 | the page starts on the select screen with nothing set |
| ScanQuestion.ScanPage.UseCamera | src/app/scan-question/page.tsx:152 | the camera screen opens |
| ScanQuestion.ScanPage.CancelCamera | src/app/scan-question/page.tsx:178 | back to the select screen |
| ScanQuestion.ScanPage.CameraAccessSettled | src/app/scan-question/page.tsx:34-48 | the permission is recorded; a refusal sets the camera error |
| ScanQuestion.ScanPage.CaptureImage | src/app/scan-question/page.tsx:62-85 | missing elements change nothing; a missing context only sets the error; a capture opens the preview with results and error cleared |
| ScanQuestion.ScanPage.FileLoaded | src/app/scan-question/page.tsx:91-96 | the loaded file opens the preview with results and error cleared |
| ScanQuestion.ScanPage.Retake | src/app/scan-question/page.tsx:101-109 | image, error and results are cleared and the select screen opens |
| ScanQuestion.ScanPage.StartScan | src/app/scan-question/page.tsx:111-118 | without an image nothing happens; otherwise processing starts with error and results cleared and the image is sent |
| ScanQuestion.ScanPage.FinishScan | src/app/scan-question/page.tsx:118-137 | the results screen opens exactly for a biology reply; otherwise the preview shows `ScanError`; the reply is kept; processing ends |
| ScanQuestion.ResultsFallbackOnlyWhileScanning | src/app/scan-question/page.tsx:237-241 | the results fallback appears only during a scan; otherwise the results screen has a biology solution |
| ScanQuestion.ScanRound | src/app/scan-question/page.tsx:87-137 | loading an image and scanning it with a biology reply shows exactly that solution with no alert |
| ScanQuestion.FailedRound | src/app/scan-question/page.tsx:111-137 | a failed scan leaves the preview with the image, scanning enabled again, and the alert when the error is non-empty |
| Exercises.FailureMessage | src/app/exercises/page.tsx:42-45 | a thrown Error gives its message, anything else the default message |
| Exercises.ExercisesPage.constructor | src/app/exercises/page.tsx:17-20 | the page starts with nothing loaded |
| Exercises.ExercisesPage.Submit | src/app/exercises/page.tsx:23-34 | loading starts with exercise and error cleared; the values are kept and sent |
| Exercises.ExercisesPage.Settle | src/app/exercises/page.tsx:35-54 | the exercise or the failure message is stored; loading ends; the values stay |
| Exercises.ExercisesPage.NextExercise | src/app/exercises/page.tsx:57-68 | the kept values are submitted again; with none, the exercise is dropped and nothing is sent |
| Exercises.ExercisesPage.GoBackToForm | src/app/exercises/page.tsx:70-74 | exercise and error are cleared; the values stay (the handler is never called, see below) |
| Exercises.ExactlyOneMainPart | src/app/exercises/page.tsx:82-111 | exactly one of form, loader and exercise is displayed, and the error alert only with the form |
| Exercises.NextFromShownExercise | src/app/exercises/page.tsx:57-59 | "next" from a shown exercise always sends the kept values and shows the loader |
| Exercises.FailedRequestShowsForm | src/app/exercises/page.tsx:40-54 | a failed request brings back the form, with the alert exactly when the message is not empty |
| FormFields.ErrorIf | src/components/test-form.tsx:16-21 | a field is reported exactly when its rule fails |
| TestForm.Errors | src/components/test-form.tsx:16-21 | the topic, grade, difficulty and count are each reported exactly when they break their rule |
| TestForm.DefaultsNeedOnlyATopic | src/components/test-form.tsx:33-38 | the defaults fail on the topic alone, and any 3-150 character topic makes them valid |
| TestForm.ValidFormIsValidFlowInput | src/ai/flows/generate-biology-test-flow.ts:21-26 | values the form accepts pass the flow's input schema |
| FillBlankForm.Errors | src/components/fill-blank-form.tsx:17-21 | the topic, grade and difficulty are each reported exactly when they break their rule |
| FillBlankForm.DefaultsNeedOnlyATopic | src/components/fill-blank-form.tsx:33-37 | the defaults fail on the topic alone, and any 3-150 character topic makes them valid |
| FillBlankForm.ValidFormIsValidFlowInput | src/ai/flows/generate-fill-blank-flow.ts:14-17 | values the form accepts pass the flow's input schema |
| NoteForm.Errors | src/components/note-form.tsx:18-23 | the topic, grade, tone and detail level are each reported exactly when they break their rule |
| NoteForm.DefaultsNeedOnlyATopic | src/components/note-form.tsx:35-40 | the defaults fail on the topic alone, and any 3-150 character topic makes them valid |
| NoteForm.DengeliPassesFormButNotFlow | src/components/note-form.tsx:21 | values with tone "Dengeli" pass the form and fail the flow's input schema as written |
| NoteForm.ValidFormIsValidIntendedFlowInput | src/ai/flows/generate-biology-note-flow.ts:17 | with every form tone admitted, values the form accepts pass the flow's input check |
| NoteForm.FlowChecksDifferOnlyOnDengeli | src/ai/flows/generate-biology-note-flow.ts:17 | the intended check accepts values the written one rejects exactly when the grade is valid and the tone is "Dengeli" |

## Findings

| source | as written | input that shows it | evidently intended | confidence | as-written member | corrected member |
|---|---|---|---|---|---|---|
| src/components/note-form.tsx:21 | the note form offers and accepts the tone "Dengeli", but the note flow's input schema (src/ai/flows/generate-biology-note-flow.ts:17) allows only Standard, Humorous and Engaging | topic "Fotosentez", grade "9", tone "Dengeli", detail "Orta Detay" | every tone the form offers is accepted by the flow | medium, not executed | NoteForm.DengeliPassesFormButNotFlow | NoteForm.ValidFormIsValidIntendedFlowInput |
| src/hooks/use-local-storage.ts:32 | `setValue` applies an updater to the `storedValue` captured by the render that created it (dependency list at line 47); `handleFormSubmit` calls the `setHistory` of the render in which it started, after its awaits (src/app/page.tsx:85), and the Clear History button (src/app/page.tsx:155) stays enabled while loading | a history `[e0]`; submit, click Clear History before the replies settle; the history ends as `[entry, e0]` | the updater runs on the current history, which is `[]` after the clear, giving `[entry]` | medium, not executed | HomePage.ClearDuringSubmitAsWritten | HomePage.ClearDuringSubmitIntended |

## Left out

- The AI flows are not modelled: no prompts, model calls or output
  generation. Their replies are method parameters. Their output schemas
  appear only as the `WellFormedQuestion` and `WellFormedQuiz` predicates.
  Their input schemas appear as the forms' `FlowAccepts` predicates.
- `Promise.allSettled` in `handleFormSubmit` is not modelled as concurrency.
  The three settled outcomes are inputs.
- `HomePage.Page.HandleFormSubmit` runs atomically, and its updater is
  applied to the cell's current value, as intended. The one interleaving
  with a visible effect, a history clear during the awaits, is modelled
  on its own by `HomePage.ClearDuringSubmitAsWritten` (see Findings).
  Other state updates during the awaits are not interleaved.
- The `catch` branch of `handleFormSubmit` (src/app/page.tsx:87-90) is not
  modelled. `allSettled` does not reject, so nothing in the `try` block
  throws.
- `generateId` (`Math.random`) and `Date.now` are not modelled. The id and
  the timestamp are parameters. Ids are not assumed unique.
- Toasts, console output, scrolling and the `form.reset` effect of the
  translation form (src/components/input-form.tsx:39-43) are not modelled.
- Camera streams, canvas drawing and `FileReader` are not modelled. Capture
  readiness, the drawing context, the data URL and the permission outcome
  are parameters. A file input with no chosen file does nothing and has no
  method.
- `JSON.stringify` and `JSON.parse` are abstract functions. The `typeof
  window` test is not modelled: the model always runs on the client.
- Lengths count Dafny characters (code points). JavaScript counts UTF-16
  units, so `min`/`max` and the one-character rule differ for characters
  outside the Basic Multilingual Plane.
- TestDisplay.Question: the `correctAnswerIndex` of a question is an
  integer, although zod's `number().min(0).max(3)` also admits fractions.
  The same holds for the note quiz in NoteDisplay.SummaryQuiz.
- TestForm.Errors: `numberOfQuestions` is the integer after
  `z.coerce.number()`. Fractional and non-numeric inputs are not modelled.
- ScanQuestion.ScanPage.StartScan: its precondition `!isProcessingAi` stands
  for the disabled scan button (src/app/scan-question/page.tsx:218). Scans
  that overlap are not modelled.
- Exercises.ExercisesPage.Submit and Exercises.ExercisesPage.NextExercise:
  their precondition `!isLoading` stands for the form and the exercise
  being hidden while loading (src/app/exercises/page.tsx:82, 111).
- Rendering-only parts are not modelled: the results display, the history
  sidebar, the app header, the activity cards, the layout and the note
  cards. The notes page and the test page are the same request wrapper as
  the exercises page and are not modelled separately.
