# NotedMind core in Dafny

This project models the core of a note-taking application that turns voice
transcriptions into study notes. It covers these parts:

- The server's in-memory note store, `MemStorage`. It keeps two
  insertion-ordered maps, one of notes and one of users. It supports create,
  partial update, delete, listing by recency, and case-insensitive search.
- The request handlers around the store:
  - status codes for CRUD requests;
  - the three tiers of the voice-processing route;
  - the guards of the study-material route.
- The defensive decoding of the AI reply, where every field falls back to a
  fixed default.
- The record shapes and insert validation of the shared schema.
- Six client components, each modelled as a state machine or a pure text
  rule:
  - the quiz (progression and score);
  - the flashcard viewer (navigation and two-step flip);
  - the voice recorder (final and interim transcript);
  - the dashboard (filter, selection and editor content);
  - the note card (preview and tag badge);
  - the study-tools panel (content threshold and generating flag).

Modules, one per source file plus shared helpers:

| file | module | models |
|---|---|---|
| wrappers.dfy | Wrappers | `Option` |
| text.dfy | Text | ASCII lower-casing, `includes`, `trim`, UTF-16 code units, decimal rendering of indices |
| seqs.dfy | Seqs | `Array.prototype.filter` as an order-preserving subsequence |
| json.dfy | Json | parsed JSON values, JavaScript property access and truthiness |
| jsmap.dfy | JsMap | a JavaScript `Map`: insertion order plus entries |
| schema.dfy | Schema | shared/schema.ts |
| storage.dfy | Storage | server/storage.ts |
| openai.dfy | OpenAi | server/openai.ts |
| routes.dfy | Routes | server/routes.ts |
| quiz.dfy | Quiz | QuizInterface.tsx |
| flashcard.dfy | Flashcards | Flashcard.tsx |
| voice_recorder.dfy | VoiceRecorder | VoiceRecorder.tsx |
| dashboard.dfy | Dashboard | Dashboard.tsx |
| note_card.dfy | NoteCard | NoteCard.tsx |
| study_tools.dfy | StudyTools | StudyTools.tsx |

Values the program draws from its platform are parameters of the model:

- `randomUUID()` becomes an `id` argument that must not already be in use.
- `new Date()` becomes a `now` argument that never runs behind the store's
  ghost `clock`.
- Whether an OpenAI key was configured becomes a `configured` flag.
- The chat completion becomes an oracle `ask: string -> Reply` applied to
  the prompt.
- Browser events (speech results, microphone permission, timers) become
  method calls and arguments.

The schema declares `username` unique, but `createUser` never checks it.
The model follows the code: `Storage.DuplicateUsernames` shows two users
with one name being stored, and a lookup returning the older one.

## Model

| member | source | states |
|---|---|---|
| Text.Lower | server/storage.ts:91-97 | `toLowerCase` keeps the length and lower-cases each character; no upper-case ASCII letter remains |
| Text.EmptyQueryMatches | server/storage.ts:95-97 | the empty string is contained in every text, so an empty query matches every note |
| Text.ContainsAt | server/storage.ts:95 | `includes`: a needle found at any position is contained |
| Text.ContainsWitness | server/storage.ts:95 | `includes`: a contained needle occurs at some position |
| Text.Trim | client/src/components/StudyTools.tsx:31 | `trim` removes leading and trailing whitespace and nothing else; the result is a slice, and its first and last characters are not whitespace |
| Text.TrimKeepsNonSpace | client/src/components/StudyTools.tsx:31 | text without whitespace is unchanged by `trim` |
| Text.TrimAllSpace | client/src/components/StudyTools.tsx:31 | whitespace-only text trims to the empty string |
| Text.Utf16 | client/src/components/NoteCard.tsx:36 | a JavaScript string's code units: one unit per character below U+10000 and a surrogate pair above, so `length` is between the character count and twice it |
| Text.Utf16Append | client/src/components/NoteCard.tsx:36 | the code units of a concatenation are the concatenation of the code units |
| Text.Utf16RoundTrip | client/src/components/NoteCard.tsx:36 | decoding a string's code units gives the string back, so the encoding loses nothing |
| Text.TrimShortens | client/src/components/StudyTools.tsx:31 | `trim()` never increases `length` counted in code units |
| Text.NatToDecimal | client/src/components/QuizInterface.tsx:162 | `index.toString()` is a non-empty string of digits with no leading zero |
| Text.DecimalRoundTrip | client/src/components/QuizInterface.tsx:35 | `parseInt` of an index rendered in decimal gives the same index back |
| Seqs.Filter | client/src/pages/Dashboard.tsx:44-48 | `filter` keeps an order-preserving subsequence: each kept element satisfies the predicate, and each satisfying element keeps its multiplicity |
| Seqs.FilterAll | client/src/pages/Dashboard.tsx:44-48 | a predicate true for every element filters nothing out |
| Json.Get | server/openai.ts:47-50 | `v.key` throws exactly on `null`, and yields the field exactly when `v` is an object that has it |
| Json.OrElse | server/openai.ts:47-48 | `p \|\| fallback` yields the property when it is truthy, else the fallback |
| Json.StringArray | server/routes.ts:101 | a string list becomes an all-string JSON array that reads back as the same list |
| JsMap.RemoveKey | server/storage.ts:87 | `Map.delete` drops the key from the insertion order, keeps the other keys in order, and keeps them distinct |
| JsMap.JsMap.Set | server/storage.ts:43 | `Map.set` updates the entry; the key keeps its place when present and is appended when new |
| JsMap.JsMap.Delete | server/storage.ts:87 | `Map.delete` removes the entry and its key and changes nothing when the key is absent |
| JsMap.JsMap.Values | server/storage.ts:35 | `Array.from(map.values())` lists each entry once, in insertion order |
| JsMap.Empty | server/storage.ts:26-27 | `new Map()` is a valid map with no entries |
| Schema.RequiredText | shared/schema.ts:14-15 | `title` and `content` must be present strings; null and other types are rejected |
| Schema.AsTextArray | shared/schema.ts:16 | `tags` accepts exactly an array of strings |
| Schema.NullableField | shared/schema.ts:16-18 | optional nullable columns: absent is omitted, `null` is kept as null, and any other value must decode |
| Schema.ValidateInsertNote | shared/schema.ts:28-32 | `insertNoteSchema.parse` accepts only objects with string `title` and `content`; the validated payload carries those strings |
| Schema.ValidateNotePatch | server/routes.ts:48 | `insertNoteSchema.partial().parse` accepts exactly an object whose `title` and `content` are absent or strings and whose `tags`, `isVoiceGenerated` and `originalTranscript` are absent, null or of the column type (so `{"tags": 5}` is rejected); every accepted field is carried into the patch, and an absent one is left unset |
| Schema.InsertRoundTrip | shared/schema.ts:28-32 | every insert payload survives encoding and validation unchanged |
| Schema.ValidationLosesOnlyUnknownKeys | shared/schema.ts:28-32 | validation drops exactly the keys the schema does not know |
| Schema.ServerFieldsIgnored | shared/schema.ts:28-32 | `id`, `createdAt`, `updatedAt` or any other unknown key in a body does not affect validation |
| Schema.InsertIsPatch | server/routes.ts:34-48 | a valid insert body is also a valid partial body with the same fields |
| Schema.EmptyObjectIsEmptyPatch | server/routes.ts:48 | `{}` is a valid partial body that sets nothing |
| Storage.NewNote | server/storage.ts:57-68 | title and content are copied; missing tags become `[]`; falsy `isVoiceGenerated` becomes false; falsy `originalTranscript` (including `""`) becomes null; both timestamps are `now` |
| Storage.ApplyPatch | server/storage.ts:77-81 | the supplied fields overwrite (null clears), the others are kept; `id` and `createdAt` are kept; `updatedAt` is `now` |
| Storage.EmptyPatchOnlyTouches | server/storage.ts:77-81 | an empty update changes only `updatedAt` |
| Storage.PatchIdempotent | server/storage.ts:77-81 | applying the same update twice equals applying it once at the later time |
| Storage.InsertByRecency | server/storage.ts:48-50 | inserting into a recency-sorted list keeps it sorted and adds exactly that note |
| Storage.SortByRecency | server/storage.ts:48-50 | the sort by `updatedAt` descending returns a sorted permutation |
| Storage.FindByUsername | server/storage.ts:35-37 | `find` returns the first user with the name, or none when no user has it |
| Storage.MemStorage.constructor | server/storage.ts:25-28 | both maps start empty |
| Storage.MemStorage.GetUser | server/storage.ts:30-32 | the user stored under the id, when there is one |
| Storage.MemStorage.GetUserByUsername | server/storage.ts:34-38 | a user with that name if one exists; it is the earliest inserted such user; none exactly when no user has the name |
| Storage.MemStorage.CreateUser | server/storage.ts:40-45 | stores `{...insertUser, id}` under a fresh id, with no check for an existing username |
| Storage.MemStorage.GetNotes | server/storage.ts:47-51 | a permutation of all stored notes, sorted by `updatedAt` non-increasing |
| Storage.MemStorage.GetNote | server/storage.ts:53-55 | the note stored under the id, when there is one |
| Storage.MemStorage.CreateNote | server/storage.ts:57-71 | inserts `NewNote` under a fresh id and returns exactly the stored record; no other note changes |
| Storage.MemStorage.UpdateNote | server/storage.ts:73-84 | an absent id returns not-found and leaves the table unchanged; a present id stores and returns the merged note, and no other note changes |
| Storage.MemStorage.DeleteNote | server/storage.ts:86-88 | returns whether the id was present; afterwards the id is absent |
| Storage.MemStorage.SearchNotes | server/storage.ts:90-100 | exactly the stored notes whose lower-cased title, content or some tag contains the lower-cased query, sorted by recency; null tags never match |
| Storage.EmptySearchListsAll | server/storage.ts:90-100 | an empty query returns the same list as `getNotes` |
| Storage.DeleteTwice | server/storage.ts:86-88 | after a delete the note is gone, and a second delete reports false |
| Storage.DuplicateUsernames | server/storage.ts:34-45 | two users with one username are both stored, and the lookup returns the one created first |
| OpenAi.ParsedReply | server/openai.ts:44 | null or empty content parses as `{}`; call and parse failures give no value |
| OpenAi.Prompt | server/openai.ts:24-36 | the prompt contains the input verbatim at a fixed offset |
| OpenAi.TranscriptionPrompt | server/openai.ts:26 | the transcription prompt contains the transcription |
| OpenAi.StudyPrompt | server/openai.ts:76 | the study prompt contains the note content |
| OpenAi.ArrayOrEmpty | server/openai.ts:49-50 | `Array.isArray(x) ? x : []` keeps arrays and gives `[]` otherwise |
| OpenAi.DecodeTranscriptionAsWritten | server/openai.ts:46-51 | as written: a null reply fails with the fixed message; a truthy title or content is returned unchanged whatever its JSON type, and a falsy one gives "Voice Notes" or the transcription; an array `tags` or `keyPoints` is returned unchanged whatever its elements, and anything else gives `[]` |
| OpenAi.AsWrittenKeepsNumberTitle | server/openai.ts:47 | as written, `{"title": 5}` yields the number 5 as the title |
| OpenAi.AsWrittenKeepsNumberTags | server/openai.ts:49 | as written, a tag array holding a number passes through unchanged |
| OpenAi.AsWrittenTypedIff | server/openai.ts:46-51 | the as-written result has its declared string types exactly when the reply's fields have them |
| OpenAi.TextOr | server/openai.ts:47-48 | a non-empty string field is used, anything else gives the default |
| OpenAi.StringsOrEmpty | server/openai.ts:49-50 | an all-string array is used unchanged, anything else gives `[]` |
| OpenAi.DecodeTranscription | server/openai.ts:46-51 | corrected decoder: a null reply fails; a non-empty string title or content is kept, and anything else (falsy, or truthy but not a string) gives "Voice Notes" or the transcription, so the title is never empty; an all-string `tags` or `keyPoints` array is kept element for element, and anything else (a mixed array or a non-array) gives `[]` |
| OpenAi.Raw | server/openai.ts:13-18 | the declared result type, viewed as JSON values, is all strings |
| OpenAi.CorrectedAgreesWhenWellTyped | server/openai.ts:46-51 | on every reply whose fields have the declared types, the corrected decoder and the code as written return the same result |
| OpenAi.ProcessTranscriptionToNotes | server/openai.ts:13-56 | without a client it fails with "not initialized"; otherwise every failure carries the single fixed message; an empty reply gives every default |
| OpenAi.DecodeStudy | server/openai.ts:106-110 | a falsy or missing summary gives "No summary available", so the summary is always truthy; non-array flashcards or quiz give `[]`; arrays pass through |
| OpenAi.GenerateStudyMaterials | server/openai.ts:59-115 | without a client it fails with "not initialized"; otherwise every failure carries the single fixed message; an empty reply gives every default |
| Routes.ListNotes | server/routes.ts:9-17 | 200 with every note, sorted by recency |
| Routes.ShowNote | server/routes.ts:19-30 | 404 exactly for an unknown id, else 200 with the stored note |
| Routes.SearchRoute | server/routes.ts:76-84 | 200 with exactly the matching stored notes, each as often as it is stored, sorted by recency |
| Routes.CreateNoteRoute | server/routes.ts:32-44 | an invalid body gives 400 and leaves the store untouched; a valid one gives 201 with the created note, which the GET route then finds |
| Routes.UpdateNoteRoute | server/routes.ts:46-61 | an invalid body gives 400 and leaves the store untouched; an unknown id gives 404 with nothing changed; otherwise 200 with the merged note |
| Routes.DeleteNoteRoute | server/routes.ts:63-74 | 204 with no body when the note existed, else 404; afterwards the GET route gives 404 |
| Routes.RawVoiceNote | server/routes.ts:109-115 | the fallback note: "Voice Notes", the transcription as content, tags `["voice"]`, voice-generated, and the transcript kept |
| Routes.PlanVoiceNote | server/routes.ts:94-128 | without a key, and when the AI fails: the fallback note with `keyPoints` `[]`; on AI success: the AI title, content, tags and key points; in every tier voice-generated with the transcript kept |
| Routes.VoiceNoteKeepsTranscript | server/routes.ts:102-125 | in every tier the stored note has `isVoiceGenerated` true, `originalTranscript` equal to the input, and a non-empty title and content |
| Routes.TranscriptionOf | server/routes.ts:89-92 | only a non-empty string `transcription` is accepted |
| Routes.ProcessVoice | server/routes.ts:87-133 | a missing, empty or non-string transcription gives 400 and creates nothing; otherwise exactly one note is created under the fresh id and 201 returns it with the key points |
| Routes.StudyGenerate | server/routes.ts:136-153 | the content check (400) comes before the key check (503); a failed generation gives 500; 200 exactly when both checks pass and generation succeeds; the store is never read or written |
| Quiz.Score | client/src/components/QuizInterface.tsx:49-51 | the score counts answers equal to the correct answer, so it is at most the number of answers |
| Quiz.FullScoreIff | client/src/components/QuizInterface.tsx:78-80 | full marks exactly when every answer is correct |
| Quiz.ZeroScoreIff | client/src/components/QuizInterface.tsx:78-80 | a zero score exactly when no answer is correct |
| Quiz.ScoreUpdate | client/src/components/QuizInterface.tsx:34-35 | rewriting one answer moves the score by that answer's point alone |
| Quiz.Record | client/src/components/QuizInterface.tsx:34-35 | writing `newAnswers[currentQuestion]` sets that slot and keeps every other answer |
| Quiz.QuizInterface.constructor | client/src/components/QuizInterface.tsx:22-25 | question 0, no answers, results hidden, no selection |
| Quiz.QuizInterface.HandleAnswerSelect | client/src/components/QuizInterface.tsx:27-30 | the selected option is the index in decimal, and it parses back to the same index |
| Quiz.QuizInterface.CurrentScore | client/src/components/QuizInterface.tsx:77-80 | the results score is at most the number of questions |
| Quiz.QuizInterface.HandleNext | client/src/components/QuizInterface.tsx:32-46 | without a selection nothing changes; otherwise the answer is recorded at the current question; the quiz advances before the last question and finishes on it with one answer per question; the invariant holds throughout |
| Quiz.QuizInterface.FinishQuiz | client/src/components/QuizInterface.tsx:48-56 | shows the results and reports the score with the answers |
| Quiz.QuizInterface.ResetQuiz | client/src/components/QuizInterface.tsx:58-64 | restores the initial state |
| Quiz.SelectThenNext | client/src/components/QuizInterface.tsx:27-46 | selecting option k and pressing Next records k for the question that was current |
| Flashcards.CurrentCard | client/src/components/Flashcard.tsx:30 | a card exactly when the index is in range |
| Flashcards.Display | client/src/components/Flashcard.tsx:58-97 | an out-of-range index (including empty `cards`) gives the empty state; otherwise the answer when flipped and the question when not |
| Flashcards.Flashcard.constructor | client/src/components/Flashcard.tsx:27-28 | question side shown, no animation |
| Flashcards.Flashcard.HandleFlip | client/src/components/Flashcard.tsx:32-34 | starts the animation and arms a timer for the opposite of the face shown now |
| Flashcards.Flashcard.CompleteFlip | client/src/components/Flashcard.tsx:34-39 | the timer sets the captured face, stops the animation and reports the face |
| Flashcards.Flashcard.HandleNext | client/src/components/Flashcard.tsx:42-48 | requests an advance and shows the question exactly when not on the last card, which is exactly when Next is enabled |
| Flashcards.Flashcard.HandlePrevious | client/src/components/Flashcard.tsx:50-56 | requests a step back and shows the question exactly when not on the first card, which is exactly when Previous is enabled |
| Flashcards.FlipOnce | client/src/components/Flashcard.tsx:32-39 | a completed flip shows and reports the other face |
| Flashcards.FlipTwice | client/src/components/Flashcard.tsx:32-39 | two completed flips restore the original face |
| Flashcards.DoubleClickFlipsOnce | client/src/components/Flashcard.tsx:32-39 | two clicks before the timer fires turn the card over only once |
| VoiceRecorder.SplitLengths | client/src/components/VoiceRecorder.tsx:44-51 | the lengths of the final and interim strings add up to the length of all the results' text |
| VoiceRecorder.AllFinal | client/src/components/VoiceRecorder.tsx:44-51 | all-final results give all text as final and no interim text |
| VoiceRecorder.NoneFinal | client/src/components/VoiceRecorder.tsx:44-51 | results with none final give no final text and all text as interim |
| VoiceRecorder.RecognitionError | client/src/components/VoiceRecorder.tsx:66 | the error message is the fixed prefix followed by the error code |
| VoiceRecorder.Recorder.constructor | client/src/components/VoiceRecorder.tsx:18-23 | not recording, empty texts, no error |
| VoiceRecorder.Recorder.OnResult | client/src/components/VoiceRecorder.tsx:40-62 | appends the final results from `resultIndex` on, in order, and reports the full transcript when some text was added; the interim text becomes the non-final results; the transcript only grows |
| VoiceRecorder.Recorder.OnError | client/src/components/VoiceRecorder.tsx:64-68 | sets the error message and stops recording |
| VoiceRecorder.Recorder.OnEnd | client/src/components/VoiceRecorder.tsx:70-73 | stops recording and clears the interim text |
| VoiceRecorder.Recorder.StartRecording | client/src/components/VoiceRecorder.tsx:85-120 | does nothing when disabled or unsupported; otherwise clears the transcript, interim text and error, then records or reports the microphone failure |
| VoiceRecorder.Recorder.StopRecording | client/src/components/VoiceRecorder.tsx:122-155 | does nothing unless recording; otherwise reports transcript plus interim text exactly when it is non-empty, then ends with processing off and the interim text cleared |
| VoiceRecorder.Recorder.ClearTranscript | client/src/components/VoiceRecorder.tsx:157-162 | transcript, interim text and error are reset |
| VoiceRecorder.RecordOneEvent | client/src/components/VoiceRecorder.tsx:40-155 | a recording with one result event completes with that event's final text followed by its interim text, when non-empty |
| NoteCard.ContentPreview | client/src/components/NoteCard.tsx:35-37 | `length` and `substring` count UTF-16 code units: content of at most 120 units is shown unchanged and decodes back to the content; longer content shows its first 120 units (possibly half a surrogate pair) and "...", 123 units in all |
| NoteCard.PreviewUnits | client/src/components/NoteCard.tsx:35-37 | the preview rule on code units: at most 120 units unchanged, otherwise the first 120 units and "..." |
| NoteCard.PreviewStartsWithContent | client/src/components/NoteCard.tsx:36 | the preview starts with the content's code units, up to the limit |
| NoteCard.PreviewIdempotent | client/src/components/NoteCard.tsx:36 | applying the preview rule to a preview changes nothing |
| NoteCard.VisibleTags | client/src/components/NoteCard.tsx:97 | at most the first three tags, in order |
| NoteCard.OverflowCount | client/src/components/NoteCard.tsx:102-106 | the badge shows exactly when there are more than three tags |
| NoteCard.TagsAccounted | client/src/components/NoteCard.tsx:94-106 | shown tags plus the badge count equal the tag count; no tag row for no tags |
| Dashboard.FilterNotes | client/src/pages/Dashboard.tsx:44-48 | the order-preserving subsequence of exactly the notes whose lower-cased title, content or some tag contains the lower-cased query |
| Dashboard.EmptyQueryKeepsAll | client/src/pages/Dashboard.tsx:44-48 | an empty query keeps every note |
| Dashboard.FindNote | client/src/pages/Dashboard.tsx:61 | the first note with the id, or none when no note has it |
| Dashboard.SelectedNote | client/src/pages/Dashboard.tsx:50 | no note when no id (or an empty id) is selected, else the first note with that id |
| Dashboard.EmptyListMessage | client/src/pages/Dashboard.tsx:110-116 | the message depends only on whether the query is non-empty |
| Dashboard.DashboardPage.constructor | client/src/pages/Dashboard.tsx:12-14 | nothing selected, empty query and editor |
| Dashboard.DashboardPage.FilteredNotes | client/src/pages/Dashboard.tsx:44-48 | the rendered list is the notes matching the current query, in list order, each as often as it occurs in the notes |
| Dashboard.DashboardPage.Selected | client/src/pages/Dashboard.tsx:50 | no note when no id or an empty id is selected; otherwise the first note with the selected id, or none when no note has it |
| Dashboard.DashboardPage.HandleCreateNote | client/src/pages/Dashboard.tsx:52-56 | clears the selection and the editor content |
| Dashboard.DashboardPage.HandleNoteSelect | client/src/pages/Dashboard.tsx:58-65 | selects the id; a known id loads that note's content into the editor, an unknown one leaves it unchanged |
| Dashboard.DashboardPage.HandleNoteContentChange | client/src/pages/Dashboard.tsx:67-70 | the editor content becomes the new text |
| Dashboard.DashboardPage.HandleSearchChange | client/src/pages/Dashboard.tsx:100 | the query becomes the typed text |
| StudyTools.Name | client/src/components/StudyTools.tsx:56-114 | the three tools are named "summary", "flashcards" and "quiz" |
| StudyTools.ShortContentInsufficient | client/src/components/StudyTools.tsx:31 | content of 50 code units or fewer is never enough |
| StudyTools.WhitespaceInsufficient | client/src/components/StudyTools.tsx:31 | whitespace-only content is never enough |
| StudyTools.SolidContentSufficient | client/src/components/StudyTools.tsx:31 | over 50 code units without whitespace is enough, so 26 characters outside the Basic Multilingual Plane already suffice |
| StudyTools.HintIffAllDisabled | client/src/components/StudyTools.tsx:57-131 | the hint shows exactly when every button is disabled, whatever is generating |
| StudyTools.Panel.constructor | client/src/components/StudyTools.tsx:20 | nothing generating |
| StudyTools.Panel.BeginToolClick | client/src/components/StudyTools.tsx:22-24 | the clicked tool becomes the generating one, so its button is disabled and the others are enabled |
| StudyTools.Panel.FinishToolClick | client/src/components/StudyTools.tsx:26-28 | the flag clears before that click's callback runs |
| StudyTools.ClickTool | client/src/components/StudyTools.tsx:22-29 | a full click ends with nothing generating and the clicked tool's callback |

## Findings

| source | as written | input that shows it | evidently intended | confidence | as-written member | corrected member |
|---|---|---|---|---|---|---|
| server/openai.ts:47-50 | Any truthy `title` or `content` and any array for `tags` or `keyPoints` is returned under the declared `string` and `string[]` types. The voice route then stores it unvalidated (server/routes.ts:98-104). | The AI reply `{"title": 5}` gives the title `5`, a number. `{"tags": [1]}` gives a tag list holding a number. | A field is used only when it has the declared type; otherwise it takes its default. | medium; not executed | OpenAi.DecodeTranscriptionAsWritten, OpenAi.AsWrittenKeepsNumberTitle, OpenAi.AsWrittenKeepsNumberTags | OpenAi.DecodeTranscription, OpenAi.CorrectedAgreesWhenWellTyped |

The voice route in this model (`Routes.PlanVoiceNote`) uses the corrected
decoder. `OpenAi.AsWrittenTypedIff` shows that the two decoders differ only
on replies whose fields have the wrong types.

## Left out

- OpenAi.ProcessTranscriptionToNotes: it decodes the reply with the corrected decoder `OpenAi.DecodeTranscription`, not with the code as written. For a reply like `{"title": 5}` the model gives "Voice Notes" where the code returns the number 5 (see Findings).
- Routes.PlanVoiceNote: its AI tier stores the corrected decoding, not the raw reply fields that server/routes.ts:98-104 stores. A wrongly typed title, content or tag therefore never reaches the store in the model, so the later `toLowerCase` failure in `searchNotes` is not modelled.
- HTTP plumbing is not modelled. This covers Express routing, `res.json`/`res.status` mechanics, URL decoding of `:id` and `:query`, `createServer` and console logging. A response is a status code and a body value.
- The catch-all 500 branches of the CRUD routes are not modelled. The in-memory store never throws, and an invalid body is always a ZodError (400). The 500 branches of the voice route (`null` body) and the study route are modelled.
- The OpenAI client, the model name and `JSON.parse` are left out. The completion is an oracle on the prompt, and its outcome is a `Reply` that is already parsed.
- OpenAi.TranscriptionPrompt: the fixed instruction text after the embedded input is abbreviated, because only the verbatim quoting of the input is behaviour.
- OpenAi.StudyPrompt: the fixed instruction text after the embedded input is abbreviated, for the same reason.
- OpenAi.DecodeStudy: the summary, flashcards and quiz stay JSON values. The route only forwards them, so their inner types (the same hole as in the Findings) are not checked.
- Storage.MemStorage.CreateNote: the fresh id is a precondition, because the uniqueness of `randomUUID` cannot be proved. The same holds for `CreateUser` and for the routes that create notes.
- Storage.MemStorage.CreateNote: timestamps are integers, and `now` is assumed not to run behind earlier instants. The same holds for `UpdateNote`.
- Storage.SortByRecency: it is a stable insertion sort like the JavaScript one, but its contract states only order and permutation, not stability.
- Text.Lower: only ASCII letters are lower-cased, not full Unicode `toLowerCase`.
- Text.Trim: whitespace is a fixed set of ten characters, not the full Unicode set.
- A Dafny `string` is a sequence of Unicode scalar values, so a JavaScript string holding a lone surrogate cannot be a `string` here. The note preview is therefore a sequence of UTF-16 code units (`Text.Utf16`). `length` in NoteCard.tsx and StudyTools.tsx is counted in code units; everywhere else the model only compares, joins or searches strings, where characters and code units give the same answer.
- `getUser` and the user map are modelled. The database's unique constraint on `username` is not enforced, because the store does not enforce it either.
- The quiz percentage `Math.round(score / length * 100)` is left out, because it is floating point. Only the integer score is modelled.
- Quiz.QuizInterface.HandleAnswerSelect: it takes the option index rather than an arbitrary string, because the radio group only ever passes `index.toString()`.
- Quiz.QuizInterface.HandleNext: it requires at least one question, because with none the component renders only a message and offers no Next button.
- Date formatting with `Intl.DateTimeFormat` is left out, in NoteCard.tsx and Dashboard.tsx.
- Hover state, icons and layout are left out.
- Browser speech and media APIs are left out. This covers `SpeechRecognition` start/stop/abort, `getUserMedia`, `MediaRecorder` and the audio chunks it collects. Only the first alternative of each speech result is modelled.
- VoiceRecorder.Recorder.StopRecording: the catch branch ("Failed to stop recording") is left out, because it fires only when a browser API throws.
- Timers and promises are not modelled as such. The flip delay and the study-tool delay are two separate steps, and every other handler is one atomic step, as React runs it.
- RichTextEditor.tsx, AppSidebar.tsx, StudyMode.tsx and the files under components/examples are not part of this model.
