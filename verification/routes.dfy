/**
 * The request handlers of server/routes.ts, reduced to what they decide: the
 * status code and body of each response and the change they make to the
 * store. Express, the HTTP server and logging are not modelled; a request
 * body arrives already parsed as a `Json` value.
 *
 * Each handler that may create a note receives the id and the instant the
 * store would draw (`randomUUID()` and `new Date()`), and each AI-backed
 * handler receives the configured flag and the completion oracle.
 */
module Routes {
  import opened Wrappers
  import opened Json
  import opened Schema
  import opened Storage
  import opened OpenAi

  datatype Body =
    | NoBody
    | NoteBody(note: Note)
    | NotesBody(notes: seq<Note>)
    | VoiceBody(note: Note, keyPoints: seq<string>)
    | StudyBody(materials: StudyMaterials)
    | ErrorBody(error: string)

  datatype Response = Response(status: int, body: Body)

  const NotFound := Response(404, ErrorBody("Note not found"))
  const InvalidNote := Response(400, ErrorBody("Invalid note data"))
  const TranscriptionRequired := Response(400, ErrorBody("Transcription text is required"))
  const VoiceError := Response(500, ErrorBody("Failed to process voice transcription"))
  const ContentRequired := Response(400, ErrorBody("Note content is required"))
  const AiUnavailable := Response(503, ErrorBody("AI features not available - API key not configured"))
  const StudyError := Response(500, ErrorBody("Failed to generate study materials"))

  // ------------------------------------------------------------ notes CRUD

  /** `GET /api/notes`: every note, most recently updated first. */
  function ListNotes(s: MemStorage): (r: Response)
    reads s
    requires s.Valid()
    ensures r.status == 200 && r.body.NotesBody?
    ensures SortedByRecency(r.body.notes)
    ensures multiset(r.body.notes) == multiset(s.notes.Values())
  {
    Response(200, NotesBody(s.GetNotes()))
  }

  /** `GET /api/notes/:id`: the note, or 404. */
  function ShowNote(s: MemStorage, id: string): (r: Response)
    reads s
    requires s.Valid()
    ensures r == NotFound <==> id !in s.notes.entries
    ensures id in s.notes.entries ==> r == Response(200, NoteBody(s.notes.entries[id]))
  {
    match s.GetNote(id)
    case None => NotFound
    case Some(n) => Response(200, NoteBody(n))
  }

  /** `GET /api/notes/search/:query`: exactly the matching notes, most recent first. */
  function SearchRoute(s: MemStorage, query: string): (r: Response)
    reads s
    requires s.Valid()
    ensures r.status == 200 && r.body.NotesBody?
    ensures SortedByRecency(r.body.notes)
    ensures forall id :: id in s.notes.entries ==>
              (s.notes.entries[id] in r.body.notes <==> NoteMatches(s.notes.entries[id], query))
    ensures forall n :: n in r.body.notes ==> n.id in s.notes.entries && s.notes.entries[n.id] == n
    ensures forall n :: multiset(r.body.notes)[n] == if NoteMatches(n, query) then multiset(s.notes.Values())[n] else 0
  {
    Response(200, NotesBody(s.SearchNotes(query)))
  }

  /** `POST /api/notes`: 400 without touching the store, or 201 with the new note. */
  method CreateNoteRoute(s: MemStorage, body: Json, id: string, now: int) returns (r: Response)
    requires s.Valid() && id !in s.notes.entries && now >= s.clock
    modifies s
    ensures s.Valid()
    ensures ValidateInsertNote(body).None? ==>
      r == InvalidNote && s.notes == old(s.notes) && s.users == old(s.users) && s.clock == old(s.clock)
    ensures ValidateInsertNote(body).Some? ==>
      r == Response(201, NoteBody(NewNote(ValidateInsertNote(body).value, id, now))) &&
      s.notes == old(s.notes).Set(id, r.body.note) && s.users == old(s.users)
    ensures ValidateInsertNote(body).Some? ==> ShowNote(s, id) == Response(200, r.body)
  {
    var validated := ValidateInsertNote(body);
    if validated.None? {
      return InvalidNote;
    }
    var note := s.CreateNote(validated.value, id, now);
    r := Response(201, NoteBody(note));
  }

  /** `PUT /api/notes/:id`: 400 without touching the store, 404, or 200 with the merged note. */
  method UpdateNoteRoute(s: MemStorage, id: string, body: Json, now: int) returns (r: Response)
    requires s.Valid() && now >= s.clock
    modifies s
    ensures s.Valid()
    ensures ValidateNotePatch(body).None? ==>
      r == InvalidNote && s.notes == old(s.notes) && s.users == old(s.users) && s.clock == old(s.clock)
    ensures ValidateNotePatch(body).Some? && id !in old(s.notes.entries) ==>
      r == NotFound && s.notes == old(s.notes) && s.users == old(s.users)
    ensures ValidateNotePatch(body).Some? && id in old(s.notes.entries) ==>
      r == Response(200, NoteBody(ApplyPatch(old(s.notes.entries[id]), ValidateNotePatch(body).value, now))) &&
      s.notes == old(s.notes).Set(id, r.body.note) && s.users == old(s.users)
  {
    var validated := ValidateNotePatch(body);
    if validated.None? {
      return InvalidNote;
    }
    var note := s.UpdateNote(id, validated.value, now);
    if note.None? {
      return NotFound;
    }
    r := Response(200, NoteBody(note.value));
  }

  /** `DELETE /api/notes/:id`: 204 with no body when a note was removed, 404 otherwise. */
  method DeleteNoteRoute(s: MemStorage, id: string) returns (r: Response)
    requires s.Valid()
    modifies s
    ensures s.Valid()
    ensures id in old(s.notes.entries) ==> r == Response(204, NoBody)
    ensures id !in old(s.notes.entries) ==> r == NotFound
    ensures s.notes == old(s.notes).Delete(id) && s.users == old(s.users)
    ensures ShowNote(s, id) == NotFound
  {
    var deleted := s.DeleteNote(id);
    if !deleted {
      return NotFound;
    }
    r := Response(204, NoBody);
  }

  // ------------------------------------------------------- voice processing

  /** The note saved when the AI is unavailable or fails: the raw transcription. */
  function RawVoiceNote(transcription: string): (ins: InsertNote)
    ensures ins.title == DefaultTitle && ins.content == transcription && ins.tags == Given(["voice"])
    ensures ins.isVoiceGenerated == Given(true) && ins.originalTranscript == Given(transcription)
  {
    InsertNote(DefaultTitle, transcription, Given(["voice"]), Given(true), Given(transcription))
  }

  /** What the voice handler saves and the key points it returns. */
  datatype VoicePlan = VoicePlan(insert: InsertNote, keyPoints: seq<string>)

  /**
   * The three tiers of `/api/voice/process`: no key, AI failure (the same
   * fallback), AI success. Every tier marks the note voice-generated and
   * keeps the transcript.
   */
  function PlanVoiceNote(configured: bool, transcription: string, ask: string -> Reply): (p: VoicePlan)
    ensures p.insert.isVoiceGenerated == Given(true) && p.insert.originalTranscript == Given(transcription)
    ensures !configured ==> p == VoicePlan(RawVoiceNote(transcription), [])
    ensures configured && ProcessTranscriptionToNotes(true, transcription, ask).Failed? ==>
      p == VoicePlan(RawVoiceNote(transcription), [])
    ensures configured && ProcessTranscriptionToNotes(true, transcription, ask).Done? ==>
      var q := ProcessTranscriptionToNotes(true, transcription, ask).value;
      p.insert.title == q.title && p.insert.content == q.content &&
      p.insert.tags == Given(q.tags) && p.keyPoints == q.keyPoints
  {
    if !configured then VoicePlan(RawVoiceNote(transcription), [])
    else
      match ProcessTranscriptionToNotes(true, transcription, ask)
      case Failed(_) => VoicePlan(RawVoiceNote(transcription), [])
      case Done(q) =>
        VoicePlan(InsertNote(q.title, q.content, Given(q.tags), Given(true), Given(transcription)), q.keyPoints)
  }

  /** In every tier the stored note is a voice note carrying the full transcript under a non-empty title. */
  lemma VoiceNoteKeepsTranscript(configured: bool, transcription: string, ask: string -> Reply, id: string, now: int)
    requires transcription != ""
    ensures var n := NewNote(PlanVoiceNote(configured, transcription, ask).insert, id, now);
            n.isVoiceGenerated == Some(true) && n.originalTranscript == Some(transcription) &&
            n.title != "" && n.content != "" && n.tags.Some?
  {
    var p := PlanVoiceNote(configured, transcription, ask);
    if configured && ProcessTranscriptionToNotes(true, transcription, ask).Done? {
      var q := ProcessTranscriptionToNotes(true, transcription, ask).value;
      var reply := ask(TranscriptionPrompt(transcription));
      assert q == DecodeTranscription(ParsedReply(reply).value, transcription).value;
    }
  }

  /** `const { transcription } = req.body` then the non-empty-string check. */
  function TranscriptionOf(body: Json): (r: Option<string>)
    ensures r.Some? <==> IsNonEmptyString(Get(body, "transcription"))
    ensures r.Some? ==> r.value != "" && Get(body, "transcription") == Defined(JStr(r.value))
  {
    if IsNonEmptyString(Get(body, "transcription")) then Some(Get(body, "transcription").value.s) else None
  }

  /**
   * `POST /api/voice/process`: a `null` body fails the destructuring (500),
   * a missing, empty or non-string transcription is 400; both leave the
   * store alone. Otherwise exactly one note is created, with status 201.
   */
  method ProcessVoice(s: MemStorage, body: Json, configured: bool, ask: string -> Reply, id: string, now: int)
    returns (r: Response)
    requires s.Valid() && id !in s.notes.entries && now >= s.clock
    modifies s
    ensures s.Valid()
    ensures body == JNull ==> r == VoiceError
    ensures body != JNull && TranscriptionOf(body).None? ==> r == TranscriptionRequired
    ensures TranscriptionOf(body).None? ==>
      s.notes == old(s.notes) && s.users == old(s.users) && s.clock == old(s.clock)
    ensures TranscriptionOf(body).Some? ==>
      var plan := PlanVoiceNote(configured, TranscriptionOf(body).value, ask);
      r == Response(201, VoiceBody(NewNote(plan.insert, id, now), plan.keyPoints)) &&
      s.notes == old(s.notes).Set(id, r.body.note) && s.users == old(s.users)
  {
    if body == JNull {
      return VoiceError;
    }
    var transcription := TranscriptionOf(body);
    if transcription.None? {
      return TranscriptionRequired;
    }
    var plan := PlanVoiceNote(configured, transcription.value, ask);
    var note := s.CreateNote(plan.insert, id, now);
    r := Response(201, VoiceBody(note, plan.keyPoints));
  }

  // -------------------------------------------------------- study materials

  /**
   * `POST /api/study/generate`: the content check comes first (400), then
   * the key (503), then the generation (200, or 500 on failure). It reads
   * nothing from the store.
   */
  function StudyGenerate(body: Json, configured: bool, ask: string -> Reply): (r: Response)
    ensures body == JNull ==> r == StudyError
    ensures body != JNull && !IsNonEmptyString(Get(body, "noteContent")) ==> r == ContentRequired
    ensures IsNonEmptyString(Get(body, "noteContent")) && !configured ==> r == AiUnavailable
    ensures r.status == 200 <==>
      IsNonEmptyString(Get(body, "noteContent")) && configured &&
      GenerateStudyMaterials(true, Get(body, "noteContent").value.s, ask).Done?
    ensures r.status == 200 ==>
      r.body == StudyBody(GenerateStudyMaterials(true, Get(body, "noteContent").value.s, ask).value)
    ensures var content := Get(body, "noteContent");
      IsNonEmptyString(content) && configured && GenerateStudyMaterials(true, content.value.s, ask).Failed? ==> r == StudyError
    ensures r.status in {200, 400, 500, 503}
  {
    var field := Get(body, "noteContent");
    if field.NullAccess? then StudyError
    else if !IsNonEmptyString(field) then ContentRequired
    else if !configured then AiUnavailable
    else
      match GenerateStudyMaterials(true, field.value.s, ask)
      case Failed(_) => StudyError
      case Done(m) => Response(200, StudyBody(m))
  }
}
