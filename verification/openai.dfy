/**
 * The AI helpers of server/openai.ts: a "not initialized" guard, a prompt
 * that embeds the input, one chat completion (an oracle here), and the
 * field-by-field defaulting of the parsed reply.
 *
 * The completion is given as a `Reply`; which one the service returns is
 * not modelled. The module-level client exists exactly when an API key was
 * configured at load time, which is the `configured` flag.
 */
module OpenAi {
  import opened Wrappers
  import opened Text
  import opened Json

  const NotInitialized := "OpenAI not initialized - API key not available"
  const TranscriptionFailed := "Failed to process transcription with AI"
  const StudyFailed := "Failed to generate study materials"
  const DefaultTitle := "Voice Notes"
  const DefaultSummary := "No summary available"

  /** What one chat completion yields, after `JSON.parse`. */
  datatype Reply =
    | CallFailed            // the request threw (network, quota, ...)
    | NoContent             // message content null or "": parsed as `{}`
    | NotJson               // `JSON.parse` threw
    | Parsed(value: Json)   // the parsed message content

  /** A promise that resolved with a value or rejected with an error message. */
  datatype Outcome<T> = Done(value: T) | Failed(message: string)

  /** The object `JSON.parse(content || '{}')` produces, or None when it throws. */
  function ParsedReply(reply: Reply): (r: Option<Json>)
    ensures reply.NoContent? ==> r == Some(JObj(map[]))
    ensures reply.Parsed? ==> r == Some(reply.value)
    ensures r.None? <==> reply.CallFailed? || reply.NotJson?
  {
    match reply
    case NoContent => Some(JObj(map[]))
    case Parsed(v) => Some(v)
    case _ => None
  }

  // -------------------------------------------------------------- prompts

  const TranscriptionHead := "Please process the following voice transcription into well-structured lecture/meeting notes. \n\nTranscription: \""
  const TranscriptionTail := "\"\n\nFormat the output as JSON with a title, content, tags and keyPoints."
  const StudyHead := "Based on the following notes, generate study materials:\n\nNotes: \""
  const StudyTail := "\"\n\nCreate comprehensive study materials in JSON format with a summary, flashcards and a quiz."

  /** The prompt quotes the input verbatim between a fixed head and tail. */
  function Prompt(head: string, input: string, tail: string): (p: string)
    ensures |p| == |head| + |input| + |tail|
    ensures p[|head|..|head| + |input|] == input
    ensures Contains(p, input)
  {
    var p := head + input + tail;
    assert p[|head|..][..|input|] == input;
    ContainsAt(p, input, |head|);
    p
  }

  function TranscriptionPrompt(transcription: string): (p: string)
    ensures Contains(p, transcription)
  {
    Prompt(TranscriptionHead, transcription, TranscriptionTail)
  }

  function StudyPrompt(noteContent: string): (p: string)
    ensures Contains(p, noteContent)
  {
    Prompt(StudyHead, noteContent, StudyTail)
  }

  // ------------------------------------------------ transcription decoding

  /** The declared result of `processTranscriptionToNotes`. */
  datatype Processed = Processed(title: string, content: string, tags: seq<string>, keyPoints: seq<string>)

  /** What the code actually returns: each field is whatever JSON value passed its test. */
  datatype RawProcessed = RawProcessed(title: Json, content: Json, tags: Json, keyPoints: Json)

  /** `Array.isArray(v.key) ? v.key : []`. */
  function ArrayOrEmpty(p: Prop): (r: Json)
    ensures r.JArr?
    ensures p.Defined? && p.value.JArr? ==> r == p.value
    ensures !(p.Defined? && p.value.JArr?) ==> r == JArr([])
  {
    if p.Defined? && p.value.JArr? then p.value else JArr([])
  }

  /**
   * The defaulting block as written. Reading a field of a `null` reply
   * throws, and the catch turns that into the fixed failure message. A
   * truthy field passes through whatever its JSON type.
   */
  function DecodeTranscriptionAsWritten(v: Json, transcription: string): (r: Outcome<RawProcessed>)
    ensures r.Failed? <==> v == JNull
    ensures r.Failed? ==> r.message == TranscriptionFailed
    ensures r.Done? ==> Truthy(r.value.title) && r.value.tags.JArr? && r.value.keyPoints.JArr?
    ensures r.Done? && !TruthyProp(Get(v, "title")) ==> r.value.title == JStr(DefaultTitle)
    ensures r.Done? && !TruthyProp(Get(v, "content")) ==> r.value.content == JStr(transcription)
    ensures r.Done? && TruthyProp(Get(v, "title")) ==> r.value.title == Get(v, "title").value
    ensures r.Done? && TruthyProp(Get(v, "content")) ==> r.value.content == Get(v, "content").value
    ensures r.Done? && Get(v, "tags").Defined? && Get(v, "tags").value.JArr? ==>
      r.value.tags == Get(v, "tags").value
    ensures r.Done? && Get(v, "keyPoints").Defined? && Get(v, "keyPoints").value.JArr? ==>
      r.value.keyPoints == Get(v, "keyPoints").value
    ensures r.Done? && !(Get(v, "tags").Defined? && Get(v, "tags").value.JArr?) ==> r.value.tags == JArr([])
    ensures r.Done? && !(Get(v, "keyPoints").Defined? && Get(v, "keyPoints").value.JArr?) ==>
      r.value.keyPoints == JArr([])
  {
    if v == JNull then Failed(TranscriptionFailed)
    else Done(RawProcessed(
      OrElse(Get(v, "title"), JStr(DefaultTitle)),
      OrElse(Get(v, "content"), JStr(transcription)),
      ArrayOrEmpty(Get(v, "tags")),
      ArrayOrEmpty(Get(v, "keyPoints"))))
  }

  /** A truthy title that is not a string is returned as the note's title. */
  lemma AsWrittenKeepsNumberTitle()
    ensures DecodeTranscriptionAsWritten(JObj(map["title" := JNum(5.0)]), "hello") ==
            Done(RawProcessed(JNum(5.0), JStr("hello"), JArr([]), JArr([])))
  {
    assert Get(JObj(map["title" := JNum(5.0)]), "content") == Undefined;
  }

  /** Non-string tag elements pass through as well. */
  lemma AsWrittenKeepsNumberTags()
    ensures var r := DecodeTranscriptionAsWritten(JObj(map["tags" := JArr([JNum(1.0)])]), "hello");
            r.Done? && r.value.tags == JArr([JNum(1.0)]) && !AllStrings(r.value.tags.items)
  {
    var v := JObj(map["tags" := JArr([JNum(1.0)])]);
    assert Get(v, "tags") == Defined(JArr([JNum(1.0)]));
    assert !JArr([JNum(1.0)]).items[0].JStr?;
  }

  /** `typeof v.key === 'string' && v.key ? v.key : fallback`. */
  function TextOr(p: Prop, fallback: string): (r: string)
    ensures IsNonEmptyString(p) ==> JStr(r) == p.value && r != ""
    ensures !IsNonEmptyString(p) ==> r == fallback
  {
    if IsNonEmptyString(p) then p.value.s else fallback
  }

  /** An array of strings, or `[]` for anything else (including a mixed array). */
  function StringsOrEmpty(p: Prop): (r: seq<string>)
    ensures p.Defined? && p.value.JArr? && AllStrings(p.value.items) ==> StringArray(r) == p.value.items
    ensures !(p.Defined? && p.value.JArr? && AllStrings(p.value.items)) ==> r == []
  {
    if p.Defined? && p.value.JArr? && AllStrings(p.value.items) then
      var r := Strings(p.value.items);
      assert StringArray(r) == p.value.items;
      r
    else []
  }

  /**
   * The decoding the declared result type asks for: a field is used only
   * when it has the declared type, and falls back to its default otherwise.
   */
  function DecodeTranscription(v: Json, transcription: string): (r: Outcome<Processed>)
    ensures r.Failed? <==> v == JNull
    ensures r.Failed? ==> r.message == TranscriptionFailed
    ensures r.Done? ==> r.value.title != ""
    ensures r.Done? && IsNonEmptyString(Get(v, "title")) ==> JStr(r.value.title) == Get(v, "title").value
    ensures r.Done? && !TruthyProp(Get(v, "title")) ==> r.value.title == DefaultTitle
    ensures r.Done? && IsNonEmptyString(Get(v, "content")) ==> JStr(r.value.content) == Get(v, "content").value
    ensures r.Done? && !TruthyProp(Get(v, "content")) ==> r.value.content == transcription
    ensures r.Done? && !IsNonEmptyString(Get(v, "title")) ==> r.value.title == DefaultTitle
    ensures r.Done? && !IsNonEmptyString(Get(v, "content")) ==> r.value.content == transcription
    ensures r.Done? && Get(v, "tags").Defined? && Get(v, "tags").value.JArr? && AllStrings(Get(v, "tags").value.items) ==>
      StringArray(r.value.tags) == Get(v, "tags").value.items
    ensures r.Done? && !(Get(v, "tags").Defined? && Get(v, "tags").value.JArr? && AllStrings(Get(v, "tags").value.items)) ==>
      r.value.tags == []
    ensures var kp := Get(v, "keyPoints");
      r.Done? && kp.Defined? && kp.value.JArr? && AllStrings(kp.value.items) ==> StringArray(r.value.keyPoints) == kp.value.items
    ensures var kp := Get(v, "keyPoints");
      r.Done? && !(kp.Defined? && kp.value.JArr? && AllStrings(kp.value.items)) ==> r.value.keyPoints == []
  {
    if v == JNull then Failed(TranscriptionFailed)
    else Done(Processed(
      TextOr(Get(v, "title"), DefaultTitle),
      TextOr(Get(v, "content"), transcription),
      StringsOrEmpty(Get(v, "tags")),
      StringsOrEmpty(Get(v, "keyPoints"))))
  }

  /** A declared-type result as the JSON values the code passes around. */
  function Raw(p: Processed): (r: RawProcessed)
    ensures r.title.JStr? && r.content.JStr? && r.tags.JArr? && r.keyPoints.JArr?
    ensures AllStrings(r.tags.items) && Strings(r.tags.items) == p.tags
    ensures AllStrings(r.keyPoints.items) && Strings(r.keyPoints.items) == p.keyPoints
  {
    RawProcessed(JStr(p.title), JStr(p.content), JArr(StringArray(p.tags)), JArr(StringArray(p.keyPoints)))
  }

  /** Every field of a raw result has its declared type. */
  predicate RawTyped(r: RawProcessed)
  {
    r.title.JStr? && r.content.JStr? && r.tags.JArr? && r.keyPoints.JArr? &&
    AllStrings(r.tags.items) && AllStrings(r.keyPoints.items)
  }

  /** A truthy text field is a string. */
  predicate TextOrFalsy(p: Prop)
  {
    TruthyProp(p) ==> p.value.JStr?
  }

  /** An array field holds only strings. */
  predicate StringsOrNotArray(p: Prop)
  {
    p.Defined? && p.value.JArr? ==> AllStrings(p.value.items)
  }

  /** A reply whose fields all have the types the prompt asks for. */
  predicate WellTyped(v: Json)
  {
    TextOrFalsy(Get(v, "title")) && TextOrFalsy(Get(v, "content")) &&
    StringsOrNotArray(Get(v, "tags")) && StringsOrNotArray(Get(v, "keyPoints"))
  }

  /** The as-written decoder returns its declared types exactly on well-typed replies. */
  lemma AsWrittenTypedIff(v: Json, transcription: string)
    requires v != JNull
    ensures RawTyped(DecodeTranscriptionAsWritten(v, transcription).value) <==> WellTyped(v)
  {
  }

  /** On a well-typed reply the corrected decoder and the code as written agree. */
  lemma CorrectedAgreesWhenWellTyped(v: Json, transcription: string)
    requires WellTyped(v)
    ensures v != JNull ==>
      DecodeTranscriptionAsWritten(v, transcription) == Done(Raw(DecodeTranscription(v, transcription).value))
    ensures v == JNull ==> DecodeTranscriptionAsWritten(v, transcription) == Failed(TranscriptionFailed)
  {
    if v != JNull {
      var raw := DecodeTranscriptionAsWritten(v, transcription).value;
      var p := DecodeTranscription(v, transcription).value;
      assert raw.tags == JArr(StringArray(p.tags));
      assert raw.keyPoints == JArr(StringArray(p.keyPoints));
    }
  }

  /**
   * `processTranscriptionToNotes(transcription)`: the guard, one completion
   * for the prompt, and the decoding; any failure past the guard becomes
   * the single fixed message.
   */
  function ProcessTranscriptionToNotes(configured: bool, transcription: string, ask: string -> Reply): (r: Outcome<Processed>)
    ensures !configured ==> r == Failed(NotInitialized)
    ensures configured && r.Failed? ==> r.message == TranscriptionFailed
    ensures configured ==>
      (r.Failed? <==> ParsedReply(ask(TranscriptionPrompt(transcription))) in {None, Some(JNull)})
    ensures configured && ask(TranscriptionPrompt(transcription)).NoContent? ==>
      r == Done(Processed(DefaultTitle, transcription, [], []))
    ensures configured && ask(TranscriptionPrompt(transcription)).Parsed? ==>
      r == DecodeTranscription(ask(TranscriptionPrompt(transcription)).value, transcription)
  {
    if !configured then Failed(NotInitialized)
    else
      match ParsedReply(ask(TranscriptionPrompt(transcription)))
      case None => Failed(TranscriptionFailed)
      case Some(v) => DecodeTranscription(v, transcription)
  }

  // ------------------------------------------------------- study materials

  /**
   * The result of `generateStudyMaterials`. The route only forwards it, so
   * the summary and the card and question lists stay JSON values.
   */
  datatype StudyMaterials = StudyMaterials(summary: Json, flashcards: seq<Json>, quiz: seq<Json>)

  function DecodeStudy(v: Json): (r: Outcome<StudyMaterials>)
    ensures r.Failed? <==> v == JNull
    ensures r.Failed? ==> r.message == StudyFailed
    ensures r.Done? ==> Truthy(r.value.summary)
    ensures r.Done? && !TruthyProp(Get(v, "summary")) ==> r.value.summary == JStr(DefaultSummary)
    ensures r.Done? && TruthyProp(Get(v, "summary")) ==> r.value.summary == Get(v, "summary").value
    ensures r.Done? && !(Get(v, "flashcards").Defined? && Get(v, "flashcards").value.JArr?) ==> r.value.flashcards == []
    ensures r.Done? && Get(v, "flashcards").Defined? && Get(v, "flashcards").value.JArr? ==>
      r.value.flashcards == Get(v, "flashcards").value.items
    ensures r.Done? && !(Get(v, "quiz").Defined? && Get(v, "quiz").value.JArr?) ==> r.value.quiz == []
    ensures r.Done? && Get(v, "quiz").Defined? && Get(v, "quiz").value.JArr? ==>
      r.value.quiz == Get(v, "quiz").value.items
  {
    if v == JNull then Failed(StudyFailed)
    else Done(StudyMaterials(
      OrElse(Get(v, "summary"), JStr(DefaultSummary)),
      ArrayOrEmpty(Get(v, "flashcards")).items,
      ArrayOrEmpty(Get(v, "quiz")).items))
  }

  /** `generateStudyMaterials(noteContent)`. */
  function GenerateStudyMaterials(configured: bool, noteContent: string, ask: string -> Reply): (r: Outcome<StudyMaterials>)
    ensures !configured ==> r == Failed(NotInitialized)
    ensures configured && r.Failed? ==> r.message == StudyFailed
    ensures configured ==>
      (r.Failed? <==> ParsedReply(ask(StudyPrompt(noteContent))) in {None, Some(JNull)})
    ensures configured && ask(StudyPrompt(noteContent)).NoContent? ==>
      r == Done(StudyMaterials(JStr(DefaultSummary), [], []))
    ensures configured && ask(StudyPrompt(noteContent)).Parsed? ==>
      r == DecodeStudy(ask(StudyPrompt(noteContent)).value)
  {
    if !configured then Failed(NotInitialized)
    else
      match ParsedReply(ask(StudyPrompt(noteContent)))
      case None => Failed(StudyFailed)
      case Some(v) => DecodeStudy(v)
  }
}
