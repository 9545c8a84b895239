/**
 * The record shapes of shared/schema.ts: the `notes` and `users` tables,
 * the insert payloads derived from them, and the validation that turns a
 * JSON request body into an insert payload (`insertNoteSchema.parse`) or a
 * partial one (`insertNoteSchema.partial().parse`).
 *
 * Column rules: `title` and `content` are required non-null text; `tags`
 * is a nullable text array defaulting to empty; `isVoiceGenerated` a
 * nullable boolean defaulting to false; `originalTranscript` nullable text;
 * `createdAt`/`updatedAt` required timestamps (integers here). Inserts omit
 * `id`, `createdAt` and `updatedAt`; unknown keys are stripped.
 */
module Schema {
  import opened Wrappers
  import opened Json

  /** An optional, nullable payload field: left out, sent as null, or given. */
  datatype Nullable<T> = Omitted | Null | Given(value: T)

  /** A row of the `notes` table (`typeof notes.$inferSelect`). */
  datatype Note = Note(
    id: string,
    title: string,
    content: string,
    tags: Option<seq<string>>,
    isVoiceGenerated: Option<bool>,
    originalTranscript: Option<string>,
    createdAt: int,
    updatedAt: int)

  /** A validated insert payload (`InsertNote`). */
  datatype InsertNote = InsertNote(
    title: string,
    content: string,
    tags: Nullable<seq<string>>,
    isVoiceGenerated: Nullable<bool>,
    originalTranscript: Nullable<string>)

  /** A validated partial payload (`Partial<InsertNote>`); title and content may not be null. */
  datatype NotePatch = NotePatch(
    title: Option<string>,
    content: Option<string>,
    tags: Nullable<seq<string>>,
    isVoiceGenerated: Nullable<bool>,
    originalTranscript: Nullable<string>)

  /** A row of the `users` table; `username` is declared unique, `password` required. */
  datatype User = User(id: string, username: string, password: string)

  /** `InsertUser`: the `username` and `password` picked from the table. */
  datatype InsertUser = InsertUser(username: string, password: string)

  /** The keys an insert payload keeps; everything else is stripped. */
  const InsertKeys: set<string> := {"title", "content", "tags", "isVoiceGenerated", "originalTranscript"}

  // ------------------------------------------------------ field decoders

  function AsText(v: Json): (r: Option<string>)
    ensures r.Some? <==> v.JStr?
    ensures r.Some? ==> v == JStr(r.value)
  {
    if v.JStr? then Some(v.s) else None
  }

  function AsBool(v: Json): (r: Option<bool>)
    ensures r.Some? <==> v.JBool?
    ensures r.Some? ==> v == JBool(r.value)
  {
    if v.JBool? then Some(v.b) else None
  }

  function AsTextArray(v: Json): (r: Option<seq<string>>)
    ensures r.Some? <==> v.JArr? && AllStrings(v.items)
    ensures r.Some? ==> v == JArr(StringArray(r.value))
  {
    if v.JArr? && AllStrings(v.items) then
      var strs := Strings(v.items);
      assert StringArray(strs) == v.items;
      Some(strs)
    else None
  }

  /** A required non-null text field. */
  function RequiredText(fields: map<string, Json>, key: string): (r: Option<string>)
    ensures r.Some? <==> key in fields && fields[key].JStr?
    ensures r.Some? ==> fields[key] == JStr(r.value)
  {
    if key in fields then AsText(fields[key]) else None
  }

  /** An optional non-null text field: absent gives `Some(None)`, a non-string fails. */
  function OptionalText(fields: map<string, Json>, key: string): (r: Option<Option<string>>)
    ensures key !in fields ==> r == Some(None)
    ensures key in fields ==> (r.Some? <==> fields[key].JStr?)
    ensures r.Some? && r.value.Some? ==> key in fields && fields[key] == JStr(r.value.value)
  {
    if key !in fields then Some(None)
    else match AsText(fields[key])
      case Some(s) => Some(Some(s))
      case None => None
  }

  /** An optional nullable field decoded by `decode`. */
  function NullableField<T>(fields: map<string, Json>, key: string, decode: Json -> Option<T>): (r: Option<Nullable<T>>)
    ensures key !in fields ==> r == Some(Omitted)
    ensures key in fields && fields[key] == JNull ==> r == Some(Null)
    ensures key in fields && fields[key] != JNull ==>
              (r.Some? <==> decode(fields[key]).Some?) &&
              (r.Some? ==> r.value == Given(decode(fields[key]).value))
  {
    if key !in fields then Some(Omitted)
    else if fields[key] == JNull then Some(Null)
    else match decode(fields[key])
      case Some(v) => Some(Given(v))
      case None => None
  }

  // ---------------------------------------------------------- validation

  /** `insertNoteSchema.parse(body)`; `None` is the ZodError. */
  function ValidateInsertNote(body: Json): (r: Option<InsertNote>)
    ensures r.Some? ==> body.JObj?
    ensures r.Some? ==> Get(body, "title") == Defined(JStr(r.value.title))
    ensures r.Some? ==> Get(body, "content") == Defined(JStr(r.value.content))
    ensures body.JObj? && RequiredText(body.fields, "title").None? ==> r.None?
    ensures body.JObj? && RequiredText(body.fields, "content").None? ==> r.None?
  {
    if !body.JObj? then None
    else
      var f := body.fields;
      match (RequiredText(f, "title"), RequiredText(f, "content"),
             NullableField(f, "tags", AsTextArray), NullableField(f, "isVoiceGenerated", AsBool),
             NullableField(f, "originalTranscript", AsText))
      case (Some(title), Some(content), Some(tags), Some(voice), Some(transcript)) =>
        Some(InsertNote(title, content, tags, voice, transcript))
      case _ => None
  }

  /** `insertNoteSchema.partial().parse(body)`; `None` is the ZodError. */
  function ValidateNotePatch(body: Json): (r: Option<NotePatch>)
    ensures r.Some? ==> body.JObj?
    ensures r.Some? && r.value.title.Some? ==> Get(body, "title") == Defined(JStr(r.value.title.value))
    ensures r.Some? && r.value.content.Some? ==> Get(body, "content") == Defined(JStr(r.value.content.value))
    ensures r.Some? && r.value.title.None? ==> Get(body, "title") == Undefined
    ensures r.Some? && r.value.content.None? ==> Get(body, "content") == Undefined
    ensures r.Some? <==>
      body.JObj? && OptionalText(body.fields, "title").Some? && OptionalText(body.fields, "content").Some? &&
      NullableField(body.fields, "tags", AsTextArray).Some? &&
      NullableField(body.fields, "isVoiceGenerated", AsBool).Some? &&
      NullableField(body.fields, "originalTranscript", AsText).Some?
    ensures r.Some? ==> r.value.tags == NullableField(body.fields, "tags", AsTextArray).value
    ensures r.Some? ==> r.value.isVoiceGenerated == NullableField(body.fields, "isVoiceGenerated", AsBool).value
    ensures r.Some? ==> r.value.originalTranscript == NullableField(body.fields, "originalTranscript", AsText).value
  {
    if !body.JObj? then None
    else
      var f := body.fields;
      match (OptionalText(f, "title"), OptionalText(f, "content"),
             NullableField(f, "tags", AsTextArray), NullableField(f, "isVoiceGenerated", AsBool),
             NullableField(f, "originalTranscript", AsText))
      case (Some(title), Some(content), Some(tags), Some(voice), Some(transcript)) =>
        Some(NotePatch(title, content, tags, voice, transcript))
      case _ => None
  }

  // ------------------------------------------------------------ encoding

  function PutNullable<T>(m: map<string, Json>, key: string, n: Nullable<T>, encode: T -> Json): map<string, Json>
  {
    match n
    case Omitted => m
    case Null => m[key := JNull]
    case Given(v) => m[key := encode(v)]
  }

  function TextJson(s: string): Json { JStr(s) }
  function BoolJson(b: bool): Json { JBool(b) }
  function TextArrayJson(strs: seq<string>): Json { JArr(StringArray(strs)) }

  /** The JSON body a client sends for an insert payload. */
  function EncodeInsertNote(ins: InsertNote): Json
  {
    var m0 := map["title" := JStr(ins.title), "content" := JStr(ins.content)];
    var m1 := PutNullable(m0, "tags", ins.tags, TextArrayJson);
    var m2 := PutNullable(m1, "isVoiceGenerated", ins.isVoiceGenerated, BoolJson);
    JObj(PutNullable(m2, "originalTranscript", ins.originalTranscript, TextJson))
  }

  /** Every payload survives encoding and validation unchanged. */
  lemma InsertRoundTrip(ins: InsertNote)
    ensures ValidateInsertNote(EncodeInsertNote(ins)) == Some(ins)
  {
    var f := EncodeInsertNote(ins).fields;
    assert RequiredText(f, "title") == Some(ins.title);
    assert RequiredText(f, "content") == Some(ins.content);
    assert NullableField(f, "tags", AsTextArray) == Some(ins.tags) by {
      if ins.tags.Given? { assert AsTextArray(TextArrayJson(ins.tags.value)) == Some(ins.tags.value); }
    }
    assert NullableField(f, "isVoiceGenerated", AsBool) == Some(ins.isVoiceGenerated);
    assert NullableField(f, "originalTranscript", AsText) == Some(ins.originalTranscript);
  }

  /** The body restricted to the keys the schema knows. */
  function KnownFields(fields: map<string, Json>): map<string, Json>
  {
    map k | k in fields && k in InsertKeys :: fields[k]
  }

  /**
   * Validation keeps everything it knows: encoding the validated payload
   * gives back exactly the known keys of the body, so only unknown keys
   * (`id`, `createdAt`, `updatedAt`, ...) are dropped.
   */
  lemma ValidationLosesOnlyUnknownKeys(body: Json)
    requires ValidateInsertNote(body).Some?
    ensures EncodeInsertNote(ValidateInsertNote(body).value) == JObj(KnownFields(body.fields))
  {
    var ins := ValidateInsertNote(body).value;
    var f := body.fields;
    var e := EncodeInsertNote(ins).fields;
    var k := KnownFields(f);
    assert NullableField(f, "tags", AsTextArray) == Some(ins.tags);
    assert NullableField(f, "isVoiceGenerated", AsBool) == Some(ins.isVoiceGenerated);
    assert NullableField(f, "originalTranscript", AsText) == Some(ins.originalTranscript);
    forall key | key in InsertKeys
      ensures (key in e <==> key in k) && (key in e ==> e[key] == k[key])
    {
    }
    assert e.Keys <= InsertKeys;
    assert e == k;
  }

  /** Server-managed keys in a body are ignored by validation. */
  lemma ServerFieldsIgnored(fields: map<string, Json>, extra: map<string, Json>)
    requires extra.Keys !! InsertKeys
    ensures ValidateInsertNote(JObj(fields + extra)) == ValidateInsertNote(JObj(fields - extra.Keys))
  {
  }

  /** A valid insert payload is also a valid partial payload carrying the same fields. */
  lemma InsertIsPatch(body: Json)
    requires ValidateInsertNote(body).Some?
    ensures ValidateNotePatch(body) == Some(PatchOf(ValidateInsertNote(body).value))
  {
  }

  function PatchOf(ins: InsertNote): NotePatch
  {
    NotePatch(Some(ins.title), Some(ins.content), ins.tags, ins.isVoiceGenerated, ins.originalTranscript)
  }

  /** The empty partial payload, which changes no field. */
  const EmptyPatch := NotePatch(None, None, Omitted, Omitted, Omitted)

  /** An empty object is a valid partial payload and sets nothing. */
  lemma EmptyObjectIsEmptyPatch()
    ensures ValidateNotePatch(JObj(map[])) == Some(EmptyPatch)
  {
  }
}
