/**
 * The text rules of NoteCard.tsx: the content preview and the tag row
 * (at most three tags, then a "+n" badge for the rest). Dates are shown
 * through `Intl.DateTimeFormat` and are not modelled.
 */
module NoteCard {
  import opened Text

  /** The note shape the client components render. */
  datatype CardNote = CardNote(id: string, title: string, content: string, tags: seq<string>, createdAt: int, updatedAt: int)

  const PreviewLimit: nat := 120
  /** The code units of "...". */
  const Ellipsis: seq<CodeUnit> := [0x2E, 0x2E, 0x2E]
  const TagLimit: nat := 3

  /**
   * The preview rule on the code units of a string: more than 120 units
   * are cut to the first 120 and marked with an ellipsis. The cut may fall
   * between the two halves of a surrogate pair, as `substring` allows.
   */
  function PreviewUnits(u: seq<CodeUnit>): (r: seq<CodeUnit>)
    ensures |u| <= PreviewLimit ==> r == u
    ensures |u| > PreviewLimit ==>
      |r| == PreviewLimit + |Ellipsis| && r[..PreviewLimit] == u[..PreviewLimit] && r[PreviewLimit..] == Ellipsis
    ensures |r| <= PreviewLimit + |Ellipsis|
  {
    if |u| > PreviewLimit then u[..PreviewLimit] + Ellipsis else u
  }

  /**
   * `getContentPreview(content)`: `content.length` and `substring(0, 120)`
   * count UTF-16 code units. Content of at most 120 units is shown whole.
   */
  function ContentPreview(content: string): (r: seq<CodeUnit>)
    ensures |Utf16(content)| <= PreviewLimit ==> r == Utf16(content) && Utf16Decode(r) == content
    ensures |Utf16(content)| > PreviewLimit ==>
      |r| == PreviewLimit + |Ellipsis| && r[..PreviewLimit] == Utf16(content)[..PreviewLimit] &&
      r[PreviewLimit..] == Ellipsis
    ensures |content| <= PreviewLimit / 2 ==> r == Utf16(content)
  {
    Utf16RoundTrip(content);
    PreviewUnits(Utf16(content))
  }

  /** The preview starts with the content itself, up to the limit. */
  lemma PreviewStartsWithContent(content: string)
    ensures var u := Utf16(content);
            var k := if |u| <= PreviewLimit then |u| else PreviewLimit;
            u[..k] <= ContentPreview(content)
  {
  }

  /** Applying the preview rule to a preview changes nothing. */
  lemma PreviewIdempotent(u: seq<CodeUnit>)
    ensures PreviewUnits(PreviewUnits(u)) == PreviewUnits(u)
  {
    if |u| > PreviewLimit {
      var p := PreviewUnits(u);
      assert p[..PreviewLimit] == u[..PreviewLimit];
    }
  }

  /** `tags.slice(0, 3)`. */
  function VisibleTags(tags: seq<string>): (r: seq<string>)
    ensures r <= tags
    ensures |r| == if |tags| <= TagLimit then |tags| else TagLimit
  {
    if |tags| <= TagLimit then tags else tags[..TagLimit]
  }

  /** The "+n" badge: shown only past three tags, counting the tags not shown. */
  function OverflowCount(tags: seq<string>): (r: nat)
    ensures r > 0 <==> |tags| > TagLimit
  {
    if |tags| > TagLimit then |tags| - TagLimit else 0
  }

  /** The tag row is rendered only for a non-empty tag list. */
  predicate ShowsTagRow(tags: seq<string>)
  {
    |tags| > 0
  }

  /** Every tag is either shown or counted by the badge, never both. */
  lemma TagsAccounted(tags: seq<string>)
    ensures |VisibleTags(tags)| + OverflowCount(tags) == |tags|
    ensures VisibleTags(tags) + tags[|VisibleTags(tags)|..] == tags
    ensures ShowsTagRow(tags) <==> VisibleTags(tags) != []
  {
  }
}
