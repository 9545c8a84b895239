/**
 * The study-tools panel of StudyTools.tsx: the "enough content" threshold,
 * the disabled rule of the three tool buttons, and the generating flag.
 *
 * A click sets the flag, waits, then clears it and calls the tool's
 * callback. The wait is a timer, so the two halves are separate steps;
 * clicks whose second half is still due are kept in `pending`, oldest
 * first.
 */
module StudyTools {
  import opened Wrappers
  import opened Text

  datatype Tool = Summary | Flashcards | Quiz

  /** The tool's name as the component writes it. */
  function Name(t: Tool): (s: string)
    ensures s in {"summary", "flashcards", "quiz"}
  {
    match t
    case Summary => "summary"
    case Flashcards => "flashcards"
    case Quiz => "quiz"
  }

  lemma NamesDistinct(a: Tool, b: Tool)
    ensures Name(a) == Name(b) <==> a == b
  {
  }

  const MinContentLength: nat := 50

  /** `noteContent && noteContent.trim().length > 50`; `length` counts UTF-16 code units. */
  predicate HasContent(noteContent: Option<string>)
  {
    noteContent.Some? && noteContent.value != "" && |Utf16(Trim(noteContent.value))| > MinContentLength
  }

  /** Fifty code units or fewer are never enough, whatever they are. */
  lemma ShortContentInsufficient(s: string)
    requires |Utf16(s)| <= MinContentLength
    ensures !HasContent(Some(s))
  {
    TrimShortens(s);
  }

  /** Whitespace alone is never enough, however long. */
  lemma WhitespaceInsufficient(s: string)
    requires forall k :: 0 <= k < |s| ==> IsSpace(s[k])
    ensures !HasContent(Some(s))
  {
    TrimAllSpace(s);
  }

  /**
   * More than fifty code units with no whitespace is enough; 26 characters
   * outside the Basic Multilingual Plane already make 52.
   */
  lemma SolidContentSufficient(s: string)
    requires |Utf16(s)| > MinContentLength
    requires forall k :: 0 <= k < |s| ==> !IsSpace(s[k])
    ensures HasContent(Some(s))
  {
    TrimKeepsNonSpace(s);
  }

  /** `disabled={!hasContent || isGenerating === tool}`. */
  predicate ButtonDisabled(noteContent: Option<string>, generating: Option<Tool>, t: Tool)
  {
    !HasContent(noteContent) || generating == Some(t)
  }

  /** The "add more content" hint. */
  predicate ShowsHint(noteContent: Option<string>)
  {
    !HasContent(noteContent)
  }

  /** The hint shows exactly when every button is disabled whatever is generating. */
  lemma HintIffAllDisabled(noteContent: Option<string>)
    ensures ShowsHint(noteContent) <==> forall g: Option<Tool>, t: Tool :: ButtonDisabled(noteContent, g, t)
  {
    if !ShowsHint(noteContent) {
      assert !ButtonDisabled(noteContent, None, Summary);
    }
  }

  class Panel {
    var isGenerating: Option<Tool>
    /** The clicks whose timer has not fired yet, oldest first. */
    var pending: seq<Tool>

    /** A tool shown as generating is the one clicked last, and its wait is still due. */
    ghost predicate Valid()
      reads this
    {
      isGenerating.Some? ==> pending != [] && isGenerating.value == pending[|pending| - 1]
    }

    constructor ()
      ensures Valid() && isGenerating.None? && pending == []
    {
      isGenerating := None;
      pending := [];
    }

    /** First half of `handleToolClick(tool)`: only an enabled button can be clicked. */
    method BeginToolClick(noteContent: Option<string>, t: Tool)
      requires Valid() && !ButtonDisabled(noteContent, isGenerating, t)
      modifies this
      ensures Valid()
      ensures isGenerating == Some(t) && pending == old(pending) + [t]
      ensures ButtonDisabled(noteContent, isGenerating, t)
      ensures forall u :: u != t ==> !ButtonDisabled(noteContent, isGenerating, u)
    {
      isGenerating := Some(t);
      pending := pending + [t];
    }

    /** Second half: the oldest wait ends, the flag clears and that tool's callback runs. */
    method FinishToolClick() returns (callback: Tool)
      requires Valid() && pending != []
      modifies this
      ensures Valid()
      ensures isGenerating.None? && callback == old(pending[0]) && pending == old(pending[1..])
    {
      callback := pending[0];
      isGenerating := None;
      pending := pending[1..];
    }
  }

  /** One click on an enabled tool ends with the flag cleared and that tool's callback. */
  method ClickTool(p: Panel, noteContent: Option<string>, t: Tool) returns (callback: Tool)
    requires p.Valid() && p.pending == [] && !ButtonDisabled(noteContent, p.isGenerating, t)
    modifies p
    ensures p.Valid() && p.pending == [] && p.isGenerating.None? && callback == t
  {
    p.BeginToolClick(noteContent, t);
    callback := p.FinishToolClick();
  }
}
