/**
 * The transcript state machine of VoiceRecorder.tsx. Speech recognition,
 * the microphone and the media recorder are browser services; the model
 * keeps what the component does with their events: the accumulated final
 * transcript, the interim text, the recording and processing flags and the
 * error message.
 *
 * A result event carries the recognition results so far and the index of
 * the first one that changed; each result is reduced to the transcript of
 * its first alternative.
 */
module VoiceRecorder {
  import opened Wrappers

  datatype SpeechResult = SpeechResult(transcript: string, isFinal: bool)

  /** The final results among `results[lo..hi]`, concatenated in order. */
  function FinalsIn(results: seq<SpeechResult>, lo: nat, hi: nat): string
    requires hi <= |results|
  {
    if hi <= lo then ""
    else FinalsIn(results, lo, hi - 1) + (if results[hi - 1].isFinal then results[hi - 1].transcript else "")
  }

  /** The non-final results among `results[lo..hi]`, concatenated in order. */
  function InterimsIn(results: seq<SpeechResult>, lo: nat, hi: nat): string
    requires hi <= |results|
  {
    if hi <= lo then ""
    else InterimsIn(results, lo, hi - 1) + (if results[hi - 1].isFinal then "" else results[hi - 1].transcript)
  }

  /** Every result among `results[lo..hi]`, concatenated in order. */
  function AllIn(results: seq<SpeechResult>, lo: nat, hi: nat): string
    requires hi <= |results|
  {
    if hi <= lo then "" else AllIn(results, lo, hi - 1) + results[hi - 1].transcript
  }

  /** Each result's text lands in exactly one of the two strings. */
  lemma {:induction false} SplitLengths(results: seq<SpeechResult>, lo: nat, hi: nat)
    requires hi <= |results|
    ensures |FinalsIn(results, lo, hi)| + |InterimsIn(results, lo, hi)| == |AllIn(results, lo, hi)|
  {
    if hi > lo {
      SplitLengths(results, lo, hi - 1);
    }
  }

  /** When every result is final, the final text is all of it and nothing is interim. */
  lemma {:induction false} AllFinal(results: seq<SpeechResult>, lo: nat, hi: nat)
    requires hi <= |results|
    requires forall i :: lo <= i < hi ==> results[i].isFinal
    ensures FinalsIn(results, lo, hi) == AllIn(results, lo, hi)
    ensures InterimsIn(results, lo, hi) == ""
  {
    if hi > lo {
      AllFinal(results, lo, hi - 1);
    }
  }

  /** When no result is final, the final text is empty and the interim text is all of it. */
  lemma {:induction false} NoneFinal(results: seq<SpeechResult>, lo: nat, hi: nat)
    requires hi <= |results|
    requires forall i :: lo <= i < hi ==> !results[i].isFinal
    ensures FinalsIn(results, lo, hi) == ""
    ensures InterimsIn(results, lo, hi) == AllIn(results, lo, hi)
  {
    if hi > lo {
      NoneFinal(results, lo, hi - 1);
    }
  }

  const MicrophoneDenied := "Failed to access microphone. Please check permissions."

  const RecognitionErrorPrefix := "Speech recognition error: "

  /** The message shown for a recognition error: the fixed prefix, then the error code. */
  function RecognitionError(code: string): (m: string)
    ensures |m| == |RecognitionErrorPrefix| + |code|
    ensures m[..|RecognitionErrorPrefix|] == RecognitionErrorPrefix
    ensures m[|RecognitionErrorPrefix|..] == code
  {
    RecognitionErrorPrefix + code
  }

  class Recorder {
    /** Whether the browser offers speech recognition (decided once, at mount). */
    const isSupported: bool
    var isRecording: bool
    var isProcessing: bool
    var transcript: string
    var interimTranscript: string
    var error: Option<string>

    /** Between handlers nothing is being processed, and nothing records without recognition. */
    ghost predicate Valid()
      reads this
    {
      !isProcessing && (!isSupported ==> !isRecording)
    }

    constructor (isSupported: bool)
      ensures Valid() && this.isSupported == isSupported
      ensures !isRecording && transcript == "" && interimTranscript == "" && error.None?
    {
      this.isSupported := isSupported;
      isRecording := false;
      isProcessing := false;
      transcript := "";
      interimTranscript := "";
      error := None;
    }

    /**
     * `recognition.onresult`: the final results from `resultIndex` on are
     * appended to the transcript (and the new transcript reported), the
     * non-final ones replace the interim text.
     */
    method OnResult(resultIndex: nat, results: seq<SpeechResult>) returns (update: Option<string>)
      requires Valid()
      modifies this
      ensures Valid()
      ensures var added := FinalsIn(results, resultIndex, |results|);
              transcript == old(transcript) + added &&
              (update.Some? <==> added != "") &&
              (update.Some? ==> update.value == transcript)
      ensures interimTranscript == InterimsIn(results, resultIndex, |results|)
      ensures old(transcript) <= transcript
      ensures isRecording == old(isRecording) && error == old(error)
    {
      var finalText := "";
      var interim := "";
      var i := resultIndex;
      while i < |results|
        invariant resultIndex <= i && (i <= |results| || i == resultIndex)
        invariant finalText == FinalsIn(results, resultIndex, if i <= |results| then i else |results|)
        invariant interim == InterimsIn(results, resultIndex, if i <= |results| then i else |results|)
      {
        var text := results[i].transcript;
        if results[i].isFinal {
          finalText := finalText + text;
        } else {
          interim := interim + text;
        }
        i := i + 1;
      }
      update := None;
      if finalText != "" {
        transcript := transcript + finalText;
        update := Some(transcript);
      }
      interimTranscript := interim;
    }

    /** `recognition.onerror`: record the message and stop recording. */
    method OnError(code: string)
      requires Valid()
      modifies this
      ensures Valid()
      ensures error == Some(RecognitionError(code)) && !isRecording
      ensures transcript == old(transcript) && interimTranscript == old(interimTranscript)
    {
      error := Some(RecognitionError(code));
      isRecording := false;
    }

    /** `recognition.onend`: stop recording and drop the interim text. */
    method OnEnd()
      requires Valid()
      modifies this
      ensures Valid()
      ensures !isRecording && interimTranscript == ""
      ensures transcript == old(transcript) && error == old(error)
    {
      isRecording := false;
      interimTranscript := "";
    }

    /**
     * `startRecording()`: nothing when disabled or unsupported; otherwise
     * clear the error and both texts, then record if the microphone was
     * granted or report the denial.
     */
    method StartRecording(isEnabled: bool, micGranted: bool)
      requires Valid()
      modifies this
      ensures Valid()
      ensures !isEnabled || !isSupported ==>
        isRecording == old(isRecording) && transcript == old(transcript) &&
        interimTranscript == old(interimTranscript) && error == old(error)
      ensures isEnabled && isSupported ==>
        transcript == "" && interimTranscript == "" &&
        (micGranted ==> isRecording && error.None?) &&
        (!micGranted ==> isRecording == old(isRecording) && error == Some(MicrophoneDenied))
    {
      if !isEnabled || !isSupported {
        return;
      }
      error := None;
      transcript := "";
      interimTranscript := "";
      if micGranted {
        isRecording := true;
      } else {
        error := Some(MicrophoneDenied);
      }
    }

    /**
     * `stopRecording()`: nothing unless recording. Otherwise stop, report
     * the transcript with the interim text appended when that is
     * non-empty, and drop the interim text; the transcript itself stays.
     */
    method StopRecording() returns (completed: Option<string>)
      requires Valid()
      modifies this
      ensures Valid()
      ensures !old(isRecording) ==>
        completed.None? && transcript == old(transcript) &&
        interimTranscript == old(interimTranscript) && !isRecording
      ensures old(isRecording) ==>
        !isRecording && interimTranscript == "" && transcript == old(transcript) &&
        (completed.Some? <==> old(transcript) + old(interimTranscript) != "") &&
        (completed.Some? ==> completed.value == old(transcript) + old(interimTranscript))
      ensures error == old(error)
    {
      completed := None;
      if !isRecording {
        return;
      }
      isRecording := false;
      isProcessing := true;
      if transcript != "" || interimTranscript != "" {
        completed := Some(transcript + interimTranscript);
      }
      isProcessing := false;
      interimTranscript := "";
    }

    /** `clearTranscript()`. */
    method ClearTranscript()
      requires Valid()
      modifies this
      ensures Valid()
      ensures transcript == "" && interimTranscript == "" && error.None?
      ensures isRecording == old(isRecording)
    {
      transcript := "";
      interimTranscript := "";
      error := None;
    }
  }

  /**
   * A recording's completed text is every final result delivered during
   * it, in order, followed by the last interim text.
   */
  method RecordOneEvent(r: Recorder, resultIndex: nat, results: seq<SpeechResult>, micGranted: bool)
    returns (completed: Option<string>)
    requires r.Valid() && r.isSupported && micGranted
    modifies r
    ensures r.Valid() && !r.isRecording
    ensures var spoken := FinalsIn(results, resultIndex, |results|) + InterimsIn(results, resultIndex, |results|);
            (completed.Some? <==> spoken != "") && (completed.Some? ==> completed.value == spoken)
  {
    r.StartRecording(true, micGranted);
    var _ := r.OnResult(resultIndex, results);
    completed := r.StopRecording();
  }
}
