/** The recognition hand-off: a transcript produced for one utterance becomes
    a `speech_recognized` event on the bounded broadcast queue, which never
    blocks the recognition worker. */
module Recognition {
  import opened Events
  import opened Text

  /** Capacity of the broadcast queue. */
  const BroadcastCapacity: nat := 20

  /** The confidence placeholder attached to every transcript. */
  const Confidence: real := 1.0

  /** The event a transcript turns into, if any: blank transcripts produce
      nothing, others become the transcript with its surrounding whitespace
      cut (`Text.StripInfix`). */
  function Recognized(transcript: string): (r: Option<Event>)
    ensures r.None? <==> forall i :: 0 <= i < |transcript| ==> IsSpace(transcript[i])
    ensures r.Some? ==> r.value.SpeechRecognized? && r.value.confidence == 1.0
                        && r.value.text == Strip(transcript)
                        && r.value.text != [] && Stripped(r.value.text)
                        && |r.value.text| <= |transcript|
  {
    var text := Strip(transcript);
    if text != [] then Some(SpeechRecognized(text, Confidence)) else None
  }

  /** The non-blocking put of the recognized event: when the queue is full
      the event is dropped and the queue is left as it was. */
  function HandOff(queue: seq<Event>, transcript: string): (r: seq<Event>)
    ensures r == queue || r == queue + [SpeechRecognized(Strip(transcript), Confidence)]
    ensures r != queue <==> Recognized(transcript).Some? && |queue| < BroadcastCapacity
    ensures |queue| <= BroadcastCapacity ==> |r| <= BroadcastCapacity
  {
    match Recognized(transcript)
    case None => queue
    case Some(e) => if |queue| < BroadcastCapacity then queue + [e] else queue
  }
}
