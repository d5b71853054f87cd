/** The values that travel between the service and its peers: connection
    handles, request identifiers and the outbound events, one constructor per
    wire command name. JSON encoding and the server-assigned timestamp are not
    modelled; each event carries the payload fields the service fills in. */
module Events {

  /** One byte of audio data (a WAV file read back, a captured frame). */
  newtype Byte = x: int | 0 <= x < 256

  /** An opaque handle to one connected peer. */
  datatype Client = Client(id: nat)

  /** The caller-supplied `messageId`: a string, or None when absent. */
  type MessageId = Option<string>

  datatype Option<T> = None | Some(value: T)

  /** The outbound events. Where a payload field is present on some sends of
      the same wire name and absent on others (the `message_id` of
      `speech_error`), the field is an Option and None means "not sent". */
  datatype Event =
    | Connected(message: string, version: string)
    | ListeningStarted
    | ListeningStopped
    | Status(listening: bool, device: string, modelsLoaded: bool,
             ttsQueueSize: nat, isProcessingTts: bool, currentTtsId: MessageId)
    | MinimalStatus(listening: bool, device: string, modelsLoaded: bool, serviceType: string)
    | SpeechGenerated(audio: seq<Byte>, text: string, messageId: MessageId)
    | SpeechError(error: string, taggedId: Option<MessageId>)
    | TtsStopped(message: string)
    | TtsStreamStart(totalSentences: nat, text: string, messageId: MessageId)
    | TtsStreamChunk(audio: seq<Byte>, text: string, chunkIndex: nat, totalChunks: nat,
                     isFinal: bool, messageId: MessageId)
    | TtsStreamComplete(text: string, totalChunks: nat, messageId: MessageId)
    | TtsStreamError(error: string, messageId: MessageId)
    | GgwaveSent(success: bool, text: string)
    | GgwaveError(error: string)
    | SpeechRecognized(text: string, confidence: real)
    | Error(error: string)
  {
    /** The `command` field the event is sent under. */
    function Name(): string {
      match this
      case Connected(_, _) => "connected"
      case ListeningStarted => "listening_started"
      case ListeningStopped => "listening_stopped"
      case Status(_, _, _, _, _, _) => "status"
      case MinimalStatus(_, _, _, _) => "status"
      case SpeechGenerated(_, _, _) => "speech_generated"
      case SpeechError(_, _) => "speech_error"
      case TtsStopped(_) => "tts_stopped"
      case TtsStreamStart(_, _, _) => "tts_stream_start"
      case TtsStreamChunk(_, _, _, _, _, _) => "tts_stream_chunk"
      case TtsStreamComplete(_, _, _) => "tts_stream_complete"
      case TtsStreamError(_, _) => "tts_stream_error"
      case GgwaveSent(_, _) => "ggwave_sent"
      case GgwaveError(_) => "ggwave_error"
      case SpeechRecognized(_, _) => "speech_recognized"
      case Error(_) => "error"
    }
  }

  /** One event sent to one peer. */
  datatype Delivery = Delivery(to: Client, event: Event)

  /** Sends every event of `events`, in order, to the same peer. */
  function DeliverAll(to: Client, events: seq<Event>): (r: seq<Delivery>)
    ensures |r| == |events|
  {
    if events == [] then [] else [Delivery(to, events[0])] + DeliverAll(to, events[1..])
  }

  /** The i-th delivery carries the i-th event, to the given peer. */
  lemma {:induction false} DeliverAllAt(to: Client, events: seq<Event>, i: nat)
    requires i < |events|
    ensures DeliverAll(to, events)[i] == Delivery(to, events[i])
  {
    if i > 0 {
      DeliverAllAt(to, events[1..], i - 1);
    }
  }

  /** Sending two runs of events one after the other is sending their
      concatenation. */
  lemma {:induction false} DeliverAllAppend(to: Client, a: seq<Event>, b: seq<Event>)
    ensures DeliverAll(to, a + b) == DeliverAll(to, a) + DeliverAll(to, b)
  {
    if a == [] {
      assert a + b == b;
    } else {
      assert (a + b)[1..] == a[1..] + b;
      DeliverAllAppend(to, a[1..], b);
    }
  }
}
