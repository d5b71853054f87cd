/** Command routing: how one inbound text message is turned into a reply or
    into an operation of the full service, and the single reply the minimal
    service sends for it. JSON decoding is abstracted to the fields the
    routing reads. */
module Dispatch {
  import opened Events
  import Synthesis
  import Ggwave

  /** A decoded `payload`: the fields the routing reads (a missing `text` is
      the empty string and a missing `streaming` is false), or a value that
      has no `.get` (null, a list, a string, a number), in which case reading
      a field raises an exception whose text is `error`. */
  datatype Payload =
    | Fields(text: string, messageId: MessageId, streaming: bool)
    | Unreadable(error: string)

  /** One inbound message: text that is not valid JSON, valid JSON that is
      not an object (its `.get` raises an exception whose text is `error`), or
      an object with its `command` (None when missing) and its `payload`. */
  datatype Inbound =
    | Malformed
    | NotObject(error: string)
    | Message(command: Option<string>, payload: Payload)

  const StartListening := "start_listening"
  const StopListening := "stop_listening"
  const SynthesizeSpeech := "synthesize_speech"
  const StopTts := "stop_tts"
  const SendGgwave := "send_ggwave"
  const GetStatus := "get_status"

  /** The command names both services recognise. */
  predicate Known(command: Option<string>) {
    command.Some? &&
    command.value in {StartListening, StopListening, SynthesizeSpeech, StopTts, SendGgwave, GetStatus}
  }

  /** The commands whose handling reads `payload.text`. */
  predicate ReadsText(msg: Inbound) {
    msg.Message? && msg.command.Some? && msg.command.value in {SynthesizeSpeech, SendGgwave}
  }

  /** Whether the payload reads as a non-empty text. */
  predicate HasText(p: Payload) {
    p.Fields? && p.text != []
  }

  // ---------------------------------------------------------------------
  // The full service

  /** What the full service does with one message. */
  datatype Action =
    | Reply(event: Event)
    | Synthesize(text: string, messageId: MessageId, streaming: bool)
    | StopSynthesis
    | Transmit(text: string)
    | ReportStatus
    | NoAction

  /** The routing of `_handle_websocket_message` in the full service.
      Unparseable input, JSON that is not an object, an unknown or missing
      command, and a `synthesize_speech` or `send_ggwave` whose payload is
      unreadable or whose text is empty are only logged: every exception is
      caught inside the handler. */
  function Route(msg: Inbound): (r: Action)
    ensures r.NoAction? <==>
      msg.Malformed? || msg.NotObject? || !Known(msg.command) ||
      (ReadsText(msg) && !HasText(msg.payload))
    ensures r.Reply? <==> msg.Message? && msg.command.Some? &&
                          msg.command.value in {StartListening, StopListening}
    ensures r.Reply? && msg.command.value == StartListening ==> r.event == ListeningStarted
    ensures r.Reply? && msg.command.value == StopListening ==> r.event == ListeningStopped
    ensures r.Synthesize? <==>
      msg.Message? && msg.command == Some(SynthesizeSpeech) && HasText(msg.payload)
    ensures r.Synthesize? ==>
      r == Synthesize(msg.payload.text, msg.payload.messageId, msg.payload.streaming)
    ensures r.Transmit? <==> msg.Message? && msg.command == Some(SendGgwave) && HasText(msg.payload)
    ensures r.Transmit? ==> r.text == msg.payload.text
    ensures r.StopSynthesis? <==> msg.Message? && msg.command == Some(StopTts)
    ensures r.ReportStatus? <==> msg.Message? && msg.command == Some(GetStatus)
  {
    match msg
    case Malformed => NoAction
    case NotObject(_) => NoAction
    case Message(command, payload) =>
      if command == Some(StartListening) then Reply(ListeningStarted)
      else if command == Some(StopListening) then Reply(ListeningStopped)
      else if command == Some(SynthesizeSpeech) then
        (if HasText(payload) then Synthesize(payload.text, payload.messageId, payload.streaming)
         else NoAction)
      else if command == Some(StopTts) then StopSynthesis
      else if command == Some(SendGgwave) then
        (if HasText(payload) then Transmit(payload.text) else NoAction)
      else if command == Some(GetStatus) then ReportStatus
      else NoAction
  }

  /** The `get_status` snapshot: `models_loaded` holds only when both models
      loaded, and the queue part is read from the synthesis state. */
  function StatusOf(running: bool, device: string, whisperLoaded: bool, ttsLoaded: bool,
                    s: Synthesis.TtsState): (r: Event)
    ensures r.Status? && r.Name() == "status"
    ensures r.listening == running && r.device == device
    ensures r.modelsLoaded <==> whisperLoaded && ttsLoaded
    ensures r.ttsQueueSize == |s.queue| && r.isProcessingTts == s.processing
    ensures r.currentTtsId == s.current
  {
    Status(running, device, whisperLoaded && ttsLoaded, |s.queue|, s.processing, s.current)
  }

  /** The full service's state reached by routing: the synthesis queue, whose
      outbox holds every event sent to a peer, and the fields the status
      snapshot reads. */
  class Service {
    const tts: Synthesis.TtsQueue
    /** `running`: set by the service lifecycle, read by `get_status`. */
    const running: bool
    const device: string
    const whisperLoaded: bool

    constructor (tts: Synthesis.TtsQueue, running: bool, device: string, whisperLoaded: bool)
      ensures this.tts == tts && this.running == running
      ensures this.device == device && this.whisperLoaded == whisperLoaded
    {
      this.tts, this.running, this.device, this.whisperLoaded := tts, running, device, whisperLoaded;
    }

    /** `_handle_websocket_message` of the full service. The ggwave
        transmission's device outcome is an oracle: whether the output stream
        opens and whether each payload is played. Scheduling the driver after
        an enqueue is a separate call, `ProcessQueue`. */
    method HandleMessage(client: Client, msg: Inbound, streamOpen: bool, played: nat -> bool)
      requires tts.Valid()
      modifies tts
      ensures tts.Valid()
      ensures Route(msg).NoAction? ==> tts.State() == old(tts.State()) && tts.outbox == old(tts.outbox)
      ensures Route(msg).Reply? ==>
        tts.State() == old(tts.State()) &&
        tts.outbox == old(tts.outbox) + [Delivery(client, Route(msg).event)]
      ensures Route(msg).ReportStatus? ==>
        var status := StatusOf(running, device, whisperLoaded, tts.modelLoaded, old(tts.State()));
        tts.State() == old(tts.State()) && tts.outbox == old(tts.outbox) + [Delivery(client, status)]
      ensures Route(msg).Transmit? ==>
        var sent := GgwaveSent(Ggwave.Transmitted(msg.payload.text, streamOpen, played), msg.payload.text);
        tts.State() == old(tts.State()) && tts.outbox == old(tts.outbox) + [Delivery(client, sent)]
      ensures Route(msg).StopSynthesis? ==>
        var stopped := Synthesis.Stop(old(tts.State()));
        tts.State() == stopped.state && tts.outbox == old(tts.outbox) + [Delivery(client, stopped.reply)]
      ensures Route(msg).Synthesize? ==>
        var step := Synthesis.Enqueue(old(tts.State()),
          Synthesis.Request(client, msg.payload.text, msg.payload.messageId, msg.payload.streaming), tts.modelLoaded);
        tts.State() == step.state &&
        tts.outbox == old(tts.outbox) + (if step.reply.Some? then [Delivery(client, step.reply.value)] else [])
    {
      var action := Route(msg);
      match action
      case NoAction =>
      case Reply(event) =>
        tts.outbox := tts.outbox + [Delivery(client, event)];
      case ReportStatus =>
        var status := StatusOf(running, device, whisperLoaded, tts.modelLoaded, tts.State());
        tts.outbox := tts.outbox + [Delivery(client, status)];
      case Transmit(text) =>
        var success, _ := Ggwave.SendGgwave(text, streamOpen, played);
        tts.outbox := tts.outbox + [Delivery(client, GgwaveSent(success, text))];
      case StopSynthesis =>
        tts.HandleStopTts(client);
      case Synthesize(text, id, streaming) =>
        tts.HandleTtsRequest(client, text, id, streaming);
    }
  }

  // ---------------------------------------------------------------------
  // The minimal service

  const MinimalTtsUnavailable := "TTS not available in minimal service"
  const MinimalGgwaveUnavailable := "ggwave not available in minimal service"
  const InvalidJson := "Invalid JSON"
  const UnknownPrefix := "Unknown command: "

  /** How Python formats the command in the unknown-command message: the
      string itself, or `None` when the field is missing. */
  function ShowCommand(command: Option<string>): string {
    if command.Some? then command.value else "None"
  }

  /** The fixed `get_status` reply of the minimal service. */
  const MinimalStatusReply := MinimalStatus(false, "cpu", false, "minimal")

  /** How the minimal service's `_handle_websocket_message` ends: it sends
      one reply, or an exception escapes it (only `JSONDecodeError` is caught
      there). */
  datatype Outcome = Sent(event: Event) | Raised(error: string)

  /** `_handle_websocket_message` of the minimal service. */
  function MinimalReply(msg: Inbound): (r: Outcome)
    ensures r.Raised? <==> msg.NotObject? || (ReadsText(msg) && msg.payload.Unreadable?)
    ensures msg.NotObject? ==> r == Raised(msg.error)
    ensures r.Raised? && msg.Message? ==> r == Raised(msg.payload.error)
    ensures msg.Malformed? ==> r == Sent(Error(InvalidJson))
    ensures msg.Message? && !Known(msg.command) ==>
      r == Sent(Error(UnknownPrefix + ShowCommand(msg.command)))
    ensures msg.Message? && msg.command == Some(StopTts) ==> r == Sent(Error(UnknownPrefix + StopTts))
    ensures msg.Message? && msg.command == Some(GetStatus) ==>
      r.Sent? && r.event.MinimalStatus? && !r.event.listening && r.event.device == "cpu" &&
      !r.event.modelsLoaded && r.event.serviceType == "minimal"
    ensures msg.Message? && msg.command == Some(StartListening) ==> r == Sent(ListeningStarted)
    ensures msg.Message? && msg.command == Some(StopListening) ==> r == Sent(ListeningStopped)
    ensures msg.Message? && msg.command == Some(SynthesizeSpeech) && r.Sent? ==>
      r.event == SpeechError(MinimalTtsUnavailable, None)
    ensures msg.Message? && msg.command == Some(SendGgwave) && r.Sent? ==>
      r.event == GgwaveError(MinimalGgwaveUnavailable)
  {
    match msg
    case Malformed => Sent(Error(InvalidJson))
    case NotObject(error) => Raised(error)
    case Message(command, payload) =>
      if command == Some(GetStatus) then Sent(MinimalStatusReply)
      else if command == Some(StartListening) then Sent(ListeningStarted)
      else if command == Some(StopListening) then Sent(ListeningStopped)
      else if command == Some(SynthesizeSpeech) then
        (if payload.Unreadable? then Raised(payload.error)
         else Sent(SpeechError(MinimalTtsUnavailable, None)))
      else if command == Some(SendGgwave) then
        (if payload.Unreadable? then Raised(payload.error)
         else Sent(GgwaveError(MinimalGgwaveUnavailable)))
      else Sent(Error(UnknownPrefix + ShowCommand(command)))
  }

  /** The event the minimal service's `handle_client` sends for one message:
      the handler's reply, or an `error` carrying the text of the exception
      that escaped it. */
  function MinimalHandle(msg: Inbound): (r: Event)
    ensures r.Error? <==>
      msg.Malformed? || msg.NotObject? || !Known(msg.command) || msg.command == Some(StopTts) ||
      (ReadsText(msg) && msg.payload.Unreadable?)
    ensures msg.NotObject? ==> r == Error(msg.error)
    ensures ReadsText(msg) && msg.payload.Unreadable? ==> r == Error(msg.payload.error)
    ensures !msg.NotObject? && !(ReadsText(msg) && msg.payload.Unreadable?) ==>
      MinimalReply(msg) == Sent(r)
  {
    match MinimalReply(msg)
    case Sent(event) => event
    case Raised(error) => Error(error)
  }

  /** The two services agree on the listening commands, and where the full
      service stays silent on unparseable input, a non-object or an unknown
      command, the minimal one answers with an `error`. */
  lemma ServicesCompared(msg: Inbound)
    ensures Route(msg).Reply? ==> MinimalReply(msg) == Sent(Route(msg).event)
    ensures (msg.Malformed? || msg.NotObject? || !Known(msg.command)) ==>
      Route(msg).NoAction? && MinimalHandle(msg).Error?
    ensures Route(msg).NoAction? && !MinimalHandle(msg).Error? ==>
      ReadsText(msg) && msg.payload.Fields? && msg.payload.text == []
  {
  }
}
