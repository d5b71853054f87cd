# Speech service core, modelled in Dafny

This project models the core of the speech service: a WebSocket server that
turns microphone audio into `speech_recognized` events, synthesises speech
for `synthesize_speech` requests (in one piece or sentence by sentence), and
sends text over sound with ggwave. The models cover:

- **Utterance segmentation** (`segmentation.dfy`, module `Segmentation`).
  - The capture loop's per-frame update of the speech buffer and the silence counter.
  - The flush rule that hands a joined utterance to the audio queue.
  - The recognition worker that takes one utterance off that queue.
- **Recognition hand-off** (`recognition.dfy`, module `Recognition`). A transcript becomes a
  `speech_recognized` event with confidence 1.0 on the bounded broadcast queue,
  or is dropped.
- **Sentence decomposition** (`sentences.dfy`, module `Sentences`). `_split_into_sentences`:
  - split after terminal punctuation;
  - strip and filter;
  - the index loop that merges short fragments pairwise;
  - the comma split of over-long sentences.
- **The synthesis queue** (`synthesis.dfy`, module `Synthesis`):
  - the bounded FIFO of requests;
  - `stop_tts`;
  - the single-flight driver `_process_tts_queue`;
  - the event traces of the one-shot and the streaming handler.

  The supersession test at every check point is modelled as well.
- **Peers and broadcast** (`hub.dfy`, module `Hub`):
  - registration and welcome on connect;
  - removal on disconnect;
  - `_send_response`;
  - `_broadcast_message`, which drops failed peers only after the sweep.
- **ggwave payloads** (`ggwave.dfy`, module `Ggwave`). The fixed-width slicing of the text into
  payloads of at most 140 characters, and the transmission loop.
- **Command routing** (`dispatch.dfy`, module `Dispatch`).
  - The six commands of the full service.
  - The one-reply-per-message routing of the minimal service.

Shared pieces are in `text.dfy` (module `Text`) and `events.dfy` (module `Events`):
- `Text` holds Python's whitespace class, `str.strip()` and concatenation.
- `Events` holds the outbound events, one constructor per wire command name, and
  deliveries to peers.

Machine learning, audio devices and sockets are oracles, passed to the model as inputs:
- the voice-activity classifier's verdict per frame;
- the transcript per utterance;
- per synthesis call, whether a WAV file came back, no file came back, or reading it raised;
- per send, whether it succeeded;
- per ggwave payload, whether it was encoded and played.

Concurrency between `stop_tts` and a running driver is modelled by one more
oracle per request: the supersession check (if any) just before which a
`stop_tts` from some peer is handled. Check 0 is the handler's first check;
in streaming, check `i + 1` precedes sentence `i`. A last oracle per request
is the text after `_split_into_sentences` has removed thinking blocks and
markdown markers.

Behaviours of the code worth noting:
- A frame whose capture or classification raises is skipped, not treated as silence.
- The flush check runs only on silence frames, so an utterance can grow past
  `max_speech_chunks` (`LongSpeechExceedsMax`).
- A flush does not reset the silence counter.
- A punctuation-only text such as `....` survives the split (`PunctuationOnlySurvives`).
- A failed `_send_response` leaves the peer registered.
- The full service sends no reply at all for an unknown command, for an
  empty `synthesize_speech`/`send_ggwave` text, for invalid JSON, for JSON
  that is not an object, or for a `synthesize_speech`/`send_ggwave` whose
  payload is not an object.
- In the minimal service, JSON that is not an object, and a
  `synthesize_speech`/`send_ggwave` whose payload is not an object, raise out
  of `_handle_websocket_message`; `handle_client` then replies `error` with
  the exception's text.
- Every sentence of the decomposition is non-empty and stripped, so the
  streaming loop's blank-sentence check never skips one (`Sentences.Sentences`).

## Model

| member | source | states |
|---|---|---|
| Text.Strip | speech-service/speech_service.py:549 | The result has no leading or trailing whitespace and is no longer than the input; a stripped string is unchanged; the result is empty exactly when the input is all whitespace. |
| Text.StripInfix | speech-service/speech_service.py:549 | The result is a contiguous piece of the input with only whitespace before and after it. |
| Segmentation.Flush | speech-service/speech_service.py:690-703 | Without the flush condition (at least `min_speech_chunks` frames, and enough silence or `max_speech_chunks` frames) nothing changes. With it, the buffer is cleared and the joined utterance is appended only while the audio queue holds fewer than 3. The silence counter is never reset. |
| Segmentation.ObserveStep | speech-service/speech_service.py:672-680 | For `Observe`, one iteration of the capture loop: a speech frame is appended, zeroes the counter and never flushes. A silence frame increments the counter and flushes exactly when the condition holds with the new count. A faulting frame changes nothing. A flushed utterance has at least the minimum number of frames. |
| Segmentation.ObserveConservesFrames | speech-service/speech_service.py:672-703 | One frame loses no speech: what it flushes followed by the new buffer is the old buffer followed by the frame when it is speech. |
| Segmentation.RunConservesFrames | speech-service/speech_service.py:672-703 | Over any run of frames, the flushed buffers followed by the remaining buffer are exactly the old buffer followed by the run's speech frames, in order. |
| Segmentation.FlushedAtLeastMin | speech-service/speech_service.py:692 | Every utterance flushed during a run has at least `min_speech_chunks` frames. |
| Segmentation.RunKeepsQueueShort | speech-service/speech_service.py:89 | Segmentation never grows the audio queue past 3, below its capacity of 5, and only appends to it. |
| Segmentation.LongSpeechExceedsMax | speech-service/speech_service.py:672-694 | With the default thresholds, 101 speech frames and then one silence frame flush a single 101-frame utterance, more than `max_speech_chunks`. |
| Segmentation.Capture.constructor | speech-service/speech_service.py:89-101 | Empty buffer, zero counter, empty queues. |
| Segmentation.Capture.ProcessSpeechBuffer | speech-service/speech_service.py:690-703 | The new state is `Flush` of the old, and the broadcast queue is untouched. |
| Segmentation.Capture.OnFrame | speech-service/speech_service.py:666-680 | The new state is `Observe` of the old state, the frame and its verdict. |
| Segmentation.Capture.RecognizeNext | speech-service/speech_service.py:710-755 | An empty audio queue changes nothing. Otherwise the oldest utterance is removed, and the broadcast queue goes through the hand-off when transcription yields text and is unchanged when it raises. |
| Recognition.Recognized | speech-service/speech_service.py:733-742 | No event exactly when the transcript is all whitespace. Otherwise a `speech_recognized` event whose text is the stripped transcript (non-empty, no longer than it) and whose confidence is 1.0. |
| Recognition.HandOff | speech-service/speech_service.py:738-744 | The queue grows by the recognised event exactly when there is one and the queue holds fewer than 20. Otherwise it is unchanged. It never exceeds 20. |
| Sentences.SplitAfterPieces | speech-service/speech_service.py:546 | For `SplitAfter`, the model of `re.split` after a mark followed by whitespace: every piece of the split but the last ends with a mark. No piece contains a split point. No piece is longer than the input. An input without a split point is its own only piece. |
| Sentences.SplitAfterRoundTrip | speech-service/speech_service.py:546 | Putting each removed whitespace run back between its two pieces gives the input again; the first piece is a prefix of the input. |
| Sentences.SplitGapsBlank | speech-service/speech_service.py:546 | There is one removed run per split point; each is non-empty whitespace and is removed whole, since the piece after it does not start with whitespace. |
| Sentences.SplitAfterStripped | speech-service/speech_service.py:546 | Splitting a non-empty stripped string after marks that are not whitespace gives non-empty stripped pieces. |
| Sentences.Clean | speech-service/speech_service.py:549 | Every fragment kept is stripped and longer than 3 characters, and there are no more fragments than before. |
| Sentences.CleanOne | speech-service/speech_service.py:549 | A single fragment is kept, stripped, exactly when its stripped form is longer than 3 characters. |
| Sentences.CleanMembers | speech-service/speech_service.py:549 | A string is kept exactly when it is the stripped form of some fragment and longer than 3 characters. |
| Sentences.CleanAppend | speech-service/speech_service.py:549 | The filter works fragment by fragment, so it keeps the fragments' order. |
| Sentences.Limit | speech-service/speech_service.py:564-570 | A sentence of at most the maximum length is kept whole. A longer one is replaced by its comma split. No piece is longer than the sentence. |
| Sentences.GroupsPartition | speech-service/speech_service.py:552-563 | The merge loop's groups, concatenated, are exactly the fragments: nothing is dropped, duplicated or reordered. |
| Sentences.GroupsShape | speech-service/speech_service.py:557-562 | Every group is either a short fragment with exactly its successor, or a single fragment that is not short or is the last one. |
| Sentences.LimitStripped | speech-service/speech_service.py:564-570 | The limit keeps the pieces of a non-empty stripped sentence non-empty and stripped. |
| Sentences.MergeStripped | speech-service/speech_service.py:552-572 | Merging non-empty stripped fragments gives non-empty stripped sentences. |
| Sentences.Sentences | speech-service/speech_service.py:528-572 | Every sentence of the decomposition is non-empty and has no surrounding whitespace. |
| Sentences.MergeIsLimitedGroups | speech-service/speech_service.py:552-572 | `Merge`, the merge loop's output, is the length limit applied to each group joined by one space. |
| Sentences.ShortTextIsJoinedGroups | speech-service/speech_service.py:557-570 | When no pair can exceed the maximum, the sentences are exactly the groups joined by one space. |
| Sentences.ThreeShortSentencesGiveTwo | speech-service/speech_service.py:546-572 | Three one-word sentences such as "One. Two. Three.", the first short, decompose into the first two joined by a space and the third: a merged pair is not examined again, even when it is still short. |
| Sentences.PunctuationOnlySurvives | speech-service/speech_service.py:546-549 | "...." decomposes into the single sentence "....". |
| Sentences.SplitIntoSentences | speech-service/speech_service.py:528-572 | The result is the decomposition `Sentences` of the text, whose properties are the lemmas above. |
| Sentences.MergeShort | speech-service/speech_service.py:552-572 | The index loop computes `Merge` of the fragments. |
| Synthesis.Enqueue | speech-service/speech_service.py:299-337 | A request is accepted exactly when the model is loaded and fewer than 10 are queued; it then goes to the back with no reply. Otherwise the state is unchanged and the reply is `speech_error` 'TTS model not loaded' or 'TTS queue full, please try again later'. The capacity bound is preserved. |
| Synthesis.Stop | speech-service/speech_service.py:345-367 | While processing: the queue is emptied, the state goes idle with no current id, and the reply is 'TTS processing stopped'. When idle: the state is unchanged and the reply is 'No TTS currently processing'. |
| Synthesis.StopIdempotent | speech-service/speech_service.py:345-367 | A second `stop_tts` leaves the state unchanged and replies 'No TTS currently processing'. |
| Synthesis.SingleTrace | speech-service/speech_service.py:487-526 | The one-shot handler sends nothing exactly when superseded at its check. Otherwise it sends exactly one event: `speech_generated` with the audio when synthesis yields a file, else `speech_error` tagged with the request id. |
| Synthesis.StreamChunks | speech-service/speech_service.py:434-485 | The chunk loop is cut short only by a stop, and sends nothing only when cut short. |
| Synthesis.StreamTrace | speech-service/speech_service.py:412-485 | The streaming handler sends nothing exactly when the stop lands at its first check, and is cut short only by a stop. |
| Synthesis.Handle | speech-service/speech_service.py:394-397 | Either handler sends nothing exactly when the stop lands at its first check, and is cut short only by a stop. |
| Synthesis.ChunksFields | speech-service/speech_service.py:441-463 | Every streamed event is one of three kinds. A chunk is for a sentence the loop reaches and carries a valid index, the sentence count, `is_final` exactly on the last index, the request id, the stripped non-blank sentence and the synthesised audio. Otherwise it is the completion or an error for this request. |
| Synthesis.ChunksTerminalLast | speech-service/speech_service.py:434-485 | Only the last event of the chunk loop can be a completion or an error. |
| Synthesis.ChunksOrder | speech-service/speech_service.py:434-463 | Chunk indices strictly increase. |
| Synthesis.StreamChunksWellFormed | speech-service/speech_service.py:434-485 | The chunk loop's events satisfy all three properties above. |
| Synthesis.ChunksComplete | speech-service/speech_service.py:473-478 | With no stop and no exception, the chunk loop ends with `tts_stream_complete`. |
| Synthesis.ChunksStopped | speech-service/speech_service.py:436-439 | A stop ends the chunk loop silently at a check the loop makes. Everything sent before it is a chunk for a sentence whose own check precedes the stop. |
| Synthesis.ChunksFailed | speech-service/speech_service.py:480-485 | An interruption that is not a stop is an exception at a reached, non-blank sentence. The loop ends there with `tts_stream_error` carrying that exception, and every event before it is a chunk for an earlier sentence. |
| Synthesis.ChunkSent | speech-service/speech_service.py:434-463 | A sentence the loop reaches, not blank and yielding audio, has a chunk with its index among the loop's events. |
| Synthesis.ChunksCover | speech-service/speech_service.py:434-463 | The chunk indices are exactly the reached sentences that are not blank and yield audio, one chunk each. |
| Synthesis.ChunkReached | speech-service/speech_service.py:434-463 | Every chunk the loop sends is for a reached sentence that is not blank and yields audio. |
| Synthesis.UninterruptedReaches | speech-service/speech_service.py:434-439 | With no stop and no exception, the loop reaches every sentence. |
| Synthesis.StreamChunksEnding | speech-service/speech_service.py:434-485 | The chunk loop ends with `tts_stream_complete` exactly when nothing interrupts it. |
| Synthesis.StreamTraceShape | speech-service/speech_service.py:412-485 | The streaming handler sends nothing exactly when superseded at its first check. Otherwise it sends `tts_stream_start` with the sentence count, then a well-formed chunk run that ends in `tts_stream_complete` exactly when uninterrupted, whose chunks are exactly one for each reached sentence that is not blank and yields audio, and none for any other. |
| Synthesis.StopBeforeFirstChunk | speech-service/speech_service.py:426-439 | A stop just before the first sentence leaves only `tts_stream_start` sent. |
| Synthesis.Drive | speech-service/speech_service.py:383-397 | An empty queue sends nothing; otherwise the drive starts with everything the oldest request's handler sends. |
| Synthesis.DriveWithAppend | speech-service/speech_service.py:383-397 | For any handler, driving a queue is driving its front and then its back, as long as no stop lands in the front. |
| Synthesis.DriveAppend | speech-service/speech_service.py:383-397 | FIFO: with the service's handlers, the requests behind others are served after them. |
| Synthesis.DriveWithStopReplyLast | speech-service/speech_service.py:349-363 | For any handler that never sends `tts_stopped`, a stop reply can only be the last delivery of a drive, and there is one exactly when some request met a stop. |
| Synthesis.DriveStopReplyLast | speech-service/speech_service.py:383-406 | The same for the service's own handlers. |
| Synthesis.HandleSendsNoStopReply | speech-service/speech_service.py:412-526 | Neither handler sends `tts_stopped`. |
| Synthesis.TtsQueue.constructor | speech-service/speech_service.py:91-96 | Empty queue, idle, no current id. |
| Synthesis.TtsQueue.HandleTtsRequest | speech-service/speech_service.py:299-337 | The new state and the reply are those of `Enqueue`. |
| Synthesis.TtsQueue.HandleStopTts | speech-service/speech_service.py:345-367 | The drain loop reaches the state and the reply of `Stop`. |
| Synthesis.TtsQueue.Check | speech-service/speech_service.py:436-439 | A check fails exactly when the stop lands there. The stop then empties the state and replies to its sender. |
| Synthesis.TtsQueue.HandleSingleTts | speech-service/speech_service.py:487-526 | Sends exactly the events of `SingleTrace`, followed by the stop reply when superseded. |
| Synthesis.TtsQueue.HandleStreamingTts | speech-service/speech_service.py:412-485 | Sends exactly the events of `StreamTrace` over the decomposed sentences, followed by the stop reply when superseded. |
| Synthesis.TtsQueue.StreamSentences | speech-service/speech_service.py:434-478 | The sentence loop sends exactly the events of `StreamChunks`, followed by the stop reply when superseded. |
| Synthesis.TtsQueue.StreamSentence | speech-service/speech_service.py:434-471 | One pass sends the chunk of sentence `i` when due. It ends the request exactly on a stop or an exception. |
| Synthesis.TtsQueue.ProcessQueue | speech-service/speech_service.py:371-410 | When a drive is already running or the queue is empty, nothing changes. Otherwise it sends exactly `Drive` of the old queue, in FIFO order, and ends idle with an empty queue and no current id. |
| Synthesis.TtsQueue.ServeNext | speech-service/speech_service.py:383-399 | One pass serves the oldest request and keeps the loop invariant "sent so far + drive of the rest = drive of the start". |
| Synthesis.TtsQueue.RunHandler | speech-service/speech_service.py:394-397 | The streaming flag picks the handler. It sends what `Handle` says, then the stop reply when superseded. |
| Hub.Reached | speech-service/speech_service.py:286-297 | The peers a broadcast keeps: exactly the registered peers whose send succeeds. |
| Hub.Dropped | speech-service/speech_service.py:286-294 | The peers a broadcast drops: exactly the registered peers whose send fails. |
| Hub.ReachedAndDropped | speech-service/speech_service.py:297 | Reached and dropped peers partition the registered set, so removing the dropped ones leaves the reached ones. |
| Hub.SweptKept | speech-service/speech_service.py:287-289 | Trying one more peer whose send succeeds adds exactly one delivery of the event to that peer and keeps the failed set. |
| Hub.SweptFailed | speech-service/speech_service.py:290-294 | Trying one more peer whose send fails adds exactly that peer to the failed set and delivers nothing. |
| Hub.Hub.constructor | speech-service/speech_service.py:104 | No peers, nothing sent. |
| Hub.Hub.SendResponse | speech-service/speech_service.py:262-272 | The event reaches the peer when the send succeeds. A failure changes nothing, and the peer stays registered. |
| Hub.Hub.Connect | speech-service/speech_service.py:164-176 | The peer is registered, then the welcome 'Connected to Ally Speech Service', version '1.0.0', is sent when the send succeeds. |
| Hub.Hub.Disconnect | speech-service/speech_service.py:199-200 | The peer is unregistered and nothing is sent. |
| Hub.Hub.Broadcast | speech-service/speech_service.py:274-297 | No peers means nothing is sent. Otherwise every registered peer whose send succeeds gets the event exactly once, and the registered set becomes the old set minus exactly the failed peers. |
| Hub.Hub.Sweep | speech-service/speech_service.py:285-294 | The sweep tries every registered peer without changing the registered set. It returns exactly the failed peers and delivers the event to exactly the others. |
| Ggwave.ChunksFrom | speech-service/speech_service.py:618-619 | No payloads exactly when the start position is at or past the end. |
| Ggwave.Chunks | speech-service/speech_service.py:618-619 | Empty text yields no payloads, and only empty text does. |
| Ggwave.ChunksFromConcat | speech-service/speech_service.py:618-619 | The payloads from a start position, joined, are the text from that position. |
| Ggwave.ChunksConcat | speech-service/speech_service.py:618-619 | Joining the payloads gives back the text. |
| Ggwave.ChunksFromLengths | speech-service/speech_service.py:618-619 | Every payload is non-empty and at most the payload size; every payload but the last is exactly the payload size. |
| Ggwave.ChunksLengths | speech-service/speech_service.py:618-619 | The same for the whole text. |
| Ggwave.SendGgwave | speech-service/speech_service.py:614-651 | Payloads are played in order until the first failure. Success exactly when the stream opens and every payload plays, and then all payloads were played. |
| Dispatch.Route | speech-service/speech_service.py:216-260 | No action exactly for invalid JSON, JSON that is not an object, a missing or unknown command, or a `synthesize_speech`/`send_ggwave` whose payload is not an object or whose text is empty. Each known command maps to its operation with the payload's text, id and streaming flag. The listening commands get their direct reply. |
| Dispatch.StatusOf | speech-service/speech_service.py:246-255 | The status reports `running`, the device, whether both models loaded, the queue length, the in-flight flag and the current id. |
| Dispatch.Service.HandleMessage | speech-service/speech_service.py:216-260 | Each routed action has its effect on the queue and the outbox. A reply is sent to the peer. Status is read from the synthesis state. ggwave replies `ggwave_sent` with the transmission outcome. `stop_tts` acts as `Stop`. `synthesize_speech` acts as `Enqueue`. No action changes nothing. |
| Dispatch.MinimalReply | speech-service/minimal_service.py:65-112 | An exception escapes exactly for JSON that is not an object and for a `synthesize_speech`/`send_ggwave` whose payload is not an object, carrying that exception's text. Otherwise one reply: 'Invalid JSON' for invalid JSON, 'Unknown command: ' and the command (`None` when missing) for any command but the five it knows, the fixed minimal status snapshot, and the fixed replies of the other four commands. |
| Dispatch.MinimalHandle | speech-service/minimal_service.py:36-49 | The single event sent per message: `error` exactly for invalid JSON, an unknown command, or an escaped exception, whose text it then carries; otherwise the handler's reply. |
| Dispatch.ServicesCompared | speech-service/minimal_service.py:65-112 | Both services agree on the listening replies. Where the full service is silent on invalid JSON, a non-object or an unknown command, the minimal one replies `error`. The only other silence of the full service is an empty text. |

## Left out

- The voice-activity classifier, Whisper, the TTS model, `ggwave.encode` and
  PyAudio streams are foreign libraries and devices. Their results are oracle
  inputs.
- Threads, `asyncio` tasks, `run_in_executor` and the TTS lock are not modelled:
  - Operations are sequential calls.
  - The race between `stop_tts` and a running driver is an oracle that places one stop before a chosen check of a request. A stop that arrives while a synthesis call is awaited is taken at the next check (see the `Synthesis.DriveWithStopReplyLast` line below).
  - Scheduling the driver after an enqueue is a separate call of `ProcessQueue`.
- Sleeps, `time.time()` timestamps and the int16-to-float conversion of audio
  samples involve timing or floating point.
- JSON encoding and decoding, base64, temporary WAV files and `os.remove` are
  serialisation and file plumbing. The events carry raw bytes, and a message
  is reduced to its command and its payload's text, id and streaming flag, or
  to the text of the exception that reading them raises.
- Non-string payload values are not modelled. A JSON `text` or `command` that is not a string, or a non-boolean
  truthy `streaming` value, is outside the input type.
- The regular-expression removal of thinking blocks and markdown in
  `_split_into_sentences` is not modelled. Its result is an oracle input of
  each request (`Run.cleaned`): the sentences come from it, while
  `tts_stream_start`, `tts_stream_complete` and `speech_generated` carry the
  raw request text.
- Synthesis.DriveWithStopReplyLast: a `stop_tts` handled while a synthesis call is
  awaited (lines 446 and 498) is modelled as landing at the next check. In the
  code the interrupted call still completes, so `speech_generated`, a chunk or
  `tts_stream_complete` can follow `tts_stopped`; that ordering is not captured,
  and a stop reply is last only among stops placed at checks.
- Synthesis.DriveStopReplyLast: the same limitation as the line above, for the
  service's own handlers.
- Synthesis.SingleTrace: an `os.remove` that raises after `speech_generated`
  (line 515) would add a `speech_error`; file removal is not modelled.
- Synthesis.StreamChunks: an `os.remove` that raises after a chunk (line 466)
  would end the stream with `tts_stream_error`; file removal is not modelled.
- Dispatch.Service.HandleMessage and the `Synthesis.TtsQueue` methods: their
  outboxes hold the attempted sends. `_send_response` (lines 262-272) catches a
  failed `websocket.send`, logs it and changes no state, so a reply or
  synthesis event recorded there may never reach the peer. Only `Hub` models
  the send outcome (its `ok` oracle).
- Ggwave.SendGgwave: `stop_stream`/`close` raising in the `finally` (lines
  645-647) would report failure after every payload played; the stream's
  closing is assumed to succeed.
- The `_broadcast_handler` polling loop is not modelled; it only moves broadcast-queue items to `_broadcast_message`. The
  `start`/`stop` lifecycle, model and device set-up and environment overrides are not modelled either, and so
  `running` and the device are constant inputs of the status snapshot.
- The `text_queue` is never used by the core and is not modelled.
- The driver's `except Exception` (continue with the next request) is not
  modelled. Both handlers catch every exception themselves, so it cannot fire.
  For the same reason the per-message `error` reply of the full service's
  `handle_client` and the `ggwave_error` reply of `_handle_ggwave_request` are
  not modelled. An exception inside `_handle_stop_tts` (which only logs) is not modelled.
- The `listening_started`/`listening_stopped` replies' constant `{'status': 'ok'}` payload is not
  a field of those events. The constructors imply it.
- The minimal service's own client set (add and discard) is connection
  plumbing identical to the full service's and is not modelled separately.
- start_service.py, quick_test.py and the integration tests are not part of this model.
