/** The synthesis queue: a bounded FIFO of requests, a single-flight driver
    that works through it, cancellation by `stop_tts`, and the events each
    request produces (one-shot or sentence-by-sentence streaming).

    Synthesis itself is an oracle: for the n-th synthesis call of a request,
    `Run.synth(n)` says whether a WAV file came back and was read, whether no
    file came back, or whether reading it raised. Concurrency is replaced by
    a second oracle, `Run.stop`: a `stop_tts` command that a peer gets handled
    just before a given supersession check of the request (or right after the
    request, when it makes fewer checks). A third, `Run.cleaned`, is the
    request text after the thinking blocks and markdown markers have been
    removed; the regular-expression substitutions that produce it are not
    modelled. */
module Synthesis {
  import opened Events
  import opened Text
  import Sentences

  /** Capacity of the request FIFO. */
  const QueueCapacity: nat := 10
  /** Maximum sentence length used by the streaming decomposition. */
  const MaxSentenceLength: nat := Sentences.DefaultMaxSentenceLength

  const ModelNotLoaded := "TTS model not loaded"
  const QueueFullMessage := "TTS queue full, please try again later"
  const StoppedMessage := "TTS processing stopped"
  const IdleMessage := "No TTS currently processing"
  const GenerationFailed := "Failed to generate speech"

  /** A queued `synthesize_speech` request. */
  datatype Request = Request(client: Client, text: string, messageId: MessageId, streaming: bool)

  /** What one synthesis call yields: audio bytes, no file, or an exception
      (with its message) while turning the file into a payload. */
  datatype Synth = Audio(bytes: seq<Byte>) | NoFile | Fault(error: string)

  /** Where, if anywhere, a `stop_tts` from peer `peer` interleaves with the
      processing of one request. */
  datatype Interrupt = NoStop | StopAt(check: nat, peer: Client)

  /** The oracles for one request. */
  datatype Run = Run(synth: nat -> Synth, stop: Interrupt, cleaned: string)

  /** Whether the stop lands just before supersession check `k`. */
  predicate StoppedAt(run: Run, k: nat) {
    run.stop.StopAt? && run.stop.check == k
  }

  /** The events a handler sends to the requesting peer, and whether it was
      cut short by the stop. */
  datatype Handled = Handled(events: seq<Event>, superseded: bool)

  /** The reply to the peer that sent `stop_tts` while a request was in flight. */
  function StopReply(run: Run): seq<Delivery>
    requires run.stop.StopAt?
  {
    [Delivery(run.stop.peer, TtsStopped(StoppedMessage))]
  }

  // ---------------------------------------------------------------------
  // The queue state and its two commands

  /** The shared synthesis state: the FIFO, the in-flight flag and the id of
      the request in flight. */
  datatype TtsState = TtsState(queue: seq<Request>, processing: bool, current: MessageId)

  /** A state change with at most one reply to the requesting peer. */
  datatype Step = Step(state: TtsState, reply: Option<Event>)

  /** `_handle_tts_request`: a request is accepted exactly when the model is
      loaded and the FIFO has room; an accepted request goes to the back and
      gets no reply yet, a rejected one leaves the state alone and gets a
      `speech_error`. */
  function Enqueue(s: TtsState, req: Request, modelLoaded: bool): (r: Step)
    ensures r.reply.None? <==> modelLoaded && |s.queue| < QueueCapacity
    ensures r.reply.None? ==> r.state == s.(queue := s.queue + [req])
    ensures r.reply.Some? ==> r.state == s && r.reply.value.SpeechError? && r.reply.value.taggedId.None?
    ensures !modelLoaded ==> r.reply == Some(SpeechError(ModelNotLoaded, None))
    ensures modelLoaded && |s.queue| >= QueueCapacity ==> r.reply == Some(SpeechError(QueueFullMessage, None))
    ensures |s.queue| <= QueueCapacity ==> |r.state.queue| <= QueueCapacity
  {
    if !modelLoaded then Step(s, Some(SpeechError(ModelNotLoaded, None)))
    else if |s.queue| >= QueueCapacity then Step(s, Some(SpeechError(QueueFullMessage, None)))
    else Step(s.(queue := s.queue + [req]), None)
  }

  /** The result of `stop_tts`: the new state and the reply. */
  datatype Stopped = Stopped(state: TtsState, reply: Event)

  /** `_handle_stop_tts`: while a request is in flight, drop every queued
      request and go idle; when idle, change nothing. Either way reply. */
  function Stop(s: TtsState): (r: Stopped)
    ensures !r.state.processing
    ensures s.processing ==> r.state == TtsState([], false, None) && r.reply == TtsStopped(StoppedMessage)
    ensures !s.processing ==> r.state == s && r.reply == TtsStopped(IdleMessage)
  {
    if s.processing then Stopped(TtsState([], false, None), TtsStopped(StoppedMessage))
    else Stopped(s, TtsStopped(IdleMessage))
  }

  /** A second `stop_tts` changes nothing and reports that nothing is in flight. */
  lemma StopIdempotent(s: TtsState)
    ensures Stop(Stop(s).state).state == Stop(s).state
    ensures Stop(Stop(s).state).reply == TtsStopped(IdleMessage)
  {
  }

  // ---------------------------------------------------------------------
  // Per-request event traces

  /** `_handle_single_tts`: one check, one synthesis call over the whole text. */
  function SingleTrace(text: string, id: MessageId, run: Run): (r: Handled)
    ensures r.superseded <==> StoppedAt(run, 0)
    ensures r.superseded <==> r.events == []
    ensures |r.events| <= 1
    ensures r.events != [] ==>
              (run.synth(0).Audio? && r.events[0] == SpeechGenerated(run.synth(0).bytes, text, id))
              || (r.events[0].SpeechError? && r.events[0].taggedId == Some(id) && !run.synth(0).Audio?)
  {
    if StoppedAt(run, 0) then Handled([], true)
    else
      match run.synth(0)
      case Audio(bytes) => Handled([SpeechGenerated(bytes, text, id)], false)
      case NoFile => Handled([SpeechError(GenerationFailed, Some(id))], false)
      case Fault(error) => Handled([SpeechError(error, Some(id))], false)
  }

  /** The chunk loop of `_handle_streaming_tts` from sentence `i` on: check
      `i + 1` precedes sentence `i`; blank sentences and missing files send
      nothing; an exception sends `tts_stream_error` and ends the request. */
  function StreamChunks(text: string, id: MessageId, sentences: seq<string>, run: Run, i: nat): (r: Handled)
    ensures r.superseded ==> run.stop.StopAt?
    ensures r.events == [] ==> r.superseded
    decreases |sentences| - i
  {
    if i >= |sentences| then Handled([TtsStreamComplete(text, |sentences|, id)], false)
    else if StoppedAt(run, i + 1) then Handled([], true)
    else
      var sentence := Strip(sentences[i]);
      if sentence == [] then StreamChunks(text, id, sentences, run, i + 1)
      else
        match run.synth(i)
        case Audio(bytes) =>
          var rest := StreamChunks(text, id, sentences, run, i + 1);
          var chunk := TtsStreamChunk(bytes, sentence, i, |sentences|, i == |sentences| - 1, id);
          Handled([chunk] + rest.events, rest.superseded)
        case NoFile => StreamChunks(text, id, sentences, run, i + 1)
        case Fault(error) => Handled([TtsStreamError(error, id)], false)
  }

  /** `_handle_streaming_tts` over the given sentences: check 0, then
      `tts_stream_start`, then the chunk loop. */
  function StreamTrace(text: string, id: MessageId, sentences: seq<string>, run: Run): (r: Handled)
    ensures r.superseded ==> run.stop.StopAt?
    ensures r.events == [] <==> StoppedAt(run, 0)
  {
    if StoppedAt(run, 0) then Handled([], true)
    else
      var chunks := StreamChunks(text, id, sentences, run, 0);
      Handled([TtsStreamStart(|sentences|, text, id)] + chunks.events, chunks.superseded)
  }

  /** The handler the driver runs for a request: it sends nothing exactly
      when the stop lands at its first check. */
  function Handle(req: Request, run: Run): (r: Handled)
    ensures r.superseded ==> run.stop.StopAt?
    ensures r.events == [] <==> StoppedAt(run, 0)
    ensures r.events == [] ==> r.superseded
  {
    if req.streaming then StreamTrace(req.text, req.messageId, Sentences.Sentences(run.cleaned, MaxSentenceLength), run)
    else SingleTrace(req.text, req.messageId, run)
  }

  /** One event of the chunk loop started at sentence `from`: a chunk for a
      non-blank sentence the loop reaches, carrying that sentence stripped,
      the audio synthesised for it, the sentence count, `is_final` exactly on
      the last index and the request's id; or the completion; or an error
      for this request. */
  ghost predicate ChunkOk(e: Event, text: string, id: MessageId, sentences: seq<string>, run: Run, from: nat) {
    if e.TtsStreamChunk? then
      && from <= e.chunkIndex < |sentences|
      && Reaches(sentences, run, from, e.chunkIndex)
      && e.totalChunks == |sentences|
      && (e.isFinal <==> e.chunkIndex == |sentences| - 1)
      && e.messageId == id
      && e.text == Strip(sentences[e.chunkIndex]) && e.text != []
      && run.synth(e.chunkIndex) == Audio(e.audio)
    else
      e == TtsStreamComplete(text, |sentences|, id) || (e.TtsStreamError? && e.messageId == id)
  }

  /** A well-formed run of streaming events after `tts_stream_start`: every
      event is as `ChunkOk` says, only the last one may be terminal, and the
      chunk indices strictly increase. */
  ghost predicate WellFormedChunks(events: seq<Event>, text: string, id: MessageId, sentences: seq<string>, run: Run, from: nat) {
    AllChunksOk(events, text, id, sentences, run, from) && OnlyLastTerminal(events) && IndicesIncrease(events)
  }

  /** Every event but the last is a chunk. */
  ghost predicate OnlyLastTerminal(events: seq<Event>) {
    forall k :: 0 <= k < |events| - 1 ==> events[k].TtsStreamChunk?
  }

  /** Chunk indices strictly increase along the events. */
  ghost predicate IndicesIncrease(events: seq<Event>) {
    forall k, l :: 0 <= k < l < |events| && events[k].TtsStreamChunk? && events[l].TtsStreamChunk? ==>
      events[k].chunkIndex < events[l].chunkIndex
  }

  /** Every event satisfies `ChunkOk`. */
  ghost predicate AllChunksOk(events: seq<Event>, text: string, id: MessageId, sentences: seq<string>, run: Run, from: nat) {
    forall k :: 0 <= k < |events| ==> ChunkOk(events[k], text, id, sentences, run, from)
  }

  lemma {:induction false} ChunksFields(text: string, id: MessageId, sentences: seq<string>, run: Run, i: nat)
    ensures AllChunksOk(StreamChunks(text, id, sentences, run, i).events, text, id, sentences, run, i)
    decreases |sentences| - i
  {
    if i < |sentences| && !StoppedAt(run, i + 1) {
      ChunksFields(text, id, sentences, run, i + 1);
      var events := StreamChunks(text, id, sentences, run, i).events;
      var rest := StreamChunks(text, id, sentences, run, i + 1).events;
      assert AllChunksOk(rest, text, id, sentences, run, i + 1);
      var sentence := Strip(sentences[i]);
      if sentence != [] && run.synth(i).Audio? {
        var chunk := TtsStreamChunk(run.synth(i).bytes, sentence, i, |sentences|, i == |sentences| - 1, id);
        assert events == [chunk] + rest;
        forall k | 0 <= k < |events| ensures ChunkOk(events[k], text, id, sentences, run, i) {
          if k > 0 {
            assert events[k] == rest[k - 1];
            ChunkOkWeaken(rest[k - 1], text, id, sentences, run, i);
          }
        }
      } else if !(sentence != [] && run.synth(i).Fault?) {
        assert events == rest;
        forall k | 0 <= k < |events| ensures ChunkOk(events[k], text, id, sentences, run, i) {
          ChunkOkWeaken(rest[k], text, id, sentences, run, i);
        }
      }
    }
  }

  /** An event of the loop from `from + 1` is one of the loop from `from`
      when sentence `from` lets the loop through. */
  lemma ChunkOkWeaken(e: Event, text: string, id: MessageId, sentences: seq<string>, run: Run, from: nat)
    requires from < |sentences| && ClearAt(sentences, run, from)
    requires ChunkOk(e, text, id, sentences, run, from + 1)
    ensures ChunkOk(e, text, id, sentences, run, from)
  {
    if e.TtsStreamChunk? {
      ReachesStep(sentences, run, from, e.chunkIndex);
    }
  }

  /** A sentence the loop reaches from `i + 1` is reached from `i` when
      sentence `i` neither meets a stop nor raises. */
  lemma ReachesStep(sentences: seq<string>, run: Run, i: nat, j: nat)
    requires i < |sentences| && ClearAt(sentences, run, i)
    requires Reaches(sentences, run, i + 1, j)
    ensures Reaches(sentences, run, i, j)
  {
    forall l | i <= l < j
      ensures ClearAt(sentences, run, l)
    {
      if l > i {
        assert i + 1 <= l < j;
      }
    }
  }

  lemma {:induction false} ChunksTerminalLast(text: string, id: MessageId, sentences: seq<string>, run: Run, i: nat)
    ensures OnlyLastTerminal(StreamChunks(text, id, sentences, run, i).events)
    decreases |sentences| - i
  {
    if i < |sentences| && !StoppedAt(run, i + 1) {
      ChunksTerminalLast(text, id, sentences, run, i + 1);
      var events := StreamChunks(text, id, sentences, run, i).events;
      var rest := StreamChunks(text, id, sentences, run, i + 1).events;
      assert OnlyLastTerminal(rest);
      var sentence := Strip(sentences[i]);
      if sentence != [] && run.synth(i).Audio? {
        var chunk := TtsStreamChunk(run.synth(i).bytes, sentence, i, |sentences|, i == |sentences| - 1, id);
        assert events == [chunk] + rest;
        forall k | 0 <= k < |events| - 1 ensures events[k].TtsStreamChunk? {
          if k > 0 {
            assert events[k] == rest[k - 1];
          }
        }
      }
    }
  }

  lemma {:induction false} ChunksOrder(text: string, id: MessageId, sentences: seq<string>, run: Run, i: nat)
    ensures IndicesIncrease(StreamChunks(text, id, sentences, run, i).events)
    decreases |sentences| - i
  {
    if i < |sentences| && !StoppedAt(run, i + 1) {
      ChunksOrder(text, id, sentences, run, i + 1);
      ChunksFields(text, id, sentences, run, i + 1);
      var events := StreamChunks(text, id, sentences, run, i).events;
      var rest := StreamChunks(text, id, sentences, run, i + 1).events;
      assert AllChunksOk(rest, text, id, sentences, run, i + 1);
      assert IndicesIncrease(rest);
      var sentence := Strip(sentences[i]);
      if sentence != [] && run.synth(i).Audio? {
        var chunk := TtsStreamChunk(run.synth(i).bytes, sentence, i, |sentences|, i == |sentences| - 1, id);
        assert events == [chunk] + rest;
        forall k, l | 0 <= k < l < |events| && events[k].TtsStreamChunk? && events[l].TtsStreamChunk?
          ensures events[k].chunkIndex < events[l].chunkIndex
        {
          assert events[l] == rest[l - 1];
          assert ChunkOk(rest[l - 1], text, id, sentences, run, i + 1);
          if k > 0 {
            assert events[k] == rest[k - 1];
            assert rest[k - 1].chunkIndex < rest[l - 1].chunkIndex;
          }
        }
      }
    }
  }

  /** The chunk loop's events are well formed. */
  lemma StreamChunksWellFormed(text: string, id: MessageId, sentences: seq<string>, run: Run, i: nat)
    ensures WellFormedChunks(StreamChunks(text, id, sentences, run, i).events, text, id, sentences, run, i)
  {
    ChunksFields(text, id, sentences, run, i);
    ChunksTerminalLast(text, id, sentences, run, i);
    ChunksOrder(text, id, sentences, run, i);
  }

  /** No interruption from sentence `i` on: no stop lands before any of the
      remaining checks and no remaining non-blank sentence raises. */
  ghost predicate Uninterrupted(sentences: seq<string>, run: Run, i: nat) {
    forall j :: i <= j < |sentences| ==> ClearAt(sentences, run, j)
  }

  /** Sentence `j` neither meets a stop at its check nor raises. */
  ghost predicate ClearAt(sentences: seq<string>, run: Run, j: nat)
    requires j < |sentences|
  {
    !StoppedAt(run, j + 1) && (Strip(sentences[j]) != [] ==> !run.synth(j).Fault?)
  }

  /** With no interruption, the chunk loop ends with `tts_stream_complete`. */
  lemma {:induction false} ChunksComplete(text: string, id: MessageId, sentences: seq<string>, run: Run, i: nat)
    ensures var r := StreamChunks(text, id, sentences, run, i);
      Uninterrupted(sentences, run, i) ==>
        !r.superseded && r.events != [] && r.events[|r.events| - 1] == TtsStreamComplete(text, |sentences|, id)
    decreases |sentences| - i
  {
    if i < |sentences| {
      UninterruptedStep(sentences, run, i);
      if !StoppedAt(run, i + 1) {
        ChunksStep(text, id, sentences, run, i);
        ChunksComplete(text, id, sentences, run, i + 1);
      }
    }
  }

  /** A stop ends the chunk loop silently: the stop lands at a check the
      loop makes, and everything sent before it is a chunk for a sentence
      whose own check comes before the stop. */
  lemma {:induction false} ChunksStopped(text: string, id: MessageId, sentences: seq<string>, run: Run, i: nat)
    ensures var r := StreamChunks(text, id, sentences, run, i);
      r.superseded ==>
        && run.stop.check > i
        && (r.events == [] || r.events[|r.events| - 1].TtsStreamChunk?)
        && forall k :: 0 <= k < |r.events| ==>
             r.events[k].TtsStreamChunk? && r.events[k].chunkIndex + 1 < run.stop.check
    decreases |sentences| - i
  {
    if i < |sentences| && !StoppedAt(run, i + 1) {
      ChunksStopped(text, id, sentences, run, i + 1);
      var events := StreamChunks(text, id, sentences, run, i).events;
      var rest := StreamChunks(text, id, sentences, run, i + 1).events;
      var sentence := Strip(sentences[i]);
      if sentence != [] && run.synth(i).Audio? {
        var chunk := TtsStreamChunk(run.synth(i).bytes, sentence, i, |sentences|, i == |sentences| - 1, id);
        assert events == [chunk] + rest;
        forall k | 0 <= k < |events| && k > 0
          ensures events[k] == rest[k - 1]
        {
        }
      } else if !(sentence != [] && run.synth(i).Fault?) {
        assert events == rest;
      }
    }
  }

  /** Sentence `f` is where the loop from `i` fails: the loop reaches it,
      it is not blank, its synthesis raises, the loop ends with
      `tts_stream_error` carrying that exception, and every event before it is
      a chunk for an earlier sentence. */
  ghost predicate FailedAt(events: seq<Event>, id: MessageId, sentences: seq<string>, run: Run, i: nat, f: nat) {
    && Reaches(sentences, run, i, f)
    && Strip(sentences[f]) != [] && run.synth(f).Fault?
    && events != [] && events[|events| - 1] == TtsStreamError(run.synth(f).error, id)
    && forall k :: 0 <= k < |events| - 1 ==> events[k].TtsStreamChunk? && events[k].chunkIndex < f
  }

  /** An interruption that is not a stop is an exception at a sentence the
      loop reaches, and the chunk loop ends there with `tts_stream_error`. */
  lemma {:induction false} ChunksFailed(text: string, id: MessageId, sentences: seq<string>, run: Run, i: nat)
    ensures !StreamChunks(text, id, sentences, run, i).superseded && !Uninterrupted(sentences, run, i) ==>
      exists f: nat :: FailedAt(StreamChunks(text, id, sentences, run, i).events, id, sentences, run, i, f)
    decreases |sentences| - i
  {
    var r := StreamChunks(text, id, sentences, run, i);
    if i < |sentences| && !r.superseded && !Uninterrupted(sentences, run, i) {
      UninterruptedStep(sentences, run, i);
      var sentence := Strip(sentences[i]);
      if sentence != [] && run.synth(i).Fault? {
        assert FailedAt(r.events, id, sentences, run, i, i);
      } else {
        ChunksFailed(text, id, sentences, run, i + 1);
        var f: nat :| FailedAt(StreamChunks(text, id, sentences, run, i + 1).events, id, sentences, run, i + 1, f);
        FailedAtStep(text, id, sentences, run, i, f);
      }
    }
  }

  /** A failure the loop meets from `i + 1` is one it meets from `i` when
      sentence `i` neither meets a stop nor raises. */
  lemma FailedAtStep(text: string, id: MessageId, sentences: seq<string>, run: Run, i: nat, f: nat)
    requires i < |sentences| && ClearAt(sentences, run, i)
    requires FailedAt(StreamChunks(text, id, sentences, run, i + 1).events, id, sentences, run, i + 1, f)
    ensures FailedAt(StreamChunks(text, id, sentences, run, i).events, id, sentences, run, i, f)
  {
    var events := StreamChunks(text, id, sentences, run, i).events;
    var rest := StreamChunks(text, id, sentences, run, i + 1).events;
    ReachesStep(sentences, run, i, f);
    var sentence := Strip(sentences[i]);
    if sentence != [] && run.synth(i).Audio? {
      var chunk := TtsStreamChunk(run.synth(i).bytes, sentence, i, |sentences|, i == |sentences| - 1, id);
      assert events == [chunk] + rest;
      forall k | 0 <= k < |events| - 1 && k > 0
        ensures events[k] == rest[k - 1]
      {
      }
    } else {
      assert events == rest;
    }
  }

  /** One unfolding of the chunk loop where sentence `i` yields a chunk:
      the chunk goes in front and the last event is that of the rest. */
  lemma ChunksStep(text: string, id: MessageId, sentences: seq<string>, run: Run, i: nat)
    requires i < |sentences| && !StoppedAt(run, i + 1)
    ensures var r := StreamChunks(text, id, sentences, run, i);
      var rest := StreamChunks(text, id, sentences, run, i + 1);
      Strip(sentences[i]) != [] && run.synth(i).Audio? ==>
        && r.superseded == rest.superseded
        && |r.events| == |rest.events| + 1
        && (rest.events != [] ==> r.events[|r.events| - 1] == rest.events[|rest.events| - 1])
  {
  }

  /** The chunk loop ends with `tts_stream_complete` exactly when nothing
      interrupts it. */
  lemma StreamChunksEnding(text: string, id: MessageId, sentences: seq<string>, run: Run, i: nat)
    ensures var r := StreamChunks(text, id, sentences, run, i);
      && (Uninterrupted(sentences, run, i) ==>
            !r.superseded && r.events != [] && r.events[|r.events| - 1] == TtsStreamComplete(text, |sentences|, id))
      && (!Uninterrupted(sentences, run, i) ==>
            r.events == [] || !r.events[|r.events| - 1].TtsStreamComplete?)
  {
    ChunksComplete(text, id, sentences, run, i);
    ChunksStopped(text, id, sentences, run, i);
    ChunksFailed(text, id, sentences, run, i);
  }

  /** The chunk loop started at `i` gets to the synthesis of sentence `j`:
      no sentence before it meets a stop or raises, and no stop lands at its
      own check. */
  ghost predicate Reaches(sentences: seq<string>, run: Run, i: nat, j: nat) {
    && i <= j < |sentences|
    && (forall l :: i <= l < j ==> ClearAt(sentences, run, l))
    && !StoppedAt(run, j + 1)
  }

  /** Some event is a chunk with index `j`. */
  ghost predicate HasChunk(events: seq<Event>, j: nat) {
    exists k :: 0 <= k < |events| && events[k].TtsStreamChunk? && events[k].chunkIndex == j
  }

  /** Exactly one event is a chunk with index `j`. */
  ghost predicate ChunkOnce(events: seq<Event>, j: nat) {
    exists k :: 0 <= k < |events| && events[k].TtsStreamChunk? && events[k].chunkIndex == j &&
      forall l :: 0 <= l < |events| && events[l].TtsStreamChunk? && events[l].chunkIndex == j ==> l == k
  }

  /** A reached sentence that is not blank and yields audio has its chunk
      among the loop's events. */
  lemma {:induction false} ChunkSent(text: string, id: MessageId, sentences: seq<string>, run: Run, i: nat, j: nat)
    requires Reaches(sentences, run, i, j) && Strip(sentences[j]) != [] && run.synth(j).Audio?
    ensures HasChunk(StreamChunks(text, id, sentences, run, i).events, j)
    decreases j - i
  {
    var events := StreamChunks(text, id, sentences, run, i).events;
    if i == j {
      assert events[0].TtsStreamChunk? && events[0].chunkIndex == j;
    } else {
      assert ClearAt(sentences, run, i);
      assert Reaches(sentences, run, i + 1, j);
      ChunkSent(text, id, sentences, run, i + 1, j);
      var rest := StreamChunks(text, id, sentences, run, i + 1).events;
      var k :| 0 <= k < |rest| && rest[k].TtsStreamChunk? && rest[k].chunkIndex == j;
      if Strip(sentences[i]) != [] && run.synth(i).Audio? {
        assert events == [events[0]] + rest;
        assert events[k + 1] == rest[k];
        assert 0 <= k + 1 < |events| && events[k + 1].TtsStreamChunk? && events[k + 1].chunkIndex == j;
      } else {
        assert events == rest;
        assert events[k] == rest[k];
      }
    }
  }

  /** The chunks of the loop are exactly the reached sentences that are not
      blank and yield audio, one chunk each. With no interruption every
      sentence is reached; with a stop at check `m` and no exception, exactly
      the sentences before `m - 1` are. */
  lemma ChunksCover(text: string, id: MessageId, sentences: seq<string>, run: Run, i: nat)
    ensures forall j: nat :: ChunkOnce(StreamChunks(text, id, sentences, run, i).events, j) <==>
      Reaches(sentences, run, i, j) && Strip(sentences[j]) != [] && run.synth(j).Audio?
  {
    var events := StreamChunks(text, id, sentences, run, i).events;
    forall j: nat | ChunkOnce(events, j)
      ensures Reaches(sentences, run, i, j) && Strip(sentences[j]) != [] && run.synth(j).Audio?
    {
      var k :| 0 <= k < |events| && events[k].TtsStreamChunk? && events[k].chunkIndex == j;
      ChunkReached(text, id, sentences, run, i, k);
    }
    ChunksSentOnce(text, id, sentences, run, i);
  }

  /** Every chunk of the loop is for a reached sentence that is not blank
      and yields audio. */
  lemma ChunkReached(text: string, id: MessageId, sentences: seq<string>, run: Run, i: nat, k: nat)
    requires k < |StreamChunks(text, id, sentences, run, i).events|
    requires StreamChunks(text, id, sentences, run, i).events[k].TtsStreamChunk?
    ensures var j := StreamChunks(text, id, sentences, run, i).events[k].chunkIndex;
      Reaches(sentences, run, i, j) && Strip(sentences[j]) != [] && run.synth(j).Audio?
  {
    ChunksFields(text, id, sentences, run, i);
    assert ChunkOk(StreamChunks(text, id, sentences, run, i).events[k], text, id, sentences, run, i);
  }

  /** Every reached sentence that is not blank and yields audio has exactly
      one chunk. */
  lemma ChunksSentOnce(text: string, id: MessageId, sentences: seq<string>, run: Run, i: nat)
    ensures forall j: nat :: Reaches(sentences, run, i, j) && Strip(sentences[j]) != [] && run.synth(j).Audio? ==>
      ChunkOnce(StreamChunks(text, id, sentences, run, i).events, j)
  {
    var events := StreamChunks(text, id, sentences, run, i).events;
    ChunksOrder(text, id, sentences, run, i);
    forall j: nat | Reaches(sentences, run, i, j) && Strip(sentences[j]) != [] && run.synth(j).Audio?
      ensures ChunkOnce(events, j)
    {
      ChunkSent(text, id, sentences, run, i, j);
      var k :| 0 <= k < |events| && events[k].TtsStreamChunk? && events[k].chunkIndex == j;
      forall l | 0 <= l < |events| && events[l].TtsStreamChunk? && events[l].chunkIndex == j
        ensures l == k
      {
      }
    }
  }

  /** Without interruption, every sentence is reached. */
  lemma UninterruptedReaches(sentences: seq<string>, run: Run, i: nat, j: nat)
    requires Uninterrupted(sentences, run, i) && i <= j < |sentences|
    ensures Reaches(sentences, run, i, j)
  {
    assert ClearAt(sentences, run, j);
  }

  lemma UninterruptedStep(sentences: seq<string>, run: Run, i: nat)
    requires i < |sentences|
    ensures Uninterrupted(sentences, run, i) <==>
              && !StoppedAt(run, i + 1) && (Strip(sentences[i]) != [] ==> !run.synth(i).Fault?)
              && Uninterrupted(sentences, run, i + 1)
  {
    assert Uninterrupted(sentences, run, i) ==> ClearAt(sentences, run, i);
  }

  /** The whole streaming trace: nothing when the first check fails;
      otherwise `tts_stream_start` with the sentence count followed by a
      well-formed chunk run that ends in `tts_stream_complete` exactly when
      nothing interrupts it, and whose chunks are exactly one for every
      reached sentence that is not blank and yields audio. */
  lemma StreamTraceShape(text: string, id: MessageId, sentences: seq<string>, run: Run)
    ensures var r := StreamTrace(text, id, sentences, run);
      && (StoppedAt(run, 0) <==> r.events == [])
      && (r.events != [] ==>
            && r.events[0] == TtsStreamStart(|sentences|, text, id)
            && WellFormedChunks(r.events[1..], text, id, sentences, run, 0)
            && (|r.events| >= 2 && r.events[|r.events| - 1].TtsStreamComplete?
                <==> Uninterrupted(sentences, run, 0))
            && (forall j: nat :: ChunkOnce(r.events[1..], j) <==>
                  Reaches(sentences, run, 0, j) && Strip(sentences[j]) != [] && run.synth(j).Audio?))
  {
    var r := StreamTrace(text, id, sentences, run);
    if !StoppedAt(run, 0) {
      var c := StreamChunks(text, id, sentences, run, 0);
      assert r.events[1..] == c.events;
      StreamChunksWellFormed(text, id, sentences, run, 0);
      StreamChunksEnding(text, id, sentences, run, 0);
      ChunksCover(text, id, sentences, run, 0);
    }
  }

  /** A stop handled before the first chunk's check: only `tts_stream_start`
      has been sent, and no completion follows. */
  lemma StopBeforeFirstChunk(text: string, id: MessageId, sentences: seq<string>, run: Run)
    requires sentences != [] && StoppedAt(run, 1)
    ensures StreamTrace(text, id, sentences, run) == Handled([TtsStreamStart(|sentences|, text, id)], true)
  {
  }

  // ---------------------------------------------------------------------
  // The driver

  /** The events a handler sends to the requesting peer. */
  function Served(req: Request, run: Run): seq<Delivery> {
    DeliverAll(req.client, Handle(req, run).events)
  }

  /** What `_process_tts_queue` sends, request by request in FIFO order,
      when it starts on `queue` with the oracles `oracle(k)` for the k-th
      request: what `serve` says the request's handler sends and, where a
      stop interleaves, the stop reply, after which the emptied queue ends
      the drive. The handler is a parameter so that the properties of the
      driver below are proved once, independently of what handlers send. */
  function DriveWith(serve: (Request, Run) -> seq<Delivery>, queue: seq<Request>, oracle: nat -> Run, k: nat): seq<Delivery>
    decreases |queue|
  {
    if queue == [] then []
    else
      var run := oracle(k);
      match run.stop
      case StopAt(_, _) => serve(queue[0], run) + StopReply(run)
      case NoStop => serve(queue[0], run) + DriveWith(serve, queue[1..], oracle, k + 1)
  }

  /** The drive with the service's own handlers: the oldest request is
      served first. */
  function Drive(queue: seq<Request>, oracle: nat -> Run, k: nat): (r: seq<Delivery>)
    ensures queue == [] ==> r == []
    ensures queue != [] ==> |Served(queue[0], oracle(k))| <= |r| && r[..|Served(queue[0], oracle(k))|] == Served(queue[0], oracle(k))
  {
    DriveWith(Served, queue, oracle, k)
  }

  /** One step of the drive. */
  lemma DriveStep(queue: seq<Request>, oracle: nat -> Run, k: nat)
    requires queue != []
    ensures Drive(queue, oracle, k)
            == Served(queue[0], oracle(k))
               + (if oracle(k).stop.StopAt? then StopReply(oracle(k)) else Drive(queue[1..], oracle, k + 1))
  {
  }

  /** No stop among the oracles of requests `k` to `k + n - 1`. */
  ghost predicate NoStops(oracle: nat -> Run, k: nat, n: nat) {
    forall j :: k <= j < k + n ==> oracle(j).stop.NoStop?
  }

  lemma {:induction false} DriveWithAppend(serve: (Request, Run) -> seq<Delivery>, front: seq<Request>, back: seq<Request>,
                                           oracle: nat -> Run, k: nat)
    requires NoStops(oracle, k, |front|)
    ensures DriveWith(serve, front + back, oracle, k)
            == DriveWith(serve, front, oracle, k) + DriveWith(serve, back, oracle, k + |front|)
    decreases |front|
  {
    if front == [] {
      assert front + back == back;
    } else {
      var run := oracle(k);
      assert (front + back)[0] == front[0];
      assert (front + back)[1..] == front[1..] + back;
      assert run.stop.NoStop?;
      DriveWithAppend(serve, front[1..], back, oracle, k + 1);
      calc {
        DriveWith(serve, front + back, oracle, k);
        serve(front[0], run) + DriveWith(serve, front[1..] + back, oracle, k + 1);
        serve(front[0], run) + (DriveWith(serve, front[1..], oracle, k + 1) + DriveWith(serve, back, oracle, k + |front|));
        (serve(front[0], run) + DriveWith(serve, front[1..], oracle, k + 1)) + DriveWith(serve, back, oracle, k + |front|);
        DriveWith(serve, front, oracle, k) + DriveWith(serve, back, oracle, k + |front|);
      }
    }
  }

  /** FIFO: requests queued behind others are processed after them, exactly
      as if the earlier ones had been processed first on their own. */
  lemma DriveAppend(front: seq<Request>, back: seq<Request>, oracle: nat -> Run, k: nat)
    requires NoStops(oracle, k, |front|)
    ensures Drive(front + back, oracle, k) == Drive(front, oracle, k) + Drive(back, oracle, k + |front|)
  {
    DriveWithAppend(Served, front, back, oracle, k);
  }

  /** A handler that never sends `tts_stopped` itself. */
  ghost predicate NoStopReplies(serve: (Request, Run) -> seq<Delivery>) {
    forall req, run, j :: 0 <= j < |serve(req, run)| ==> !serve(req, run)[j].event.TtsStopped?
  }

  lemma {:induction false} DriveWithStopReplyLast(serve: (Request, Run) -> seq<Delivery>, queue: seq<Request>,
                                                  oracle: nat -> Run, k: nat)
    requires NoStopReplies(serve)
    ensures var d := DriveWith(serve, queue, oracle, k);
      && (forall j :: 0 <= j < |d| - 1 ==> !d[j].event.TtsStopped?)
      && (d != [] && d[|d| - 1].event.TtsStopped? <==> !NoStops(oracle, k, |queue|))
    decreases |queue|
  {
    if queue != [] {
      var run := oracle(k);
      var s := serve(queue[0], run);
      var d := DriveWith(serve, queue, oracle, k);
      if run.stop.NoStop? {
        var rest := DriveWith(serve, queue[1..], oracle, k + 1);
        DriveWithStopReplyLast(serve, queue[1..], oracle, k + 1);
        assert d == s + rest;
        if NoStops(oracle, k + 1, |queue| - 1) {
          assert NoStops(oracle, k, |queue|);
        }
      } else {
        assert d == s + StopReply(run);
      }
    }
  }

  /** A stop reply is the last thing a drive sends, so there is at most one,
      and there is one exactly when some request met a stop. */
  lemma DriveStopReplyLast(queue: seq<Request>, oracle: nat -> Run, k: nat)
    ensures var d := Drive(queue, oracle, k);
      && (forall j :: 0 <= j < |d| - 1 ==> !d[j].event.TtsStopped?)
      && (d != [] && d[|d| - 1].event.TtsStopped? <==> !NoStops(oracle, k, |queue|))
  {
    forall req, run, j | 0 <= j < |Served(req, run)|
      ensures !Served(req, run)[j].event.TtsStopped?
    {
      HandleSendsNoStopReply(req, run);
      DeliverAllAt(req.client, Handle(req, run).events, j);
      assert Handle(req, run).events[j] in Handle(req, run).events;
    }
    DriveWithStopReplyLast(Served, queue, oracle, k);
  }

  lemma HandleSendsNoStopReply(req: Request, run: Run)
    ensures forall e :: e in Handle(req, run).events ==> !e.TtsStopped?
  {
    if req.streaming {
      var s := Sentences.Sentences(run.cleaned, MaxSentenceLength);
      StreamChunksWellFormed(req.text, req.messageId, s, run, 0);
      var r := StreamTrace(req.text, req.messageId, s, run);
      if r.events != [] {
        assert r.events == [r.events[0]] + r.events[1..];
      }
    }
  }

  /** The first check fails: the streaming handler sends nothing. */
  lemma StreamTraceStopped(text: string, id: MessageId, sentences: seq<string>, run: Run)
    requires StoppedAt(run, 0)
    ensures StreamTrace(text, id, sentences, run) == Handled([], true)
  {
  }

  /** The first check passes: `tts_stream_start` goes first, then the chunk
      loop's events. */
  lemma StreamTraceStarted(client: Client, sent: seq<Delivery>, text: string, id: MessageId, sentences: seq<string>, run: Run)
    requires !StoppedAt(run, 0)
    ensures var h := StreamTrace(text, id, sentences, run);
      var chunks := StreamChunks(text, id, sentences, run, 0);
      && h.superseded == chunks.superseded
      && sent + [Delivery(client, TtsStreamStart(|sentences|, text, id))] + DeliverAll(client, chunks.events)
         == sent + DeliverAll(client, h.events)
  {
    var chunks := StreamChunks(text, id, sentences, run, 0);
    var start := TtsStreamStart(|sentences|, text, id);
    DeliverAllAppend(client, [start], chunks.events);
    assert DeliverAll(client, [start]) == [Delivery(client, start)];
  }

  /** Regrouping the outbox around one served request; kept as a lemma so
      that the driver step does not reason about the three sequences
      itself. */
  lemma Regroup(a: seq<Delivery>, b: seq<Delivery>, c: seq<Delivery>)
    ensures a + b + c == a + (b + c)
  {
  }

  // ---------------------------------------------------------------------
  // The queue object

  class TtsQueue {
    /** Whether the synthesis model loaded at start-up. */
    const modelLoaded: bool
    var queue: seq<Request>
    var isProcessing: bool
    var currentId: MessageId
    /** Every event sent by the synthesis side, in order. */
    var outbox: seq<Delivery>

    function State(): TtsState
      reads this
    {
      TtsState(queue, isProcessing, currentId)
    }

    ghost predicate Valid()
      reads this
    {
      |queue| <= QueueCapacity
    }

    constructor (modelLoaded: bool)
      ensures Valid() && this.modelLoaded == modelLoaded
      ensures State() == TtsState([], false, None) && outbox == []
    {
      this.modelLoaded := modelLoaded;
      queue, isProcessing, currentId, outbox := [], false, None, [];
    }

    /** `_handle_tts_request`, up to the point where it schedules the driver. */
    method HandleTtsRequest(client: Client, text: string, messageId: MessageId, streaming: bool)
      requires Valid()
      modifies this
      ensures Valid()
      ensures var step := Enqueue(old(State()), Request(client, text, messageId, streaming), modelLoaded);
        && State() == step.state
        && outbox == old(outbox) + (if step.reply.Some? then [Delivery(client, step.reply.value)] else [])
    {
      if !modelLoaded {
        outbox := outbox + [Delivery(client, SpeechError(ModelNotLoaded, None))];
        return;
      }
      if |queue| < QueueCapacity {
        queue := queue + [Request(client, text, messageId, streaming)];
      } else {
        outbox := outbox + [Delivery(client, SpeechError(QueueFullMessage, None))];
      }
    }

    /** `_handle_stop_tts`. */
    method HandleStopTts(client: Client)
      requires Valid()
      modifies this
      ensures Valid()
      ensures State() == Stop(old(State())).state
      ensures outbox == old(outbox) + [Delivery(client, Stop(old(State())).reply)]
    {
      if isProcessing {
        while queue != []
          invariant Valid() && isProcessing
          invariant currentId == old(currentId) && outbox == old(outbox)
          decreases |queue|
        {
          queue := queue[1..];
        }
        isProcessing := false;
        currentId := None;
        outbox := outbox + [Delivery(client, TtsStopped(StoppedMessage))];
      } else {
        outbox := outbox + [Delivery(client, TtsStopped(IdleMessage))];
      }
    }

    /** The supersession test. */
    function Superseded(id: MessageId): bool
      reads this
    {
      !isProcessing || currentId != id
    }

    /** A supersession check: first the interleaved stop, if it lands here. */
    method Check(run: Run, k: nat, id: MessageId) returns (superseded: bool)
      requires Valid() && isProcessing && currentId == id
      modifies this
      ensures Valid()
      ensures superseded <==> StoppedAt(run, k)
      ensures superseded ==> State() == TtsState([], false, None) && outbox == old(outbox) + StopReply(run)
      ensures !superseded ==> State() == old(State()) && outbox == old(outbox)
    {
      if StoppedAt(run, k) {
        HandleStopTts(run.stop.peer);
      }
      superseded := Superseded(id);
    }

    /** `_handle_single_tts`. */
    method HandleSingleTts(req: Request, run: Run)
      requires Valid() && isProcessing && currentId == req.messageId
      modifies this
      ensures Valid()
      ensures var h := SingleTrace(req.text, req.messageId, run);
        && outbox == old(outbox) + DeliverAll(req.client, h.events) + (if h.superseded then StopReply(run) else [])
        && State() == (if h.superseded then TtsState([], false, None) else old(State()))
    {
      var superseded := Check(run, 0, req.messageId);
      if superseded {
        return;
      }
      var event;
      match run.synth(0) {
        case Audio(bytes) => event := SpeechGenerated(bytes, req.text, req.messageId);
        case NoFile => event := SpeechError(GenerationFailed, Some(req.messageId));
        case Fault(error) => event := SpeechError(error, Some(req.messageId));
      }
      outbox := outbox + [Delivery(req.client, event)];
    }

    /** `_handle_streaming_tts`. */
    method HandleStreamingTts(req: Request, run: Run)
      requires Valid() && isProcessing && currentId == req.messageId
      modifies this
      ensures Valid()
      ensures var h := StreamTrace(req.text, req.messageId, Sentences.Sentences(run.cleaned, MaxSentenceLength), run);
        && outbox == old(outbox) + DeliverAll(req.client, h.events) + (if h.superseded then StopReply(run) else [])
        && State() == (if h.superseded then TtsState([], false, None) else old(State()))
    {
      var superseded := Check(run, 0, req.messageId);
      if superseded {
        StreamTraceStopped(req.text, req.messageId, Sentences.Sentences(run.cleaned, MaxSentenceLength), run);
        return;
      }
      var sentences := Sentences.SplitIntoSentences(run.cleaned, MaxSentenceLength);
      var start := TtsStreamStart(|sentences|, req.text, req.messageId);
      outbox := outbox + [Delivery(req.client, start)];
      StreamSentences(req.client, req.text, req.messageId, sentences, run);
      StreamTraceStarted(req.client, old(outbox), req.text, req.messageId, sentences, run);
    }

    /** The sentence loop of `_handle_streaming_tts`, with the completion
        signal that follows it. */
    method StreamSentences(client: Client, text: string, id: MessageId, sentences: seq<string>, run: Run)
      requires Valid() && isProcessing && currentId == id
      modifies this
      ensures Valid()
      ensures var h := StreamChunks(text, id, sentences, run, 0);
        && outbox == old(outbox) + DeliverAll(client, h.events) + (if h.superseded then StopReply(run) else [])
        && State() == (if h.superseded then TtsState([], false, None) else old(State()))
    {
      var n := |sentences|;
      var i := 0;
      while i < n
        invariant 0 <= i <= n && Valid()
        invariant isProcessing && currentId == id && State() == old(State())
        invariant StreamChunks(text, id, sentences, run, i).superseded == StreamChunks(text, id, sentences, run, 0).superseded
        invariant outbox + DeliverAll(client, StreamChunks(text, id, sentences, run, i).events)
                  == old(outbox) + DeliverAll(client, StreamChunks(text, id, sentences, run, 0).events)
      {
        var done := StreamSentence(client, text, id, sentences, run, i);
        if done {
          return;
        }
        i := i + 1;
      }
      outbox := outbox + [Delivery(client, TtsStreamComplete(text, n, id))];
    }

    /** One pass of the sentence loop: the check, then the chunk for sentence
        `i` if it is not blank and synthesis yields audio. It reports whether
        the request ended here, by a stop or an exception. */
    method StreamSentence(client: Client, text: string, id: MessageId, sentences: seq<string>, run: Run, i: nat)
      returns (done: bool)
      requires i < |sentences| && Valid() && isProcessing && currentId == id
      modifies this
      ensures Valid()
      ensures var h := StreamChunks(text, id, sentences, run, i);
        var rest := StreamChunks(text, id, sentences, run, i + 1);
        if done then
          && outbox == old(outbox) + DeliverAll(client, h.events) + (if h.superseded then StopReply(run) else [])
          && State() == (if h.superseded then TtsState([], false, None) else old(State()))
        else
          && outbox + DeliverAll(client, rest.events) == old(outbox) + DeliverAll(client, h.events)
          && rest.superseded == h.superseded
          && State() == old(State())
    {
      done := Check(run, i + 1, id);
      if done {
        return;
      }
      var sentence := Strip(sentences[i]);
      if sentence != [] {
        match run.synth(i) {
          case Audio(bytes) =>
            var chunk := TtsStreamChunk(bytes, sentence, i, |sentences|, i == |sentences| - 1, id);
            DeliverAllAppend(client, [chunk], StreamChunks(text, id, sentences, run, i + 1).events);
            outbox := outbox + [Delivery(client, chunk)];
          case NoFile =>
          case Fault(error) =>
            outbox := outbox + [Delivery(client, TtsStreamError(error, id))];
            done := true;
        }
      }
    }

    /** `_process_tts_queue`: the single-flight driver. It does nothing when a
      drive is already running or the queue is empty; otherwise it takes the
      requests in FIFO order, marks each as current, runs its handler, and at
      the end always goes back to idle. */
    method ProcessQueue(oracle: nat -> Run)
      requires Valid()
      modifies this
      ensures Valid()
      ensures old(isProcessing) || old(queue) == [] ==> State() == old(State()) && outbox == old(outbox)
      ensures !old(isProcessing) && old(queue) != [] ==>
                State() == TtsState([], false, None) && outbox == old(outbox) + Drive(old(queue), oracle, 0)
    {
      if isProcessing || queue == [] {
        return;
      }
      isProcessing := true;
      ghost var start := queue;
      var k := 0;
      while queue != []
        invariant Valid()
        invariant queue != [] ==> isProcessing
        invariant outbox + Drive(queue, oracle, k) == old(outbox) + Drive(start, oracle, 0)
        decreases |queue|
      {
        ServeNext(oracle, k);
        k := k + 1;
      }
      isProcessing := false;
      currentId := None;
    }

    /** One pass of the driver loop: dequeue the oldest request, make it
        current, run its handler, and handle a stop that lands after it. */
    method ServeNext(oracle: nat -> Run, k: nat)
      requires Valid() && isProcessing && queue != []
      modifies this
      ensures Valid()
      ensures |queue| < |old(queue)|
      ensures queue != [] ==> isProcessing
      ensures outbox + Drive(queue, oracle, k + 1) == old(outbox) + Drive(old(queue), oracle, k)
    {
      var req := queue[0];
      var run := oracle(k);
      DriveStep(queue, oracle, k);
      ghost var before, rest, served := outbox, queue[1..], Served(req, run);
      queue := queue[1..];
      currentId := req.messageId;
      RunHandler(req, run);
      if run.stop.StopAt? {
        if isProcessing {
          HandleStopTts(run.stop.peer);
        }
        assert queue == [] && outbox == before + served + StopReply(run);
        Regroup(before, served, StopReply(run));
        assert outbox + Drive(queue, oracle, k + 1) == outbox;
      } else {
        assert queue == rest && outbox == before + served;
        Regroup(before, served, Drive(rest, oracle, k + 1));
      }
    }

    /** The handler the driver picks for a request. */
    method RunHandler(req: Request, run: Run)
      requires Valid() && isProcessing && currentId == req.messageId
      modifies this
      ensures Valid()
      ensures var h := Handle(req, run);
        && outbox == old(outbox) + Served(req, run) + (if h.superseded then StopReply(run) else [])
        && State() == (if h.superseded then TtsState([], false, None) else old(State()))
    {
      if req.streaming {
        HandleStreamingTts(req, run);
      } else {
        HandleSingleTts(req, run);
      }
    }
  }
}
