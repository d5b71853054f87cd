/** Voice-activity-gated segmentation of captured audio frames into
    utterances, and the recognition worker that consumes them.

    The capture loop receives one frame at a time together with the
    classifier's verdict (an input here: the classifier itself is not
    modelled). Speech frames accumulate in the speech buffer; silence frames
    advance the silence counter and run the flush check, which hands the
    joined buffer to the bounded audio queue. */
module Segmentation {
  import opened Events
  import opened Text
  import Recognition

  /** One captured block of 16-bit PCM samples, as raw bytes. */
  type Frame = seq<Byte>

  /** The thresholds of the flush rule, counted in frames. */
  datatype Config = Config(silenceThreshold: nat, maxSpeechChunks: nat, minSpeechChunks: nat)

  /** The service's default thresholds. */
  const DefaultConfig := Config(2, 100, 10)

  /** The audio queue is created with room for five utterances ... */
  const AudioQueueCapacity: nat := 5
  /** ... but a flush only hands an utterance over while it holds fewer than three. */
  const AudioQueueAcceptBelow: nat := 3

  /** What the capture loop learns about one frame: the classifier's verdict,
      or that reading or classifying the frame raised (the iteration is then
      logged and skipped). */
  datatype Verdict = Speech | Silence | CaptureFault

  /** The segmentation state: the speech buffer, the consecutive-silence
      counter and the audio queue of joined utterances. */
  datatype SegState = SegState(buffer: seq<Frame>, silence: nat, audioQueue: seq<seq<Byte>>)

  /** The flush condition: enough speech, and either enough silence after it
      or a buffer that reached the maximum length. */
  predicate ShouldFlush(config: Config, buffer: seq<Frame>, silence: nat) {
    |buffer| >= config.minSpeechChunks
    && (silence >= config.silenceThreshold || |buffer| >= config.maxSpeechChunks)
  }

  /** The flush rule. On a flush the buffer is cleared whether or not the
      joined utterance found room in the audio queue; the silence counter is
      left alone. */
  function Flush(config: Config, s: SegState): (r: SegState)
    ensures r.silence == s.silence
    ensures !ShouldFlush(config, s.buffer, s.silence) ==> r == s
    ensures ShouldFlush(config, s.buffer, s.silence) ==>
              r.buffer == [] && r.audioQueue == (if |s.audioQueue| < AudioQueueAcceptBelow
                                                 then s.audioQueue + [Concat(s.buffer)] else s.audioQueue)
  {
    if ShouldFlush(config, s.buffer, s.silence) then
      var queue := if |s.audioQueue| < AudioQueueAcceptBelow then s.audioQueue + [Concat(s.buffer)] else s.audioQueue;
      SegState([], s.silence, queue)
    else
      s
  }

  /** One iteration of the capture loop. */
  function Observe(config: Config, s: SegState, frame: Frame, verdict: Verdict): SegState {
    match verdict
    case Speech => s.(buffer := s.buffer + [frame], silence := 0)
    case Silence => Flush(config, s.(silence := s.silence + 1))
    case CaptureFault => s
  }

  /** Whether observing `verdict` in state `s` flushes the buffer. */
  predicate Flushes(config: Config, s: SegState, verdict: Verdict) {
    verdict == Silence && ShouldFlush(config, s.buffer, s.silence + 1)
  }

  /** One frame: a speech frame never flushes; a silence frame flushes exactly
      when the flush condition holds with the incremented counter; an
      utterance handed over always has at least the minimum number of frames. */
  lemma ObserveStep(config: Config, s: SegState, frame: Frame, verdict: Verdict)
    ensures var r := Observe(config, s, frame, verdict);
      && (verdict == Speech ==> r.buffer == s.buffer + [frame] && r.silence == 0 && r.audioQueue == s.audioQueue)
      && (verdict == Silence ==> r.silence == s.silence + 1)
      && (verdict == CaptureFault ==> r == s)
      && (!Flushes(config, s, verdict) ==> r.audioQueue == s.audioQueue)
      && (Flushes(config, s, verdict) ==>
            && r.buffer == []
            && |s.buffer| >= config.minSpeechChunks
            && (|s.audioQueue| < AudioQueueAcceptBelow <==> r.audioQueue == s.audioQueue + [Concat(s.buffer)])
            && (|s.audioQueue| >= AudioQueueAcceptBelow <==> r.audioQueue == s.audioQueue))
  {
  }

  /** The state after a run of frames. */
  function Run(config: Config, s: SegState, frames: seq<(Frame, Verdict)>): SegState
    decreases |frames|
  {
    if frames == [] then s else Run(config, Observe(config, s, frames[0].0, frames[0].1), frames[1..])
  }

  /** The buffers flushed during a run, in order (each one was joined and
      either queued or dropped). */
  function Flushed(config: Config, s: SegState, frames: seq<(Frame, Verdict)>): seq<seq<Frame>>
    decreases |frames|
  {
    if frames == [] then []
    else
      var next := Observe(config, s, frames[0].0, frames[0].1);
      (if Flushes(config, s, frames[0].1) then [s.buffer] else []) + Flushed(config, next, frames[1..])
  }

  /** The speech frames of a run, in order. */
  function SpeechFrames(frames: seq<(Frame, Verdict)>): seq<Frame> {
    if frames == [] then []
    else (if frames[0].1 == Speech then [frames[0].0] else []) + SpeechFrames(frames[1..])
  }

  /** One frame conserves the buffered frames: what it flushes followed by
      the new buffer is the old buffer followed by the frame if it is speech. */
  lemma ObserveConservesFrames(config: Config, s: SegState, frame: Frame, verdict: Verdict)
    ensures var head := if Flushes(config, s, verdict) then [s.buffer] else [];
      Concat(head) + Observe(config, s, frame, verdict).buffer
      == s.buffer + (if verdict == Speech then [frame] else [])
  {
    if Flushes(config, s, verdict) {
      assert Concat([s.buffer]) == s.buffer + Concat([s.buffer][1..]);
    }
  }

  /** No speech frame is lost or duplicated by the buffer: the flushed buffers
      followed by what is still buffered are exactly the frames that were
      buffered before the run followed by the run's speech frames. */
  lemma {:induction false} RunConservesFrames(config: Config, s: SegState, frames: seq<(Frame, Verdict)>)
    ensures Concat(Flushed(config, s, frames)) + Run(config, s, frames).buffer == s.buffer + SpeechFrames(frames)
    decreases |frames|
  {
    if frames != [] {
      var frame, verdict := frames[0].0, frames[0].1;
      var next := Observe(config, s, frame, verdict);
      var rest := Flushed(config, next, frames[1..]);
      var head := if Flushes(config, s, verdict) then [s.buffer] else [];
      var spoken := if verdict == Speech then [frame] else [];
      assert Flushed(config, s, frames) == head + rest;
      assert Run(config, s, frames) == Run(config, next, frames[1..]);
      assert SpeechFrames(frames) == spoken + SpeechFrames(frames[1..]);
      RunConservesFrames(config, next, frames[1..]);
      ConcatAppend(head, rest);
      ObserveConservesFrames(config, s, frame, verdict);
      var final := Run(config, next, frames[1..]).buffer;
      assert Concat(head) + Concat(rest) + final == Concat(head) + (Concat(rest) + final);
      assert Concat(head) + next.buffer + SpeechFrames(frames[1..])
             == Concat(head) + (next.buffer + SpeechFrames(frames[1..]));
      assert Concat(head) + next.buffer + SpeechFrames(frames[1..])
             == s.buffer + spoken + SpeechFrames(frames[1..]);
    }
  }

  /** Every flushed buffer holds at least the minimum number of frames. */
  lemma {:induction false} FlushedAtLeastMin(config: Config, s: SegState, frames: seq<(Frame, Verdict)>)
    ensures forall b :: b in Flushed(config, s, frames) ==> |b| >= config.minSpeechChunks
    decreases |frames|
  {
    if frames != [] {
      FlushedAtLeastMin(config, Observe(config, s, frames[0].0, frames[0].1), frames[1..]);
    }
  }

  /** Segmentation alone never fills the audio queue past three utterances,
      so the queue's own capacity of five is never what rejects one. */
  lemma {:induction false} RunKeepsQueueShort(config: Config, s: SegState, frames: seq<(Frame, Verdict)>)
    requires |s.audioQueue| <= AudioQueueAcceptBelow
    ensures |Run(config, s, frames).audioQueue| <= AudioQueueAcceptBelow < AudioQueueCapacity
    ensures s.audioQueue <= Run(config, s, frames).audioQueue
    decreases |frames|
  {
    if frames != [] {
      RunKeepsQueueShort(config, Observe(config, s, frames[0].0, frames[0].1), frames[1..]);
    }
  }

  /** The flush check runs only on silence frames, so an uninterrupted run of
      speech grows the buffer past the maximum: with the default thresholds,
      101 speech frames followed by one silence frame flush a 101-frame
      utterance. */
  lemma LongSpeechExceedsMax(frame: Frame)
    ensures var s := SegState(seq(100, _ => frame), 0, []);
            var r := Run(DefaultConfig, s, [(frame, Speech), (frame, Silence)]);
            var f := Flushed(DefaultConfig, s, [(frame, Speech), (frame, Silence)]);
            |f| == 1 && |f[0]| == 101 > DefaultConfig.maxSpeechChunks && r.buffer == [] && |r.audioQueue| == 1
  {
    var s := SegState(seq(100, _ => frame), 0, []);
    var frames := [(frame, Speech), (frame, Silence)];
    var s1 := Observe(DefaultConfig, s, frame, Speech);
    assert |s1.buffer| == 101;
    var s2 := Observe(DefaultConfig, s1, frame, Silence);
    assert Flushes(DefaultConfig, s1, Silence);
    assert s2.buffer == [] && |s2.audioQueue| == 1;
    assert frames[1..] == [(frame, Silence)] && frames[1..][1..] == [];
    assert Flushed(DefaultConfig, s1, frames[1..]) == [s1.buffer];
    assert Flushed(DefaultConfig, s, frames) == [s1.buffer];
    assert Run(DefaultConfig, s1, frames[1..]) == s2;
  }

  /** The capture and recognition threads' shared state. The broadcast queue
      is drained by the broadcast handler, which is not part of this model. */
  class Capture {
    const config: Config
    var speechBuffer: seq<Frame>
    var silenceCounter: nat
    var audioQueue: seq<seq<Byte>>
    var broadcastQueue: seq<Event>

    function State(): SegState
      reads this
    {
      SegState(speechBuffer, silenceCounter, audioQueue)
    }

    /** Neither queue exceeds what its producer lets it reach. */
    ghost predicate Valid()
      reads this
    {
      |audioQueue| <= AudioQueueAcceptBelow && |broadcastQueue| <= Recognition.BroadcastCapacity
    }

    constructor (config: Config)
      ensures Valid() && this.config == config
      ensures State() == SegState([], 0, []) && broadcastQueue == []
    {
      this.config := config;
      speechBuffer, silenceCounter := [], 0;
      audioQueue, broadcastQueue := [], [];
    }

    /** The flush check. */
    method ProcessSpeechBuffer()
      requires Valid()
      modifies this
      ensures Valid() && State() == Flush(config, old(State()))
      ensures broadcastQueue == old(broadcastQueue)
    {
      if |speechBuffer| >= config.minSpeechChunks {
        if silenceCounter >= config.silenceThreshold || |speechBuffer| >= config.maxSpeechChunks {
          if |audioQueue| < AudioQueueAcceptBelow {
            audioQueue := audioQueue + [Concat(speechBuffer)];
          }
          speechBuffer := [];
        }
      }
    }

    /** One iteration of the capture loop for a frame and its verdict. */
    method OnFrame(frame: Frame, verdict: Verdict)
      requires Valid()
      modifies this
      ensures Valid() && State() == Observe(config, old(State()), frame, verdict)
      ensures broadcastQueue == old(broadcastQueue)
    {
      match verdict {
        case Speech =>
          speechBuffer := speechBuffer + [frame];
          silenceCounter := 0;
        case Silence =>
          silenceCounter := silenceCounter + 1;
          ProcessSpeechBuffer();
        case CaptureFault =>
      }
    }

    /** One iteration of the recognition worker. An empty audio queue is the
      `get` timeout: nothing changes. Otherwise the oldest utterance is taken
      and transcribed by `transcribe` (None when transcription raised, which
      is logged); a transcript goes through the hand-off. */
    method RecognizeNext(transcribe: seq<Byte> -> Option<string>)
      requires Valid()
      modifies this
      ensures Valid()
      ensures speechBuffer == old(speechBuffer) && silenceCounter == old(silenceCounter)
      ensures old(audioQueue) == [] ==> audioQueue == [] && broadcastQueue == old(broadcastQueue)
      ensures old(audioQueue) != [] ==>
                && audioQueue == old(audioQueue)[1..]
                && broadcastQueue == match transcribe(old(audioQueue)[0])
                                     case None => old(broadcastQueue)
                                     case Some(t) => Recognition.HandOff(old(broadcastQueue), t)
    {
      if audioQueue != [] {
        var utterance := audioQueue[0];
        audioQueue := audioQueue[1..];
        match transcribe(utterance) {
          case None =>
          case Some(t) => broadcastQueue := Recognition.HandOff(broadcastQueue, t);
        }
      }
    }
  }
}
