/** The ggwave transmission of `send_ggwave`: the text is cut into payloads of
    at most `max_payload_size` characters, and each payload is encoded and
    played in turn. The encoder and the output device are oracles: whether the
    output stream opens, and whether each payload is encoded and played. */
module Ggwave {
  import opened Text

  /** `max_payload_size`. */
  const MaxPayloadSize: nat := 140

  function Min(a: int, b: int): int {
    if a <= b then a else b
  }

  /** The payloads from position `start` on: one slice for every start
      position `start`, `start + size`, ... below the text's length, each
      running to the next start position or to the end of the text. */
  function ChunksFrom(text: string, size: nat, start: nat): (r: seq<string>)
    requires size > 0
    ensures start >= |text| <==> r == []
    decreases |text| - start
  {
    if start >= |text| then []
    else [text[start..Min(start + size, |text|)]] + ChunksFrom(text, size, start + size)
  }

  /** The payload list of `_send_ggwave`: slices of the text taken at every
      multiple of `size`. */
  function Chunks(text: string, size: nat): (r: seq<string>)
    requires size > 0
    ensures r == [] <==> text == []
  {
    ChunksFrom(text, size, 0)
  }

  /** The payloads, read in order, spell the text from `start` on. */
  lemma {:induction false} ChunksFromConcat(text: string, size: nat, start: nat)
    requires size > 0 && start <= |text|
    ensures Concat(ChunksFrom(text, size, start)) == text[start..]
    decreases |text| - start
  {
    if start < |text| {
      var end := Min(start + size, |text|);
      var rest := ChunksFrom(text, size, start + size);
      assert ChunksFrom(text, size, start) == [text[start..end]] + rest;
      assert Concat([text[start..end]] + rest) == text[start..end] + Concat(rest);
      if start + size <= |text| {
        ChunksFromConcat(text, size, start + size);
        assert text[start..end] + text[start + size..] == text[start..];
      } else {
        assert rest == [];
        assert text[start..end] == text[start..];
      }
    }
  }

  /** Joining the payloads gives back the original text. */
  lemma ChunksConcat(text: string, size: nat)
    requires size > 0
    ensures Concat(Chunks(text, size)) == text
  {
    ChunksFromConcat(text, size, 0);
    assert text[0..] == text;
  }

  /** Every payload is non-empty and at most `size` long, and every payload
      but the last is exactly `size` long. */
  lemma {:induction false} ChunksFromLengths(text: string, size: nat, start: nat)
    requires size > 0
    ensures forall i :: 0 <= i < |ChunksFrom(text, size, start)| ==>
      0 < |ChunksFrom(text, size, start)[i]| <= size
    ensures forall i :: 0 <= i < |ChunksFrom(text, size, start)| - 1 ==>
      |ChunksFrom(text, size, start)[i]| == size
    decreases |text| - start
  {
    if start < |text| {
      var r := ChunksFrom(text, size, start);
      var rest := ChunksFrom(text, size, start + size);
      ChunksFromLengths(text, size, start + size);
      assert r == [text[start..Min(start + size, |text|)]] + rest;
      forall i | 1 <= i < |r|
        ensures r[i] == rest[i - 1]
      {
      }
      if rest != [] {
        assert |r[0]| == size;
      }
    }
  }

  lemma ChunksLengths(text: string, size: nat)
    requires size > 0
    ensures forall i :: 0 <= i < |Chunks(text, size)| ==> 0 < |Chunks(text, size)[i]| <= size
    ensures forall i :: 0 <= i < |Chunks(text, size)| - 1 ==> |Chunks(text, size)[i]| == size
  {
    ChunksFromLengths(text, size, 0);
  }

  /** Whether a transmission succeeds: the stream opens and every payload
      is encoded and played. */
  predicate Transmitted(text: string, streamOpen: bool, played: nat -> bool) {
    streamOpen && forall i :: 0 <= i < |Chunks(text, MaxPayloadSize)| ==> played(i)
  }

  /** `_send_ggwave`: open the output stream, then encode and play every
      payload in order; any failure ends the transmission and reports False.
      `streamOpen` says whether the stream opens and `played(i)` whether payload
      i is encoded and played. Returns the outcome and the payloads played. */
  method SendGgwave(text: string, streamOpen: bool, played: nat -> bool)
    returns (success: bool, sent: seq<string>)
    ensures var chunks := Chunks(text, MaxPayloadSize);
      && |sent| <= |chunks| && sent == chunks[..|sent|]
      && (forall i :: 0 <= i < |sent| ==> played(i))
      && (success <==> Transmitted(text, streamOpen, played))
      && (success ==> sent == chunks)
      && (!streamOpen ==> sent == [])
      && (streamOpen && !success ==> |sent| < |chunks| && !played(|sent|))
  {
    var chunks := Chunks(text, MaxPayloadSize);
    sent := [];
    if !streamOpen {
      return false, sent;
    }
    var i := 0;
    while i < |chunks|
      invariant 0 <= i <= |chunks| && sent == chunks[..i]
      invariant forall j :: 0 <= j < i ==> played(j)
    {
      if !played(i) {
        return false, sent;
      }
      sent := sent + [chunks[i]];
      i := i + 1;
    }
    assert sent == chunks;
    success := true;
  }
}
