/** Sentence decomposition for streaming synthesis. The input is the text
    after the thinking blocks and markdown have been removed. Steps, in order:
    split after terminal punctuation followed by whitespace; strip the
    fragments and drop those of three characters or fewer; merge a fragment
    shorter than twenty characters with the one after it (the pair is not
    examined again); split a result longer than the configured maximum after
    each comma followed by whitespace. */
module Sentences {
  import opened Text

  /** The characters after which a sentence may end. */
  const Terminals: set<char> := {'.', '!', '?'}
  /** The character after which an over-long sentence may be cut. */
  const Commas: set<char> := {','}

  /** A fragment shorter than this is merged with the next one. */
  const ShortSentence: nat := 20
  /** A fragment of at most this many characters is dropped. */
  const TooShort: nat := 3
  /** The service's default maximum sentence length. */
  const DefaultMaxSentenceLength: nat := 50

  /** A split point of `(?<=[marks])\s+`: a whitespace character right
      after one of `marks`. */
  predicate BreakAt(s: string, marks: set<char>, j: int) {
    1 <= j < |s| && s[j - 1] in marks && IsSpace(s[j])
  }

  /** A string with no split point left in it. */
  predicate NoBreak(s: string, marks: set<char>) {
    forall j :: 1 <= j < |s| ==> !BreakAt(s, marks, j)
  }

  /** The end of the whitespace run that starts at `i` (the greedy `\s+`). */
  function RunEnd(s: string, i: nat): (r: nat)
    requires i <= |s|
    ensures i <= r <= |s|
    ensures forall k :: i <= k < r ==> IsSpace(s[k])
    ensures r == |s| || !IsSpace(s[r])
    decreases |s| - i
  {
    if i < |s| && IsSpace(s[i]) then RunEnd(s, i + 1) else i
  }

  /** The first split point at or after `i`, or |s| when there is none. */
  function NextBreak(s: string, marks: set<char>, i: nat): (r: nat)
    requires 1 <= i
    ensures r <= |s|
    ensures r < |s| ==> i <= r && BreakAt(s, marks, r)
    ensures forall j :: i <= j < r || (r == |s| && i <= j) ==> !BreakAt(s, marks, j)
    decreases |s| - i
  {
    if i >= |s| then |s|
    else if BreakAt(s, marks, i) then i
    else NextBreak(s, marks, i + 1)
  }

  /** Python's re.split(r'(?<=[marks])\s+', s): cut at every split point and
      drop the whitespace run there. */
  function SplitAfter(s: string, marks: set<char>): (r: seq<string>)
    ensures |r| >= 1
    decreases |s|
  {
    var b := NextBreak(s, marks, 1);
    if b == |s| then [s] else [s[..b]] + SplitAfter(s[RunEnd(s, b)..], marks)
  }

  /** The pieces of a split: every piece but the last ends with one of the
      marks, no piece holds a split point any more, no piece is longer than
      the input, and an input without a split point is its own only piece. */
  lemma {:induction false} SplitAfterPieces(s: string, marks: set<char>)
    ensures var r := SplitAfter(s, marks);
      && (forall k :: 0 <= k < |r| - 1 ==> r[k] != [] && r[k][|r[k]| - 1] in marks)
      && (forall k :: 0 <= k < |r| ==> NoBreak(r[k], marks) && |r[k]| <= |s|)
      && (NoBreak(s, marks) ==> r == [s])
    decreases |s|
  {
    var b := NextBreak(s, marks, 1);
    if b < |s| {
      var head := s[..b];
      assert NoBreak(head, marks) by {
        forall j | 1 <= j < |head| ensures !BreakAt(head, marks, j) {
          assert !BreakAt(s, marks, j);
        }
      }
      var tail := s[RunEnd(s, b)..];
      SplitAfterPieces(tail, marks);
      assert SplitAfter(s, marks) == [head] + SplitAfter(tail, marks);
    }
  }

  /** The whitespace runs a split removes, one per split point, in order. */
  ghost function SplitGaps(s: string, marks: set<char>): seq<string>
    decreases |s|
  {
    var b := NextBreak(s, marks, 1);
    if b == |s| then [] else [s[b..RunEnd(s, b)]] + SplitGaps(s[RunEnd(s, b)..], marks)
  }

  /** The pieces with the removed runs put back between them. */
  ghost function Weave(pieces: seq<string>, gaps: seq<string>): string
    requires |pieces| == |gaps| + 1
    decreases |gaps|
  {
    if gaps == [] then pieces[0] else pieces[0] + gaps[0] + Weave(pieces[1..], gaps[1..])
  }

  /** A non-empty string of whitespace only. */
  ghost predicate Blank(t: string) {
    t != [] && forall j :: 0 <= j < |t| ==> IsSpace(t[j])
  }

  /** The split loses nothing but the whitespace runs at the split points:
      putting each run back between its two pieces gives the input again,
      and the first piece is a prefix of the input. */
  lemma {:induction false} SplitAfterRoundTrip(s: string, marks: set<char>)
    ensures var r := SplitAfter(s, marks); var g := SplitGaps(s, marks);
      |r| == |g| + 1 && Weave(r, g) == s && r[0] == s[..|r[0]|]
    decreases |s|
  {
    var b := NextBreak(s, marks, 1);
    if b < |s| {
      var e := RunEnd(s, b);
      var head, gap, tail := s[..b], s[b..e], s[e..];
      SplitAfterRoundTrip(tail, marks);
      SplitCons(s, marks);
      WeaveCons(head, gap, SplitAfter(tail, marks), SplitGaps(tail, marks));
      assert s == head + gap + tail;
    }
  }

  /** One unfolding of the split and of its gaps at the first split point. */
  lemma SplitCons(s: string, marks: set<char>)
    requires NextBreak(s, marks, 1) < |s|
    ensures var b := NextBreak(s, marks, 1); var e := RunEnd(s, b);
      && SplitAfter(s, marks) == [s[..b]] + SplitAfter(s[e..], marks)
      && SplitGaps(s, marks) == [s[b..e]] + SplitGaps(s[e..], marks)
  {
  }

  /** Weaving a piece and a gap in front of a woven list. */
  lemma WeaveCons(head: string, gap: string, r: seq<string>, g: seq<string>)
    requires |r| == |g| + 1
    ensures Weave([head] + r, [gap] + g) == head + gap + Weave(r, g)
  {
    assert ([head] + r)[1..] == r && ([gap] + g)[1..] == g;
  }

  /** Every removed run is whitespace and is removed whole: the piece after
      it does not start with whitespace. */
  lemma {:induction false} SplitGapsBlank(s: string, marks: set<char>)
    ensures var r := SplitAfter(s, marks); var g := SplitGaps(s, marks);
      |r| == |g| + 1 &&
      forall k :: 0 <= k < |g| ==> Blank(g[k]) && (r[k + 1] == [] || !IsSpace(r[k + 1][0]))
    decreases |s|
  {
    SplitAfterRoundTrip(s, marks);
    var b := NextBreak(s, marks, 1);
    if b < |s| {
      var e := RunEnd(s, b);
      var tail := s[e..];
      SplitGapsBlank(tail, marks);
      SplitAfterRoundTrip(tail, marks);
      var r', g' := SplitAfter(tail, marks), SplitGaps(tail, marks);
      var r, g := SplitAfter(s, marks), SplitGaps(s, marks);
      assert r == [s[..b]] + r' && g == [s[b..e]] + g';
      assert Blank(g[0]) by {
        assert BreakAt(s, marks, b);
      }
      assert r[1] == [] || !IsSpace(r[1][0]) by {
        if r[1] != [] {
          assert r'[0] == tail[..|r'[0]|];
          assert r[1][0] == tail[0] == s[e];
        }
      }
      forall k | 1 <= k < |g|
        ensures Blank(g[k]) && (r[k + 1] == [] || !IsSpace(r[k + 1][0]))
      {
        assert g[k] == g'[k - 1] && r[k + 1] == r'[k];
      }
    }
  }

  /** Splitting a stripped, non-empty string after marks that are not
      whitespace gives non-empty, stripped pieces. */
  lemma {:induction false} SplitAfterStripped(s: string, marks: set<char>)
    requires forall c :: c in marks ==> !IsSpace(c)
    requires s != [] && Stripped(s)
    ensures forall k :: 0 <= k < |SplitAfter(s, marks)| ==>
      SplitAfter(s, marks)[k] != [] && Stripped(SplitAfter(s, marks)[k])
    decreases |s|
  {
    var b := NextBreak(s, marks, 1);
    if b < |s| {
      var e := RunEnd(s, b);
      assert !IsSpace(s[|s| - 1]);
      assert e < |s|;
      var head, tail := s[..b], s[e..];
      assert head[|head| - 1] == s[b - 1];
      assert tail[0] == s[e] && tail[|tail| - 1] == s[|s| - 1];
      SplitAfterStripped(tail, marks);
      assert SplitAfter(s, marks) == [head] + SplitAfter(tail, marks);
    }
  }

  /** The filter: strip every fragment and keep those longer than three
      characters, in order. */
  function Clean(fragments: seq<string>): (r: seq<string>)
    ensures |r| <= |fragments|
    ensures forall k :: 0 <= k < |r| ==> Stripped(r[k]) && |r[k]| > TooShort
  {
    if fragments == [] then []
    else
      var t := Strip(fragments[0]);
      (if |t| > TooShort then [t] else []) + Clean(fragments[1..])
  }

  /** The filter works fragment by fragment, so it keeps their order. */
  lemma {:induction false} CleanAppend(a: seq<string>, b: seq<string>)
    ensures Clean(a + b) == Clean(a) + Clean(b)
  {
    if a == [] {
      assert a + b == b;
    } else {
      assert (a + b)[1..] == a[1..] + b;
      CleanAppend(a[1..], b);
    }
  }

  /** One fragment on its own: it is kept, stripped, exactly when its
      stripped form is longer than three characters. With `CleanAppend` this
      determines the filter on any list. */
  lemma CleanOne(f: string)
    ensures Clean([f]) == (if |Strip(f)| > TooShort then [Strip(f)] else [])
  {
    assert [f][1..] == [];
  }

  /** What the filter keeps: exactly the stripped fragments longer than
      three characters. */
  lemma {:induction false} CleanMembers(fragments: seq<string>, x: string)
    ensures x in Clean(fragments) <==>
      exists k :: 0 <= k < |fragments| && x == Strip(fragments[k]) && |x| > TooShort
  {
    if fragments != [] {
      var t := Strip(fragments[0]);
      var rest := fragments[1..];
      CleanMembers(rest, x);
      assert Clean(fragments) == (if |t| > TooShort then [t] else []) + Clean(rest);
      if x in Clean(fragments) && !(x == t && |t| > TooShort) {
        var k :| 0 <= k < |rest| && x == Strip(rest[k]) && |x| > TooShort;
        assert fragments[k + 1] == rest[k];
      }
      if exists k :: 0 <= k < |fragments| && x == Strip(fragments[k]) && |x| > TooShort {
        var k :| 0 <= k < |fragments| && x == Strip(fragments[k]) && |x| > TooShort;
        if k > 0 {
          assert rest[k - 1] == fragments[k];
        }
      }
    }
  }

  /** The length limit applied to one (possibly merged) sentence. */
  function Limit(current: string, maxLength: nat): (r: seq<string>)
    ensures |current| <= maxLength ==> r == [current]
    ensures |current| > maxLength ==> r == SplitAfter(current, Commas)
    ensures |r| >= 1 && forall k :: 0 <= k < |r| ==> |r[k]| <= |current|
  {
    SplitAfterPieces(current, Commas);
    if |current| > maxLength then SplitAfter(current, Commas) else [current]
  }

  /** The merging loop, one iteration per recursive call. */
  function Merge(fragments: seq<string>, maxLength: nat): seq<string>
    decreases |fragments|
  {
    if fragments == [] then []
    else if |fragments[0]| < ShortSentence && |fragments| >= 2 then
      Limit(fragments[0] + " " + fragments[1], maxLength) + Merge(fragments[2..], maxLength)
    else
      Limit(fragments[0], maxLength) + Merge(fragments[1..], maxLength)
  }

  /** The fragments the merging loop starts from: the stripped text split
      after terminal punctuation, then filtered. */
  function Fragments(text: string): seq<string> {
    Clean(SplitAfter(Strip(text), Terminals))
  }

  /** The whole decomposition of an already cleaned text. Every sentence is
      non-empty and has no surrounding whitespace, so the streaming loop's
      blank-sentence check never skips one of them. */
  function Sentences(text: string, maxLength: nat): (r: seq<string>)
    ensures forall k :: 0 <= k < |r| ==> r[k] != [] && Stripped(r[k])
  {
    MergeStripped(Fragments(text), maxLength);
    Merge(Fragments(text), maxLength)
  }

  /** The limit keeps a non-empty stripped sentence's pieces non-empty and
      stripped. */
  lemma LimitStripped(current: string, maxLength: nat)
    requires current != [] && Stripped(current)
    ensures forall k :: 0 <= k < |Limit(current, maxLength)| ==>
      Limit(current, maxLength)[k] != [] && Stripped(Limit(current, maxLength)[k])
  {
    if |current| > maxLength {
      SplitAfterStripped(current, Commas);
    }
  }

  /** Merging non-empty stripped fragments gives non-empty stripped
      sentences. */
  lemma {:induction false} MergeStripped(fragments: seq<string>, maxLength: nat)
    requires forall k :: 0 <= k < |fragments| ==> fragments[k] != [] && Stripped(fragments[k])
    ensures forall k :: 0 <= k < |Merge(fragments, maxLength)| ==>
      Merge(fragments, maxLength)[k] != [] && Stripped(Merge(fragments, maxLength)[k])
    decreases |fragments|
  {
    if fragments != [] {
      var n := if |fragments[0]| < ShortSentence && |fragments| >= 2 then 2 else 1;
      var current := if n == 2 then fragments[0] + " " + fragments[1] else fragments[0];
      if n == 2 {
        assert current[0] == fragments[0][0];
        assert current[|current| - 1] == fragments[1][|fragments[1]| - 1];
      }
      LimitStripped(current, maxLength);
      MergeStripped(fragments[n..], maxLength);
      assert Merge(fragments, maxLength) == Limit(current, maxLength) + Merge(fragments[n..], maxLength);
    }
  }

  /** How the merging loop groups the fragments: a short fragment with a
      successor takes exactly that successor, anything else stands alone. */
  function Groups(fragments: seq<string>): seq<seq<string>>
    decreases |fragments|
  {
    if fragments == [] then []
    else if |fragments[0]| < ShortSentence && |fragments| >= 2 then
      [fragments[..2]] + Groups(fragments[2..])
    else
      [fragments[..1]] + Groups(fragments[1..])
  }

  /** Python's " ".join. */
  function JoinSpace(parts: seq<string>): string {
    if parts == [] then ""
    else if |parts| == 1 then parts[0]
    else parts[0] + " " + JoinSpace(parts[1..])
  }

  /** The length limit applied to every group, joined by a space. */
  function LimitAll(groups: seq<seq<string>>, maxLength: nat): seq<string> {
    if groups == [] then [] else Limit(JoinSpace(groups[0]), maxLength) + LimitAll(groups[1..], maxLength)
  }

  /** The groups partition the fragments, in order: nothing is dropped,
      duplicated or reordered by the merging. */
  lemma {:induction false} GroupsPartition(fragments: seq<string>)
    ensures Concat(Groups(fragments)) == fragments
    decreases |fragments|
  {
    if fragments != [] {
      var n := if |fragments[0]| < ShortSentence && |fragments| >= 2 then 2 else 1;
      GroupsPartition(fragments[n..]);
      assert Groups(fragments) == [fragments[..n]] + Groups(fragments[n..]);
      assert Concat(Groups(fragments)) == fragments[..n] + Concat(Groups(fragments[n..]));
      assert fragments == fragments[..n] + fragments[n..];
    }
  }

  /** The shape of every group: either a pair whose first fragment is short
      (whatever the length of the pair, it is not examined again), or a
      single fragment that is not short or is the last one. */
  lemma {:induction false} GroupsShape(fragments: seq<string>)
    ensures var g := Groups(fragments);
      forall k :: 0 <= k < |g| ==>
        (|g[k]| == 2 && |g[k][0]| < ShortSentence)
        || (|g[k]| == 1 && (|g[k][0]| >= ShortSentence || k == |g| - 1))
    decreases |fragments|
  {
    if fragments != [] {
      var n := if |fragments[0]| < ShortSentence && |fragments| >= 2 then 2 else 1;
      GroupsShape(fragments[n..]);
      var g := Groups(fragments);
      assert g == [fragments[..n]] + Groups(fragments[n..]);
      if n == 1 && |fragments[0]| < ShortSentence {
        assert fragments[1..] == [];
      }
    }
  }

  /** The merging loop is the length limit applied to the groups. */
  lemma {:induction false} MergeIsLimitedGroups(fragments: seq<string>, maxLength: nat)
    ensures Merge(fragments, maxLength) == LimitAll(Groups(fragments), maxLength)
    decreases |fragments|
  {
    if fragments != [] {
      var n := if |fragments[0]| < ShortSentence && |fragments| >= 2 then 2 else 1;
      MergeIsLimitedGroups(fragments[n..], maxLength);
      var g := Groups(fragments);
      assert g[0] == fragments[..n] && g[1..] == Groups(fragments[n..]);
      if n == 2 {
        assert JoinSpace(fragments[..2]) == fragments[0] + " " + fragments[1] by {
          assert fragments[..2][1..] == [fragments[1]];
        }
      }
    }
  }

  /** With the length limit out of reach, the sentences are the groups joined
      by one space each. */
  lemma {:induction false} ShortTextIsJoinedGroups(fragments: seq<string>, maxLength: nat)
    requires forall k :: 0 <= k < |fragments| ==> 2 * |fragments[k]| + 1 <= maxLength
    ensures var g := Groups(fragments);
      Merge(fragments, maxLength) == seq(|g|, k requires 0 <= k < |g| => JoinSpace(g[k]))
    decreases |fragments|
  {
    if fragments != [] {
      var n := if |fragments[0]| < ShortSentence && |fragments| >= 2 then 2 else 1;
      ShortTextIsJoinedGroups(fragments[n..], maxLength);
      var g := Groups(fragments);
      assert g == [fragments[..n]] + Groups(fragments[n..]);
      if n == 2 {
        assert fragments[..2][1..] == [fragments[1]];
        assert JoinSpace(g[0]) == fragments[0] + " " + fragments[1];
      }
    }
  }

  /** A sentence of one word: longer than three characters, no whitespace
      at either end, ending with terminal punctuation and holding no split
      point. */
  ghost predicate Word(w: string) {
    |w| > TooShort && Stripped(w) && w[|w| - 1] in Terminals && NoBreak(w, Terminals)
  }

  /** Three one-word sentences, the first of them short: the first absorbs
      the second and the pair is not examined again, even when it is still
      short, so three become two (as with "One. Two. Three."). */
  lemma ThreeShortSentencesGiveTwo(a: string, b: string, c: string)
    requires Word(a) && Word(b) && Word(c)
    requires |a| < ShortSentence && |a| + 1 + |b| <= DefaultMaxSentenceLength
    requires |c| <= DefaultMaxSentenceLength
    ensures Sentences(a + " " + b + " " + c, DefaultMaxSentenceLength) == [a + " " + b, c]
  {
    var t := a + " " + b + " " + c;
    ThreeWordFragments(a, b, c);
    var f := [a, b, c];
    assert f[2..] == [c] && [c][1..] == [];
    assert |a + " " + b| <= DefaultMaxSentenceLength;
    assert Limit(a + " " + b, DefaultMaxSentenceLength) == [a + " " + b];
    assert Merge([c], DefaultMaxSentenceLength) == [c];
    assert Merge(f, DefaultMaxSentenceLength) == [a + " " + b] + [c];
    assert Sentences(t, DefaultMaxSentenceLength) == Merge(f, DefaultMaxSentenceLength);
  }

  lemma ThreeWordFragments(a: string, b: string, c: string)
    requires Word(a) && Word(b) && Word(c)
    ensures Fragments(a + " " + b + " " + c) == [a, b, c]
  {
    var t := a + " " + b + " " + c;
    assert t[0] == a[0] && t[|t| - 1] == c[|c| - 1];
    assert Strip(t) == t;
    ThreeWordSplit(a, b, c);
    CleanKeeps(c, []);
    CleanKeeps(b, [c]);
    CleanKeeps(a, [b, c]);
  }

  lemma ThreeWordSplit(a: string, b: string, c: string)
    requires Word(a) && Word(b) && Word(c)
    ensures SplitAfter(a + " " + b + " " + c, Terminals) == [a, b, c]
  {
    assert a + " " + b + " " + c == a + " " + (b + " " + c);
    SplitAfterPieces(c, Terminals);
    SplitWord(b, c);
    assert (b + " " + c)[0] == b[0];
    SplitWord(a, b + " " + c);
  }

  lemma CleanKeeps(x: string, rest: seq<string>)
    requires Stripped(x) && |x| > TooShort
    ensures Clean([x] + rest) == [x] + Clean(rest)
  {
    assert ([x] + rest)[1..] == rest;
  }

  /** A word that ends with terminal punctuation and holds no split point,
      then one space, then text that does not start with whitespace: the
      word is the first piece, and the split goes on after the space. */
  lemma SplitWord(w: string, rest: string)
    requires w != [] && w[|w| - 1] in Terminals && NoBreak(w, Terminals)
    requires rest != [] && !IsSpace(rest[0])
    ensures SplitAfter(w + " " + rest, Terminals) == [w] + SplitAfter(rest, Terminals)
  {
    var s := w + " " + rest;
    var b := |w|;
    forall j | 1 <= j < b
      ensures !BreakAt(s, Terminals, j)
    {
      assert s[j - 1] == w[j - 1] && s[j] == w[j];
      assert !BreakAt(w, Terminals, j);
    }
    assert s[b - 1] == w[b - 1] && s[b] == ' ';
    NextBreakFirst(s, Terminals, 1, b);
    assert s[b + 1] == rest[0];
    assert RunEnd(s, b + 1) == b + 1;
    assert s[..b] == w && s[b + 1..] == rest;
  }

  /** `NextBreak` finds the first split point. */
  lemma {:induction false} NextBreakFirst(s: string, marks: set<char>, i: nat, b: nat)
    requires 1 <= i <= b && BreakAt(s, marks, b) && forall j :: i <= j < b ==> !BreakAt(s, marks, j)
    ensures NextBreak(s, marks, i) == b
    decreases b - i
  {
    if i < b {
      NextBreakFirst(s, marks, i + 1, b);
    }
  }

  /** Punctuation alone is not discarded: four full stops are one sentence. */
  lemma PunctuationOnlySurvives()
    ensures Sentences("....", DefaultMaxSentenceLength) == ["...."]
  {
    var s := "....";
    assert Stripped(s);
    assert Strip(s) == s;
    assert NoBreak(s, Terminals);
    SplitAfterPieces(s, Terminals);
    assert [s][1..] == [];
    assert Clean([s]) == [s];
    assert Merge([s], DefaultMaxSentenceLength) == Limit(s, DefaultMaxSentenceLength) + Merge([], DefaultMaxSentenceLength);
  }

  /** One iteration of the merging loop at index `i`, unfolded. */
  lemma MergeStep(sentences: seq<string>, i: nat, maxLength: nat)
    requires i < |sentences|
    ensures |sentences[i]| < ShortSentence && i + 1 < |sentences| ==>
              Merge(sentences[i..], maxLength)
              == Limit(sentences[i] + " " + sentences[i + 1], maxLength) + Merge(sentences[i + 2..], maxLength)
    ensures !(|sentences[i]| < ShortSentence && i + 1 < |sentences|) ==>
              Merge(sentences[i..], maxLength) == Limit(sentences[i], maxLength) + Merge(sentences[i + 1..], maxLength)
  {
    var rest := sentences[i..];
    assert rest[0] == sentences[i];
    if i + 1 < |sentences| {
      assert rest[1] == sentences[i + 1] && rest[2..] == sentences[i + 2..];
    }
    assert rest[1..] == sentences[i + 1..];
  }

  /** `_split_into_sentences`: the split and filter as a function, then the
      index loop that merges short fragments and limits long ones. */
  method SplitIntoSentences(text: string, maxLength: nat) returns (merged: seq<string>)
    ensures merged == Sentences(text, maxLength)
  {
    merged := MergeShort(Fragments(text), maxLength);
  }

  /** The index loop of `_split_into_sentences` over the filtered fragments. */
  method MergeShort(sentences: seq<string>, maxLength: nat) returns (merged: seq<string>)
    ensures merged == Merge(sentences, maxLength)
  {
    merged := [];
    var i := 0;
    while i < |sentences|
      invariant 0 <= i <= |sentences|
      invariant merged + Merge(sentences[i..], maxLength) == Merge(sentences, maxLength)
    {
      MergeStep(sentences, i, maxLength);
      var current := sentences[i];
      var next := i + 1;
      if |current| < ShortSentence && i + 1 < |sentences| {
        current := current + " " + sentences[i + 1];
        next := i + 2;
      }
      ghost var rest := Merge(sentences[next..], maxLength);
      assert Merge(sentences[i..], maxLength) == Limit(current, maxLength) + rest;
      assert merged + (Limit(current, maxLength) + rest) == merged + Limit(current, maxLength) + rest;
      merged := merged + Limit(current, maxLength);
      i := next;
    }
    assert sentences[i..] == [];
  }
}
