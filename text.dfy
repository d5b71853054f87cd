/** Character-level helpers shared by the segmentation, sentence and routing models:
    the whitespace class used by Python's str.strip() and by the regular
    expression class \s, and the strip operation itself. */
module Text {

  /** The characters Python's str.isspace() accepts, which are also the ones
      \s matches in a str pattern: tab, newline, vertical tab, form feed,
      carriage return, the four separators U+001C..U+001F, space, U+0085,
      no-break space, and the Unicode space and line/paragraph separators. */
  predicate IsSpace(c: char) {
    c == ' ' || c == '\t' || c == '\n' || c == '\r' || c == '\U{B}' || c == '\U{C}' ||
    ('\U{1C}' <= c <= '\U{1F}') || c == '\U{85}' || c == '\U{A0}' || c == '\U{1680}' ||
    ('\U{2000}' <= c <= '\U{200A}') || c == '\U{2028}' || c == '\U{2029}' ||
    c == '\U{202F}' || c == '\U{205F}' || c == '\U{3000}'
  }

  /** A string with no leading and no trailing whitespace. */
  predicate Stripped(s: string) {
    s == [] || (!IsSpace(s[0]) && !IsSpace(s[|s| - 1]))
  }

  /** Drops the trailing whitespace: the result is a prefix of s, everything
      dropped is whitespace, and the result does not end with whitespace. */
  function TrimRight(s: string): (r: string)
    ensures |r| <= |s| && r == s[..|r|]
    ensures forall i :: |r| <= i < |s| ==> IsSpace(s[i])
    ensures r == [] || !IsSpace(r[|r| - 1])
  {
    if s != [] && IsSpace(s[|s| - 1]) then TrimRight(s[..|s| - 1]) else s
  }

  /** Python's str.strip() with no argument: leading whitespace is dropped
      one character at a time, then the trailing whitespace. */
  function Strip(s: string): (r: string)
    ensures Stripped(r) && |r| <= |s|
    ensures Stripped(s) ==> r == s
    ensures r == [] <==> forall i :: 0 <= i < |s| ==> IsSpace(s[i])
  {
    if s != [] && IsSpace(s[0]) then Strip(s[1..]) else TrimRight(s)
  }

  /** r sits at position i of s with only whitespace before and after it. */
  ghost predicate TrimmedAt(s: string, r: string, i: nat) {
    i + |r| <= |s| && r == s[i..i + |r|] &&
    (forall k :: 0 <= k < i ==> IsSpace(s[k])) &&
    (forall k :: i + |r| <= k < |s| ==> IsSpace(s[k]))
  }

  /** The stripped string is a contiguous piece of the original, with only
      whitespace cut from either end. */
  lemma {:induction false} StripInfix(s: string)
    ensures exists i: nat :: TrimmedAt(s, Strip(s), i)
  {
    var r := Strip(s);
    if s != [] && IsSpace(s[0]) {
      StripInfix(s[1..]);
      var i: nat :| TrimmedAt(s[1..], r, i);
      assert s[1..][i..i + |r|] == s[i + 1..i + 1 + |r|];
      forall k | 0 <= k < i + 1
        ensures IsSpace(s[k])
      {
        if k > 0 {
          assert s[k] == s[1..][k - 1];
        }
      }
      forall k | i + 1 + |r| <= k < |s|
        ensures IsSpace(s[k])
      {
        assert s[k] == s[1..][k - 1];
      }
      assert TrimmedAt(s, r, i + 1);
    } else {
      assert TrimmedAt(s, r, 0);
    }
  }

  /** Concatenation of a sequence of strings (Python's ''.join). */
  function Concat<T>(parts: seq<seq<T>>): seq<T> {
    if parts == [] then [] else parts[0] + Concat(parts[1..])
  }

  lemma {:induction false} ConcatAppend<T>(a: seq<seq<T>>, b: seq<seq<T>>)
    ensures Concat(a + b) == Concat(a) + Concat(b)
  {
    if a == [] {
      assert a + b == b;
    } else {
      assert (a + b)[1..] == a[1..] + b;
      ConcatAppend(a[1..], b);
    }
  }
}
