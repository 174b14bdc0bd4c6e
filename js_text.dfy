/**
 * JavaScript's `String.prototype.trim`, which both front ends apply to user
 * input and to incoming messages before deciding whether a text is empty.
 */
module JsText {

  /** WhiteSpace and LineTerminator code points of ECMAScript (the set `trim` strips). */
  predicate IsWhitespace(c: char) {
    var n := c as int;
    n == 0x09 || n == 0x0A || n == 0x0B || n == 0x0C || n == 0x0D || n == 0x20 ||
    n == 0xA0 || n == 0x1680 || (0x2000 <= n <= 0x200A) || n == 0x2028 ||
    n == 0x2029 || n == 0x202F || n == 0x205F || n == 0x3000 || n == 0xFEFF
  }

  predicate AllWhitespace(s: string) {
    forall k :: 0 <= k < |s| ==> IsWhitespace(s[k])
  }

  /** Number of whitespace characters at the front of `s`. */
  function LeadingWhitespace(s: string): (n: nat)
    ensures n <= |s|
    ensures AllWhitespace(s[..n])
    ensures n < |s| ==> !IsWhitespace(s[n])
  {
    if s == [] || !IsWhitespace(s[0]) then 0
    else
      var n := 1 + LeadingWhitespace(s[1..]);
      assert s[..n] == [s[0]] + s[1..][..n - 1];
      n
  }

  /** Number of whitespace characters at the back of `s`. */
  function TrailingWhitespace(s: string): (n: nat)
    ensures n <= |s|
    ensures AllWhitespace(s[|s| - n..])
    ensures n < |s| ==> !IsWhitespace(s[|s| - 1 - n])
  {
    if s == [] || !IsWhitespace(s[|s| - 1]) then 0
    else
      var front := s[..|s| - 1];
      var m := TrailingWhitespace(front);
      TrailingStep(s, front, m);
      1 + m
  }

  /** Extending a whitespace run at the back of `front` by the whitespace character ending `s`. */
  lemma TrailingStep(s: string, front: string, m: nat)
    requires s != [] && IsWhitespace(s[|s| - 1]) && front == s[..|s| - 1]
    requires m <= |front| && AllWhitespace(front[|front| - m..])
    requires m < |front| ==> !IsWhitespace(front[|front| - 1 - m])
    ensures AllWhitespace(s[|s| - (m + 1)..])
    ensures m + 1 < |s| ==> !IsWhitespace(s[|s| - 1 - (m + 1)])
  {
    assert s[|s| - (m + 1)..] == front[|front| - m..] + [s[|s| - 1]];
    if m + 1 < |s| {
      assert s[|s| - 1 - (m + 1)] == front[|front| - 1 - m];
    }
  }

  /** Index of the first character `trim` keeps. */
  function TrimStart(s: string): (i: nat)
    ensures i <= |s|
  {
    LeadingWhitespace(s)
  }

  /** Index just past the last character `trim` keeps. */
  function TrimEnd(s: string): (j: nat)
    ensures TrimStart(s) <= j <= |s|
  {
    |s| - TrailingWhitespace(s[TrimStart(s)..])
  }

  /** `s.trim()`: the text between the leading and the trailing whitespace. */
  function Trim(s: string): (r: string)
  {
    s[TrimStart(s)..TrimEnd(s)]
  }

  /**
   * `trim` removes only whitespace, removes all of it at both ends, and keeps
   * the middle unchanged.
   */
  lemma TrimSpec(s: string)
    ensures AllWhitespace(s[..TrimStart(s)]) && AllWhitespace(s[TrimEnd(s)..])
    ensures Trim(s) != [] ==> !IsWhitespace(Trim(s)[0]) && !IsWhitespace(Trim(s)[|Trim(s)| - 1])
  {
    var i, j := TrimStart(s), TrimEnd(s);
    var rest := s[i..];
    var trail := TrailingWhitespace(rest);
    assert s[j..] == rest[|rest| - trail..];
    if Trim(s) != [] {
      assert Trim(s)[0] == s[i];
      assert Trim(s)[|Trim(s)| - 1] == rest[|rest| - 1 - trail];
    }
  }

  /** A text trims to the empty string exactly when it is all whitespace. */
  lemma TrimEmptyIff(s: string)
    ensures Trim(s) == [] <==> AllWhitespace(s)
  {
    if TrimStart(s) < |s| {
      NonEmptyAfterTrim(s);
    } else {
      AllLeading(s);
    }
  }

  /** When the leading whitespace runs to the end, the text is all whitespace and trims to "". */
  lemma AllLeading(s: string)
    requires TrimStart(s) == |s|
    ensures AllWhitespace(s) && Trim(s) == []
  {
    assert s[..|s|] == s;
  }

  lemma NonEmptyAfterTrim(s: string)
    requires TrimStart(s) < |s|
    ensures TrimEnd(s) > TrimStart(s) && !AllWhitespace(s)
  {
    var i := TrimStart(s);
    var rest := s[i..];
    assert rest[0] == s[i];
    TrailingBelowFirstWord(rest);
  }

  lemma TrailingBelowFirstWord(rest: string)
    requires rest != [] && !IsWhitespace(rest[0])
    ensures TrailingWhitespace(rest) < |rest|
  {
  }

  /** Trimming twice is trimming once. */
  lemma TrimIdempotent(s: string)
    ensures Trim(Trim(s)) == Trim(s)
  {
    var t := Trim(s);
    TrimSpec(s);
    if t != [] {
      assert LeadingWhitespace(t) == 0;
      assert t[0..] == t;
      assert TrailingWhitespace(t) == 0;
    }
  }
}
