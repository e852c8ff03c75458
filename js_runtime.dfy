/** The parts of the JavaScript runtime that both tools and the crypto
    helpers depend on: thrown values, calls that may throw (or promises
    that may reject), `String.prototype.trim`, `substring`, and case
    mapping restricted to ASCII letters. */
module JsRuntime {

  /** A value thrown by JavaScript code. An `Error` instance carries a
      `message`; any other value is shown through `String(value)`. */
  datatype Thrown = ErrorObject(message: string) | NonError(shown: string)

  /** The text `error instanceof Error ? error.message : String(error)`. */
  function Describe(e: Thrown): string {
    match e
    case ErrorObject(m) => m
    case NonError(s) => s
  }

  /** The outcome of a call that either returns a value or throws. */
  datatype Result<+T> = Ok(value: T) | Threw(error: Thrown) {
    predicate IsFailure() {
      Threw?
    }

    function PropagateFailure<U>(): Result<U>
      requires Threw?
    {
      Threw(error)
    }

    function Extract(): T
      requires Ok?
    {
      value
    }
  }

  datatype Option<+T> = None | Some(value: T)

  // ---------------------------------------------------------------------
  // String.prototype.trim
  // ---------------------------------------------------------------------

  /** The code points `trim` strips: ECMAScript WhiteSpace (tab, vertical
      tab, form feed, the byte order mark and every Unicode space
      separator of category Zs) and ECMAScript LineTerminator (line feed,
      carriage return, line and paragraph separators). */
  predicate IsWhitespace(c: char) {
    || c == '\t' || c == '\n' || c == '\U{B}' || c == '\U{C}' || c == '\r'
    || c == ' ' || c == '\U{A0}' || c == '\U{1680}'
    || ('\U{2000}' <= c <= '\U{200A}')
    || c == '\U{2028}' || c == '\U{2029}' || c == '\U{202F}' || c == '\U{205F}'
    || c == '\U{3000}' || c == '\U{FEFF}'
  }

  /** Drops leading whitespace: the result is a suffix of `s`, everything
      dropped is whitespace, and the result does not start with any. */
  function TrimStart(s: string): (r: string)
    ensures |r| <= |s| && r == s[|s| - |r|..]
    ensures forall i :: 0 <= i < |s| - |r| ==> IsWhitespace(s[i])
    ensures r == [] || !IsWhitespace(r[0])
  {
    if |s| > 0 && IsWhitespace(s[0]) then TrimStart(s[1..]) else s
  }

  /** Drops trailing whitespace: the result is a prefix of `s`, everything
      dropped is whitespace, and the result does not end with any. */
  function TrimEnd(s: string): (r: string)
    ensures |r| <= |s| && r == s[..|r|]
    ensures forall i :: |r| <= i < |s| ==> IsWhitespace(s[i])
    ensures r == [] || !IsWhitespace(r[|r| - 1])
  {
    if |s| > 0 && IsWhitespace(s[|s| - 1]) then TrimEnd(s[..|s| - 1]) else s
  }

  /** A prefix `r` of a suffix `t` of `s` is the infix of `s` that starts
      where `t` does; when `t` continues past `r` only with whitespace, so
      does `s`. */
  lemma InfixOfSuffix(s: string, t: string, r: string)
    requires |t| <= |s| && t == s[|s| - |t|..]
    requires |r| <= |t| && r == t[..|r|]
    requires forall j :: |r| <= j < |t| ==> IsWhitespace(t[j])
    ensures |s| - |t| + |r| <= |s| && r == s[|s| - |t|..|s| - |t| + |r|]
    ensures forall i :: |s| - |t| + |r| <= i < |s| ==> IsWhitespace(s[i])
  {
    var k := |s| - |t|;
    forall i | k + |r| <= i < |s| ensures IsWhitespace(s[i]) {
      assert s[i] == t[i - k];
    }
  }

  /** `s.trim()`: the contiguous part of `s` left once the whitespace at
      both ends is dropped; it neither starts nor ends with whitespace. */
  function Trim(s: string): (r: string)
    ensures |s| - |TrimStart(s)| + |r| <= |s|
    ensures r == s[|s| - |TrimStart(s)| .. |s| - |TrimStart(s)| + |r|]
    ensures forall i :: 0 <= i < |s| - |TrimStart(s)| ==> IsWhitespace(s[i])
    ensures forall i :: |s| - |TrimStart(s)| + |r| <= i < |s| ==> IsWhitespace(s[i])
    ensures r == [] || (!IsWhitespace(r[0]) && !IsWhitespace(r[|r| - 1]))
  {
    var t := TrimStart(s);
    var r := TrimEnd(t);
    InfixOfSuffix(s, t, r);
    r
  }

  /** `!s.trim()` holds when `s` is all whitespace, the empty string
      included. `BlankIffTrimEmpty` proves this is the truthiness test on
      `Trim(s)`. */
  predicate Blank(s: string) {
    forall i :: 0 <= i < |s| ==> IsWhitespace(s[i])
  }

  /** A string trims to the empty, falsy string exactly when it is blank,
      that is when every one of its characters is whitespace. */
  lemma BlankIffTrimEmpty(s: string)
    ensures Trim(s) == [] <==> Blank(s)
  {
    var t := TrimStart(s);
    if Trim(s) == [] {
      assert t == [];
    } else {
      assert TrimEnd(t) != [];
      var k := |s| - |t|;
      assert t[0] == s[k];
      assert !IsWhitespace(s[k]);
    }
  }

  // ---------------------------------------------------------------------
  // String.prototype.substring
  // ---------------------------------------------------------------------

  function Clamp(i: int, len: nat): (r: nat)
    ensures r <= len
  {
    if i < 0 then 0 else if i > len then len else i
  }

  /** `s.substring(start, end)`: both indices are clamped into [0, |s|]
      (a negative index counts as 0, one past the end as |s|), and the
      smaller of the two is taken as the start. */
  function Substring(s: string, start: int, end: int): (r: string)
    ensures |r| <= |s|
    ensures 0 <= start <= end <= |s| ==> r == s[start..end]
    ensures 0 <= end <= start <= |s| ==> r == s[end..start]
    ensures 0 <= start <= |s| <= end ==> r == s[start..]
    ensures 0 <= end <= |s| <= start ==> r == s[end..]
    ensures start <= 0 <= end <= |s| ==> r == s[..end]
    ensures end <= 0 <= start <= |s| ==> r == s[..start]
    ensures (start <= 0 && |s| <= end) || (end <= 0 && |s| <= start) ==> r == s
    ensures (start <= 0 && end <= 0) || (|s| <= start && |s| <= end) ==> r == []
  {
    var a, b := Clamp(start, |s|), Clamp(end, |s|);
    if a <= b then s[a..b] else s[b..a]
  }

  // ---------------------------------------------------------------------
  // toUpperCase / toLowerCase on ASCII letters
  // ---------------------------------------------------------------------

  predicate IsAsciiLower(c: char) {
    'a' <= c <= 'z'
  }

  predicate IsAsciiUpper(c: char) {
    'A' <= c <= 'Z'
  }

  function UpperChar(c: char): (u: char)
    ensures !IsAsciiLower(u)
  {
    if IsAsciiLower(c) then (c as int - 32) as char else c
  }

  function LowerChar(c: char): (l: char)
    ensures !IsAsciiUpper(l)
  {
    if IsAsciiUpper(c) then (c as int + 32) as char else c
  }

  /** Two characters that differ at most in the case of an ASCII letter. */
  predicate SameUpToCase(c: char, d: char) {
    LowerChar(c) == LowerChar(d)
  }

  /** `s.toUpperCase()` for ASCII letters: same length, no lower-case
      letter left, and each character is the input's up to case. */
  function ToUpperAscii(s: string): (r: string)
    ensures |r| == |s|
    ensures forall i :: 0 <= i < |r| ==> !IsAsciiLower(r[i]) && SameUpToCase(r[i], s[i])
  {
    seq(|s|, i requires 0 <= i < |s| => UpperChar(s[i]))
  }

  /** `s.toLowerCase()` for ASCII letters: same length, no upper-case
      letter left, and each character is the input's up to case. */
  function ToLowerAscii(s: string): (r: string)
    ensures |r| == |s|
    ensures forall i :: 0 <= i < |r| ==> !IsAsciiUpper(r[i]) && SameUpToCase(r[i], s[i])
  {
    seq(|s|, i requires 0 <= i < |s| => LowerChar(s[i]))
  }

  /** Upper-casing and then lower-casing is the same as lower-casing, and a
      string that has no upper-case letter is its own lower-case form. */
  lemma LowerAfterUpper(s: string)
    ensures ToLowerAscii(ToUpperAscii(s)) == ToLowerAscii(s)
    ensures (forall i :: 0 <= i < |s| ==> !IsAsciiUpper(s[i])) ==> ToLowerAscii(s) == s
  {
  }
}
