/** Small shared vocabulary: optional values and the text operations the worker's
    configuration code applies to every string it reads. */
module Basics {

  datatype Option<+T> = None | Some(value: T)

  // -------------------------------------------------------------------------
  // White space, as Go's unicode.IsSpace defines it
  // -------------------------------------------------------------------------

  predicate IsSpace(c: char) {
    || '\t' <= c <= '\r'
    || c == ' '
    || c == '\U{0085}'
    || c == '\U{00A0}'
    || c == '\U{1680}'
    || '\U{2000}' <= c <= '\U{200A}'
    || c == '\U{2028}'
    || c == '\U{2029}'
    || c == '\U{202F}'
    || c == '\U{205F}'
    || c == '\U{3000}'
  }

  function TrimRight(s: string): (t: string)
    ensures |t| <= |s|
    ensures t != [] ==> !IsSpace(t[|t| - 1])
  {
    if s != [] && IsSpace(s[|s| - 1]) then TrimRight(s[..|s| - 1]) else s
  }

  function TrimLeft(s: string): (t: string)
    ensures |t| <= |s|
    ensures t != [] ==> !IsSpace(t[0]) && t[|t| - 1] == s[|s| - 1]
  {
    if s != [] && IsSpace(s[0]) then TrimLeft(s[1..]) else s
  }

  /** strings.TrimSpace. */
  function Trim(s: string): (t: string)
    ensures |t| <= |s|
    ensures t != [] ==> !IsSpace(t[0]) && !IsSpace(t[|t| - 1])
  {
    TrimLeft(TrimRight(s))
  }

  lemma TrimOfTrimmed(s: string)
    requires s != [] ==> !IsSpace(s[0]) && !IsSpace(s[|s| - 1])
    ensures Trim(s) == s
  {
  }

  lemma TrimTwice(s: string)
    ensures Trim(Trim(s)) == Trim(s)
  {
    TrimOfTrimmed(Trim(s));
  }

  // -------------------------------------------------------------------------
  // Case folding (ASCII)
  // -------------------------------------------------------------------------

  function LowerChar(c: char): char {
    if 'A' <= c <= 'Z' then (c as int + 32) as char else c
  }

  function Lower(s: string): (t: string)
    ensures |t| == |s|
    ensures forall i :: 0 <= i < |s| ==> t[i] == LowerChar(s[i])
  {
    seq(|s|, i requires 0 <= i < |s| => LowerChar(s[i]))
  }

  predicate IsLetter(c: char) {
    'a' <= c <= 'z' || 'A' <= c <= 'Z'
  }

  predicate IsDigit(c: char) {
    '0' <= c <= '9'
  }

  // -------------------------------------------------------------------------
  // Searching
  // -------------------------------------------------------------------------

  function IndexFrom(s: string, c: char, from: nat): (i: nat)
    requires from <= |s|
    ensures from <= i <= |s|
    ensures forall k :: from <= k < i ==> s[k] != c
    ensures i < |s| ==> s[i] == c
    decreases |s| - from
  {
    if from == |s| || s[from] == c then from else IndexFrom(s, c, from + 1)
  }

  /** The first position of c in s, or |s| when there is none. */
  function IndexOf(s: string, c: char): (i: nat)
    ensures i <= |s|
    ensures forall k :: 0 <= k < i ==> s[k] != c
    ensures i < |s| ==> s[i] == c
  {
    IndexFrom(s, c, 0)
  }

  function LastIndexBefore(s: string, c: char, to: nat): (i: int)
    requires to <= |s|
    ensures -1 <= i < to
    ensures forall k :: i < k < to ==> s[k] != c
    ensures 0 <= i ==> s[i] == c
  {
    if to == 0 then -1
    else if s[to - 1] == c then to - 1
    else LastIndexBefore(s, c, to - 1)
  }

  /** The last position of c in s, or -1 when there is none. */
  function LastIndexOf(s: string, c: char): (i: int)
    ensures -1 <= i < |s|
    ensures forall k :: i < k < |s| ==> s[k] != c
    ensures 0 <= i ==> s[i] == c
  {
    LastIndexBefore(s, c, |s|)
  }

  /** s without its first n characters. */
  function Suffix(s: string, n: nat): (t: string)
    requires n <= |s|
    ensures |t| == |s| - n
    ensures forall i :: 0 <= i < |t| ==> t[i] == s[n + i]
  {
    seq(|s| - n, i requires 0 <= i < |s| - n => s[n + i])
  }

  /** strings.Cut: what stands before the first c, and what stands after it. */
  function Before(s: string, c: char): string {
    s[..IndexOf(s, c)]
  }

  function After(s: string, c: char): string {
    var i := IndexOf(s, c);
    if i < |s| then Suffix(s, i + 1) else ""
  }

  predicate Contains(s: string, c: char) {
    IndexOf(s, c) < |s|
  }
}
