/** Text held to a number of bytes: cutting UTF-8 without splitting a character. */
module Utf8Text {
  import opened Basics

  // -------------------------------------------------------------------------
  // UTF-8 (RFC 3629, section 3)
  // -------------------------------------------------------------------------

  /** The byte does not start a character. */
  predicate Continuation(b: int) {
    0x80 <= b < 0xC0
  }

  function Utf8(c: char): (b: seq<int>)
    ensures 1 <= |b| <= 4 && !Continuation(b[0])
    ensures forall i :: 1 <= i < |b| ==> Continuation(b[i])
  {
    var u := c as int;
    if u < 0x80 then [u]
    else if u < 0x800 then [0xC0 + u / 64, 0x80 + u % 64]
    else if u < 0x1_0000 then [0xE0 + u / 4096, 0x80 + u / 64 % 64, 0x80 + u % 64]
    else [0xF0 + u / 262144, 0x80 + u / 4096 % 64, 0x80 + u / 64 % 64, 0x80 + u % 64]
  }

  /** The character number an octet sequence of one of the four lengths stands for, by the table of
      RFC 3629, section 3. */
  function Number(b: seq<int>): int
    requires 1 <= |b| <= 4
  {
    if |b| == 1 then b[0]
    else if |b| == 2 then (b[0] - 192) * 64 + (b[1] - 128)
    else if |b| == 3 then (b[0] - 224) * 4096 + (b[1] - 128) * 64 + (b[2] - 128)
    else (b[0] - 240) * 262144 + (b[1] - 128) * 4096 + (b[2] - 128) * 64 + (b[3] - 128)
  }

  /** A character is encoded in octets, of the length its number needs, that stand for it. */
  lemma EncodedNumber(c: char)
    ensures var b, u := Utf8(c), c as int;
            && Number(b) == u
            && |b| == (if u <= 0x7F then 1 else if u <= 0x7FF then 2 else if u <= 0xFFFF then 3 else 4)
            && (|b| == 1 ==> b[0] < 128) && (|b| == 2 ==> 192 <= b[0] < 224)
            && (|b| == 3 ==> 224 <= b[0] < 240) && (|b| == 4 ==> 240 <= b[0] < 248)
            && forall i :: 1 <= i < |b| ==> 128 <= b[i] < 192
  {
    SixBitsAtATime(c as int);
  }

  lemma SixBitsAtATime(u: nat)
    ensures u == u / 64 * 64 + u % 64
    ensures u == u / 4096 * 4096 + u / 64 % 64 * 64 + u % 64
    ensures u == u / 262144 * 262144 + u / 4096 % 64 * 4096 + u / 64 % 64 * 64 + u % 64
  {
    var once := u / 64;
    var twice := once / 64;
    assert u / 4096 == twice && u / 262144 == twice / 64;
    assert once == twice * 64 + once % 64 && twice == twice / 64 * 64 + twice % 64;
  }

  function Encode(s: string): seq<int> {
    if s == "" then [] else Encode(s[..|s| - 1]) + Utf8(s[|s| - 1])
  }

  function ByteLen(s: string): nat {
    |Encode(s)|
  }

  // -------------------------------------------------------------------------
  // clipText
  // -------------------------------------------------------------------------

  /** How many characters of s fit in n bytes. */
  function Fit(s: string, n: nat): (k: nat)
    ensures k <= |s| && ByteLen(s[..k]) <= n
    ensures k < |s| ==> ByteLen(s[..k + 1]) > n
  {
    if ByteLen(s) <= n then
      assert s[..|s|] == s;
      |s|
    else
      var p := s[..|s| - 1];
      var k := Fit(p, n);
      assert p[..k] == s[..k] && s[..|s|] == s;
      assert k < |p| ==> p[..k + 1] == s[..k + 1];
      k
  }

  /** clipText on characters: whole, or as many characters as fit, trimmed. */
  function ClipText(s: string, n: nat): (t: string)
    ensures ByteLen(s) <= n ==> t == s
  {
    if ByteLen(s) <= n then s else Trim(s[..Fit(s, n)])
  }

  /** The encoding of a text is the encoding of a first part, then of the rest. */
  lemma {:induction false} EncodeSplits(s: string, k: nat)
    requires k <= |s|
    ensures Encode(s[..k]) <= Encode(s)
    ensures k < |s| ==> Encode(s[..k + 1]) == Encode(s[..k]) + Utf8(s[k])
  {
    if k == |s| {
      assert s[..k] == s;
    } else {
      assert s[..k + 1][..k] == s[..k];
      var p := s[..|s| - 1];
      EncodeSplits(p, k);
      assert p[..k] == s[..k];
    }
  }

  lemma CutIsBoundary(b: seq<int>, n: nat, cut: nat, head: seq<int>, c: seq<int>)
    requires head + c <= b && |head| <= n < |head| + |c|
    requires !Continuation(c[0]) && forall i :: 1 <= i < |c| ==> Continuation(c[i])
    requires cut <= n && (cut > 0 ==> !Continuation(b[cut]))
    requires forall i :: cut < i <= n ==> Continuation(b[i])
    ensures cut == |head| && b[..cut] == head
  {
    assert b[|head|] == (head + c)[|head|] == c[0];
    assert forall i :: |head| < i <= n ==> b[i] == (head + c)[i] == c[i - |head|];
  }

  /** Where the bytes are cut, the characters that fit end: no character is split and none that fits
      is lost. */
  lemma CutKeepsCharacters(s: string, n: nat, cut: nat)
    requires n < ByteLen(s)
    requires var b := Encode(s);
             && cut <= n && (cut > 0 ==> !Continuation(b[cut]))
             && forall i :: cut < i <= n ==> Continuation(b[i])
    ensures Encode(s)[..cut] == Encode(s[..Fit(s, n)])
  {
    var k := Fit(s, n);
    assert s[..|s|] == s;
    EncodeSplits(s, k);
    EncodeSplits(s, k + 1);
    CutIsBoundary(Encode(s), n, cut, Encode(s[..k]), Utf8(s[k]));
  }

  /** clipText on bytes, before it trims: step back from n to the start of a character. What is left
      is whole characters, and all of them that fit. */
  method Cut(b: seq<int>, n: nat, ghost s: string) returns (cut: nat)
    requires b == Encode(s) && n < |b|
    ensures cut <= n && b[..cut] == Encode(s[..Fit(s, n)])
  {
    cut := n;
    while cut > 0 && Continuation(b[cut])
      invariant cut <= n
      invariant forall i :: cut < i <= n ==> Continuation(b[i])
    {
      cut := cut - 1;
    }
    CutKeepsCharacters(s, n, cut);
  }

  // -------------------------------------------------------------------------
  // Bounded text stays as it is
  // -------------------------------------------------------------------------

  lemma {:induction false} ByteLenSplits(s: string)
    requires s != ""
    ensures ByteLen(s[1..]) <= ByteLen(s)
  {
    if |s| > 1 {
      ByteLenSplits(s[..|s| - 1]);
      assert s[1..][..|s| - 2] == s[..|s| - 1][1..];
    }
  }

  lemma {:induction false} TrimRightShortens(s: string)
    ensures ByteLen(TrimRight(s)) <= ByteLen(s)
  {
    if s != "" && IsSpace(s[|s| - 1]) { TrimRightShortens(s[..|s| - 1]); }
  }

  lemma {:induction false} TrimLeftShortens(s: string)
    ensures ByteLen(TrimLeft(s)) <= ByteLen(s)
  {
    if s != "" && IsSpace(s[0]) {
      ByteLenSplits(s);
      TrimLeftShortens(s[1..]);
    }
  }

  lemma TrimShortens(s: string)
    ensures ByteLen(Trim(s)) <= ByteLen(s)
  {
    TrimRightShortens(s);
    TrimLeftShortens(TrimRight(s));
  }

  lemma ClipFits(s: string, n: nat)
    ensures ByteLen(ClipText(s, n)) <= n
  {
    if ByteLen(s) > n { TrimShortens(s[..Fit(s, n)]); }
  }

  /** Trimming and clipping what has been trimmed and clipped changes nothing. */
  lemma BoundedTextIsFixed(s: string, n: nat)
    ensures var t := ClipText(Trim(s), n); ClipText(Trim(t), n) == t && Trim(t) == t
  {
    var t := ClipText(Trim(s), n);
    ClipFits(Trim(s), n);
    TrimTwice(s);
    if ByteLen(Trim(s)) > n { TrimTwice(Trim(s)[..Fit(Trim(s), n)]); }
  }

  lemma {:induction false} ShortTextFits(s: string)
    ensures ByteLen(s) <= 4 * |s|
  {
    if s != "" { ShortTextFits(s[..|s| - 1]); }
  }
}
