/**
 * String helpers the identity service relies on: the Go standard library's
 * strings.Split and strings.ToLower as far as the service uses them, and the
 * toUtf8 work-around for the Facebook charset bug, which reads the bytes of
 * a string as Latin-1 (every byte becomes the character with that code).
 */
module Text {

  newtype byte = x: int | 0 <= x < 256

  // ---------------------------------------------------------------------
  // strings.Split with a one-character separator
  // ---------------------------------------------------------------------

  /** strings.Split(s, [sep]): the maximal pieces between separators; "" gives [""]. */
  function Split(s: string, sep: char): (parts: seq<string>)
    ensures |parts| >= 1
  {
    if |s| == 0 then [""]
    else
      var rest := Split(s[1..], sep);
      if s[0] == sep then [""] + rest
      else [[s[0]] + rest[0]] + rest[1..]
  }

  /** strings.Join(parts, [sep]) */
  function Join(parts: seq<string>, sep: char): string
    requires |parts| >= 1
  {
    if |parts| == 1 then parts[0] else parts[0] + [sep] + Join(parts[1..], sep)
  }

  lemma JoinFront(c: char, parts: seq<string>, sep: char)
    requires |parts| >= 1 && c != sep
    ensures Join([[c] + parts[0]] + parts[1..], sep) == [c] + Join(parts, sep)
  {
    var q := [[c] + parts[0]] + parts[1..];
    if |parts| > 1 {
      assert q[1..] == parts[1..];
    }
  }

  /** Joining the pieces with the separator gives back the split string. */
  lemma {:induction false} SplitThenJoin(s: string, sep: char)
    ensures Join(Split(s, sep), sep) == s
  {
    if |s| > 0 {
      var rest := Split(s[1..], sep);
      SplitThenJoin(s[1..], sep);
      if s[0] == sep {
        assert ([""] + rest)[1..] == rest;
      } else {
        JoinFront(s[0], rest, sep);
      }
      assert s == [s[0]] + s[1..];
    }
  }

  /** No piece produced by Split contains the separator. */
  lemma {:induction false} SplitPiecesAreSeparatorFree(s: string, sep: char)
    ensures forall i :: 0 <= i < |Split(s, sep)| ==> sep !in Split(s, sep)[i]
  {
    if |s| > 0 {
      SplitPiecesAreSeparatorFree(s[1..], sep);
    }
  }

  /** Split undoes Join when no piece contains the separator. */
  lemma {:induction false} JoinThenSplit(parts: seq<string>, sep: char)
    requires |parts| >= 1
    requires forall i :: 0 <= i < |parts| ==> sep !in parts[i]
    ensures Split(Join(parts, sep), sep) == parts
  {
    if |parts| == 1 {
      PieceSplitsToItself(parts[0], sep);
    } else {
      JoinThenSplit(parts[1..], sep);
      SplitAfterPiece(parts[0], Join(parts[1..], sep), sep);
      assert [parts[0]] + parts[1..] == parts;
    }
  }

  lemma {:induction false} PieceSplitsToItself(p: string, sep: char)
    requires sep !in p
    ensures Split(p, sep) == [p]
  {
    if |p| > 0 {
      PieceSplitsToItself(p[1..], sep);
      assert [p[0]] + p[1..] == p;
    }
  }

  lemma {:induction false} SplitAfterPiece(p: string, t: string, sep: char)
    requires sep !in p
    ensures Split(p + [sep] + t, sep) == [p] + Split(t, sep)
  {
    var s := p + [sep] + t;
    if |p| == 0 {
      assert s[0] == sep && s[1..] == t;
    } else {
      assert s[0] == p[0];
      assert s[1..] == p[1..] + [sep] + t;
      SplitAfterPiece(p[1..], t, sep);
      assert [p[0]] + p[1..] == p;
    }
  }

  // ---------------------------------------------------------------------
  // strings.ToLower on the ASCII letters
  // ---------------------------------------------------------------------

  function LowerChar(c: char): char
  {
    if 'A' <= c <= 'Z' then (c as int + 32) as char else c
  }

  function ToLower(s: string): (r: string)
  {
    seq(|s|, i requires 0 <= i < |s| => LowerChar(s[i]))
  }

  /** Lowering leaves no upper-case letter, keeps the length and every other character. */
  lemma ToLowerMeaning(s: string)
    ensures |ToLower(s)| == |s|
    ensures forall i :: 0 <= i < |s| ==> !('A' <= ToLower(s)[i] <= 'Z')
    ensures forall i :: 0 <= i < |s| && !('A' <= s[i] <= 'Z') ==> ToLower(s)[i] == s[i]
    ensures forall i :: 0 <= i < |s| && 'A' <= s[i] <= 'Z' ==> ToLower(s)[i] as int == s[i] as int + 32
  {
  }

  /** Lowering twice is lowering once. */
  lemma ToLowerIdempotent(s: string)
    ensures ToLower(ToLower(s)) == ToLower(s)
  {
  }

  // ---------------------------------------------------------------------
  // toUtf8: Latin-1 reinterpretation of a byte string
  // ---------------------------------------------------------------------

  /** The Latin-1 reading of a byte string: byte i becomes the character with code i. */
  function Latin1Decode(b: seq<byte>): (s: string)
    ensures |s| == |b|
    ensures forall i :: 0 <= i < |b| ==> s[i] as int == b[i] as int
  {
    if b == [] then [] else [b[0] as int as char] + Latin1Decode(b[1..])
  }

  /** The inverse of Latin1Decode on characters below 256. */
  function Latin1Encode(s: string): (b: seq<byte>)
    requires forall i :: 0 <= i < |s| ==> s[i] as int < 256
    ensures |b| == |s|
  {
    if s == [] then [] else [s[0] as int as byte] + Latin1Encode(s[1..])
  }

  /** Decoding never loses information: encoding the decoded text gives the bytes back. */
  lemma {:induction false} Latin1RoundTrip(b: seq<byte>)
    ensures forall i :: 0 <= i < |Latin1Decode(b)| ==> Latin1Decode(b)[i] as int < 256
    ensures Latin1Encode(Latin1Decode(b)) == b
  {
    if b != [] {
      Latin1RoundTrip(b[1..]);
      assert Latin1Decode(b)[1..] == Latin1Decode(b[1..]);
    }
  }

  /**
   * toUtf8 (api-token-social.go): allocate a rune buffer as long as the byte
   * string and fill buf[i] with the rune whose code is byte i.
   */
  method ToUtf8(iso88591: seq<byte>) returns (s: string)
    ensures s == Latin1Decode(iso88591)
  {
    var buf := new char[|iso88591|];
    for i := 0 to |iso88591|
      invariant forall j :: 0 <= j < i ==> buf[j] as int == iso88591[j] as int
    {
      buf[i] := iso88591[i] as int as char;
    }
    s := buf[..];
    assert forall j :: 0 <= j < |s| ==> s[j] == Latin1Decode(iso88591)[j];
  }

  // ---------------------------------------------------------------------
  // The UTF-8 bytes of a Go string built from runes
  // ---------------------------------------------------------------------

  /** The UTF-8 encoding of one character (string(rune) in Go). */
  function EncodeRune(c: char): (b: seq<byte>)
    ensures 1 <= |b| <= 4
  {
    var n := c as int;
    if n < 0x80 then [n as byte]
    else if n < 0x800 then [(0xC0 + n / 64) as byte, (0x80 + n % 64) as byte]
    else if n < 0x10000 then
      [(0xE0 + n / 4096) as byte, (0x80 + (n / 64) % 64) as byte, (0x80 + n % 64) as byte]
    else
      [(0xF0 + n / 262144) as byte, (0x80 + (n / 4096) % 64) as byte,
       (0x80 + (n / 64) % 64) as byte, (0x80 + n % 64) as byte]
  }

  function Utf8Encode(s: string): seq<byte>
  {
    if s == [] then [] else EncodeRune(s[0]) + Utf8Encode(s[1..])
  }

  predicate IsAscii(b: seq<byte>)
  {
    forall i :: 0 <= i < |b| ==> b[i] < 0x80
  }

  function HighBytes(b: seq<byte>): nat
  {
    if b == [] then 0 else (if b[0] < 0x80 then 0 else 1) + HighBytes(b[1..])
  }

  /** Every byte at or above 0x80 becomes a two-byte sequence once toUtf8's result is encoded. */
  lemma {:induction false} ToUtf8Length(b: seq<byte>)
    ensures |Utf8Encode(Latin1Decode(b))| == |b| + HighBytes(b)
  {
    if b != [] {
      ToUtf8Length(b[1..]);
      assert Latin1Decode(b)[1..] == Latin1Decode(b[1..]);
    }
  }

  lemma {:induction false} HighBytesOfAscii(b: seq<byte>)
    ensures HighBytes(b) == 0 <==> IsAscii(b)
  {
    if b != [] {
      HighBytesOfAscii(b[1..]);
      if IsAscii(b[1..]) && b[0] < 0x80 {
        assert forall i :: 1 <= i < |b| ==> b[i] == b[1..][i - 1];
      }
    }
  }

  /** toUtf8 returns its argument unchanged exactly when the argument is ASCII. */
  lemma {:induction false} ToUtf8KeepsExactlyAscii(b: seq<byte>)
    ensures Utf8Encode(Latin1Decode(b)) == b <==> IsAscii(b)
  {
    ToUtf8Length(b);
    HighBytesOfAscii(b);
    if IsAscii(b) {
      AsciiUnchanged(b);
    }
  }

  lemma {:induction false} AsciiUnchanged(b: seq<byte>)
    requires IsAscii(b)
    ensures Utf8Encode(Latin1Decode(b)) == b
  {
    if b != [] {
      assert IsAscii(b[1..]);
      AsciiUnchanged(b[1..]);
      assert Latin1Decode(b)[1..] == Latin1Decode(b[1..]);
      assert [b[0]] + b[1..] == b;
    }
  }
}
