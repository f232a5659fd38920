/** Certificate fingerprints: how they are printed, and how two of them are compared
    (control-plane/control/enrollment.mjs). */
module Fingerprints {

  type Byte = b: int | 0 <= b < 256

  // ---- comparing two texts ----

  function Lower(c: char): char {
    if 'A' <= c <= 'Z' then (c as int + 32) as char else c
  }

  /** A fingerprint without colons, in lower case. */
  function Bare(fingerprint: string): string {
    if fingerprint == "" then ""
    else (if fingerprint[0] == ':' then "" else [Lower(fingerprint[0])]) + Bare(fingerprint[1..])
  }

  predicate IsHex(c: char) {
    '0' <= c <= '9' || 'a' <= c <= 'f'
  }

  function HexValue(c: char): (v: int)
    requires IsHex(c)
    ensures 0 <= v < 16
  {
    if c <= '9' then c as int - '0' as int else c as int - 'a' as int + 10
  }

  /** The bytes that a lower-case hex text decodes to: decoding stops at the first pair of characters that is not one. */
  function HexBytes(s: string): seq<Byte>
    decreases |s|
  {
    if |s| >= 2 && IsHex(s[0]) && IsHex(s[1]) then [16 * HexValue(s[0]) + HexValue(s[1])] + HexBytes(s[2..]) else []
  }

  predicate SameFingerprint(a: string, b: string) {
    HexBytes(Bare(a)) == HexBytes(Bare(b))
  }

  // ---- printing bytes ----

  function Digit(v: int): char
    requires 0 <= v < 16
  {
    "0123456789abcdef"[v]
  }

  function UpperDigit(v: int): char
    requires 0 <= v < 16
  {
    "0123456789ABCDEF"[v]
  }

  function Pair(b: Byte): string {
    [Digit(b / 16), Digit(b % 16)]
  }

  function UpperPair(b: Byte): string {
    [UpperDigit(b / 16), UpperDigit(b % 16)]
  }

  /** Two lower-case hex digits per byte. */
  function PlainText(bytes: seq<Byte>): string {
    if bytes == [] then "" else Pair(bytes[0]) + PlainText(bytes[1..])
  }

  function WithColons(bytes: seq<Byte>): string {
    if bytes == [] then "" else [':'] + (UpperPair(bytes[0]) + WithColons(bytes[1..]))
  }

  /** Two upper-case hex digits per byte, with colons between: how the platform prints the SHA-256 of a certificate. */
  function X509Text(bytes: seq<Byte>): string {
    if bytes == [] then "" else UpperPair(bytes[0]) + WithColons(bytes[1..])
  }

  // ---- the comparison is one of bytes ----

  lemma DigitReads(v: int)
    requires 0 <= v < 16
    ensures IsHex(Digit(v)) && HexValue(Digit(v)) == v && Digit(v) != ':' && Lower(Digit(v)) == Digit(v)
    ensures UpperDigit(v) != ':' && Lower(UpperDigit(v)) == Digit(v)
  {
  }

  lemma BareFirst(c: char, rest: string)
    ensures Bare([c] + rest) == (if c == ':' then "" else [Lower(c)]) + Bare(rest)
  {
    assert ([c] + rest)[1..] == rest;
  }

  lemma BareTwo(a: char, b: char, rest: string)
    requires a != ':' && b != ':'
    ensures Bare([a, b] + rest) == [Lower(a), Lower(b)] + Bare(rest)
  {
    BareFirst(a, [b] + rest);
    BareFirst(b, rest);
    assert [a, b] + rest == [a] + ([b] + rest);
  }

  lemma BareUpperPair(b: Byte, rest: string)
    ensures Bare(UpperPair(b) + rest) == Pair(b) + Bare(rest)
  {
    DigitReads(b / 16);
    DigitReads(b % 16);
    BareTwo(UpperDigit(b / 16), UpperDigit(b % 16), rest);
  }

  lemma BarePair(b: Byte, rest: string)
    ensures Bare(Pair(b) + rest) == Pair(b) + Bare(rest)
  {
    DigitReads(b / 16);
    DigitReads(b % 16);
    BareTwo(Digit(b / 16), Digit(b % 16), rest);
  }

  lemma {:induction false} BareWithColons(bytes: seq<Byte>)
    ensures Bare(WithColons(bytes)) == PlainText(bytes)
  {
    if bytes != [] {
      var rest := WithColons(bytes[1..]);
      BareWithColons(bytes[1..]);
      BareUpperPair(bytes[0], rest);
      BareFirst(':', UpperPair(bytes[0]) + rest);
    }
  }

  lemma BareX509(bytes: seq<Byte>)
    ensures Bare(X509Text(bytes)) == PlainText(bytes)
  {
    if bytes != [] {
      BareWithColons(bytes[1..]);
      BareUpperPair(bytes[0], WithColons(bytes[1..]));
    }
  }

  lemma {:induction false} BarePlain(bytes: seq<Byte>)
    ensures Bare(PlainText(bytes)) == PlainText(bytes)
  {
    if bytes != [] {
      BarePlain(bytes[1..]);
      BarePair(bytes[0], PlainText(bytes[1..]));
    }
  }

  lemma PairReads(b: Byte, rest: string)
    ensures HexBytes(Pair(b) + rest) == [b] + HexBytes(rest)
  {
    DigitReads(b / 16);
    DigitReads(b % 16);
    assert (Pair(b) + rest)[2..] == rest;
  }

  lemma {:induction false} PlainReadsBack(bytes: seq<Byte>)
    ensures HexBytes(PlainText(bytes)) == bytes
  {
    if bytes != [] {
      PlainReadsBack(bytes[1..]);
      PairReads(bytes[0], PlainText(bytes[1..]));
    }
  }

  /** Both ways of printing a digest are read as its bytes, so two printed digests are the same fingerprint exactly when
      they are the same digest. */
  lemma SameFingerprintIff(a: seq<Byte>, b: seq<Byte>)
    ensures SameFingerprint(X509Text(a), X509Text(b)) <==> a == b
    ensures SameFingerprint(X509Text(a), PlainText(b)) <==> a == b
    ensures SameFingerprint(PlainText(a), PlainText(b)) <==> a == b
  {
    BareX509(a);
    BareX509(b);
    BarePlain(a);
    BarePlain(b);
    PlainReadsBack(a);
    PlainReadsBack(b);
  }

  lemma TextsNotEmpty(bytes: seq<Byte>)
    ensures X509Text(bytes) == "" <==> bytes == []
    ensures PlainText(bytes) == "" <==> bytes == []
  {
  }

  /** Any other text is the same fingerprint as a printed digest exactly when its lower-case pairs of hex digits, up to
      the first pair that is none, are the digest's. */
  lemma OtherTextIff(a: seq<Byte>, text: string)
    ensures SameFingerprint(X509Text(a), text) <==> HexBytes(Bare(text)) == a
  {
    BareX509(a);
    PlainReadsBack(a);
  }
}
