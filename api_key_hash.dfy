/**
 * API key generation and hashing: both end in the same byte-to-text
 * encoding, `bytes.map((b) => b.toString(16).padStart(2, '0')).join('')`,
 * which is the base16 alphabet of section 8 of RFC 4648 in lower case. The
 * random bytes and the SHA-256 digest come from the platform and are
 * inputs here.
 */
module ApiKeyHash {
  import opened Wrappers

  newtype byte = x: int | 0 <= x < 256

  /** Number of random bytes in a generated key. */
  const KeyBytes := 32

  const HexDigits := "0123456789abcdef"

  predicate IsHexDigit(c: char)
  {
    '0' <= c <= '9' || 'a' <= c <= 'f'
  }

  /** `n.toString(16)`: base-16 digits without leading zeros. */
  function ToRadix16(n: nat): (s: string)
    ensures |s| >= 1
    ensures forall i :: 0 <= i < |s| ==> IsHexDigit(s[i])
  {
    if n < 16 then [HexDigits[n]] else ToRadix16(n / 16) + [HexDigits[n % 16]]
  }

  /** `s.padStart(width, '0')`. */
  function PadStart(s: string, width: nat): (r: string)
    ensures |r| == if |s| >= width then |s| else width
    ensures r[|r| - |s|..] == s
    ensures forall i :: 0 <= i < |r| - |s| ==> r[i] == '0'
  {
    if |s| >= width then s else seq(width - |s|, _ => '0') + s
  }

  /** The encoding of one byte. */
  function ByteToHex(b: byte): string
  {
    PadStart(ToRadix16(b as nat), 2)
  }

  /** The value of a base-16 digit. */
  function DigitValue(c: char): (d: nat)
    requires IsHexDigit(c)
    ensures d < 16 && HexDigits[d] == c
  {
    if '0' <= c <= '9' then (c - '0') as nat else (c - 'a') as nat + 10
  }

  /** A byte becomes exactly two lower-case digits, high nibble first. */
  lemma ByteToHexDigits(b: byte)
    ensures |ByteToHex(b)| == 2
    ensures IsHexDigit(ByteToHex(b)[0]) && IsHexDigit(ByteToHex(b)[1])
    ensures DigitValue(ByteToHex(b)[0]) * 16 + DigitValue(ByteToHex(b)[1]) == b as int
  {
    var n := b as nat;
    var hi, lo := n / 16, n % 16;
    assert n == hi * 16 + lo && hi < 16 && lo < 16;
    DigitOf(hi);
    DigitOf(lo);
    if n < 16 {
      assert ByteToHex(b) == ['0', HexDigits[lo]];
    } else {
      assert ToRadix16(n) == ToRadix16(hi) + [HexDigits[lo]];
      assert ToRadix16(hi) == [HexDigits[hi]];
      assert ByteToHex(b) == [HexDigits[hi], HexDigits[lo]];
    }
  }

  /** Each digit of the alphabet reads back as its own position. */
  lemma DigitOf(k: nat)
    requires k < 16
    ensures IsHexDigit(HexDigits[k]) && DigitValue(HexDigits[k]) == k
  {
    var d := DigitValue(HexDigits[k]);
    DigitsDistinct(d, k);
  }

  lemma DigitsDistinct(i: nat, j: nat)
    requires i < 16 && j < 16 && HexDigits[i] == HexDigits[j]
    ensures i == j
  {
  }

  /** `bytes.map(ByteToHex).join('')`. */
  function Hex(bytes: seq<byte>): (s: string)
    ensures |s| == 2 * |bytes|
    ensures forall i :: 0 <= i < |s| ==> IsHexDigit(s[i])
  {
    if |bytes| == 0 then ""
    else
      ByteToHexDigits(bytes[0]);
      ByteToHex(bytes[0]) + Hex(bytes[1..])
  }

  /** Reads base-16 text back into bytes: `None` for an odd length or a character outside the alphabet. */
  function Unhex(s: string): (r: Option<seq<byte>>)
    decreases |s|
  {
    if |s| == 0 then Some([])
    else if |s| == 1 || !IsHexDigit(s[0]) || !IsHexDigit(s[1]) then None
    else match Unhex(s[2..])
      case None => None
      case Some(rest) => Some([(DigitValue(s[0]) * 16 + DigitValue(s[1])) as byte] + rest)
  }

  /** Decoding the encoding gives the bytes back. */
  lemma {:induction false} HexRoundTrip(bytes: seq<byte>)
    ensures Unhex(Hex(bytes)) == Some(bytes)
    decreases |bytes|
  {
    if |bytes| > 0 {
      var h := ByteToHex(bytes[0]);
      ByteToHexDigits(bytes[0]);
      HexRoundTrip(bytes[1..]);
      UnhexCons(h, Hex(bytes[1..]));
      assert Hex(bytes) == h + Hex(bytes[1..]);
      var v := DigitValue(h[0]) * 16 + DigitValue(h[1]);
      assert v as byte == bytes[0];
      assert Unhex(Hex(bytes)) == Some([bytes[0]] + bytes[1..]);
      assert bytes == [bytes[0]] + bytes[1..];
    }
  }

  lemma UnhexCons(h: string, t: string)
    requires |h| == 2 && IsHexDigit(h[0]) && IsHexDigit(h[1]) && Unhex(t).Some?
    ensures Unhex(h + t) == Some([(DigitValue(h[0]) * 16 + DigitValue(h[1])) as byte] + Unhex(t).value)
  {
    var s := h + t;
    assert s[0] == h[0] && s[1] == h[1] && s[2..] == t;
  }

  /** Different bytes give different text. */
  lemma HexInjective(a: seq<byte>, b: seq<byte>)
    requires Hex(a) == Hex(b)
    ensures a == b
  {
    HexRoundTrip(a);
    HexRoundTrip(b);
  }

  /** `generateApiKey()`: the 32 bytes `crypto.getRandomValues` wrote, encoded. */
  function GenerateApiKey(random: seq<byte>): (key: string)
    requires |random| == KeyBytes
    ensures |key| == 64
    ensures forall i :: 0 <= i < |key| ==> IsHexDigit(key[i])
    ensures Unhex(key) == Some(random)
  {
    HexRoundTrip(random);
    Hex(random)
  }

  /**
   * `hashApiKey(plaintext)`: `encode` is `TextEncoder.encode` (UTF-8) and
   * `digest` is SHA-256; the hash is the encoded digest.
   */
  function HashApiKey(plaintext: string, encode: string -> seq<byte>, digest: seq<byte> -> seq<byte>): (h: string)
    ensures |h| == 2 * |digest(encode(plaintext))|
    ensures forall i :: 0 <= i < |h| ==> IsHexDigit(h[i])
    ensures Unhex(h) == Some(digest(encode(plaintext)))
  {
    HexRoundTrip(digest(encode(plaintext)));
    Hex(digest(encode(plaintext)))
  }

  /** Two keys hash alike exactly when their digests agree; a 32-byte digest gives 64 characters. */
  lemma HashMatchesDigest(p1: string, p2: string, encode: string -> seq<byte>, digest: seq<byte> -> seq<byte>)
    ensures HashApiKey(p1, encode, digest) == HashApiKey(p2, encode, digest) <==>
      digest(encode(p1)) == digest(encode(p2))
    ensures |digest(encode(p1))| == 32 ==> |HashApiKey(p1, encode, digest)| == 64
  {
    if HashApiKey(p1, encode, digest) == HashApiKey(p2, encode, digest) {
      HexInjective(digest(encode(p1)), digest(encode(p2)));
    }
  }
}
