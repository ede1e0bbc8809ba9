/** The parts of src/lib/cryptoUtils.ts that are not calls into Web Crypto:
    the choice of the encryption secret, the byte-to-hex encoding applied to
    the ciphertext, IV and salt, and `hexToUint8Array`, which reverses it.
    The encoding is the base 16 alphabet of section 8 of RFC 4648, in lower
    case. */
module CryptoUtils {
  import opened Wrappers
  import opened JsBuiltins

  // ---------------------------------------------------------------------
  // getEncryptionSecret

  /** The two environment variables read. */
  datatype Environment = Environment(encryptionSecret: Option<string>, nodeEnv: Option<string>)

  const DEV_FALLBACK_SECRET := "dev-fallback-encryption-key-not-for-production-use"
  const SECRET_NOT_CONFIGURED :=
    "Encryption secret not configured. Please set NEXT_PUBLIC_ENCRYPTION_SECRET environment variable."
  const SECRET_TOO_SHORT := "Invalid encryption secret length. Must be at least 32 characters."
  const MIN_SECRET_LENGTH := 32

  /** `getEncryptionSecret`: a missing or empty secret falls back to a fixed
      key in development and is an error elsewhere; a secret shorter than 32
      UTF-16 code units is an error; any other secret is used as it is. */
  function GetEncryptionSecret(env: Environment): (r: Result<string, string>)
    ensures !Truthy(env.encryptionSecret) && env.nodeEnv == Some("development") ==> r == Success(DEV_FALLBACK_SECRET)
    ensures !Truthy(env.encryptionSecret) && env.nodeEnv != Some("development") ==> r == Failure(SECRET_NOT_CONFIGURED)
    ensures Truthy(env.encryptionSecret) ==>
              && (r.Success? <==> Utf16Length(env.encryptionSecret.value) >= MIN_SECRET_LENGTH)
              && (r.Success? ==> r.value == env.encryptionSecret.value)
              && (r.Failure? ==> r.error == SECRET_TOO_SHORT)
  {
    if !Truthy(env.encryptionSecret) then
      if env.nodeEnv == Some("development") then Success(DEV_FALLBACK_SECRET)
      else Failure(SECRET_NOT_CONFIGURED)
    else if Utf16Length(env.encryptionSecret.value) < MIN_SECRET_LENGTH then Failure(SECRET_TOO_SHORT)
    else Success(env.encryptionSecret.value)
  }

  /** Whatever secret is chosen, the fallback included, is at least 32 code
      units long. */
  lemma {:induction false} ChosenSecretIsLongEnough(env: Environment)
    ensures GetEncryptionSecret(env).Success? ==> Utf16Length(GetEncryptionSecret(env).value) >= MIN_SECRET_LENGTH
  {
    if !Truthy(env.encryptionSecret) {
      assert |DEV_FALLBACK_SECRET| == 50;
    }
  }

  /** The length test counts code units, not characters: sixteen characters
      outside the Basic Multilingual Plane make an acceptable secret. */
  lemma AstralSecretCountsDouble()
    ensures var s := seq(16, _ => '\U{1F600}');
            GetEncryptionSecret(Environment(Some(s), None)) == Success(s)
  {
    var s := seq(16, _ => '\U{1F600}');
    SixteenAstralUnits(s);
  }

  lemma {:induction false} SixteenAstralUnits(s: string)
    requires forall i :: 0 <= i < |s| ==> s[i] == '\U{1F600}'
    ensures Utf16Length(s) == 2 * |s|
    decreases |s|
  {
    if |s| > 0 {
      SixteenAstralUnits(s[1..]);
    }
  }

  // ---------------------------------------------------------------------
  // Hex encoding: b.toString(16).padStart(2, '0'), joined

  const HEX_DIGITS := "0123456789abcdef"

  /** `b.toString(16)`: lower-case digits, no leading zero. */
  function ToString16(b: uint8): string {
    if b < 16 then [HEX_DIGITS[b]] else [HEX_DIGITS[b / 16], HEX_DIGITS[b % 16]]
  }

  /** `s.padStart(2, '0')`. */
  function PadStart2(s: string): string {
    if |s| >= 2 then s else if |s| == 1 then ['0'] + s else "00"
  }

  /** The digit of `HEX_DIGITS` at `d` has the value `d`. */
  lemma DigitValue(d: nat)
    requires d < 16
    ensures HexDigitValue(HEX_DIGITS[d]) == Some(d)
  {
    if d < 10 {
      assert HEX_DIGITS[d] == ('0' as int + d) as char;
    } else {
      assert HEX_DIGITS[d] == ('a' as int + d - 10) as char;
    }
  }

  /** One byte as two lower-case hex digits, most significant first. */
  function ByteToHex(b: uint8): (h: string)
    ensures |h| == 2
  {
    PadStart2(ToString16(b))
  }

  /** The two digits are those of `HEX_DIGITS` at the byte's high and low
      nibbles. */
  lemma Nibbles(b: uint8)
    ensures ByteToHex(b) == [HEX_DIGITS[b / 16], HEX_DIGITS[b % 16]]
  {
  }

  /** The two digits of a byte are hex digits denoting its high and low
      nibbles. */
  lemma ByteToHexDigits(b: uint8)
    ensures IsHexDigit(ByteToHex(b)[0]) && IsHexDigit(ByteToHex(b)[1])
    ensures HexDigitValue(ByteToHex(b)[0]).value * 16 + HexDigitValue(ByteToHex(b)[1]).value == b as int
  {
    Nibbles(b);
    DigitValue(b / 16);
    DigitValue(b % 16);
  }

  /** The encoding of cryptoUtils.ts:84-86: the bytes' digit pairs joined
      (`EncodedAt` says where each lands). */
  function EncodeHex(bytes: seq<uint8>): (h: string)
    ensures |h| == 2 * |bytes|
    decreases |bytes|
  {
    if |bytes| == 0 then "" else ByteToHex(bytes[0]) + EncodeHex(bytes[1..])
  }

  /** Character `2k + j` of an encoding is digit `j` of byte `k`: two digits
      per byte, in order. */
  lemma {:induction false} EncodedAt(bytes: seq<uint8>, k: nat, j: nat)
    requires k < |bytes| && j < 2
    ensures EncodeHex(bytes)[2 * k + j] == ByteToHex(bytes[k])[j]
    decreases k
  {
    assert EncodeHex(bytes) == ByteToHex(bytes[0]) + EncodeHex(bytes[1..]);
    if k > 0 {
      EncodedAt(bytes[1..], k - 1, j);
      assert bytes[1..][k - 1] == bytes[k];
    }
  }

  /** The salt (16 random bytes) and IV (12) are sent as 32 and 24 digits. */
  lemma SaltAndIvHexLengths(salt: seq<uint8>, iv: seq<uint8>)
    requires |salt| == 16 && |iv| == 12
    ensures |EncodeHex(salt)| == 32 && |EncodeHex(iv)| == 24
  {
  }

  // ---------------------------------------------------------------------
  // hexToUint8Array

  const INVALID_HEX := "Invalid hexString"

  /** Byte `k` of the decoding: `parseInt` of `substring(2k, 2k + 2)`, the
      characters 2k and 2k+1, stored into a `Uint8Array` element. */
  function PairByte(hex: string, k: nat): uint8
    requires 2 * k + 2 <= |hex|
  {
    ToUint8(ParseIntHex(HexPair(hex, k)))
  }

  function HexPair(hex: string, k: nat): string
    requires 2 * k + 2 <= |hex|
  {
    [hex[2 * k], hex[2 * k + 1]]
  }

  /** `hexToUint8Array`: an odd length is an error; otherwise one byte per
      pair of characters, each read leniently by `parseInt`. */
  method HexToUint8Array(hexString: string) returns (r: Result<seq<uint8>, string>)
    ensures |hexString| % 2 != 0 ==> r == Failure(INVALID_HEX)
    ensures |hexString| % 2 == 0 ==>
              && r.Success? && |r.value| == |hexString| / 2
              && forall k :: 0 <= k < |r.value| ==> r.value[k] == PairByte(hexString, k)
  {
    if |hexString| % 2 != 0 {
      return Failure(INVALID_HEX);
    }
    var n := |hexString| / 2;
    Split2(|hexString|);
    var bytes: seq<uint8> := [];
    while |bytes| < n
      invariant |bytes| <= n && 2 * n == |hexString|
      invariant forall k :: 0 <= k < |bytes| ==> bytes[k] == PairByte(hexString, k)
    {
      bytes := bytes + [PairByte(hexString, |bytes|)];
    }
    return Success(bytes);
  }

  /** A hex digit is neither white space, a sign, nor the `x` of a `0x`
      prefix. */
  lemma NotSpecial(c: char)
    requires IsHexDigit(c)
    ensures !IsWhiteSpace(c) && c != '-' && c != '+' && c != 'x' && c != 'X'
  {
  }

  /** Byte `k` of a decoding whose characters 2k and 2k+1 are hex digits is
      the number they denote. */
  lemma PairByteOfDigits(hex: string, k: nat)
    requires 2 * k + 2 <= |hex| && IsHexDigit(hex[2 * k]) && IsHexDigit(hex[2 * k + 1])
    ensures PairByte(hex, k) == HexDigitValue(hex[2 * k]).value * 16 + HexDigitValue(hex[2 * k + 1]).value
  {
    var c0, c1 := hex[2 * k], hex[2 * k + 1];
    var s := HexPair(hex, k);
    NotSpecial(c0);
    NotSpecial(c1);
    assert TrimStart(s) == s;
    assert HexDigitPrefix(s[1..]) == [c1];
    assert HexDigitPrefix(s) == s;
    assert s[..1] == [c0] && [c0][..0] == [];
    assert HexDigitsValue([c0]) == HexDigitValue(c0).value;
    assert HexDigitsValue(s) == HexDigitValue(c0).value * 16 + HexDigitValue(c1).value;
  }

  /** Decoding reads back every encoded byte. */
  lemma {:induction false} DecodeAfterEncode(bytes: seq<uint8>)
    ensures |EncodeHex(bytes)| % 2 == 0 && |EncodeHex(bytes)| / 2 == |bytes|
    ensures forall k :: 0 <= k < |bytes| ==> PairByte(EncodeHex(bytes), k) == bytes[k]
  {
    Halves(|bytes|);
    forall k | 0 <= k < |bytes|
      ensures PairByte(EncodeHex(bytes), k) == bytes[k]
    {
      PairDecodes(bytes, k);
    }
  }

  /** Arithmetic helper: twice a number is even and halves back to it. */
  lemma Halves(n: nat)
    ensures (2 * n) % 2 == 0 && (2 * n) / 2 == n
  {
  }

  /** Byte `k` of an encoding decodes back to byte `k`. */
  lemma PairDecodes(bytes: seq<uint8>, k: nat)
    requires k < |bytes|
    ensures 2 * k + 2 <= |EncodeHex(bytes)| && PairByte(EncodeHex(bytes), k) == bytes[k]
  {
    var enc := EncodeHex(bytes);
    EncodedAt(bytes, k, 0);
    EncodedAt(bytes, k, 1);
    DigitsOfByte(bytes[k], enc[2 * k], enc[2 * k + 1]);
    PairByteOfDigits(enc, k);
  }

  /** The two digits a byte encodes as denote that byte. */
  lemma DigitsOfByte(b: uint8, c0: char, c1: char)
    requires c0 == ByteToHex(b)[0] && c1 == ByteToHex(b)[1]
    ensures IsHexDigit(c0) && IsHexDigit(c1)
    ensures HexDigitValue(c0).value * 16 + HexDigitValue(c1).value == b as int
  {
    ByteToHexDigits(b);
  }

  /** The round trip of the stored ciphertext, IV and salt: decoding the hex
      encoding of any bytes gives those bytes. */
  method RoundTrip(bytes: seq<uint8>) returns (decoded: Result<seq<uint8>, string>)
    ensures decoded == Success(bytes)
  {
    DecodeAfterEncode(bytes);
    decoded := HexToUint8Array(EncodeHex(bytes));
    assert decoded.value == bytes;
  }

  /** The character `c` with A-F lowered. */
  function LowerHexDigit(c: char): char {
    if 'A' <= c <= 'F' then (c as int - 'A' as int + 'a' as int) as char else c
  }

  /** The other direction: any even-length string of hex digits decodes to
      bytes whose encoding is the string in lower case. */
  lemma {:induction false} EncodeAfterDecode(hex: string)
    requires |hex| % 2 == 0
    requires forall i :: 0 <= i < |hex| ==> IsHexDigit(hex[i])
    ensures var bytes := seq(|hex| / 2, k requires 0 <= k < |hex| / 2 => PairByte(hex, k));
            EncodeHex(bytes) == seq(|hex|, i requires 0 <= i < |hex| => LowerHexDigit(hex[i]))
  {
    var n := |hex| / 2;
    var bytes := seq(n, k requires 0 <= k < n => PairByte(hex, k));
    forall k | 0 <= k < n
      ensures ByteToHex(bytes[k]) == [LowerHexDigit(hex[2 * k]), LowerHexDigit(hex[2 * k + 1])]
    {
      PairEncodes(hex, k);
    }
    EncodePairs(hex, bytes);
    assert EncodeHex(bytes) == seq(|hex|, i requires 0 <= i < |hex| => LowerHexDigit(hex[i]));
  }

  /** Bytes each encoding as the next two characters of `hex`, lowered,
      encode together as all of `hex` lowered. */
  lemma EncodePairs(hex: string, bytes: seq<uint8>)
    requires |hex| == 2 * |bytes|
    requires forall k :: 0 <= k < |bytes| ==> ByteToHex(bytes[k]) == [LowerHexDigit(hex[2 * k]), LowerHexDigit(hex[2 * k + 1])]
    ensures |EncodeHex(bytes)| == |hex|
    ensures forall i :: 0 <= i < |hex| ==> EncodeHex(bytes)[i] == LowerHexDigit(hex[i])
  {
    forall i | 0 <= i < |hex|
      ensures EncodeHex(bytes)[i] == LowerHexDigit(hex[i])
    {
      Split2(i);
      EncodedCharAt(hex, bytes, i, i / 2, i % 2);
    }
  }

  /** Character `i` of the encoding is character `i` of `hex`, lowered. */
  lemma EncodedCharAt(hex: string, bytes: seq<uint8>, i: nat, k: nat, j: nat)
    requires |hex| == 2 * |bytes| && k < |bytes| && j < 2 && i == 2 * k + j
    requires ByteToHex(bytes[k]) == [LowerHexDigit(hex[2 * k]), LowerHexDigit(hex[2 * k + 1])]
    ensures EncodeHex(bytes)[i] == LowerHexDigit(hex[i])
  {
    CharRoundTrip(hex, bytes, k, j);
  }

  /** Arithmetic helper: a position is a pair index and a digit index. */
  lemma Split2(i: nat)
    ensures i == 2 * (i / 2) + i % 2 && i % 2 < 2
  {
  }

  /** Character `2k + j` of the encoding is the same character of `hex`,
      lowered, when byte `k` encodes as that pair. */
  lemma CharRoundTrip(hex: string, bytes: seq<uint8>, k: nat, j: nat)
    requires k < |bytes| && |hex| == 2 * |bytes| && j < 2
    requires ByteToHex(bytes[k]) == [LowerHexDigit(hex[2 * k]), LowerHexDigit(hex[2 * k + 1])]
    ensures EncodeHex(bytes)[2 * k + j] == LowerHexDigit(hex[2 * k + j])
  {
    EncodedAt(bytes, k, j);
    LoweredAt(hex, EncodeHex(bytes), ByteToHex(bytes[k]), k, j);
  }

  /** Character `j` of the lowered pair at `2k` is character `2k + j`
      lowered. */
  lemma LoweredAt(hex: string, enc: string, pair: string, k: nat, j: nat)
    requires 2 * k + 2 <= |hex| && 2 * k + 2 <= |enc| && j < 2
    requires pair == [LowerHexDigit(hex[2 * k]), LowerHexDigit(hex[2 * k + 1])] && enc[2 * k + j] == pair[j]
    ensures enc[2 * k + j] == LowerHexDigit(hex[2 * k + j])
  {
  }

  /** Re-encoding byte `k` of a decoding gives characters 2k and 2k+1 in
      lower case. */
  lemma PairEncodes(hex: string, k: nat)
    requires 2 * k + 2 <= |hex| && IsHexDigit(hex[2 * k]) && IsHexDigit(hex[2 * k + 1])
    ensures ByteToHex(PairByte(hex, k)) == [LowerHexDigit(hex[2 * k]), LowerHexDigit(hex[2 * k + 1])]
  {
    PairByteOfDigits(hex, k);
    DigitsEncode(hex[2 * k], hex[2 * k + 1]);
  }

  /** The byte two hex digits denote encodes as those digits in lower case. */
  lemma DigitsEncode(c0: char, c1: char)
    requires IsHexDigit(c0) && IsHexDigit(c1)
    ensures var b := HexDigitValue(c0).value * 16 + HexDigitValue(c1).value;
            0 <= b < 256 && ByteToHex(b as uint8) == [LowerHexDigit(c0), LowerHexDigit(c1)]
  {
    LowerDigitValue(c0);
    LowerDigitValue(c1);
    var v0, v1 := HexDigitValue(c0).value, HexDigitValue(c1).value;
    var b := v0 * 16 + v1;
    Nibble(v0, v1);
    Nibbles(b as uint8);
  }

  /** Arithmetic helper: a byte's value splits back into its two nibbles. */
  lemma Nibble(hi: nat, lo: nat)
    requires hi < 16 && lo < 16
    ensures (hi * 16 + lo) / 16 == hi && (hi * 16 + lo) % 16 == lo
  {
  }

  /** Lowering a hex digit keeps its value and gives the digit of
      `HEX_DIGITS` with that value. */
  lemma LowerDigitValue(c: char)
    requires IsHexDigit(c)
    ensures HexDigitValue(c).value < 16 && LowerHexDigit(c) == HEX_DIGITS[HexDigitValue(c).value]
  {
  }
}
