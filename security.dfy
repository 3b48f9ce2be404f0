/**
 * The two string helpers of utils/security.ts: `maskPII`, which hides all but
 * the two first and two last characters of a piece of personal data, and
 * `generateHash`, the DJB2 hash printed in hexadecimal that stands in for a log
 * record's digest.
 *
 * JavaScript numbers are doubles; the hash loop stays an exact integer for any
 * input below about four million characters, and the model keeps it as an
 * unbounded `int`. The 32-bit reinterpretations of `<<` and `>>> 0` are written
 * out.
 */
module Security {
  import opened JsText

  // ---------------------------------------------------------------------------
  // maskPII

  /** The four stars that stand for the hidden characters. */
  const Stars: string := "****"

  /** `maskPII(data)`: four stars for an empty or short value; otherwise the first
      two characters, four stars and the last two. */
  function MaskPii(data: string): (r: string)
    ensures |data| < 4 ==> r == Stars
    ensures |data| >= 4 ==> |r| == 8 && r[..2] == data[..2] && r[2..6] == Stars && r[6..] == data[|data| - 2..]
  {
    if |data| < 4 then Stars
    else data[..2] + Stars + data[|data| - 2..]
  }

  /** The mask reveals nothing but the two characters at each end: values of four
      or more characters that agree there are masked alike, whatever their
      middle and their length. */
  lemma MaskPiiHidesMiddle(a: string, b: string)
    requires |a| >= 4 && |b| >= 4
    requires a[..2] == b[..2] && a[|a| - 2..] == b[|b| - 2..]
    ensures MaskPii(a) == MaskPii(b)
  {
  }

  /** Short values are indistinguishable once masked. */
  lemma MaskPiiShort(a: string, b: string)
    requires |a| < 4 && |b| < 4
    ensures MaskPii(a) == MaskPii(b)
  {
  }

  // ---------------------------------------------------------------------------
  // generateHash

  const Two32: int := 0x1_0000_0000

  /** The initial DJB2 value, 5381. */
  const Djb2Seed: nat := 5381

  /** `n >>> 0`: the integer reduced to an unsigned 32-bit value. */
  function ToUint32(n: int): (r: nat)
    ensures r < Two32
    ensures (n - r) % Two32 == 0
  {
    n % Two32
  }

  /** The signed 32-bit value `n | 0`: the operand of a JavaScript shift. */
  function ToInt32(n: int): (r: int)
    ensures -0x8000_0000 <= r < 0x8000_0000
    ensures ToUint32(r) == ToUint32(n)
  {
    var u := ToUint32(n);
    if u >= 0x8000_0000 then u - Two32 else u
  }

  /** `n << 5`: the 32-bit signed value of `n` shifted left, its top bits lost. */
  function ShiftLeft5(n: int): (r: int)
    ensures -0x8000_0000 <= r < 0x8000_0000
    ensures ToUint32(r) == ToUint32(32 * n)
  {
    ToInt32(ToUint32(n) * 32)
  }

  /** DJB2 reduced modulo 2^32: start at 5381, then multiply by 33 and add each
      character's code. */
  function Djb2(s: string): (h: nat)
    ensures h < Two32
  {
    if s == [] then Djb2Seed
    else (33 * Djb2(s[..|s| - 1]) + CharCode(s[|s| - 1])) % Two32
  }

  /** The hexadecimal digest `generateHash` returns. */
  function HashHex(data: string): string {
    ToRadix(Djb2(data), 16)
  }

  /** One step of the source's loop, `((hash << 5) + hash) + code`, is the DJB2
      step modulo 2^32, whatever the value of `hash` the loop carries. */
  lemma ShiftStep(hash: int, code: nat)
    ensures ToUint32(ShiftLeft5(hash) + hash + code) == (33 * ToUint32(hash) + code) % Two32
  {
    var s := ShiftLeft5(hash);
    var u := ToUint32(hash);
    SameResidue(s, 32 * hash);
    SameResidue(hash, u);
    assert (s + hash + code - (33 * u + code)) % Two32 == 0 by {
      assert s + hash + code - (33 * u + code) == (s - 32 * hash) + 33 * (hash - u);
      ModSum(s - 32 * hash, hash - u);
    }
    SameResidueMod(s + hash + code, 33 * u + code);
  }

  lemma SameResidue(a: int, b: int)
    requires ToUint32(a) == ToUint32(b)
    ensures (a - b) % Two32 == 0
  {
    assert a == a / Two32 * Two32 + ToUint32(a);
    assert b == b / Two32 * Two32 + ToUint32(b);
    assert a - b == (a / Two32 - b / Two32) * Two32;
  }

  lemma ModSum(x: int, y: int)
    requires x % Two32 == 0 && y % Two32 == 0
    ensures (x + 33 * y) % Two32 == 0
  {
    assert x == x / Two32 * Two32;
    assert y == y / Two32 * Two32;
    assert x + 33 * y == (x / Two32 + 33 * (y / Two32)) * Two32;
  }

  lemma SameResidueMod(a: int, b: int)
    requires (a - b) % Two32 == 0
    ensures a % Two32 == b % Two32
  {
    var k := (a - b) / Two32;
    assert a - b == k * Two32;
    assert a == b + k * Two32;
    assert a % Two32 == b % Two32;
  }

  /** `generateHash`: the loop over the characters, then `(hash >>> 0).toString(16)`. */
  method GenerateHash(data: string) returns (hex: string)
    ensures hex == HashHex(data)
  {
    var hash: int := Djb2Seed;
    var i := 0;
    while i < |data|
      invariant 0 <= i <= |data|
      invariant ToUint32(hash) == Djb2(data[..i])
    {
      ShiftStep(hash, CharCode(data[i]));
      assert data[..i + 1][..i] == data[..i];
      hash := ShiftLeft5(hash) + hash + CharCode(data[i]);
      i := i + 1;
    }
    assert data[..i] == data;
    hex := ToRadix(ToUint32(hash), 16);
  }

  /** The digest is one to eight lower-case hexadecimal digits, without leading
      zeros, and reads back as the 32-bit DJB2 value. */
  lemma HashHexShape(data: string)
    ensures 1 <= |HashHex(data)| <= 8
    ensures forall i :: 0 <= i < |HashHex(data)| ==> IsRadixDigit(HashHex(data)[i], 16)
    ensures HashHex(data)[0] == '0' ==> HashHex(data) == "0"
    ensures ParseRadix(HashHex(data), 16) == Djb2(data)
  {
    var h := Djb2(data);
    Pow16();
    ToRadixLength(h, 16, 8);
    ToRadixNoLeadingZero(h, 16);
    ParseToRadix(h, 16);
    if h == 0 {
      assert ToRadix(h, 16) == "0";
    }
  }

  lemma Pow16()
    ensures Pow(16, 8) == Two32
  {
    assert Pow(16, 4) == 0x1_0000;
    assert Pow(16, 8) == 0x1_0000 * Pow(16, 4);
  }

  /** The hash of the empty string is the seed 5381, printed "1505". */
  lemma HashEmpty()
    ensures HashHex("") == "1505"
  {
    assert Djb2("") == 0x1505;
    assert ToRadix(0x1505, 16) == ToRadix(0x150, 16) + [DigitChar(5)];
    assert ToRadix(0x150, 16) == ToRadix(0x15, 16) + [DigitChar(0)];
    assert ToRadix(0x15, 16) == ToRadix(1, 16) + [DigitChar(5)];
  }

  /** DJB2 extends one character at a time: the hash of `s + [c]` depends on `s`
      only through the hash of `s`. */
  lemma Djb2Snoc(s: string, c: char)
    ensures Djb2(s + [c]) == (33 * Djb2(s) + CharCode(c)) % Two32
  {
    assert (s + [c])[..|s|] == s;
  }
}
