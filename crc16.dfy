/**
 * CRC-16/CCITT-FALSE as `calculateCRC16` computes it (utils/promptpay.ts): polynomial
 * 0x1021, initial register 0xFFFF, no reflection, no final XOR, printed as four
 * upper-case hexadecimal digits.
 *
 * Two register models meet here. The reference is a 16-bit register: every shift
 * drops whatever passes bit 15, i.e. the register is masked with 0xFFFF after every
 * shift, as the checksum of EMVCo data object "63" is defined. The source instead
 * works on a JavaScript number: its bit operators act on 32-bit two's-complement
 * integers, so the register is a `bv32` that grows past bit 15 during the eight
 * shifts of a byte and is masked with 0xFFFF once per byte. Both registers are
 * written as `bv32` values; the reference one never exceeds 0xFFFF.
 */
module Crc16 {
  import opened JsText

  const InitialRegister: bv32 := 0xFFFF
  const ShiftsPerByte: nat := 8

  // ---------------------------------------------------------------------------
  // Registers

  /** The source's shift on its int32 register: if bit 15 is set, shift and XOR
      with the polynomial, otherwise just shift. Nothing is masked. */
  function Shift32(r: bv32): bv32 {
    if r & 0x8000 != 0 then (r << 1) ^ 0x1021 else r << 1
  }

  /** The low 16 bits of a register. */
  function Mask(r: bv32): bv32 {
    r & 0xFFFF
  }

  /** The reference shift: the same step on a 16-bit register. */
  function Shift16(r: bv32): bv32 {
    Mask(Shift32(r))
  }

  /** `n` source shifts of the int32 register. */
  function Shifts32(r: bv32, n: nat): bv32 {
    if n == 0 then r else Shift32(Shifts32(r, n - 1))
  }

  /** `n` reference shifts of the 16-bit register. */
  function Shifts16(r: bv32, n: nat): bv32 {
    if n == 0 then r else Shift16(Shifts16(r, n - 1))
  }

  /** Feeds one byte into the high byte of the 16-bit register, then eight shifts. */
  function Update16(r: bv32, b: bv8): bv32 {
    Shifts16(r ^ ((b as bv32) << 8), ShiftsPerByte)
  }

  /** A byte update leaves a 16-bit value in the register. */
  lemma UpdateFits(r: bv32, b: bv8)
    ensures Update16(r, b) <= 0xFFFF
  {
    var x := r ^ ((b as bv32) << 8);
    var y := Shift32(Shifts16(x, ShiftsPerByte - 1));
    assert Shifts16(x, ShiftsPerByte) == Mask(y);
    MaskFits(y);
  }

  lemma MaskFits(r: bv32)
    ensures Mask(r) <= 0xFFFF
  {
  }

  /** The checksum register after a byte string, on the 16-bit register. */
  function Crc(data: seq<bv8>): (r: bv32)
    ensures r <= 0xFFFF
  {
    if data == [] then InitialRegister
    else
      UpdateFits(Crc(data[..|data| - 1]), data[|data| - 1]);
      Update16(Crc(data[..|data| - 1]), data[|data| - 1])
  }

  // ---------------------------------------------------------------------------
  // The source's register against the reference

  /** `data.charCodeAt(i)` as an operand of the int32 operators. */
  function CodeOperand(c: char): bv32 {
    CharCode(c) as bv32
  }

  /** The byte of a character code that reaches the low 16 bits of the register. */
  function LowByte(code: bv32): bv8 {
    (code & 0xFF) as bv8
  }

  /** The bytes the reference checksum is taken over: each character's low byte. */
  function Bytes(s: string): (r: seq<bv8>)
    ensures |r| == |s|
    ensures forall i :: 0 <= i < |s| ==> r[i] == LowByte(CodeOperand(s[i]))
  {
    seq(|s|, i requires 0 <= i < |s| => LowByte(CodeOperand(s[i])))
  }

  lemma BytesSnoc(data: string, i: nat)
    requires i < |data|
    ensures Bytes(data[..i + 1]) == Bytes(data[..i]) + [LowByte(CodeOperand(data[i]))]
  {
  }

  /** The shift written out, once on `r` and once on its low 16 bits. The two
      masked results are the same bit-vector expression, which is what the
      commutation below rests on. */
  lemma ShiftUnfolded(r: bv32)
    ensures Shift32(r) == if r & 0x8000 != 0 then (r << 1) ^ 0x1021 else r << 1
  {
  }

  lemma ShiftLowUnfolded(r: bv32)
    ensures Shift32(r & 0xFFFF)
         == if (r & 0xFFFF) & 0x8000 != 0 then ((r & 0xFFFF) << 1) ^ 0x1021 else (r & 0xFFFF) << 1
  {
  }

  lemma MaskShiftUnfolded(r: bv32)
    ensures Mask(Shift32(r)) == (if r & 0x8000 != 0 then (r << 1) ^ 0x1021 else r << 1) & 0xFFFF
  {
    ShiftUnfolded(r);
  }

  lemma ShiftMaskUnfolded(r: bv32)
    ensures Shift16(r & 0xFFFF)
         == (if (r & 0xFFFF) & 0x8000 != 0 then ((r & 0xFFFF) << 1) ^ 0x1021 else (r & 0xFFFF) << 1) & 0xFFFF
  {
    ShiftLowUnfolded(r);
  }

  /** Masking after a 32-bit shift is the 16-bit shift of the masked register. */
  lemma MaskShift(r: bv32)
    ensures Mask(Shift32(r)) == Shift16(Mask(r))
  {
    MaskShiftUnfolded(r);
    ShiftMaskUnfolded(r);
  }

  /** Masking once, after any number of 32-bit shifts, is masking after every shift. */
  lemma {:induction false} MaskShifts(x: bv32, n: nat)
    ensures Mask(Shifts32(x, n)) == Shifts16(Mask(x), n)
  {
    if n > 0 {
      MaskShifts(x, n - 1);
      MaskShift(Shifts32(x, n - 1));
    }
  }

  /** Only the low byte of the character code reaches the low 16 bits. */
  lemma Feed(r: bv32, code: bv32)
    requires r <= 0xFFFF
    ensures Mask(r ^ (code << 8)) == r ^ ((LowByte(code) as bv32) << 8)
  {
  }

  /** Masking once per byte gives the register that masking after every shift
      gives: the source's byte step is the reference byte step on the low byte of
      the character code. */
  lemma ByteStep(r: bv32, code: bv32)
    requires r <= 0xFFFF
    ensures Mask(Shifts32(r ^ (code << 8), ShiftsPerByte)) == Update16(r, LowByte(code))
  {
    MaskShifts(r ^ (code << 8), ShiftsPerByte);
    Feed(r, code);
  }

  /** The number a 16-bit register holds. */
  function Value16(r: bv32): (v: nat)
    ensures v < 0x10000
  {
    (r & 0xFFFF) as bv16 as int
  }

  lemma WidenNarrow(r: bv32)
    requires r <= 0xFFFF
    ensures ((r & 0xFFFF) as bv16) as bv32 == r
  {
  }

  lemma WidenValue(c: bv16)
    ensures (c as bv32) as int == c as int
  {
  }

  /** A register below 0x10000 is the number `Value16` reads from it. */
  lemma SmallValue(r: bv32)
    requires r <= 0xFFFF
    ensures r as int == Value16(r)
  {
    WidenNarrow(r);
    WidenValue((r & 0xFFFF) as bv16);
  }

  // ---------------------------------------------------------------------------
  // Printing the register

  predicate IsUpperHexDigit(c: char) {
    '0' <= c <= '9' || 'A' <= c <= 'F'
  }

  function HexUpper(d: nat): char
    requires d < 16
  {
    UpperChar(DigitChar(d))
  }

  /** `crc.toString(16).toUpperCase().padStart(4, '0')`. */
  function FormatRegister(v: nat): string {
    PadStart(ToUpperCase(ToRadix(v, 16)), 4, '0')
  }

  lemma ParseFour(a: char, b: char, c: char, d: char)
    ensures ParseRadix([a, b, c, d], 16)
         == ((CharValue(a) * 16 + CharValue(b)) * 16 + CharValue(c)) * 16 + CharValue(d)
  {
    var s := [a, b, c, d];
    assert [a][..0] == [];
    assert ParseRadix([a], 16) == CharValue(a);
    assert [a, b][..1] == [a];
    assert ParseRadix([a, b], 16) == CharValue(a) * 16 + CharValue(b);
    assert [a, b, c][..2] == [a, b];
    assert ParseRadix([a, b, c], 16) == (CharValue(a) * 16 + CharValue(b)) * 16 + CharValue(c);
    assert s[..3] == [a, b, c];
  }

  lemma HexUpperDigit(d: nat)
    requires d < 16
    ensures IsUpperHexDigit(HexUpper(d)) && CharValue(HexUpper(d)) == d
  {
  }

  /** The four hexadecimal digits of a 16-bit value, most significant first. */
  function Nibbles(v: nat): (r: seq<nat>)
    ensures |r| == 4 && forall k :: 0 <= k < 4 ==> r[k] < 16
  {
    [v / 16 / 16 / 16 % 16, v / 16 / 16 % 16, v / 16 % 16, v % 16]
  }

  /** The four digits of `v`, as `padStart(4, '0')` leaves them. */
  function FourDigits(v: nat): string {
    [DigitChar(Nibbles(v)[0]), DigitChar(Nibbles(v)[1]), DigitChar(Nibbles(v)[2]), DigitChar(Nibbles(v)[3])]
  }

  lemma PaddedOneDigit(v: nat)
    requires v < 16
    ensures PadStart(ToRadix(v, 16), 4, '0') == FourDigits(v)
  {
    DivMod(v, 16);
    assert DigitChar(0) == '0';
    assert ToRadix(v, 16) == [DigitChar(v % 16)];
  }

  lemma PaddedTwoDigits(v: nat)
    requires 16 <= v < 0x100
    ensures PadStart(ToRadix(v, 16), 4, '0') == FourDigits(v)
  {
    var q1 := v / 16;
    DivMod(v, 16);
    DivMod(q1, 16);
    assert DigitChar(0) == '0';
    assert ToRadix(q1, 16) == [DigitChar(q1 % 16)];
  }

  lemma PaddedThreeDigits(v: nat)
    requires 0x100 <= v < 0x1000
    ensures PadStart(ToRadix(v, 16), 4, '0') == FourDigits(v)
  {
    var q1 := v / 16;
    var q2 := q1 / 16;
    DivMod(v, 16);
    DivMod(q1, 16);
    DivMod(q2, 16);
    assert DigitChar(0) == '0';
    assert ToRadix(q2, 16) == [DigitChar(q2 % 16)];
    assert ToRadix(q1, 16) == [DigitChar(q2 % 16), DigitChar(q1 % 16)];
  }

  lemma PaddedFourDigits(v: nat)
    requires 0x1000 <= v < 0x10000
    ensures PadStart(ToRadix(v, 16), 4, '0') == FourDigits(v)
  {
    var q1 := v / 16;
    var q2 := q1 / 16;
    var q3 := q2 / 16;
    DivMod(v, 16);
    DivMod(q1, 16);
    DivMod(q2, 16);
    assert ToRadix(q3, 16) == [DigitChar(q3 % 16)];
    assert ToRadix(q2, 16) == [DigitChar(q3 % 16), DigitChar(q2 % 16)];
    assert ToRadix(q1, 16) == [DigitChar(q3 % 16), DigitChar(q2 % 16), DigitChar(q1 % 16)];
  }

  /** `v.toString(16).padStart(4, '0')` lists the four nibbles of a 16-bit value. */
  lemma PaddedRadixDigits(v: nat)
    requires v < 0x10000
    ensures PadStart(ToRadix(v, 16), 4, '0') == FourDigits(v)
  {
    if v < 16 {
      PaddedOneDigit(v);
    } else if v < 0x100 {
      PaddedTwoDigits(v);
    } else if v < 0x1000 {
      PaddedThreeDigits(v);
    } else {
      PaddedFourDigits(v);
    }
  }

  /** Padding with '0' and upper-casing commute. */
  lemma PadUpperCommute(t: string)
    ensures PadStart(ToUpperCase(t), 4, '0') == ToUpperCase(PadStart(t, 4, '0'))
  {
  }

  lemma NibblesValue(v: nat)
    requires v < 0x10000
    ensures ((Nibbles(v)[0] * 16 + Nibbles(v)[1]) * 16 + Nibbles(v)[2]) * 16 + Nibbles(v)[3] == v
  {
    DivMod(v, 16);
    DivMod(v / 16, 16);
    DivMod(v / 16 / 16, 16);
    DivMod(v / 16 / 16 / 16, 16);
  }

  lemma UpperFour(a: char, b: char, c: char, d: char)
    ensures ToUpperCase([a, b, c, d]) == [UpperChar(a), UpperChar(b), UpperChar(c), UpperChar(d)]
  {
  }

  /** A 16-bit register is printed as exactly its four hexadecimal digits,
      most significant first, zero-padded, and reading them back gives the value. */
  lemma FormatRegisterDigits(v: nat)
    requires v < 0x10000
    ensures FormatRegister(v)
         == [HexUpper(Nibbles(v)[0]), HexUpper(Nibbles(v)[1]), HexUpper(Nibbles(v)[2]), HexUpper(Nibbles(v)[3])]
    ensures ParseRadix(FormatRegister(v), 16) == v
  {
    var n := Nibbles(v);
    PaddedRadixDigits(v);
    PadUpperCommute(ToRadix(v, 16));
    UpperFour(DigitChar(n[0]), DigitChar(n[1]), DigitChar(n[2]), DigitChar(n[3]));
    var f := FormatRegister(v);
    assert f == [HexUpper(n[0]), HexUpper(n[1]), HexUpper(n[2]), HexUpper(n[3])];
    HexUpperDigit(n[0]);
    HexUpperDigit(n[1]);
    HexUpperDigit(n[2]);
    HexUpperDigit(n[3]);
    ParseFour(f[0], f[1], f[2], f[3]);
    NibblesValue(v);
  }

  /** The printed checksum field of a string, as the source computes it. */
  function Crc16Hex(data: string): string {
    FormatRegister(Value16(Crc(Bytes(data))))
  }

  /** A 16-bit value is printed as four upper-case hexadecimal digits, and reading
      them back (in either case) gives the value. */
  lemma FormatRegisterShape(v: nat)
    requires v < 0x10000
    ensures |FormatRegister(v)| == 4
    ensures forall i :: 0 <= i < 4 ==> IsUpperHexDigit(FormatRegister(v)[i])
    ensures ParseRadix(FormatRegister(v), 16) == v
  {
    FormatRegisterDigits(v);
    var n := Nibbles(v);
    var d := [HexUpper(n[0]), HexUpper(n[1]), HexUpper(n[2]), HexUpper(n[3])];
    HexUpperDigit(n[0]);
    HexUpperDigit(n[1]);
    HexUpperDigit(n[2]);
    HexUpperDigit(n[3]);
    forall i | 0 <= i < 4
      ensures IsUpperHexDigit(d[i])
    {
      if i == 0 {
      } else if i == 1 {
      } else if i == 2 {
      } else {
        assert i == 3;
      }
    }
  }

  /** The checksum field always has four upper-case hexadecimal digits, and reading
      them back (in either case) gives the 16-bit checksum. */
  lemma Crc16HexShape(data: string)
    ensures |Crc16Hex(data)| == 4
    ensures forall i :: 0 <= i < 4 ==> IsUpperHexDigit(Crc16Hex(data)[i])
    ensures ParseRadix(Crc16Hex(data), 16) == Value16(Crc(Bytes(data)))
  {
    FormatRegisterShape(Value16(Crc(Bytes(data))));
  }

  lemma NibblesFFFF()
    ensures Nibbles(0xFFFF) == [15, 15, 15, 15]
  {
  }

  lemma FormatFFFF()
    ensures FormatRegister(0xFFFF) == "FFFF"
  {
    FormatRegisterDigits(0xFFFF);
    NibblesFFFF();
  }

  /** The empty string's checksum is the initial register, printed "FFFF". */
  lemma Crc16HexEmpty()
    ensures Crc16Hex("") == "FFFF"
  {
    assert Bytes("") == [];
    assert Value16(Crc([])) == 0xFFFF;
    FormatFFFF();
  }

  lemma CrcPrefix(data: seq<bv8>, k: nat)
    requires 0 < k <= |data|
    ensures Crc(data[..k]) == Update16(Crc(data[..k - 1]), data[k - 1])
  {
    assert data[..k][..k - 1] == data[..k - 1];
  }

  /** Eight shifts written out, for evaluating a byte step on constants. */
  lemma Update16Unrolled(r: bv32, b: bv8)
    ensures Update16(r, b)
         == Shift16(Shift16(Shift16(Shift16(Shift16(Shift16(Shift16(Shift16(r ^ ((b as bv32) << 8)))))))))
  {
    var x := r ^ ((b as bv32) << 8);
    assert Shifts16(x, 1) == Shift16(x);
    assert Shifts16(x, 2) == Shift16(Shifts16(x, 1));
    assert Shifts16(x, 3) == Shift16(Shifts16(x, 2));
    assert Shifts16(x, 4) == Shift16(Shifts16(x, 3));
    assert Shifts16(x, 5) == Shift16(Shifts16(x, 4));
    assert Shifts16(x, 6) == Shift16(Shifts16(x, 5));
    assert Shifts16(x, 7) == Shift16(Shifts16(x, 6));
    assert Shifts16(x, 8) == Shift16(Shifts16(x, 7));
  }

  lemma CheckCodesLow()
    ensures LowByte(CodeOperand('1')) == 0x31 && LowByte(CodeOperand('2')) == 0x32 && LowByte(CodeOperand('3')) == 0x33
  {
  }

  lemma CheckCodesMiddle()
    ensures LowByte(CodeOperand('4')) == 0x34 && LowByte(CodeOperand('5')) == 0x35 && LowByte(CodeOperand('6')) == 0x36
  {
  }

  lemma CheckCodesHigh()
    ensures LowByte(CodeOperand('7')) == 0x37 && LowByte(CodeOperand('8')) == 0x38 && LowByte(CodeOperand('9')) == 0x39
  {
  }

  lemma CheckBytes()
    ensures Bytes("123456789") == [0x31, 0x32, 0x33, 0x34, 0x35, 0x36, 0x37, 0x38, 0x39]
  {
    CheckCodesLow();
    CheckCodesMiddle();
    CheckCodesHigh();
  }

  lemma CheckSteps()
    ensures Update16(0xFFFF, 0x31) == 0xC782
    ensures Update16(0xC782, 0x32) == 0x3DBA
    ensures Update16(0x3DBA, 0x33) == 0x5BCE
    ensures Update16(0x5BCE, 0x34) == 0x5349
    ensures Update16(0x5349, 0x35) == 0x4560
    ensures Update16(0x4560, 0x36) == 0x2EF4
    ensures Update16(0x2EF4, 0x37) == 0x7718
    ensures Update16(0x7718, 0x38) == 0xA12B
    ensures Update16(0xA12B, 0x39) == 0x29B1
  {
    Update16Unrolled(0xFFFF, 0x31);
    Update16Unrolled(0xC782, 0x32);
    Update16Unrolled(0x3DBA, 0x33);
    Update16Unrolled(0x5BCE, 0x34);
    Update16Unrolled(0x5349, 0x35);
    Update16Unrolled(0x4560, 0x36);
    Update16Unrolled(0x2EF4, 0x37);
    Update16Unrolled(0x7718, 0x38);
    Update16Unrolled(0xA12B, 0x39);
  }

  lemma Nibbles29B1()
    ensures Nibbles(0x29B1) == [2, 9, 11, 1]
  {
    assert 0x29B1 / 16 == 0x29B && 0x29B / 16 == 0x29 && 0x29 / 16 == 2;
  }

  lemma HexDigits29B1()
    ensures HexUpper(2) == '2' && HexUpper(9) == '9' && HexUpper(11) == 'B' && HexUpper(1) == '1'
  {
  }

  lemma Format29B1()
    ensures FormatRegister(0x29B1) == "29B1"
  {
    FormatRegisterDigits(0x29B1);
    Nibbles29B1();
    HexDigits29B1();
  }

  /** One more byte of a known prefix checksum. */
  lemma CrcStep(data: seq<bv8>, k: nat, before: bv32, b: bv8, after: bv32)
    requires 0 < k <= |data| && data[k - 1] == b
    requires Crc(data[..k - 1]) == before && Update16(before, b) == after
    ensures Crc(data[..k]) == after
  {
    CrcPrefix(data, k);
  }

  lemma CheckRegisterFirst(b: seq<bv8>)
    requires |b| == 9 && b[0] == 0x31 && b[1] == 0x32 && b[2] == 0x33
    ensures Crc(b[..3]) == 0x5BCE
  {
    CheckSteps();
    assert b[..0] == [];
    CrcStep(b, 1, 0xFFFF, 0x31, 0xC782);
    CrcStep(b, 2, 0xC782, 0x32, 0x3DBA);
    CrcStep(b, 3, 0x3DBA, 0x33, 0x5BCE);
  }

  lemma CheckRegisterMiddle(b: seq<bv8>)
    requires |b| == 9 && b[3] == 0x34 && b[4] == 0x35 && b[5] == 0x36
    requires Crc(b[..3]) == 0x5BCE
    ensures Crc(b[..6]) == 0x2EF4
  {
    CheckSteps();
    CrcStep(b, 4, 0x5BCE, 0x34, 0x5349);
    CrcStep(b, 5, 0x5349, 0x35, 0x4560);
    CrcStep(b, 6, 0x4560, 0x36, 0x2EF4);
  }

  lemma CheckRegisterLast(b: seq<bv8>)
    requires |b| == 9 && b[6] == 0x37 && b[7] == 0x38 && b[8] == 0x39
    requires Crc(b[..6]) == 0x2EF4
    ensures Crc(b[..9]) == 0x29B1
  {
    CheckSteps();
    CrcStep(b, 7, 0x2EF4, 0x37, 0x7718);
    CrcStep(b, 8, 0x7718, 0x38, 0xA12B);
    CrcStep(b, 9, 0xA12B, 0x39, 0x29B1);
  }

  /** The register after the nine bytes of "123456789". */
  lemma CheckRegister(b: seq<bv8>)
    requires |b| == 9 && b[0] == 0x31 && b[1] == 0x32 && b[2] == 0x33 && b[3] == 0x34
    requires b[4] == 0x35 && b[5] == 0x36 && b[6] == 0x37 && b[7] == 0x38 && b[8] == 0x39
    ensures Crc(b) == 0x29B1
  {
    CheckRegisterFirst(b);
    CheckRegisterMiddle(b);
    CheckRegisterLast(b);
    CrcWhole(b);
  }

  lemma CrcWhole(b: seq<bv8>)
    ensures Crc(b[..|b|]) == Crc(b)
  {
    assert b[..|b|] == b;
  }

  /** The standard check value of CRC-16/CCITT-FALSE: "123456789" gives 29B1. */
  lemma CheckValue()
    ensures Crc16Hex("123456789") == "29B1"
  {
    CheckBytes();
    CheckRegister(Bytes("123456789"));
    assert Value16(0x29B1) == 0x29B1;
    Format29B1();
  }

  // ---------------------------------------------------------------------------
  // calculateCRC16

  /** `calculateCRC16`: the outer loop over the characters, masking the int32
      register once per character (the inner loop is `ShiftByte`). After each
      character the register holds the 16-bit checksum of the low bytes read so far,
      so it never exceeds 0xFFFF between characters, and the number printed is the
      register itself (`SmallValue`). */
  method CalculateCrc16(data: string) returns (hex: string)
    ensures hex == Crc16Hex(data)
  {
    var crc: bv32 := 0xFFFF;
    var i := 0;
    while i < |data|
      invariant 0 <= i <= |data|
      invariant crc == Crc(Bytes(data[..i]))
    {
      ghost var before := crc;
      var code := CodeOperand(data[i]);
      crc := crc ^ (code << 8);
      crc := ShiftByte(crc);
      NextByte(data, i, before, crc);
      crc := Mask(crc);
      i := i + 1;
    }
    LastByte(data, crc);
    hex := FormatRegister(Value16(crc));
  }

  /** The inner loop of `calculateCRC16`: eight shifts of the int32 register, each
      XOR-ing in the polynomial when bit 15 was set, with no masking in between. */
  method ShiftByte(r: bv32) returns (crc: bv32)
    ensures crc == Shifts32(r, ShiftsPerByte)
  {
    crc := r;
    var j := 0;
    while j < ShiftsPerByte
      invariant 0 <= j <= ShiftsPerByte
      invariant crc == Shifts32(r, j)
    {
      crc := Shift32(crc);
      j := j + 1;
    }
  }

  /** One pass of the outer loop: masking the shifted register gives the checksum
      of one more character. */
  lemma NextByte(data: string, i: nat, before: bv32, shifted: bv32)
    requires i < |data| && before == Crc(Bytes(data[..i]))
    requires shifted == Shifts32(before ^ (CodeOperand(data[i]) << 8), ShiftsPerByte)
    ensures Mask(shifted) == Crc(Bytes(data[..i + 1]))
  {
    ByteKeepsCrc(Bytes(data[..i]), before, CodeOperand(data[i]), shifted);
    BytesSnoc(data, i);
  }

  /** After the last character the register holds the checksum of the whole string. */
  lemma LastByte(data: string, crc: bv32)
    requires crc == Crc(Bytes(data[..|data|]))
    ensures crc == Crc(Bytes(data))
  {
    assert data[..|data|] == data;
  }

  /** Masking the shifted register gives the checksum of one more byte. */
  lemma ByteKeepsCrc(read: seq<bv8>, before: bv32, code: bv32, shifted: bv32)
    requires before == Crc(read)
    requires shifted == Shifts32(before ^ (code << 8), ShiftsPerByte)
    ensures Mask(shifted) == Crc(read + [LowByte(code)])
  {
    ByteStep(before, code);
    CrcSnoc(read, LowByte(code));
  }

  lemma CrcSnoc(data: seq<bv8>, b: bv8)
    ensures Crc(data + [b]) == Update16(Crc(data), b)
  {
    assert (data + [b])[..|data|] == data;
  }
}
