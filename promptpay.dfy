/**
 * The PromptPay QR payload encoder of utils/promptpay.ts: the tag/length/value
 * formatter `f`, the classification of a PromptPay identifier, and the assembly of
 * the EMVCo merchant-presented payload with its CRC-16 checksum field "63".
 *
 * A payload is a flat string of data objects, each a two-character ID, a two-digit
 * decimal length and the value. `Decode` reads such a string back into its data
 * objects; it is the partner against which the encoder is proved.
 */
module PromptPay {
  import opened Wrappers
  import opened JsText
  import opened Crc16

  /** The PromptPay application identifier carried in sub-object "00" of field "29". */
  const PromptPayAid: string := "A000000677010111"

  // ---------------------------------------------------------------------------
  // f: one data object

  /** `value.length.toString().padStart(2, '0')`. */
  function LengthDigits(n: nat): string {
    PadStart(ToRadix(n, 10), 2, '0')
  }

  /** `f(id, value)`: the ID, the zero-padded decimal length, then the value. Nothing
      is omitted and the length is not bounded: a value of 100 or more characters
      gets a length of three or more digits. */
  function Field(id: string, value: string): (r: string)
    ensures |value| <= 99 ==> |r| == |id| + 2 + |value|
    ensures |value| >= 100 ==> |r| >= |id| + 3 + |value|
  {
    LengthBounds(|value|);
    id + LengthDigits(|value|) + value
  }

  lemma LengthBounds(n: nat)
    ensures n <= 99 ==> |LengthDigits(n)| == 2
    ensures n >= 100 ==> |LengthDigits(n)| >= 3
  {
    if n <= 99 {
      LengthDigitsValue(n);
    } else {
      LongLength(n);
    }
  }

  lemma LongLength(n: nat)
    requires n >= 100
    ensures |ToRadix(n, 10)| >= 3
  {
    DivMod(n, 10);
    DivMod(n / 10, 10);
    assert ToRadix(n, 10) == ToRadix(n / 10, 10) + [DigitChar(n % 10)];
    assert ToRadix(n / 10, 10) == ToRadix(n / 10 / 10, 10) + [DigitChar(n / 10 % 10)];
  }

  /** A length up to 99 is written as exactly two decimal digits that read back as it. */
  lemma LengthDigitsValue(n: nat)
    requires n <= 99
    ensures |LengthDigits(n)| == 2 && AllDigits(LengthDigits(n))
    ensures ParseRadix(LengthDigits(n), 10) == n
  {
    var t := ToRadix(n, 10);
    ParseToRadix(n, 10);
    if n < 10 {
      assert t == [DigitChar(n)];
      var d := LengthDigits(n);
      assert d == ['0', DigitChar(n)];
      assert d[..1] == ['0'] && ['0'][..0] == [];
    } else {
      ToRadixLength(n, 10, 2);
      assert |t| == 2 by {
        DivMod(n, 10);
      }
      assert IsRadixDigit(t[0], 10) && IsRadixDigit(t[1], 10);
    }
  }

  // ---------------------------------------------------------------------------
  // Reading data objects back

  datatype DataObject = DataObject(id: string, value: string)

  function Encode(o: DataObject): string {
    Field(o.id, o.value)
  }

  /** The concatenation of the encodings of `os`, in order (`tags.join('')`). */
  function EncodeAll(os: seq<DataObject>): string {
    if os == [] then "" else Encode(os[0]) + EncodeAll(os[1..])
  }

  /** A data object the format can carry: a two-character ID and at most 99 characters. */
  predicate Encodable(o: DataObject) {
    |o.id| == 2 && |o.value| <= 99
  }

  /** Reads a string as a sequence of data objects; `None` when it is not one. */
  function Decode(s: string): Option<seq<DataObject>>
    decreases |s|
  {
    if s == [] then Some([])
    else if |s| < 4 || !AllDigits(s[2..4]) then None
    else
      var n := ParseRadix(s[2..4], 10);
      if |s| < 4 + n then None
      else
        match Decode(s[4 + n..])
        case None => None
        case Some(rest) => Some([DataObject(s[..2], s[4..4 + n])] + rest)
  }

  /** Decoding an encoded data object and whatever follows it. */
  lemma DecodeField(o: DataObject, rest: string)
    requires Encodable(o)
    ensures Decode(Encode(o) + rest)
         == match Decode(rest)
            case None => None
            case Some(os) => Some([o] + os)
  {
    var s := Encode(o) + rest;
    var d := LengthDigits(|o.value|);
    LengthDigitsValue(|o.value|);
    assert s == o.id + d + o.value + rest;
    assert s[2..4] == d;
    assert s[..2] == o.id;
    assert s[4..4 + |o.value|] == o.value;
    assert s[4 + |o.value|..] == rest;
  }

  /** Every sequence of encodable data objects decodes back to itself. */
  lemma {:induction false} DecodeEncodeAll(os: seq<DataObject>)
    requires forall k :: 0 <= k < |os| ==> Encodable(os[k])
    ensures Decode(EncodeAll(os)) == Some(os)
  {
    if os != [] {
      DecodeEncodeAll(os[1..]);
      DecodeField(os[0], EncodeAll(os[1..]));
      ConsSplit(os);
    }
  }

  lemma ConcatAssoc<T>(x: seq<T>, y: seq<T>, z: seq<T>)
    ensures x + (y + z) == (x + y) + z
  {
  }

  lemma ConsSplit<T>(s: seq<T>)
    requires s != []
    ensures [s[0]] + s[1..] == s
  {
  }

  // ---------------------------------------------------------------------------
  // getTargetTypeAndValue

  /** The EMV tag of the identifier inside field "29" and its formatted value. */
  datatype Target = Target(tag: string, value: string)

  /** A 10-digit local mobile number: prefix 06, 08 or 09. */
  predicate IsLocalMobile(raw: string) {
    |raw| == 10 && (raw[..2] == "06" || raw[..2] == "08" || raw[..2] == "09")
  }

  /** A mobile number in one of its three spellings: local "0…" (10 digits),
      international "66…" (11 digits) or full "0066…" (13 digits). */
  predicate IsMobileNumber(raw: string) {
    IsLocalMobile(raw) || (|raw| == 11 && raw[..2] == "66") || (|raw| == 13 && raw[..4] == "0066")
  }

  /** The national significant number of a mobile number: its last nine digits. */
  function LastNine(raw: string): string {
    if |raw| < 9 then raw else raw[|raw| - 9..]
  }

  /** The classification, on the identifier's digits, in the source's order. */
  function Classify(raw: string): Target {
    if IsLocalMobile(raw) then Target("01", "0066" + raw[1..])
    else if |raw| == 11 && raw[..2] == "66" then Target("01", "00" + raw)
    else if |raw| == 13 && raw[..4] == "0066" then Target("01", raw)
    else if |raw| == 13 then Target("02", raw)
    else if |raw| == 15 then Target("03", raw)
    else Target("02", raw)
  }

  /** `getTargetTypeAndValue`: every non-digit is dropped, then the digits are
      classified. It is total; the tag is "01", "02" or "03" and the value is all
      digits; tag "01" is given exactly to the three spellings of a mobile number,
      and its value is "0066" followed by the number's last nine digits; tag "03"
      is given exactly to 15 digits; tag "02" passes the digits through unchanged. */
  function GetTargetTypeAndValue(target: string): (r: Target)
    ensures r.tag == "01" || r.tag == "02" || r.tag == "03"
    ensures AllDigits(r.value)
    ensures r.tag == "01" <==> IsMobileNumber(DigitsOnly(target))
    ensures r.tag == "01" ==> |r.value| == 13 && r.value[..4] == "0066"
    ensures r.tag == "01" ==> r.value == "0066" + LastNine(DigitsOnly(target))
    ensures r.tag == "03" <==> |DigitsOnly(target)| == 15
    ensures r.tag != "01" ==> r.value == DigitsOnly(target)
    ensures |r.value| <= |DigitsOnly(target)| + 3
  {
    ClassifyShape(DigitsOnly(target));
    Classify(DigitsOnly(target))
  }

  lemma ClassifyShape(raw: string)
    requires AllDigits(raw)
    ensures AllDigits(Classify(raw).value)
    ensures Classify(raw).tag == "01" ==> |Classify(raw).value| == 13 && Classify(raw).value[..4] == "0066"
    ensures Classify(raw).tag == "01" ==> 9 <= |raw| && Classify(raw).value == "0066" + LastNine(raw)
    ensures Classify(raw).tag == "01" <==> IsMobileNumber(raw)
  {
    var r := Classify(raw);
    if IsLocalMobile(raw) {
      assert r.value == "0066" + raw[1..];
      assert raw[1..] == raw[|raw| - 9..];
      forall i | 0 <= i < 13
        ensures IsDigit(r.value[i])
      {
        if i >= 4 {
          assert r.value[i] == raw[i - 3];
        }
      }
    } else if |raw| == 11 && raw[..2] == "66" {
      assert r.value == "00" + raw;
      forall i | 0 <= i < 13
        ensures IsDigit(r.value[i])
      {
        if i >= 2 {
          assert r.value[i] == raw[i - 2];
        }
      }
      assert r.value[..4] == "00" + raw[..2];
      assert raw == raw[..2] + raw[2..];
      assert r.value == "0066" + raw[2..];
    } else if |raw| == 13 && raw[..4] == "0066" {
      assert raw == raw[..4] + raw[4..];
    }
  }

  /** Separators are irrelevant: classifying an identifier is classifying its digits. */
  lemma ClassifyDigitsOnly(target: string)
    ensures GetTargetTypeAndValue(DigitsOnly(target)) == GetTargetTypeAndValue(target)
  {
    DigitsOnlyKeepsDigits(DigitsOnly(target));
  }

  /** The mobile-number prefixes after the leading 0: 6, 8 or 9. */
  predicate MobileStart(n: string) {
    |n| == 9 && AllDigits(n) && (n[0] == '6' || n[0] == '8' || n[0] == '9')
  }

  /** The local spelling "0…" of a mobile number. */
  lemma LocalSpelling(n: string)
    requires MobileStart(n)
    ensures GetTargetTypeAndValue("0" + n) == Target("01", "0066" + n)
  {
    PrefixDigits("0", n);
    DigitsClassify("0" + n);
    ClassifyLocal(n);
  }

  /** Every 11-digit number starting "66" is a mobile number in international
      spelling, whatever digit follows. */
  lemma InternationalSpelling(n: string)
    requires |n| == 9 && AllDigits(n)
    ensures GetTargetTypeAndValue("66" + n) == Target("01", "0066" + n)
  {
    PrefixDigits("66", n);
    DigitsClassify("66" + n);
    ClassifyInternational(n);
  }

  /** Every 13-digit number starting "0066" is a mobile number in full spelling,
      whatever digit follows. */
  lemma FullSpelling(n: string)
    requires |n| == 9 && AllDigits(n)
    ensures GetTargetTypeAndValue("0066" + n) == Target("01", "0066" + n)
  {
    PrefixDigits("0066", n);
    DigitsClassify("0066" + n);
    ClassifyFull(n);
  }

  /** A digit string is classified as it is. */
  lemma DigitsClassify(s: string)
    requires AllDigits(s)
    ensures GetTargetTypeAndValue(s) == Classify(s)
  {
    DigitsOnlyKeepsDigits(s);
  }

  lemma ClassifyLocal(n: string)
    requires MobileStart(n)
    ensures Classify("0" + n) == Target("01", "0066" + n)
  {
    var s := "0" + n;
    PrefixParts("0", n);
    assert s[..2] == ['0', n[0]];
  }

  lemma ClassifyInternational(n: string)
    requires |n| == 9 && AllDigits(n)
    ensures Classify("66" + n) == Target("01", "0066" + n)
  {
    PrefixParts("66", n);
    ConcatAssoc("00", "66", n);
  }

  lemma ClassifyFull(n: string)
    requires |n| == 9 && AllDigits(n)
    ensures Classify("0066" + n) == Target("01", "0066" + n)
  {
    PrefixParts("0066", n);
  }

  /** The three spellings of a Thai mobile number, local "0…", international "66…"
      and full "0066…", classify identically. */
  lemma MobileSpellings(n: string)
    requires MobileStart(n)
    ensures GetTargetTypeAndValue("0" + n) == GetTargetTypeAndValue("66" + n)
    ensures GetTargetTypeAndValue("66" + n) == GetTargetTypeAndValue("0066" + n)
    ensures GetTargetTypeAndValue("0" + n).tag == "01"
  {
    LocalSpelling(n);
    InternationalSpelling(n);
    FullSpelling(n);
  }

  lemma PrefixParts<T>(p: seq<T>, n: seq<T>)
    ensures (p + n)[..|p|] == p && (p + n)[|p|..] == n
  {
  }

  lemma PrefixDigits(p: string, n: string)
    requires AllDigits(p) && AllDigits(n)
    ensures AllDigits(p + n)
  {
  }

  /** The merchant's configured mobile number becomes "0066899999999". */
  lemma MerchantIdExample()
    ensures GetTargetTypeAndValue("0899999999") == Target("01", "0066899999999")
  {
    MerchantIdSpelled();
    MerchantIdParts();
  }

  lemma MerchantIdSpelled()
    ensures GetTargetTypeAndValue("0" + "899999999") == Target("01", "0066" + "899999999")
  {
    LocalSpelling("899999999");
  }

  lemma MerchantIdParts()
    ensures "0" + "899999999" == "0899999999" && "0066" + "899999999" == "0066899999999"
  {
  }

  /** A 10-digit number without a mobile prefix is not a mobile number: tag "02",
      digits unchanged. */
  lemma TenDigitFallback(raw: string)
    requires |raw| == 10 && AllDigits(raw) && !IsLocalMobile(raw)
    ensures GetTargetTypeAndValue(raw) == Target("02", raw)
  {
    DigitsOnlyKeepsDigits(raw);
  }

  // ---------------------------------------------------------------------------
  // generatePromptPayPayload

  /** `amount ? … : …`: an amount of zero counts as absent. */
  predicate HasAmount(amount: Option<nat>) {
    amount.Some? && amount.value != 0
  }

  /** `amount.toFixed(2)` for an amount of `satang` hundredths of a baht: the whole
      baht in decimal, a point, and exactly two decimals. */
  function FormatAmount(satang: nat): (r: string)
    ensures |r| >= 4 && r[|r| - 3] == '.'
  {
    LengthDigitsValue(satang % 100);
    ToRadix(satang / 100, 10) + "." + LengthDigits(satang % 100)
  }

  /** Reading a formatted amount back: whole baht, then the two decimals. */
  function ParseAmount(s: string): nat
    requires |s| >= 3
  {
    ParseRadix(s[..|s| - 3], 10) * 100 + ParseRadix(s[|s| - 2..], 10)
  }

  lemma AmountRoundTrip(satang: nat)
    ensures ParseAmount(FormatAmount(satang)) == satang
  {
    var baht, cents := satang / 100, satang % 100;
    DivMod(satang, 100);
    LengthDigitsValue(cents);
    ParseToRadix(baht, 10);
    ParseDecimal(ToRadix(baht, 10), LengthDigits(cents));
  }

  lemma ParseDecimal(whole: string, decimals: string)
    requires |decimals| == 2
    ensures ParseAmount(whole + "." + decimals) == ParseRadix(whole, 10) * 100 + ParseRadix(decimals, 10)
  {
    DecimalParts(whole, '.', decimals);
  }

  lemma DecimalParts<T>(whole: seq<T>, point: T, decimals: seq<T>)
    requires |decimals| == 2
    ensures var r := whole + [point] + decimals;
      r[..|r| - 3] == whole && r[|r| - 2..] == decimals
  {
  }

  /** Sub-objects of field "29": the application ID, then the classified identifier. */
  function MerchantInfo(target: string): string {
    var t := GetTargetTypeAndValue(target);
    Field("00", PromptPayAid) + Field(t.tag, t.value)
  }

  /** Field "01": "12" (dynamic, one payment) with an amount, "11" (static) without. */
  function Initiation(amount: Option<nat>): string {
    if HasAmount(amount) then "12" else "11"
  }

  /** Field "54", or nothing when there is no amount. */
  function AmountField(amount: Option<nat>): string {
    if HasAmount(amount) then Field("54", FormatAmount(amount.value)) else ""
  }

  /** The root data objects before the checksum, in the source's order. */
  function Tags(target: string, amount: Option<nat>): seq<string> {
    [ Field("00", "01"),
      Field("01", Initiation(amount)),
      Field("29", MerchantInfo(target)),
      Field("53", "764"),
      AmountField(amount),
      Field("58", "TH") ]
  }

  /** `tags.join('')`. */
  function Join<T>(parts: seq<seq<T>>): seq<T> {
    if parts == [] then [] else parts[0] + Join(parts[1..])
  }

  /** What the checksum covers: the root fields and the header of field "63". */
  function RawData(target: string, amount: Option<nat>): string {
    Join(Tags(target, amount)) + "6304"
  }

  /** `generatePromptPayPayload`: the root fields, the checksum header "6304", and
      the checksum of everything before it. */
  function GeneratePromptPayPayload(target: string, amount: Option<nat>): string {
    var rawData := RawData(target, amount);
    rawData + Crc16Hex(rawData)
  }

  // ---------------------------------------------------------------------------
  // Properties of the payload

  /** The payload's data objects, checksum last; field "54" only with an amount. */
  function PayloadObjects(target: string, amount: Option<nat>, checksum: string): seq<DataObject> {
    [DataObject("00", "01")] + ([DataObject("01", Initiation(amount))]
      + ([DataObject("29", MerchantInfo(target))] + ([DataObject("53", "764")]
      + (AmountObjects(amount) + ([DataObject("58", "TH")] + [DataObject("63", checksum)])))))
  }

  function AmountObjects(amount: Option<nat>): seq<DataObject> {
    if HasAmount(amount) then [DataObject("54", FormatAmount(amount.value))] else []
  }

  /** The payload is well formed when the identifier has at most 75 digits and the
      formatted amount at most 99 characters; the source checks neither. */
  predicate Fits(target: string, amount: Option<nat>) {
    |DigitsOnly(target)| <= 75 && (HasAmount(amount) ==> |FormatAmount(amount.value)| <= 99)
  }

  /** The first value carried under `id`, if any. */
  function FieldValue(os: seq<DataObject>, id: string): Option<string> {
    if os == [] then None
    else if os[0].id == id then Some(os[0].value)
    else FieldValue(os[1..], id)
  }

  /** The payload, field by field. */
  lemma PayloadParts(target: string, amount: Option<nat>)
    ensures GeneratePromptPayPayload(target, amount)
         == Field("00", "01") + (Field("01", Initiation(amount)) + (Field("29", MerchantInfo(target))
          + (Field("53", "764") + (AmountField(amount) + (Field("58", "TH")
          + Field("63", Crc16Hex(RawData(target, amount))))))))
  {
    var crc := Crc16Hex(RawData(target, amount));
    Crc16HexShape(RawData(target, amount));
    ChecksumField(crc);
    JoinTags(target, amount);
    AppendNested(Field("00", "01"), Field("01", Initiation(amount)), Field("29", MerchantInfo(target)),
      Field("53", "764"), AmountField(amount), Field("58", "TH"), "6304", crc);
  }

  lemma JoinTags(target: string, amount: Option<nat>)
    ensures Join(Tags(target, amount))
         == Field("00", "01") + (Field("01", Initiation(amount)) + (Field("29", MerchantInfo(target))
          + (Field("53", "764") + (AmountField(amount) + Field("58", "TH")))))
  {
    JoinSix(Field("00", "01"), Field("01", Initiation(amount)), Field("29", MerchantInfo(target)),
      Field("53", "764"), AmountField(amount), Field("58", "TH"));
  }

  lemma JoinSix<T>(a: seq<T>, b: seq<T>, c: seq<T>, d: seq<T>, e: seq<T>, f: seq<T>)
    ensures Join([a, b, c, d, e, f]) == a + (b + (c + (d + (e + f))))
  {
    assert [a, b, c, d, e, f] == [a] + ([b] + ([c] + ([d] + ([e] + [f]))));
    JoinCons(f, []);
    JoinCons(e, [f]);
    JoinCons(d, [e] + [f]);
    JoinCons(c, [d] + ([e] + [f]));
    JoinCons(b, [c] + ([d] + ([e] + [f])));
    JoinCons(a, [b] + ([c] + ([d] + ([e] + [f]))));
  }

  lemma JoinCons<T>(x: seq<T>, rest: seq<seq<T>>)
    ensures Join([x] + rest) == x + Join(rest)
  {
    assert ([x] + rest)[1..] == rest;
  }

  lemma AppendNested<T>(a: seq<T>, b: seq<T>, c: seq<T>, d: seq<T>, e: seq<T>, f: seq<T>, x: seq<T>, y: seq<T>)
    ensures a + (b + (c + (d + (e + f)))) + x + y == a + (b + (c + (d + (e + (f + (x + y))))))
  {
  }

  /** Field "63" of a four-character checksum is "6304" and the checksum. */
  lemma ChecksumField(crc: string)
    requires |crc| == 4
    ensures Field("63", crc) == "6304" + crc
  {
    SmallLength(4);
  }

  /** Lengths below ten are written with a leading zero. */
  lemma SmallLength(n: nat)
    requires n < 10
    ensures LengthDigits(n) == ['0', DigitChar(n)]
  {
    assert ToRadix(n, 10) == [DigitChar(n)];
  }

  /** Decoding one more data object in front of a decodable string. */
  lemma DecodeCons(o: DataObject, rest: string, os: seq<DataObject>)
    requires Encodable(o) && Decode(rest) == Some(os)
    ensures Decode(Encode(o) + rest) == Some([o] + os)
  {
    DecodeField(o, rest);
  }

  /** The identifier's sub-objects fit field "29" when it has at most 75 digits. */
  lemma MerchantInfoLength(target: string)
    requires |DigitsOnly(target)| <= 75
    ensures |MerchantInfo(target)| <= 99
  {
    AidFieldLength();
    TargetLength(target);
  }

  lemma AidFieldLength()
    ensures |Field("00", PromptPayAid)| == 20
  {
  }

  lemma TargetLength(target: string)
    requires |DigitsOnly(target)| <= 75
    ensures var t := GetTargetTypeAndValue(target);
      |Field(t.tag, t.value)| <= 79
  {
  }

  /** Field "29" reads back as the application ID and the classified identifier. */
  lemma MerchantInfoDecodes(target: string)
    requires |DigitsOnly(target)| <= 75
    ensures var t := GetTargetTypeAndValue(target);
      Decode(MerchantInfo(target)) == Some([DataObject("00", PromptPayAid), DataObject(t.tag, t.value)])
  {
    var t := GetTargetTypeAndValue(target);
    var aid, id := DataObject("00", PromptPayAid), DataObject(t.tag, t.value);
    TargetEncodable(target);
    AidEncodable();
    DecodeOne(id);
    DecodeCons(aid, Encode(id), [id]);
    Pair(aid, id);
  }

  lemma TargetEncodable(target: string)
    requires |DigitsOnly(target)| <= 75
    ensures var t := GetTargetTypeAndValue(target);
      Encodable(DataObject(t.tag, t.value))
  {
  }

  lemma AidEncodable()
    ensures Encodable(DataObject("00", PromptPayAid))
  {
  }

  lemma DecodeOne(o: DataObject)
    requires Encodable(o)
    ensures Decode(Encode(o)) == Some([o])
  {
    DecodeEmpty();
    DecodeField(o, "");
    EmptyRight(Encode(o));
    EmptyRight([o]);
  }

  lemma DecodeEmpty()
    ensures Decode("") == Some([])
  {
  }

  lemma EmptyRight<T>(s: seq<T>)
    ensures s + [] == s
  {
  }

  lemma Pair<T>(a: T, b: T)
    ensures [a] + [b] == [a, b]
  {
  }

  /** The payload reads back as its root data objects, the checksum object last. */
  lemma PayloadDecodes(target: string, amount: Option<nat>)
    requires Fits(target, amount)
    ensures Decode(GeneratePromptPayPayload(target, amount))
         == Some(PayloadObjects(target, amount, Crc16Hex(RawData(target, amount))))
  {
    var crc := Crc16Hex(RawData(target, amount));
    Crc16HexShape(RawData(target, amount));
    PayloadParts(target, amount);
    var tail := Field("58", "TH") + Field("63", crc);
    var tailObjects := [DataObject("58", "TH")] + [DataObject("63", crc)];
    TailDecodes(crc);
    AmountDecodes(amount, tail, tailObjects);
    HeadDecodes(target, amount, AmountField(amount) + tail, AmountObjects(amount) + tailObjects);
  }

  /** Fields "58" and "63". */
  lemma TailDecodes(crc: string)
    requires |crc| == 4
    ensures Decode(Field("58", "TH") + Field("63", crc))
         == Some([DataObject("58", "TH")] + [DataObject("63", crc)])
  {
    var country, checksum := DataObject("58", "TH"), DataObject("63", crc);
    DecodeOne(checksum);
    DecodeCons(country, Encode(checksum), [checksum]);
  }

  /** Field "54" when there is an amount, nothing otherwise. */
  lemma AmountDecodes(amount: Option<nat>, rest: string, os: seq<DataObject>)
    requires HasAmount(amount) ==> |FormatAmount(amount.value)| <= 99
    requires Decode(rest) == Some(os)
    ensures Decode(AmountField(amount) + rest) == Some(AmountObjects(amount) + os)
  {
    if HasAmount(amount) {
      DecodeCons(DataObject("54", FormatAmount(amount.value)), rest, os);
    } else {
      assert AmountField(amount) + rest == rest;
      assert AmountObjects(amount) + os == os;
    }
  }

  /** Fields "00", "01", "29" and "53". */
  lemma HeadDecodes(target: string, amount: Option<nat>, rest: string, os: seq<DataObject>)
    requires |DigitsOnly(target)| <= 75
    requires Decode(rest) == Some(os)
    ensures Decode(Field("00", "01") + (Field("01", Initiation(amount))
              + (Field("29", MerchantInfo(target)) + (Field("53", "764") + rest))))
         == Some([DataObject("00", "01")] + ([DataObject("01", Initiation(amount))]
              + ([DataObject("29", MerchantInfo(target))] + ([DataObject("53", "764")] + os))))
  {
    var format, initiation := DataObject("00", "01"), DataObject("01", Initiation(amount));
    var merchant, currency := DataObject("29", MerchantInfo(target)), DataObject("53", "764");
    MerchantInfoLength(target);
    DecodeCons(currency, rest, os);
    DecodeCons(merchant, Encode(currency) + rest, [currency] + os);
    DecodeCons(initiation, Encode(merchant) + (Encode(currency) + rest), [merchant] + ([currency] + os));
    DecodeCons(format, Encode(initiation) + (Encode(merchant) + (Encode(currency) + rest)),
      [initiation] + ([merchant] + ([currency] + os)));
  }

  /** The payload opens with field "00" = "01", the payload format indicator. */
  lemma PayloadFormat(target: string, amount: Option<nat>)
    ensures var p := GeneratePromptPayPayload(target, amount);
      |p| >= 6 && p[..6] == "000201"
  {
    FirstFields(target, amount);
    FormatField();
  }

  /** Field "01" follows it. */
  lemma PayloadInitiation(target: string, amount: Option<nat>)
    ensures var p := GeneratePromptPayPayload(target, amount);
      |p| >= 12 && p[6..12] == Field("01", Initiation(amount))
  {
    FirstFields(target, amount);
    FieldLengths(amount);
  }

  lemma FieldLengths(amount: Option<nat>)
    ensures |Field("00", "01")| == 6 && |Field("01", Initiation(amount))| == 6
  {
  }

  lemma FirstFields(target: string, amount: Option<nat>)
    ensures var p, format, initiation := GeneratePromptPayPayload(target, amount), Field("00", "01"), Field("01", Initiation(amount));
      |p| >= |format| + |initiation| && p[..|format|] == format && p[|format|..|format| + |initiation|] == initiation
  {
    var rest := Field("29", MerchantInfo(target)) + (Field("53", "764") + (AmountField(amount) + (Field("58", "TH")
      + Field("63", Crc16Hex(RawData(target, amount))))));
    PayloadParts(target, amount);
    LeadingFields(GeneratePromptPayPayload(target, amount), Initiation(amount), rest);
  }

  lemma LeadingFields(p: string, initiation: string, rest: string)
    requires p == Field("00", "01") + (Field("01", initiation) + rest)
    ensures var format, init := Field("00", "01"), Field("01", initiation);
      |p| >= |format| + |init| && p[..|format|] == format && p[|format|..|format| + |init|] == init
  {
    SliceNested(p, Field("00", "01"), Field("01", initiation), rest);
  }

  lemma FormatField()
    ensures Field("00", "01") == "000201"
  {
    SmallLength(2);
  }

  lemma InitiationField(amount: Option<nat>)
    ensures Field("01", Initiation(amount)) == "0102" + Initiation(amount)
  {
    SmallLength(2);
  }

  lemma SliceNested<T>(p: seq<T>, a: seq<T>, b: seq<T>, r: seq<T>)
    requires p == a + (b + r)
    ensures |p| >= |a| + |b| && p[..|a|] == a && p[|a|..|a| + |b|] == b
  {
  }

  /** Point of initiation: "010212" exactly when there is a non-zero amount,
      "010211" exactly when there is not. */
  lemma PointOfInitiation(target: string, amount: Option<nat>)
    ensures var p := GeneratePromptPayPayload(target, amount);
      |p| >= 12 && (p[6..12] == "010212" <==> HasAmount(amount)) && (p[6..12] == "010211" <==> !HasAmount(amount))
  {
    PayloadInitiation(target, amount);
    InitiationCodes(amount);
  }

  lemma InitiationCodes(amount: Option<nat>)
    ensures Field("01", Initiation(amount)) == "010212" <==> HasAmount(amount)
    ensures Field("01", Initiation(amount)) == "010211" <==> !HasAmount(amount)
  {
    var code := Field("01", Initiation(amount));
    InitiationField(amount);
    assert code[5] == Initiation(amount)[1];
  }

  /** The payload carries the currency field "5303764" (Thai baht, ISO 4217 code 764). */
  lemma PayloadHasCurrency(target: string, amount: Option<nat>)
    ensures Includes(GeneratePromptPayPayload(target, amount), "5303764")
  {
    var tail := AmountField(amount) + (Field("58", "TH") + Field("63", Crc16Hex(RawData(target, amount))));
    PayloadParts(target, amount);
    CurrencyField();
    IncludesPrefix("5303764", tail);
    IncludesAfter(Field("29", MerchantInfo(target)), "5303764" + tail, "5303764");
    IncludesAfter(Field("01", Initiation(amount)), Field("29", MerchantInfo(target)) + ("5303764" + tail), "5303764");
    IncludesAfter(Field("00", "01"), Field("01", Initiation(amount)) + (Field("29", MerchantInfo(target)) + ("5303764" + tail)), "5303764");
  }

  lemma CurrencyField()
    ensures Field("53", "764") == "5303764"
  {
    SmallLength(3);
  }

  /** The payload carries the country field "5802TH". */
  lemma PayloadHasCountry(target: string, amount: Option<nat>)
    ensures Includes(GeneratePromptPayPayload(target, amount), "5802TH")
  {
    var checksum := Field("63", Crc16Hex(RawData(target, amount)));
    var s := "5802TH" + checksum;
    PayloadParts(target, amount);
    CountryField();
    IncludesPrefix("5802TH", checksum);
    IncludesAfter(AmountField(amount), s, "5802TH");
    s := AmountField(amount) + s;
    IncludesAfter(Field("53", "764"), s, "5802TH");
    s := Field("53", "764") + s;
    IncludesAfter(Field("29", MerchantInfo(target)), s, "5802TH");
    s := Field("29", MerchantInfo(target)) + s;
    IncludesAfter(Field("01", Initiation(amount)), s, "5802TH");
    s := Field("01", Initiation(amount)) + s;
    IncludesAfter(Field("00", "01"), s, "5802TH");
  }

  lemma CountryField()
    ensures Field("58", "TH") == "5802TH"
  {
    SmallLength(2);
  }

  /** The payload ends with the header "6304" and the CRC-16 of every character
      before the last four. */
  lemma ChecksumTrailer(target: string, amount: Option<nat>)
    ensures var p := GeneratePromptPayPayload(target, amount);
      |p| >= 8 && p[|p| - 8..|p| - 4] == "6304" && p[|p| - 4..] == Crc16Hex(p[..|p| - 4])
  {
    var raw := RawData(target, amount);
    Crc16HexShape(raw);
    SuffixParts(Join(Tags(target, amount)), "6304", Crc16Hex(raw));
  }

  lemma SuffixParts<T>(a: seq<T>, b: seq<T>, c: seq<T>)
    ensures var s := a + b + c;
      s[|s| - |c| - |b|..|s| - |c|] == b && s[|s| - |c|..] == c && s[..|s| - |c|] == a + b
  {
  }

  lemma FieldValueCons(o: DataObject, os: seq<DataObject>, id: string)
    ensures FieldValue([o] + os, id) == if o.id == id then Some(o.value) else FieldValue(os, id)
  {
    assert ([o] + os)[0] == o && ([o] + os)[1..] == os;
  }

  /** Field "54" is among the payload's objects exactly when there is a non-zero
      amount, and then it carries the formatted amount. */
  lemma AmountLookup(target: string, amount: Option<nat>, checksum: string)
    ensures FieldValue(PayloadObjects(target, amount, checksum), "54")
         == if HasAmount(amount) then Some(FormatAmount(amount.value)) else None
  {
    var tail := [DataObject("58", "TH")] + [DataObject("63", checksum)];
    TailLacksAmount(checksum);
    AmountObjectsLookup(amount, tail);
    HeadLacks(target, amount, AmountObjects(amount) + tail, "54");
  }

  /** Neither the country nor the checksum is field "54". */
  lemma TailLacksAmount(checksum: string)
    ensures FieldValue([DataObject("58", "TH")] + [DataObject("63", checksum)], "54") == None
  {
    var country, crc := DataObject("58", "TH"), DataObject("63", checksum);
    assert country.id[1] != '4' && crc.id[1] != '4';
    FieldValueCons(crc, [], "54");
    FieldValueCons(country, [crc], "54");
  }

  /** The optional amount object is found first, when present. */
  lemma AmountObjectsLookup(amount: Option<nat>, tail: seq<DataObject>)
    ensures FieldValue(AmountObjects(amount) + tail, "54")
         == if HasAmount(amount) then Some(FormatAmount(amount.value)) else FieldValue(tail, "54")
  {
    if HasAmount(amount) {
      FieldValueCons(DataObject("54", FormatAmount(amount.value)), tail, "54");
    } else {
      assert AmountObjects(amount) + tail == tail;
    }
  }

  /** None of fields "00", "01", "29" and "53" is looked up. */
  lemma HeadLacks(target: string, amount: Option<nat>, rest: seq<DataObject>, id: string)
    requires id != "00" && id != "01" && id != "29" && id != "53"
    ensures FieldValue([DataObject("00", "01")] + ([DataObject("01", Initiation(amount))]
              + ([DataObject("29", MerchantInfo(target))] + ([DataObject("53", "764")] + rest))), id)
         == FieldValue(rest, id)
  {
    var format, initiation := DataObject("00", "01"), DataObject("01", Initiation(amount));
    var merchant, currency := DataObject("29", MerchantInfo(target)), DataObject("53", "764");
    FieldValueCons(currency, rest, id);
    FieldValueCons(merchant, [currency] + rest, id);
    FieldValueCons(initiation, [merchant] + ([currency] + rest), id);
    FieldValueCons(format, [initiation] + ([merchant] + ([currency] + rest)), id);
  }

  /** Field "01" among the payload's objects is "12" with an amount, "11" without. */
  lemma InitiationLookup(target: string, amount: Option<nat>, checksum: string)
    ensures FieldValue(PayloadObjects(target, amount, checksum), "01")
         == Some(if HasAmount(amount) then "12" else "11")
  {
    var format, initiation := DataObject("00", "01"), DataObject("01", Initiation(amount));
    var rest := [DataObject("29", MerchantInfo(target))] + ([DataObject("53", "764")]
      + (AmountObjects(amount) + ([DataObject("58", "TH")] + [DataObject("63", checksum)])));
    FieldValueCons(initiation, rest, "01");
    FieldValueCons(format, [initiation] + rest, "01");
  }

  /** A scanner that decodes the payload finds field "54" exactly when there is a
      non-zero amount, and reads the amount back from it. */
  lemma PayloadAmount(target: string, amount: Option<nat>)
    requires Fits(target, amount)
    ensures Decode(GeneratePromptPayPayload(target, amount)).Some?
    ensures var os := Decode(GeneratePromptPayPayload(target, amount)).value;
      var field := FieldValue(os, "54");
      (field.Some? <==> HasAmount(amount))
      && (field.Some? ==> |field.value| >= 3 && ParseAmount(field.value) == amount.value)
  {
    PayloadDecodes(target, amount);
    AmountLookup(target, amount, Crc16Hex(RawData(target, amount)));
    if HasAmount(amount) {
      AmountRoundTrip(amount.value);
    }
  }
}
