/** The PayNow QR payload builder: EMVCo merchant-presented data objects
    (two-character id, two-digit length, value), nested objects under ids 26
    and 62, and a closing CRC-16/CCITT-FALSE under id 63; plus the reader
    that parses such a payload back. */
module PayNow {
  import opened Common

  /** The CRC polynomial x^16 + x^12 + x^5 + 1. */
  const CrcPoly: bv32 := 0x1021

  // ---------------------------------------------------------------------
  // Data objects
  // ---------------------------------------------------------------------

  /** One data object: id, then the value's length as at least two digits,
      then the value. */
  function FormatTLV(id: string, value: string): string {
    id + PadStart(NatToString(|value|), 2, '0') + value
  }

  /** A length below 100 is written as exactly two decimal digits. */
  lemma TwoDigitLength(n: nat)
    requires n < 100
    ensures |PadStart(NatToString(n), 2, '0')| == 2
    ensures AllDigits(PadStart(NatToString(n), 2, '0'))
    ensures DecimalValue(PadStart(NatToString(n), 2, '0')) == n
  {
    var s := NatToString(n);
    NatToStringLength(n, 2);
    NatToStringValue(n);
    DecimalLeadingZeros(2 - |s|, s);
  }

  lemma FormatTLVShape(id: string, value: string)
    requires |id| == 2 && |value| < 100
    ensures |FormatTLV(id, value)| == 4 + |value|
    ensures FormatTLV(id, value)[..2] == id
    ensures AllDigits(FormatTLV(id, value)[2..4])
    ensures DecimalValue(FormatTLV(id, value)[2..4]) == |value|
    ensures FormatTLV(id, value)[4..] == value
  {
    TwoDigitLength(|value|);
    var f := FormatTLV(id, value);
    assert f[2..4] == PadStart(NatToString(|value|), 2, '0');
  }

  lemma FormatTLVLength(id: string, value: string)
    requires |id| == 2 && |value| < 100
    ensures |FormatTLV(id, value)| == 4 + |value|
  {
    TwoDigitLength(|value|);
  }

  /** A data object before it is written out. */
  datatype Tlv = Tlv(id: string, value: string)

  function EncodeTlvs(ts: seq<Tlv>): string {
    if ts == [] then "" else FormatTLV(ts[0].id, ts[0].value) + EncodeTlvs(ts[1..])
  }

  /** Every id has two characters and every value fewer than 100. */
  predicate WellFormed(ts: seq<Tlv>) {
    forall i :: 0 <= i < |ts| ==> |ts[i].id| == 2 && |ts[i].value| < 100
  }

  // ---------------------------------------------------------------------
  // CRC-16/CCITT-FALSE, computed on 32-bit integers as JavaScript does
  // ---------------------------------------------------------------------

  /** The value JavaScript's charCodeAt gives (code points up to U+FFFF). */
  function CodeUnit(c: char): bv32 {
    c as bv32
  }

  /** Xor a character into the high byte of the register. */
  function Mix(crc: bv32, c: char): bv32 {
    crc ^ (CodeUnit(c) << 8)
  }

  /** One bit of the shift register, most significant bit first, masked back
      to 16 bits. */
  function CrcRound(x: bv32): bv32 {
    (if x & 0x8000 != 0 then (x << 1) ^ CrcPoly else x << 1) & 0xFFFF
  }

  /** The register after `k` bit rounds. */
  function CrcRounds(x: bv32, k: nat): bv32
    decreases k
  {
    if k == 0 then x else CrcRound(CrcRounds(x, k - 1))
  }

  /** Folding one character into the register: eight bit rounds. */
  function CrcStep(crc: bv32, c: char): bv32 {
    var x := Mix(crc, c);
    CrcRound(CrcRound(CrcRound(CrcRound(CrcRound(CrcRound(CrcRound(CrcRound(x))))))))
  }

  /** The register after the first `k` characters of `s`, starting from 0xFFFF. */
  function CrcUpTo(s: string, k: nat): bv32
    requires k <= |s|
  {
    if k == 0 then 0xFFFF else CrcStep(CrcUpTo(s, k - 1), s[k - 1])
  }

  /** The CRC of a whole string. */
  function CrcFold(s: string): bv32 {
    CrcUpTo(s, |s|)
  }

  /** The register always holds a 16-bit value. */
  lemma CrcFoldBound(s: string)
    ensures CrcFold(s) <= 0xFFFF
  {
  }

  method Crc16(payload: string) returns (crc: bv32)
    ensures crc == CrcFold(payload)
    ensures crc <= 0xFFFF
  {
    crc := 0xFFFF;
    var i := 0;
    while i < |payload|
      invariant 0 <= i <= |payload|
      invariant crc == CrcUpTo(payload, i)
    {
      crc := Mix(crc, payload[i]);
      ghost var start := crc;
      var j := 0;
      while j < 8
        invariant 0 <= j <= 8
        invariant crc == CrcRounds(start, j)
      {
        crc := CrcRound(crc);
        j := j + 1;
      }
      CrcNextChar(payload, i, start, crc);
      i := i + 1;
    }
    CrcFoldBound(payload);
  }

  /** Eight bit rounds after mixing in character `i` give the register
      after `i + 1` characters. */
  lemma CrcNextChar(s: string, i: nat, start: bv32, crc: bv32)
    requires i < |s| && start == Mix(CrcUpTo(s, i), s[i]) && crc == CrcRounds(start, 8)
    ensures crc == CrcUpTo(s, i + 1)
  {
    assert CrcRounds(start, 8) == CrcRound(CrcRounds(start, 7));
    assert CrcRounds(start, 7) == CrcRound(CrcRounds(start, 6));
    assert CrcRounds(start, 6) == CrcRound(CrcRounds(start, 5));
    assert CrcRounds(start, 5) == CrcRound(CrcRounds(start, 4));
    assert CrcRounds(start, 4) == CrcRound(CrcRounds(start, 3));
    assert CrcRounds(start, 3) == CrcRound(CrcRounds(start, 2));
    assert CrcRounds(start, 2) == CrcRound(CrcRounds(start, 1));
    assert CrcRounds(start, 1) == CrcRound(start);
  }

  // The register after each character of the check string, bit round by bit round.
  lemma CrcSteps123()
    ensures CrcStep(0xFFFF, '1') == 0xC782
    ensures CrcStep(0xC782, '2') == 0x3DBA
    ensures CrcStep(0x3DBA, '3') == 0x5BCE
  {
    assert Mix(0xFFFF, '1') == 0xCEFF;
    assert CrcRound(0xCEFF) == 0x8DDF && CrcRound(0x8DDF) == 0x0B9F && CrcRound(0x0B9F) == 0x173E && CrcRound(0x173E) == 0x2E7C && CrcRound(0x2E7C) == 0x5CF8 && CrcRound(0x5CF8) == 0xB9F0 && CrcRound(0xB9F0) == 0x63C1 && CrcRound(0x63C1) == 0xC782;
    assert Mix(0xC782, '2') == 0xF582;
    assert CrcRound(0xF582) == 0xFB25 && CrcRound(0xFB25) == 0xE66B && CrcRound(0xE66B) == 0xDCF7 && CrcRound(0xDCF7) == 0xA9CF && CrcRound(0xA9CF) == 0x43BF && CrcRound(0x43BF) == 0x877E && CrcRound(0x877E) == 0x1EDD && CrcRound(0x1EDD) == 0x3DBA;
    assert Mix(0x3DBA, '3') == 0x0EBA;
    assert CrcRound(0x0EBA) == 0x1D74 && CrcRound(0x1D74) == 0x3AE8 && CrcRound(0x3AE8) == 0x75D0 && CrcRound(0x75D0) == 0xEBA0 && CrcRound(0xEBA0) == 0xC761 && CrcRound(0xC761) == 0x9EE3 && CrcRound(0x9EE3) == 0x2DE7 && CrcRound(0x2DE7) == 0x5BCE;
  }

  lemma CrcSteps456()
    ensures CrcStep(0x5BCE, '4') == 0x5349
    ensures CrcStep(0x5349, '5') == 0x4560
    ensures CrcStep(0x4560, '6') == 0x2EF4
  {
    assert Mix(0x5BCE, '4') == 0x6FCE;
    assert CrcRound(0x6FCE) == 0xDF9C && CrcRound(0xDF9C) == 0xAF19 && CrcRound(0xAF19) == 0x4E13 && CrcRound(0x4E13) == 0x9C26 && CrcRound(0x9C26) == 0x286D && CrcRound(0x286D) == 0x50DA && CrcRound(0x50DA) == 0xA1B4 && CrcRound(0xA1B4) == 0x5349;
    assert Mix(0x5349, '5') == 0x6649;
    assert CrcRound(0x6649) == 0xCC92 && CrcRound(0xCC92) == 0x8905 && CrcRound(0x8905) == 0x022B && CrcRound(0x022B) == 0x0456 && CrcRound(0x0456) == 0x08AC && CrcRound(0x08AC) == 0x1158 && CrcRound(0x1158) == 0x22B0 && CrcRound(0x22B0) == 0x4560;
    assert Mix(0x4560, '6') == 0x7360;
    assert CrcRound(0x7360) == 0xE6C0 && CrcRound(0xE6C0) == 0xDDA1 && CrcRound(0xDDA1) == 0xAB63 && CrcRound(0xAB63) == 0x46E7 && CrcRound(0x46E7) == 0x8DCE && CrcRound(0x8DCE) == 0x0BBD && CrcRound(0x0BBD) == 0x177A && CrcRound(0x177A) == 0x2EF4;
  }

  lemma CrcSteps789()
    ensures CrcStep(0x2EF4, '7') == 0x7718
    ensures CrcStep(0x7718, '8') == 0xA12B
    ensures CrcStep(0xA12B, '9') == 0x29B1
  {
    assert Mix(0x2EF4, '7') == 0x19F4;
    assert CrcRound(0x19F4) == 0x33E8 && CrcRound(0x33E8) == 0x67D0 && CrcRound(0x67D0) == 0xCFA0 && CrcRound(0xCFA0) == 0x8F61 && CrcRound(0x8F61) == 0x0EE3 && CrcRound(0x0EE3) == 0x1DC6 && CrcRound(0x1DC6) == 0x3B8C && CrcRound(0x3B8C) == 0x7718;
    assert Mix(0x7718, '8') == 0x4F18;
    assert CrcRound(0x4F18) == 0x9E30 && CrcRound(0x9E30) == 0x2C41 && CrcRound(0x2C41) == 0x5882 && CrcRound(0x5882) == 0xB104 && CrcRound(0xB104) == 0x7229 && CrcRound(0x7229) == 0xE452 && CrcRound(0xE452) == 0xD885 && CrcRound(0xD885) == 0xA12B;
    assert Mix(0xA12B, '9') == 0x982B;
    assert CrcRound(0x982B) == 0x2077 && CrcRound(0x2077) == 0x40EE && CrcRound(0x40EE) == 0x81DC && CrcRound(0x81DC) == 0x1399 && CrcRound(0x1399) == 0x2732 && CrcRound(0x2732) == 0x4E64 && CrcRound(0x4E64) == 0x9CC8 && CrcRound(0x9CC8) == 0x29B1;
  }

  lemma CrcAfter123(s: string, k: nat)
    requires k + 3 <= |s| && CrcUpTo(s, k) == 0xFFFF
    requires s[k] == '1' && s[k + 1] == '2' && s[k + 2] == '3'
    ensures CrcUpTo(s, k + 3) == 0x5BCE
  {
    CrcSteps123();
    assert CrcUpTo(s, k + 1) == CrcStep(CrcUpTo(s, k), s[k]);
    assert CrcUpTo(s, k + 2) == CrcStep(CrcUpTo(s, k + 1), s[k + 1]);
  }

  lemma CrcAfter456(s: string, k: nat)
    requires k + 3 <= |s| && CrcUpTo(s, k) == 0x5BCE
    requires s[k] == '4' && s[k + 1] == '5' && s[k + 2] == '6'
    ensures CrcUpTo(s, k + 3) == 0x2EF4
  {
    CrcSteps456();
    assert CrcUpTo(s, k + 1) == CrcStep(CrcUpTo(s, k), s[k]);
    assert CrcUpTo(s, k + 2) == CrcStep(CrcUpTo(s, k + 1), s[k + 1]);
  }

  lemma CrcAfter789(s: string, k: nat)
    requires k + 3 <= |s| && CrcUpTo(s, k) == 0x2EF4
    requires s[k] == '7' && s[k + 1] == '8' && s[k + 2] == '9'
    ensures CrcUpTo(s, k + 3) == 0x29B1
  {
    CrcSteps789();
    assert CrcUpTo(s, k + 1) == CrcStep(CrcUpTo(s, k), s[k]);
    assert CrcUpTo(s, k + 2) == CrcStep(CrcUpTo(s, k + 1), s[k + 1]);
  }

  /** The published check value of CRC-16/CCITT-FALSE: the CRC of the
      nine characters "123456789" is 0x29B1. */
  lemma CrcCheckValue(s: string)
    requires |s| == 9 && s[0] == '1' && s[1] == '2' && s[2] == '3' && s[3] == '4'
    requires s[4] == '5' && s[5] == '6' && s[6] == '7' && s[7] == '8' && s[8] == '9'
    ensures CrcFold(s) == 0x29B1
  {
    CrcAfter123(s, 0);
    CrcAfter456(s, 3);
    CrcAfter789(s, 6);
  }

  // ---------------------------------------------------------------------
  // Hexadecimal CRC text
  // ---------------------------------------------------------------------

  function HexDigit(d: nat): char
    requires d < 16
  {
    if d < 10 then DigitChar(d) else ('a' as int + d - 10) as char
  }

  /** `n.toString(16)`: lower-case hexadecimal without leading zeros. */
  function HexString(n: nat): (r: string)
    ensures |r| >= 1
    decreases n
  {
    if n < 16 then [HexDigit(n)] else HexString(n / 16) + [HexDigit(n % 16)]
  }

  predicate IsUpperHex(c: char) {
    IsDigit(c) || 'A' <= c <= 'F'
  }

  predicate AllUpperHex(s: string) {
    forall i :: 0 <= i < |s| ==> IsUpperHex(s[i])
  }

  function UpperHexValue(c: char): nat
    requires IsUpperHex(c)
  {
    if IsDigit(c) then DigitValue(c) else c as int - 'A' as int + 10
  }

  /** The number an upper-case hexadecimal string denotes. */
  function HexValue(s: string): nat
    requires AllUpperHex(s)
  {
    if s == [] then 0 else 16 * HexValue(s[..|s| - 1]) + UpperHexValue(s[|s| - 1])
  }

  /** The CRC as written into the payload: hexadecimal, upper-cased, padded
      with zeros to four characters. */
  function CrcHex(crc: bv32): string {
    PadStart(Upper(HexString(crc as int)), 4, '0')
  }

  lemma {:induction false} UpperHexString(n: nat)
    ensures AllUpperHex(Upper(HexString(n)))
    ensures HexValue(Upper(HexString(n))) == n
    decreases n
  {
    if n >= 16 {
      UpperHexString(n / 16);
      UpperConcat(HexString(n / 16), [HexDigit(n % 16)]);
      var u := Upper(HexString(n));
      assert u[..|u| - 1] == Upper(HexString(n / 16));
    }
  }

  lemma {:induction false} HexStringLength(n: nat, k: nat)
    requires k >= 1 && n < Pow16(k)
    ensures |HexString(n)| <= k
    decreases k
  {
    if n >= 16 {
      HexStringLength(n / 16, k - 1);
    }
  }

  function Pow16(k: nat): nat {
    if k == 0 then 1 else 16 * Pow16(k - 1)
  }

  lemma HexLeadingZeros(z: nat, s: string)
    requires AllUpperHex(s)
    ensures AllUpperHex(Repeat('0', z) + s)
    ensures HexValue(Repeat('0', z) + s) == HexValue(s)
    decreases |s|
  {
    var t := Repeat('0', z) + s;
    if s == [] {
      HexZeros(z);
      assert t == Repeat('0', z);
    } else {
      HexLeadingZeros(z, s[..|s| - 1]);
      assert t[..|t| - 1] == Repeat('0', z) + s[..|s| - 1];
    }
  }

  lemma HexZeros(z: nat)
    ensures AllUpperHex(Repeat('0', z)) && HexValue(Repeat('0', z)) == 0
  {
    if z > 0 {
      HexZeros(z - 1);
      assert Repeat('0', z)[..z - 1] == Repeat('0', z - 1);
    }
  }

  /** The four CRC characters are upper-case hexadecimal and denote the CRC. */
  lemma CrcHexValue(crc: bv32)
    requires crc <= 0xFFFF
    ensures |CrcHex(crc)| == 4
    ensures AllUpperHex(CrcHex(crc))
    ensures HexValue(CrcHex(crc)) == crc as int
  {
    HexText4(crc as int);
  }

  lemma HexText4(n: nat)
    requires n < 0x10000
    ensures var t := PadStart(Upper(HexString(n)), 4, '0');
      |t| == 4 && AllUpperHex(t) && HexValue(t) == n
  {
    var h := Upper(HexString(n));
    assert Pow16(4) == 0x10000;
    HexStringLength(n, 4);
    UpperHexString(n);
    HexLeadingZeros(4 - |h|, h);
  }

  // ---------------------------------------------------------------------
  // Building the payload
  // ---------------------------------------------------------------------

  /** What the caller passes in. The amount is in cents; `None` stands for
      an amount that is not a finite number. A missing proxy type takes the
      default "0"; a missing or empty name, city or reference takes its
      default. */
  datatype PayNowRequest = PayNowRequest(
    amountCents: Option<int>,
    proxyType: Option<string>,
    proxyValue: Option<string>,
    merchantName: Option<string>,
    merchantCity: Option<string>,
    reference: Option<string>)

  /** `s.replace(/\D/g, '')`: the decimal digits of `s`, in order. */
  function DigitsOnly(s: string): (r: string)
    ensures AllDigits(r) && |r| <= |s|
  {
    if s == [] then ""
    else if IsDigit(s[0]) then [s[0]] + DigitsOnly(s[1..])
    else DigitsOnly(s[1..])
  }

  /** A positive amount in cents written with two decimals. */
  function CentsText(cents: nat): string {
    NatToString(cents / 100) + "." + PadStart(NatToString(cents % 100), 2, '0')
  }

  /** The amount field: two decimals, or "0.01" for an amount that is not
      a positive finite number. */
  function AmountText(amountCents: Option<int>): string {
    if amountCents.Some? && amountCents.value > 0 then CentsText(amountCents.value) else "0.01"
  }

  /** The amount text reads back as the amount in cents. */
  lemma CentsTextValue(cents: nat)
    ensures var t := CentsText(cents); var k := |t| - 3;
      k >= 1 && t[k] == '.' && AllDigits(t[..k]) && AllDigits(t[k + 1..]) &&
      DecimalValue(t[..k]) * 100 + DecimalValue(t[k + 1..]) == cents
  {
    var w := NatToString(cents / 100);
    var f := PadStart(NatToString(cents % 100), 2, '0');
    TwoDigitLength(cents % 100);
    NatToStringValue(cents / 100);
    DotSplit(w, f);
  }

  lemma DotSplit(w: string, f: string)
    requires |w| >= 1 && |f| == 2
    ensures var t := w + "." + f; var k := |t| - 3;
      k == |w| && t[..k] == w && t[k] == '.' && t[k + 1..] == f
  {
  }

  /** The merchant account information object (id 26). */
  function MerchantAccount(proxyType: string, proxy: string): string {
    EncodeTlvs(MerchantAccountTlvs(proxyType, proxy))
  }

  function MerchantAccountTlvs(proxyType: string, proxy: string): seq<Tlv> {
    [Tlv("00", "SG.PAYNOW"), Tlv("01", proxyType), Tlv("02", proxy), Tlv("08", "0")]
  }

  function MerchantName(req: PayNowRequest): string {
    Take(OrDefault(req.merchantName, "Mala Hot Pot"), 25)
  }

  function MerchantCity(req: PayNowRequest): string {
    Take(OrDefault(req.merchantCity, "SINGAPORE"), 15)
  }

  /** The reference defaults to "PN" followed by the current time in
      milliseconds. */
  function Reference(req: PayNowRequest, nowMillis: nat): string {
    Take(OrDefault(req.reference, "PN" + NatToString(nowMillis)), 25)
  }

  /** The data objects before the CRC, in payload order. */
  function PayloadTlvs(req: PayNowRequest, proxy: string, nowMillis: nat): seq<Tlv> {
    [ Tlv("00", "01"),
      Tlv("01", "11"),
      Tlv("26", MerchantAccount(req.proxyType.GetOr("0"), proxy)),
      Tlv("52", "0000"),
      Tlv("53", "702"),
      Tlv("54", AmountText(req.amountCents)),
      Tlv("58", "SG"),
      Tlv("59", MerchantName(req)),
      Tlv("60", MerchantCity(req)),
      Tlv("62", FormatTLV("01", Reference(req, nowMillis))) ]
  }

  /** Everything the CRC covers: the data objects, then the CRC object's id
      and length "6304". */
  function PayloadBody(req: PayNowRequest, proxy: string, nowMillis: nat): string {
    EncodeTlvs(PayloadTlvs(req, proxy, nowMillis)) + "6304"
  }

  function BuildPayNowPayload(req: PayNowRequest, nowMillis: nat): (r: Result<string>)
    ensures r.Err? <==> !Truthy(req.proxyValue) || DigitsOnly(req.proxyValue.value) == ""
    ensures !Truthy(req.proxyValue) ==> r == Err("proxyValue required")
    ensures Truthy(req.proxyValue) && DigitsOnly(req.proxyValue.value) == "" ==> r == Err("invalid proxy value")
  {
    if !Truthy(req.proxyValue) then Err("proxyValue required")
    else
      var proxy := DigitsOnly(req.proxyValue.value);
      if proxy == "" then Err("invalid proxy value")
      else
        var withCrc := PayloadBody(req, proxy, nowMillis);
        Ok(withCrc + CrcHex(CrcFold(withCrc)))
  }

  /** A value of fewer than ten characters gets the length "0" and one digit. */
  lemma FormatShort(id: string, value: string)
    requires |value| < 10
    ensures FormatTLV(id, value) == id + ['0', DigitChar(|value|)] + value
  {
    assert PadStart(NatToString(|value|), 2, '0') == ['0', DigitChar(|value|)];
  }

  /** The payload format indicator "01" and the static point of initiation
      "11" come first. */
  lemma BuildPayNowPrefix(req: PayNowRequest, nowMillis: nat)
    requires BuildPayNowPayload(req, nowMillis).Ok?
    ensures StartsWith(BuildPayNowPayload(req, nowMillis).value, "000201010211")
  {
    var proxy := DigitsOnly(req.proxyValue.value);
    var body := PayloadBody(req, proxy, nowMillis);
    EncodeHead(PayloadTlvs(req, proxy, nowMillis), "6304", CrcHex(CrcFold(body)));
  }

  lemma EncodeHead(ts: seq<Tlv>, a: string, b: string)
    requires |ts| >= 2 && ts[0] == Tlv("00", "01") && ts[1] == Tlv("01", "11")
    ensures StartsWith(EncodeTlvs(ts) + a + b, "000201010211")
  {
    var e := EncodeTlvs(ts);
    EncodeHeadOnly(ts);
    assert (e + a + b)[..12] == e[..12];
  }

  lemma EncodeHeadOnly(ts: seq<Tlv>)
    requires |ts| >= 2 && ts[0] == Tlv("00", "01") && ts[1] == Tlv("01", "11")
    ensures |EncodeTlvs(ts)| >= 12 && EncodeTlvs(ts)[..12] == "000201010211"
  {
    FormatShort("00", "01");
    FormatShort("01", "11");
    var head := FormatTLV("00", "01") + FormatTLV("01", "11");
    assert head == "000201010211";
    assert EncodeTlvs(ts[1..]) == FormatTLV("01", "11") + EncodeTlvs(ts[2..]) by {
      assert ts[1..][1..] == ts[2..];
    }
    assert EncodeTlvs(ts) == head + EncodeTlvs(ts[2..]);
  }

  /** The CRC object closes the payload: "6304" and four upper-case hex
      digits that denote the CRC of everything before them. */
  predicate CrcTrailerValid(p: string) {
    |p| >= 8 && p[|p| - 8..|p| - 4] == "6304" && AllUpperHex(p[|p| - 4..]) &&
    HexValue(p[|p| - 4..]) == CrcFold(p[..|p| - 4]) as int
  }

  lemma BuildPayNowCrc(req: PayNowRequest, nowMillis: nat)
    requires BuildPayNowPayload(req, nowMillis).Ok?
    ensures CrcTrailerValid(BuildPayNowPayload(req, nowMillis).value)
  {
    var proxy := DigitsOnly(req.proxyValue.value);
    var withCrc := PayloadBody(req, proxy, nowMillis);
    var p := BuildPayNowPayload(req, nowMillis).value;
    CrcFoldBound(withCrc);
    CrcHexValue(CrcFold(withCrc));
    assert p[..|p| - 4] == withCrc;
    assert p[|p| - 4..] == CrcHex(CrcFold(withCrc));
    assert p[|p| - 8..|p| - 4] == withCrc[|withCrc| - 4..];
  }

  // ---------------------------------------------------------------------
  // Parsing a payload back
  // ---------------------------------------------------------------------

  /** The result of `parseInt(x, 10)`: a number, or NaN. */
  datatype Len = NaN | Num(n: int)

  /** One parsed object: id, parsed length and value. */
  datatype Entry = Entry(id: string, len: Len, value: string)

  /** The entries read, and whether reading stopped at a length of -4 or
      less, which the model's reader treats as the end (`stalled`): at -4
      the source's cursor stays in place and its loop never ends; below -4
      the source moves the cursor before the start of the text and reads
      on. */
  datatype Parsed = Parsed(entries: seq<Entry>, stalled: bool)

  function Append(pre: seq<Entry>, p: Parsed): Parsed {
    Parsed(pre + p.entries, p.stalled)
  }

  /** `s.substr(start, len)` for a non-negative start. */
  function Substr(s: string, start: nat, len: int): (r: string)
    ensures |r| <= if len < 0 then 0 else len
  {
    if start >= |s| || len <= 0 then ""
    else if start + len <= |s| then s[start..start + len]
    else s[start..]
  }

  /** `parseInt(s, 10)`: leading whitespace is skipped, then an optional
      sign, then the longest run of digits; NaN when there is no digit. */
  function ParseInt(s: string): Len
    decreases |s|
  {
    if s != [] && IsJsSpace(s[0]) then ParseInt(s[1..])
    else if s != [] && s[0] == '-' then Negate(DigitRun(s[1..], 0, false))
    else if s != [] && s[0] == '+' then DigitRun(s[1..], 0, false)
    else DigitRun(s, 0, false)
  }

  function Negate(l: Len): Len {
    if l.Num? then Num(-l.n) else NaN
  }

  /** The value of the leading digits of `t`, read left to right onto `acc`;
      `any` says whether a digit has been read yet. */
  function DigitRun(t: string, acc: nat, any: bool): Len
    decreases |t|
  {
    if t != [] && IsDigit(t[0]) then DigitRun(t[1..], 10 * acc + DigitValue(t[0]), true)
    else if any then Num(acc)
    else NaN
  }

  /** On a string of digits, the run covers it all. */
  lemma {:induction false} DigitRunAll(t: string, acc: nat, any: bool)
    requires AllDigits(t) && (t != [] || any)
    ensures DigitRun(t, acc, any) == Num(acc * Pow10(|t|) + DecimalValue(t))
    decreases |t|
  {
    if t != [] {
      DigitRunAll(t[1..], 10 * acc + DigitValue(t[0]), true);
      DecimalValueCons(t);
    }
  }

  /** Reading the first digit first gives the same value. */
  lemma {:induction false} DecimalValueCons(t: string)
    requires t != [] && AllDigits(t)
    ensures DecimalValue(t) == DigitValue(t[0]) * Pow10(|t| - 1) + DecimalValue(t[1..])
    decreases |t|
  {
    var n := |t|;
    if n > 1 {
      var u := t[..n - 1];
      var d0, last := DigitValue(t[0]), t[n - 1] as int - '0' as int;
      DecimalValueCons(u);
      assert u[0] == t[0];
      assert u[1..] == t[1..][..n - 2];
      var p := Pow10(n - 2);
      var a := d0 * p;
      assert DecimalValue(t) == 10 * DecimalValue(u) + last;
      assert DecimalValue(t[1..]) == 10 * DecimalValue(u[1..]) + last;
      assert DecimalValue(u) == a + DecimalValue(u[1..]);
      assert Pow10(n - 1) == 10 * p;
      ScaleByTen(d0, p);
    } else {
      assert t[1..] == [];
      assert t[..0] == [];
    }
  }

  lemma ScaleByTen(d: int, p: int)
    ensures d * (10 * p) == 10 * (d * p)
  {
  }

  lemma ParseIntDigits(s: string)
    requires s != [] && AllDigits(s)
    ensures ParseInt(s) == Num(DecimalValue(s))
  {
    DigitRunAll(s, 0, false);
  }

  /** `parseInt` of a length field of at most two characters, case by case. */
  function LengthField(s: string): Len
    requires |s| <= 2
  {
    if |s| == 0 then NaN
    else if |s| == 1 then SingleDigit(s[0])
    else LengthPair(s[0], s[1])
  }

  /** `parseInt` of a two-character field: a leading space is skipped, a
      sign may precede one digit, and a digit not followed by a digit stands
      alone. */
  function LengthPair(a: char, b: char): Len {
    if IsJsSpace(a) then SingleDigit(b)
    else if a == '+' || a == '-' then
      (if IsDigit(b) then Num(if a == '-' then -(DigitValue(b) as int) else DigitValue(b)) else NaN)
    else if IsDigit(a) then
      Num(if IsDigit(b) then 10 * DigitValue(a) + DigitValue(b) else DigitValue(a))
    else NaN
  }

  /** The length field at `cursor` read straight from the characters after
      the id: `parseInt(p.substr(cursor + 2, 2), 10)`. */
  function LengthAt(p: string, cursor: nat): Len {
    if cursor + 2 >= |p| then NaN
    else if cursor + 3 == |p| then SingleDigit(p[cursor + 2])
    else LengthPair(p[cursor + 2], p[cursor + 3])
  }

  lemma LengthAtField(p: string, cursor: nat)
    ensures LengthAt(p, cursor) == LengthField(Substr(p, cursor + 2, 2))
  {
    var s := Substr(p, cursor + 2, 2);
    if cursor + 3 == |p| {
      assert s == [p[cursor + 2]];
    } else if cursor + 3 < |p| {
      assert s == [p[cursor + 2], p[cursor + 3]];
    }
  }

  function SingleDigit(c: char): Len {
    if IsDigit(c) then Num(DigitValue(c)) else NaN
  }

  lemma ParseIntOne(s: string)
    requires |s| == 1
    ensures ParseInt(s) == SingleDigit(s[0])
  {
    assert s[1..] == [];
    assert ParseInt([]) == NaN;
    if IsDigit(s[0]) {
      assert DigitRun(s, 0, false) == DigitRun([], DigitValue(s[0]), true);
    } else {
      assert DigitRun(s, 0, false) == NaN;
    }
  }

  /** For the length fields the reading loop sees, the case analysis is
      `parseInt` itself. */
  lemma LengthFieldIsParseInt(s: string)
    requires |s| <= 2
    ensures LengthField(s) == ParseInt(s)
  {
    if |s| == 1 {
      ParseIntOne(s);
    } else if |s| == 2 {
      var u := s[1..];
      assert u[1..] == [];
      assert DigitRun(u, 0, false) == SingleDigit(s[1]);
      if IsJsSpace(s[0]) {
        assert ParseInt(s) == ParseInt(u);
        ParseIntOne(u);
      } else if IsDigit(s[0]) {
        assert DigitRun(u, DigitValue(s[0]), true) ==
          Num(if IsDigit(s[1]) then 10 * DigitValue(s[0]) + DigitValue(s[1]) else DigitValue(s[0]));
      }
    }
  }

  /** The object read at `cursor`. */
  function EntryAt(p: string, cursor: nat): Entry {
    var len := LengthAt(p, cursor);
    Entry(Substr(p, cursor, 2), len, if len.Num? then Substr(p, cursor + 4, len.n) else "")
  }

  /** The reading loop from `cursor` on, with the objects read so far in
      `entries`. A NaN length ends the loop (the cursor becomes NaN); with
      `stopAt63`, so does the CRC object; a length of -4 or less, which
      would leave the cursor where it was or move it before the start of
      the text, ends the reading as `stalled`. */
  function ParseFrom(p: string, cursor: nat, entries: seq<Entry>, stopAt63: bool): Parsed
    decreases |p| - cursor
  {
    if cursor >= |p| then Parsed(entries, false)
    else
      var e := EntryAt(p, cursor);
      if e.len.NaN? || (stopAt63 && e.id == "63") then Parsed(entries + [e], false)
      else if e.len.n <= -4 then Parsed(entries + [e], true)
      else ParseFrom(p, cursor + 4 + e.len.n, entries + [e], stopAt63)
  }

  /** The three ways one turn of the reading loop can end. */
  lemma ParseFromStops(p: string, cursor: nat, entries: seq<Entry>, stopAt63: bool, e: Entry)
    requires cursor < |p| && e == EntryAt(p, cursor)
    requires e.len.NaN? || (stopAt63 && e.id == "63")
    ensures ParseFrom(p, cursor, entries, stopAt63) == Parsed(entries + [e], false)
  {
  }

  lemma ParseFromStalls(p: string, cursor: nat, entries: seq<Entry>, stopAt63: bool, e: Entry)
    requires cursor < |p| && e == EntryAt(p, cursor)
    requires !(e.len.NaN? || (stopAt63 && e.id == "63")) && e.len.n <= -4
    ensures ParseFrom(p, cursor, entries, stopAt63) == Parsed(entries + [e], true)
  {
  }

  lemma ParseFromMoves(p: string, cursor: nat, entries: seq<Entry>, stopAt63: bool, e: Entry, next: nat)
    requires cursor < |p| && e == EntryAt(p, cursor)
    requires !(e.len.NaN? || (stopAt63 && e.id == "63")) && e.len.n > -4
    requires next == cursor + 4 + e.len.n
    ensures ParseFrom(p, cursor, entries, stopAt63) == ParseFrom(p, next, entries + [e], stopAt63)
  {
  }

  /** At the end of the payload the loop ends with what it has read. */
  lemma ParseFromEnd(p: string, cursor: nat, entries: seq<Entry>, stopAt63: bool)
    requires cursor >= |p|
    ensures ParseFrom(p, cursor, entries, stopAt63) == Parsed(entries, false)
  {
  }

  /** The same three facts, phrased as the reading loops' invariant: what
      is still to be read, after what has been read, is the whole result. */
  lemma TurnMoves(p: string, cursor: nat, entries: seq<Entry>, stopAt63: bool, e: Entry, next: nat, whole: Parsed)
    requires cursor < |p| && e == EntryAt(p, cursor)
    requires !(e.len.NaN? || (stopAt63 && e.id == "63")) && e.len.n > -4
    requires next == cursor + 4 + e.len.n
    requires ParseFrom(p, cursor, entries, stopAt63) == whole
    ensures ParseFrom(p, next, entries + [e], stopAt63) == whole
  {
    ParseFromMoves(p, cursor, entries, stopAt63, e, next);
  }

  lemma TurnEnds(p: string, cursor: nat, entries: seq<Entry>, stopAt63: bool, e: Entry, stalled: bool, whole: Parsed)
    requires cursor < |p| && e == EntryAt(p, cursor)
    requires !stalled ==> e.len.NaN? || (stopAt63 && e.id == "63")
    requires stalled ==> !(e.len.NaN? || (stopAt63 && e.id == "63")) && e.len.n <= -4
    requires ParseFrom(p, cursor, entries, stopAt63) == whole
    ensures Parsed(entries + [e], stalled) == whole
  {
  }

  lemma LoopEnds(p: string, cursor: nat, entries: seq<Entry>, stopAt63: bool, whole: Parsed)
    requires cursor >= |p|
    requires ParseFrom(p, cursor, entries, stopAt63) == whole
    ensures Parsed(entries, false) == whole
  {
  }

  method ParseTLV(payload: string) returns (r: Parsed)
    ensures r == ParseFrom(payload, 0, [], true)
  {
    var entries: seq<Entry> := [];
    var cursor: nat := 0;
    ghost var whole := ParseFrom(payload, 0, [], true);
    while cursor < |payload|
      invariant ParseFrom(payload, cursor, entries, true) == whole
      decreases |payload| - cursor
    {
      var e := EntryAt(payload, cursor);
      if e.len.NaN? || e.id == "63" {
        TurnEnds(payload, cursor, entries, true, e, false, whole);
        return Parsed(entries + [e], false);
      }
      if e.len.n <= -4 {
        TurnEnds(payload, cursor, entries, true, e, true, whole);
        return Parsed(entries + [e], true);
      }
      var next: nat := cursor + 4 + e.len.n;
      TurnMoves(payload, cursor, entries, true, e, next, whole);
      entries := entries + [e];
      cursor := next;
    }
    LoopEnds(payload, cursor, entries, true, whole);
    return Parsed(entries, false);
  }

  // ---------------------------------------------------------------------
  // Reading written objects back
  // ---------------------------------------------------------------------

  /** The entries the reader should produce for written objects. */
  function Entries(ts: seq<Tlv>): (r: seq<Entry>)
    ensures |r| == |ts|
    ensures forall i :: 0 <= i < |ts| ==> r[i] == Entry(ts[i].id, Num(|ts[i].value|), ts[i].value)
  {
    if ts == [] then [] else [Entry(ts[0].id, Num(|ts[0].value|), ts[0].value)] + Entries(ts[1..])
  }

  predicate NoCrcId(ts: seq<Tlv>) {
    forall i :: 0 <= i < |ts| ==> ts[i].id != "63"
  }

  /** A two-digit length field reads as its decimal value. */
  lemma TwoDigitField(s: string)
    requires |s| == 2 && AllDigits(s)
    ensures LengthField(s) == Num(DecimalValue(s))
  {
    var u := s[..1];
    assert u[..0] == [];
    assert DecimalValue(u) == DigitValue(s[0]);
    assert DecimalValue(s) == 10 * DecimalValue(u) + DigitValue(s[1]);
  }

  /** A slice of a slice is a slice. */
  lemma SliceOfSlice(p: string, i: nat, j: nat, a: nat, b: nat)
    requires i <= j <= |p| && a <= b <= j - i
    ensures p[i..j][a..b] == p[i + a..i + b]
  {
    var q := p[i..j];
    assert forall t :: 0 <= t < b - a ==> q[a..b][t] == q[a + t] == p[i + a + t];
  }

  /** What the reader sees at `k` when id, length field and value are there. */
  lemma EntryAtParts(p: string, k: nat, id: string, v: string)
    requires |id| == 2 && k + 4 + |v| <= |p|
    requires p[k..k + 2] == id && LengthField(p[k + 2..k + 4]) == Num(|v|)
    requires p[k + 4..k + 4 + |v|] == v
    ensures EntryAt(p, k) == Entry(id, Num(|v|), v)
  {
    LengthAtField(p, k);
  }

  /** At the start of a written object the reader sees its id, length and value. */
  lemma EntryAtFormatted(p: string, k: nat, id: string, v: string)
    requires |id| == 2 && |v| < 100
    requires k + 4 + |v| <= |p| && p[k..k + 4 + |v|] == FormatTLV(id, v)
    ensures EntryAt(p, k) == Entry(id, Num(|v|), v)
  {
    var f := p[k..k + 4 + |v|];
    FormatTLVShape(id, v);
    SliceOfSlice(p, k, k + 4 + |v|, 0, 2);
    SliceOfSlice(p, k, k + 4 + |v|, 2, 4);
    SliceOfSlice(p, k, k + 4 + |v|, 4, 4 + |v|);
    assert f[4..4 + |v|] == f[4..];
    TwoDigitField(f[2..4]);
    EntryAtParts(p, k, id, v);
  }

  /** Written objects split into the first one and the others. */
  lemma EncodedSplit(p: string, k: nat, end: nat, ts: seq<Tlv>)
    requires ts != [] && |ts[0].id| == 2 && |ts[0].value| < 100
    requires end == k + |EncodeTlvs(ts)| && end <= |p| && p[k..end] == EncodeTlvs(ts)
    ensures var mid := k + 4 + |ts[0].value|;
      mid + |EncodeTlvs(ts[1..])| == end &&
      p[k..mid] == FormatTLV(ts[0].id, ts[0].value) && p[mid..end] == EncodeTlvs(ts[1..])
  {
    var f := FormatTLV(ts[0].id, ts[0].value);
    var rest := EncodeTlvs(ts[1..]);
    FormatTLVLength(ts[0].id, ts[0].value);
    assert EncodeTlvs(ts) == f + rest;
    SliceOfSlice(p, k, end, 0, |f|);
    SliceOfSlice(p, k, end, |f|, end - k);
    assert (f + rest)[..|f|] == f;
    assert (f + rest)[|f|..] == rest;
  }

  /** Reading over written objects yields their entries, in order, and
      leaves the cursor just after them. */
  lemma {:induction false} ParseEncoded(p: string, k: nat, end: nat, ts: seq<Tlv>, acc: seq<Entry>, stopAt63: bool)
    requires WellFormed(ts) && (stopAt63 ==> NoCrcId(ts))
    requires end == k + |EncodeTlvs(ts)| && end <= |p| && p[k..end] == EncodeTlvs(ts)
    ensures ParseFrom(p, k, acc, stopAt63) == ParseFrom(p, end, acc + Entries(ts), stopAt63)
    decreases |ts|
  {
    if ts == [] {
      ParseEncodedNone(p, k, end, ts, acc, stopAt63);
    } else {
      var k' := ParseEncodedStep(p, k, end, ts, acc, stopAt63);
      TailProperties(ts, stopAt63);
      ParseEncoded(p, k', end, ts[1..], acc + [Entries(ts)[0]], stopAt63);
      EntriesCons(acc, ts);
    }
  }

  lemma ParseEncodedNone(p: string, k: nat, end: nat, ts: seq<Tlv>, acc: seq<Entry>, stopAt63: bool)
    requires ts == [] && end == k + |EncodeTlvs(ts)|
    ensures ParseFrom(p, k, acc, stopAt63) == ParseFrom(p, end, acc + Entries(ts), stopAt63)
  {
    assert EncodeTlvs(ts) == [] && acc + Entries(ts) == acc;
  }

  /** One turn of the reading loop over the first written object. */
  lemma ParseEncodedStep(p: string, k: nat, end: nat, ts: seq<Tlv>, acc: seq<Entry>, stopAt63: bool) returns (k': nat)
    requires ts != [] && WellFormed(ts) && (stopAt63 ==> NoCrcId(ts))
    requires end == k + |EncodeTlvs(ts)| && end <= |p| && p[k..end] == EncodeTlvs(ts)
    ensures end == k' + |EncodeTlvs(ts[1..])| && p[k'..end] == EncodeTlvs(ts[1..])
    ensures ParseFrom(p, k, acc, stopAt63) == ParseFrom(p, k', acc + [Entries(ts)[0]], stopAt63)
  {
    var id, v := ts[0].id, ts[0].value;
    assert |id| == 2 && |v| < 100;
    var e := Entries(ts)[0];
    assert e == Entry(id, Num(|v|), v);
    k' := k + 4 + |v|;
    EncodedSplit(p, k, end, ts);
    EntryAtFormatted(p, k, id, v);
    assert stopAt63 ==> id != "63";
    ParseFromMoves(p, k, acc, stopAt63, e, k');
  }

  lemma TailProperties(ts: seq<Tlv>, stopAt63: bool)
    requires ts != [] && WellFormed(ts) && (stopAt63 ==> NoCrcId(ts))
    ensures WellFormed(ts[1..]) && (stopAt63 ==> NoCrcId(ts[1..]))
    ensures stopAt63 ==> ts[0].id != "63"
  {
  }

  lemma EntriesCons(acc: seq<Entry>, ts: seq<Tlv>)
    requires ts != []
    ensures acc + Entries(ts) == (acc + [Entries(ts)[0]]) + Entries(ts[1..])
  {
  }

  /** A concatenation of objects without a CRC object reads back as their
      entries, in order. */
  lemma ParseTLVConcat(ts: seq<Tlv>)
    requires WellFormed(ts) && NoCrcId(ts)
    ensures ParseFrom(EncodeTlvs(ts), 0, [], true) == Parsed(Entries(ts), false)
  {
    var p := EncodeTlvs(ts);
    assert p[0..|p|] == p;
    ParseEncoded(p, 0, |p|, ts, [], true);
    assert [] + Entries(ts) == Entries(ts);
    ParseFromEnd(p, |p|, Entries(ts), true);
  }

  /** One written object reads back as one entry, whatever its id. */
  lemma ParseTLVSingle(id: string, v: string)
    requires |id| == 2 && |v| < 100
    ensures ParseFrom(FormatTLV(id, v), 0, [], true) == Parsed([Entry(id, Num(|v|), v)], false)
  {
    var p := FormatTLV(id, v);
    FormatTLVShape(id, v);
    assert p[0..4 + |v|] == p;
    EntryAtFormatted(p, 0, id, v);
    var e := Entry(id, Num(|v|), v);
    if id == "63" {
      ParseFromStops(p, 0, [], true, e);
    } else {
      ParseFromMoves(p, 0, [], true, e, |p|);
      ParseFromEnd(p, |p|, [e], true);
    }
  }

  /** Reading stops after the CRC object; whatever follows it is ignored. */
  lemma ParseTLVStops63(v: string, rest: string)
    requires |v| < 100
    ensures ParseFrom(FormatTLV("63", v) + rest, 0, [], true) == Parsed([Entry("63", Num(|v|), v)], false)
  {
    var f := FormatTLV("63", v);
    var p := f + rest;
    FormatTLVShape("63", v);
    assert p[0..4 + |v|] == f;
    EntryAtFormatted(p, 0, "63", v);
    ParseFromStops(p, 0, [], true, Entry("63", Num(|v|), v));
  }

  // ---------------------------------------------------------------------
  // Reading a built payload back
  // ---------------------------------------------------------------------

  /** The ids of the entries, in order. */
  function Ids(es: seq<Entry>): (r: seq<string>)
    ensures |r| == |es| && forall i :: 0 <= i < |es| ==> r[i] == es[i].id
  {
    if es == [] then [] else [es[0].id] + Ids(es[1..])
  }

  lemma IdsConcat(a: seq<Entry>, b: seq<Entry>)
    ensures Ids(a + b) == Ids(a) + Ids(b)
  {
  }

  /** The merchant account object holds four objects of its own. */
  lemma MerchantAccountLength(proxyType: string, proxy: string)
    requires |proxyType| < 100 && |proxy| < 100
    ensures WellFormed(MerchantAccountTlvs(proxyType, proxy))
    ensures |MerchantAccount(proxyType, proxy)| == 26 + |proxyType| + |proxy|
  {
    var ts := MerchantAccountTlvs(proxyType, proxy);
    FormatTLVLength("00", "SG.PAYNOW");
    FormatTLVLength("01", proxyType);
    FormatTLVLength("02", proxy);
    FormatTLVLength("08", "0");
    assert EncodeTlvs(ts[3..]) == FormatTLV("08", "0") by {
      assert ts[3..][1..] == [];
    }
    assert EncodeTlvs(ts[2..]) == FormatTLV("02", proxy) + EncodeTlvs(ts[3..]) by {
      assert ts[2..][1..] == ts[3..];
    }
    assert EncodeTlvs(ts[1..]) == FormatTLV("01", proxyType) + EncodeTlvs(ts[2..]) by {
      assert ts[1..][1..] == ts[2..];
    }
  }

  /** With a short enough proxy and amount every value of the payload has a
      two-digit length, and none of the objects is the CRC object. */
  lemma PayloadWellFormed(req: PayNowRequest, proxy: string, nowMillis: nat)
    requires |req.proxyType.GetOr("0")| + |proxy| < 74 && |AmountText(req.amountCents)| < 100
    ensures WellFormed(PayloadTlvs(req, proxy, nowMillis)) && NoCrcId(PayloadTlvs(req, proxy, nowMillis))
  {
    var account := MerchantAccount(req.proxyType.GetOr("0"), proxy);
    var refObject := FormatTLV("01", Reference(req, nowMillis));
    MerchantAccountLength(req.proxyType.GetOr("0"), proxy);
    FormatTLVLength("01", Reference(req, nowMillis));
    ObjectsWellFormed(account, AmountText(req.amountCents), MerchantName(req), MerchantCity(req), refObject);
  }

  /** The ten top-level objects, with values of fewer than 100 characters,
      have two-character ids and none is the CRC object. */
  lemma ObjectsWellFormed(account: string, amount: string, name: string, city: string, refObject: string)
    requires |account| < 100 && |amount| < 100 && |name| < 100 && |city| < 100 && |refObject| < 100
    ensures var ts := [Tlv("00", "01"), Tlv("01", "11"), Tlv("26", account), Tlv("52", "0000"), Tlv("53", "702"),
      Tlv("54", amount), Tlv("58", "SG"), Tlv("59", name), Tlv("60", city), Tlv("62", refObject)];
      WellFormed(ts) && NoCrcId(ts)
  {
  }

  /** The built payload is its data objects followed by the CRC object. */
  lemma PayloadAsObjects(req: PayNowRequest, nowMillis: nat) returns (ts: seq<Tlv>, crcHex: string)
    requires BuildPayNowPayload(req, nowMillis).Ok?
    ensures ts == PayloadTlvs(req, DigitsOnly(req.proxyValue.value), nowMillis)
    ensures crcHex == CrcHex(CrcFold(PayloadBody(req, DigitsOnly(req.proxyValue.value), nowMillis)))
    ensures |crcHex| == 4
    ensures BuildPayNowPayload(req, nowMillis).value == EncodeTlvs(ts) + FormatTLV("63", crcHex)
  {
    var proxy := DigitsOnly(req.proxyValue.value);
    ts := PayloadTlvs(req, proxy, nowMillis);
    var body := PayloadBody(req, proxy, nowMillis);
    crcHex := CrcHex(CrcFold(body));
    CrcFoldBound(body);
    CrcHexValue(CrcFold(body));
    CrcObject(EncodeTlvs(ts), crcHex);
  }

  lemma CrcObject(objects: string, crcHex: string)
    requires |crcHex| == 4
    ensures objects + "6304" + crcHex == objects + FormatTLV("63", crcHex)
  {
    FormatShort("63", crcHex);
  }

  /** Reading a built payload yields its data objects in order, then the
      CRC object, and the loop ends there. */
  lemma BuildPayNowParses(req: PayNowRequest, nowMillis: nat)
    requires BuildPayNowPayload(req, nowMillis).Ok?
    requires |req.proxyType.GetOr("0")| + |DigitsOnly(req.proxyValue.value)| < 74
    requires |AmountText(req.amountCents)| < 100
    ensures var proxy := DigitsOnly(req.proxyValue.value);
      var crcHex := CrcHex(CrcFold(PayloadBody(req, proxy, nowMillis)));
      ParseFrom(BuildPayNowPayload(req, nowMillis).value, 0, [], true) ==
        Parsed(Entries(PayloadTlvs(req, proxy, nowMillis)) + [Entry("63", Num(4), crcHex)], false)
  {
    var ts, crcHex := PayloadAsObjects(req, nowMillis);
    PayloadWellFormed(req, DigitsOnly(req.proxyValue.value), nowMillis);
    ParseObjectsThenCrc(ts, crcHex);
  }

  /** Objects without a CRC object, then the CRC object, read back as their
      entries and the CRC entry. */
  lemma ParseObjectsThenCrc(ts: seq<Tlv>, crcHex: string)
    requires WellFormed(ts) && NoCrcId(ts) && |crcHex| == 4
    ensures ParseFrom(EncodeTlvs(ts) + FormatTLV("63", crcHex), 0, [], true) ==
      Parsed(Entries(ts) + [Entry("63", Num(4), crcHex)], false)
  {
    var head := EncodeTlvs(ts);
    var crcObj := FormatTLV("63", crcHex);
    var p := head + crcObj;
    var e := Entry("63", Num(4), crcHex);
    FormatTLVLength("63", crcHex);
    SplitConcat(head, crcObj);
    ParseEncoded(p, 0, |head|, ts, [], true);
    assert [] + Entries(ts) == Entries(ts);
    EntryAtFormatted(p, |head|, "63", crcHex);
    ParseFromStops(p, |head|, Entries(ts), true, e);
  }

  lemma SplitConcat(a: string, b: string)
    ensures (a + b)[0..|a|] == a && (a + b)[|a|..|a| + |b|] == b
  {
  }

  /** The top-level ids of a built payload, in order. */
  lemma BuildPayNowIds(req: PayNowRequest, nowMillis: nat)
    requires BuildPayNowPayload(req, nowMillis).Ok?
    requires |req.proxyType.GetOr("0")| + |DigitsOnly(req.proxyValue.value)| < 74
    requires |AmountText(req.amountCents)| < 100
    ensures var r := ParseFrom(BuildPayNowPayload(req, nowMillis).value, 0, [], true);
      !r.stalled && Ids(r.entries) == ["00", "01", "26", "52", "53", "54", "58", "59", "60", "62", "63"]
  {
    var proxy := DigitsOnly(req.proxyValue.value);
    var crcHex := CrcHex(CrcFold(PayloadBody(req, proxy, nowMillis)));
    var es := Entries(PayloadTlvs(req, proxy, nowMillis));
    BuildPayNowParses(req, nowMillis);
    PayloadIds(req, proxy, nowMillis);
    IdsOfParsed(BuildPayNowPayload(req, nowMillis).value, es, crcHex, ["00", "01", "26", "52", "53", "54", "58", "59", "60", "62"]);
  }

  lemma IdsOfParsed(p: string, es: seq<Entry>, crcHex: string, ids: seq<string>)
    requires ParseFrom(p, 0, [], true) == Parsed(es + [Entry("63", Num(4), crcHex)], false)
    requires Ids(es) == ids
    ensures var r := ParseFrom(p, 0, [], true); !r.stalled && Ids(r.entries) == ids + ["63"]
  {
    IdsWithCrc(es, crcHex, ids);
  }

  lemma IdsWithCrc(es: seq<Entry>, crcHex: string, ids: seq<string>)
    requires Ids(es) == ids
    ensures Ids(es + [Entry("63", Num(4), crcHex)]) == ids + ["63"]
  {
    IdsConcat(es, [Entry("63", Num(4), crcHex)]);
  }

  lemma PayloadIds(req: PayNowRequest, proxy: string, nowMillis: nat)
    ensures Ids(Entries(PayloadTlvs(req, proxy, nowMillis))) == ["00", "01", "26", "52", "53", "54", "58", "59", "60", "62"]
  {
    ObjectIds(MerchantAccount(req.proxyType.GetOr("0"), proxy), AmountText(req.amountCents),
      MerchantName(req), MerchantCity(req), FormatTLV("01", Reference(req, nowMillis)));
  }

  lemma ObjectIds(account: string, amount: string, name: string, city: string, refObject: string)
    ensures var ts := [Tlv("00", "01"), Tlv("01", "11"), Tlv("26", account), Tlv("52", "0000"), Tlv("53", "702"),
      Tlv("54", amount), Tlv("58", "SG"), Tlv("59", name), Tlv("60", city), Tlv("62", refObject)];
      Ids(Entries(ts)) == ["00", "01", "26", "52", "53", "54", "58", "59", "60", "62"]
  {
    var ts := [Tlv("00", "01"), Tlv("01", "11"), Tlv("26", account), Tlv("52", "0000"), Tlv("53", "702"),
      Tlv("54", amount), Tlv("58", "SG"), Tlv("59", name), Tlv("60", city), Tlv("62", refObject)];
    IdsOfEntries(ts, ["00", "01", "26", "52", "53", "54", "58", "59", "60", "62"]);
  }

  lemma IdsOfEntries(ts: seq<Tlv>, ids: seq<string>)
    requires |ts| == |ids| && forall i :: 0 <= i < |ts| ==> ts[i].id == ids[i]
    ensures Ids(Entries(ts)) == ids
  {
  }

  /** The merchant account object reads back as its four objects. */
  lemma MerchantAccountParses(proxyType: string, proxy: string)
    requires |proxyType| < 100 && |proxy| < 100
    ensures ParseFrom(MerchantAccount(proxyType, proxy), 0, [], false) ==
      Parsed(Entries(MerchantAccountTlvs(proxyType, proxy)), false)
  {
    var ts := MerchantAccountTlvs(proxyType, proxy);
    var p := EncodeTlvs(ts);
    MerchantAccountLength(proxyType, proxy);
    assert p[0..|p|] == p;
    ParseEncoded(p, 0, |p|, ts, [], false);
    assert [] + Entries(ts) == Entries(ts);
    ParseFromEnd(p, |p|, Entries(ts), false);
  }

  /** The name, city and reference are cut to 25, 15 and 25 characters of
      the given text or its default, and an amount that is not positive
      becomes "0.01". */
  lemma BuildPayNowFields(req: PayNowRequest, nowMillis: nat)
    ensures |MerchantName(req)| <= 25 && StartsWith(OrDefault(req.merchantName, "Mala Hot Pot"), MerchantName(req))
    ensures |OrDefault(req.merchantName, "Mala Hot Pot")| >= 25 ==> |MerchantName(req)| == 25
    ensures |MerchantCity(req)| <= 15 && StartsWith(OrDefault(req.merchantCity, "SINGAPORE"), MerchantCity(req))
    ensures |OrDefault(req.merchantCity, "SINGAPORE")| >= 15 ==> |MerchantCity(req)| == 15
    ensures |Reference(req, nowMillis)| <= 25
    ensures StartsWith(OrDefault(req.reference, "PN" + NatToString(nowMillis)), Reference(req, nowMillis))
    ensures !Truthy(req.merchantName) ==> MerchantName(req) == "Mala Hot Pot"
    ensures !Truthy(req.merchantCity) ==> MerchantCity(req) == "SINGAPORE"
    ensures req.amountCents.None? || req.amountCents.value <= 0 ==> AmountText(req.amountCents) == "0.01"
  {
  }

  /** A positive amount is written with two decimals that read back as the
      amount in cents. */
  lemma AmountTextValue(amountCents: Option<int>)
    requires amountCents.Some? && amountCents.value > 0
    ensures var t := AmountText(amountCents); var k := |t| - 3;
      k >= 1 && t[k] == '.' && AllDigits(t[..k]) && AllDigits(t[k + 1..]) &&
      DecimalValue(t[..k]) * 100 + DecimalValue(t[k + 1..]) == amountCents.value
  {
    CentsTextValue(amountCents.value);
  }

  // ---------------------------------------------------------------------
  // The nested-object loop of the payload printer
  // ---------------------------------------------------------------------

  /** `String(len).padStart(2, '0')`: NaN is written as "NaN". */
  function LenText(l: Len): (r: string)
    ensures l.NaN? ==> r == "NaN"
    ensures l.Num? && 0 <= l.n < 100 ==> r == PadStart(NatToString(l.n), 2, '0')
  {
    if l.NaN? then "NaN" else PadStart(IntToString(l.n), 2, '0')
  }

  /** The text the printer rebuilds from one nested entry. */
  function Rebuild(e: Entry): string {
    e.id + LenText(e.len) + e.value
  }

  function RebuildAll(es: seq<Entry>): (r: seq<string>)
    ensures |r| == |es| && forall i :: 0 <= i < |es| ==> r[i] == Rebuild(es[i])
  {
    if es == [] then [] else [Rebuild(es[0])] + RebuildAll(es[1..])
  }

  /** Walks the value of an object with id 26 or 62 and rebuilds each nested
      object for printing. Unlike the top-level reader it does not stop at id
      "63"; a length of -4 or less ends it as `stalled`, as in `ParseFrom`. */
  method SubObjects(value: string) returns (parts: seq<string>, stalled: bool)
    ensures var r := ParseFrom(value, 0, [], false);
      parts == RebuildAll(r.entries) && stalled == r.stalled
  {
    parts := [];
    ghost var entries: seq<Entry> := [];
    var cursor: nat := 0;
    ghost var whole := ParseFrom(value, 0, [], false);
    while cursor < |value|
      invariant ParseFrom(value, cursor, entries, false) == whole
      invariant parts == RebuildAll(entries)
      decreases |value| - cursor
    {
      var e := EntryAt(value, cursor);
      RebuildSnoc(entries, e);
      if e.len.NaN? {
        TurnEnds(value, cursor, entries, false, e, false, whole);
        return parts + [Rebuild(e)], false;
      }
      if e.len.n <= -4 {
        TurnEnds(value, cursor, entries, false, e, true, whole);
        return parts + [Rebuild(e)], true;
      }
      var next: nat := cursor + 4 + e.len.n;
      TurnMoves(value, cursor, entries, false, e, next, whole);
      parts := parts + [Rebuild(e)];
      entries := entries + [e];
      cursor := next;
    }
    LoopEnds(value, cursor, entries, false, whole);
    stalled := false;
  }

  lemma RebuildSnoc(es: seq<Entry>, e: Entry)
    ensures RebuildAll(es + [e]) == RebuildAll(es) + [Rebuild(e)]
  {
  }

  /** The written form of each object. */
  function Formatted(ts: seq<Tlv>): (r: seq<string>)
    ensures |r| == |ts| && forall i :: 0 <= i < |ts| ==> r[i] == FormatTLV(ts[i].id, ts[i].value)
  {
    if ts == [] then [] else [FormatTLV(ts[0].id, ts[0].value)] + Formatted(ts[1..])
  }

  /** Over written objects the printer rebuilds exactly their written forms,
      and the loop ends. */
  lemma SubObjectsOfWritten(ts: seq<Tlv>)
    requires WellFormed(ts)
    ensures var r := ParseFrom(EncodeTlvs(ts), 0, [], false);
      !r.stalled && RebuildAll(r.entries) == Formatted(ts)
  {
    var p := EncodeTlvs(ts);
    assert p[0..|p|] == p;
    ParseEncoded(p, 0, |p|, ts, [], false);
    assert [] + Entries(ts) == Entries(ts);
    ParseFromEnd(p, |p|, Entries(ts), false);
    var es := Entries(ts);
    forall i | 0 <= i < |ts|
      ensures Rebuild(es[i]) == FormatTLV(ts[i].id, ts[i].value)
    {
      assert |ts[i].value| < 100;
    }
  }

  /** Each rebuilt nested object of the merchant account reads back, on its
      own, as that one object. */
  lemma MerchantAccountPrinted(proxyType: string, proxy: string)
    requires |proxyType| < 100 && |proxy| < 100
    ensures var r := ParseFrom(MerchantAccount(proxyType, proxy), 0, [], false);
      var ts := MerchantAccountTlvs(proxyType, proxy);
      !r.stalled && |RebuildAll(r.entries)| == 4 &&
      forall i :: 0 <= i < 4 ==>
        ParseFrom(RebuildAll(r.entries)[i], 0, [], true) == Parsed([Entry(ts[i].id, Num(|ts[i].value|), ts[i].value)], false)
  {
    var ts := MerchantAccountTlvs(proxyType, proxy);
    MerchantAccountLength(proxyType, proxy);
    SubObjectsOfWritten(ts);
    forall i | 0 <= i < 4
      ensures ParseFrom(FormatTLV(ts[i].id, ts[i].value), 0, [], true) == Parsed([Entry(ts[i].id, Num(|ts[i].value|), ts[i].value)], false)
    {
      ParseTLVSingle(ts[i].id, ts[i].value);
    }
  }

  // ---------------------------------------------------------------------
  // A length field of -4
  // ---------------------------------------------------------------------

  /** The cursor update of the reading loop as written: `cursor + 4 + len`. */
  function NextCursorAsWritten(cursor: nat, e: Entry): (r: int)
    requires e.len.Num?
    ensures e.len.n <= -4 ==> r <= cursor
  {
    cursor + 4 + e.len.n
  }

  /** On "00-4" the loop as written reads an object of length -4, moves the
      cursor by zero and sees the same object again: it never returns. */
  lemma ParseTLVMinusFourAsWritten()
    ensures EntryAt("00-4", 0) == Entry("00", Num(-4), "")
    ensures NextCursorAsWritten(0, EntryAt("00-4", 0)) == 0 && 0 < |"00-4"|
  {
    var p := "00-4";
    assert Substr(p, 0, 2) == "00";
    assert Substr(p, 2, 2) == "-4";
    assert LengthAt(p, 0) == Num(-4);
  }

  /** The model's reader ends on the same input and reports that it stalled. */
  lemma ParseTLVMinusFourStalls()
    ensures ParseFrom("00-4", 0, [], true) == Parsed([Entry("00", Num(-4), "")], true)
  {
    ParseTLVMinusFourAsWritten();
    ParseFromStalls("00-4", 0, [], true, Entry("00", Num(-4), ""));
  }
}
