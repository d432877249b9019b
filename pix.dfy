/**
 * Pix "copia e cola" payloads (the EMV merchant-presented QR format used by
 * the Brazilian Central Bank's Pix scheme): TLV fields, the CRC-16/CCITT
 * trailer, key validation and display formatting.
 */
module Pix {
  import opened Strings
  import opened Wrappers

  // ---------------------------------------------------------------- CRC-16

  /**
   * One shift of the CRC register. The source works on JavaScript numbers and
   * masks with 0xFFFF after each character; bits above bit 15 never flow back
   * into the low 16 bits (shifts go left, the test reads bit 15, the polynomial
   * is 16 bits), so a 16-bit register computes the same result.
   */
  function CrcBit(r: bv16): bv16
  {
    if r & 0x8000 != 0 then (r << 1) ^ 0x1021 else r << 1
  }

  function CrcBits(r: bv16, k: nat): bv16
  {
    if k == 0 then r else CrcBit(CrcBits(r, k - 1))
  }

  /** Only the low byte of a UTF-16 code unit survives `(code << 8) & 0xFFFF`. */
  function LowByte(c: char): bv16
  {
    (c as int % 256) as bv16
  }

  function CrcChar(r: bv16, c: char): bv16
  {
    CrcBits(r ^ (LowByte(c) << 8), 8)
  }

  /** CRC-16/CCITT-FALSE: initial value 0xFFFF, polynomial 0x1021, no reflection. */
  function CrcOf(s: string): bv16
  {
    if s == [] then 0xFFFF else CrcChar(CrcOf(s[..|s| - 1]), s[|s| - 1])
  }

  predicate IsUpperHexDigit(c: char) { IsDigit(c) || 'A' <= c <= 'F' }

  /** `v.toString(16).toUpperCase().padStart(4, '0')`. */
  function Crc16Hex(v: bv16): string
  {
    PadStart(ToUpper(ToHex(v as nat)), 4, '0')
  }

  /** The CRC trailer is always four upper-case hexadecimal digits. */
  lemma Crc16HexShape(v: bv16)
    ensures |Crc16Hex(v)| == 4
    ensures forall i :: 0 <= i < 4 ==> IsUpperHexDigit(Crc16Hex(v)[i])
  {
    HexShape(v as nat);
  }

  lemma HexShape(n: nat)
    requires n < 65536
    ensures |PadStart(ToUpper(ToHex(n)), 4, '0')| == 4
    ensures forall i :: 0 <= i < 4 ==> IsUpperHexDigit(PadStart(ToUpper(ToHex(n)), 4, '0')[i])
  {
    assert Pow16(4) == 65536;
    ToHexShape(n, 4);
    var u := ToUpper(ToHex(n));
    UpperOfLowerHex(ToHex(n));
    PaddedUpperHex(u);
  }

  /** Upper-casing lower-case hexadecimal text gives upper-case hexadecimal text. */
  lemma UpperOfLowerHex(h: string)
    requires forall i :: 0 <= i < |h| ==> IsDigit(h[i]) || 'a' <= h[i] <= 'f'
    ensures forall i :: 0 <= i < |ToUpper(h)| ==> IsUpperHexDigit(ToUpper(h)[i])
  {
  }

  /** Padding at most four hexadecimal digits with '0' keeps them hexadecimal. */
  lemma PaddedUpperHex(u: string)
    requires |u| <= 4
    requires forall i :: 0 <= i < |u| ==> IsUpperHexDigit(u[i])
    ensures forall i :: 0 <= i < 4 ==> IsUpperHexDigit(PadStart(u, 4, '0')[i])
  {
    var r := PadStart(u, 4, '0');
    forall i | 0 <= i < 4 ensures IsUpperHexDigit(r[i]) {
      if i >= 4 - |u| {
        assert r[i] == r[4 - |u|..][i - (4 - |u|)];
      }
    }
  }

  lemma CrcBitCases(r: bv16)
    ensures r & 0x8000 != 0 ==> (r << 1) ^ 0x1021 == CrcBit(r)
    ensures r & 0x8000 == 0 ==> r << 1 == CrcBit(r)
  {
  }

  /** One character's worth of the register: `j` is the count of the inner loop, eight. */
  lemma CrcOfStep(s: string, i: nat, start: bv16, j: nat)
    requires i < |s| && j == 8
    requires start == CrcOf(s[..i]) ^ (LowByte(s[i]) << 8)
    ensures CrcOf(s[..i + 1]) == CrcBits(start, j)
  {
    assert s[..i + 1][..i] == s[..i];
  }

  /** The inner loop of `calculateCRC16`: eight shifts of the register, one per bit of a byte. */
  method ShiftByte(start: bv16) returns (result: bv16)
    ensures result == CrcBits(start, 8)
  {
    result := start;
    var j := 0;
    while j < 8
      invariant 0 <= j <= 8
      invariant result == CrcBits(start, j)
    {
      CrcBitCases(result);
      if result & 0x8000 != 0 {
        result := (result << 1) ^ 0x1021;
      } else {
        result := result << 1;
      }
      j := j + 1;
    }
  }

  /** `calculateCRC16`: the checksum over the payload followed by the CRC field header "6304". */
  method CalculateCrc16(payload: string) returns (crc: string)
    ensures crc == Crc16Hex(CrcOf(payload + "6304"))
  {
    var data := payload + "6304";
    var result: bv16 := 0xFFFF;
    var i := 0;
    while i < |data|
      invariant 0 <= i <= |data|
      invariant result == CrcOf(data[..i])
    {
      ghost var start := result ^ (LowByte(data[i]) << 8);
      result := ShiftByte(result ^ (LowByte(data[i]) << 8));
      CrcOfStep(data, i, start, 8);
      i := i + 1;
    }
    assert data[..|data|] == data;
    crc := Crc16Hex(result);
  }

  // ---------------------------------------------------------------- TLV

  datatype Field = Field(id: string, value: string)

  /** `tlv`: the id, the value's length as two (or more) digits, the value. */
  function Tlv(f: Field): string
  {
    f.id + PadStart(NatToString(|f.value|), 2, '0') + f.value
  }

  function Encode(fs: seq<Field>): string
  {
    if fs == [] then [] else Tlv(fs[0]) + Encode(fs[1..])
  }

  lemma {:induction false} EncodeAppend(fs: seq<Field>, f: Field)
    ensures Encode(fs + [f]) == Encode(fs) + Tlv(f)
  {
    if fs == [] {
      assert [f][1..] == [];
    } else {
      assert (fs + [f])[1..] == fs[1..] + [f];
      EncodeAppend(fs[1..], f);
    }
  }

  /** Reads a sequence of TLV fields with two-character ids and two-digit lengths. */
  function Decode(s: string): (r: Option<seq<Field>>)
    decreases |s|
  {
    if s == [] then Some([])
    else if |s| < 4 || !AllDigits(s[2..4]) then None
    else
      var n := ParseNat(s[2..4]);
      if |s| < 4 + n then None
      else match Decode(s[4 + n..])
        case None => None
        case Some(rest) => Some([Field(s[..2], s[4..4 + n])] + rest)
  }

  predicate WellFormed(fs: seq<Field>)
  {
    forall i :: 0 <= i < |fs| ==> |fs[i].id| == 2 && |fs[i].value| <= 99
  }

  lemma LengthDigits(n: nat)
    requires n <= 99
    ensures |PadStart(NatToString(n), 2, '0')| == 2
    ensures AllDigits(PadStart(NatToString(n), 2, '0'))
    ensures ParseNat(PadStart(NatToString(n), 2, '0')) == n
  {
    var d := NatToString(n);
    var p := PadStart(d, 2, '0');
    ParseNatToString(n);
    if n < 10 {
      assert p == ['0'] + d;
      assert p[..1] == "0";
    } else {
      assert n / 10 < 10;
      assert p == d;
    }
  }

  /** Fields with two-character ids and values of at most 99 characters read back exactly. */
  lemma {:induction false} DecodeEncode(fs: seq<Field>)
    requires WellFormed(fs)
    ensures Decode(Encode(fs)) == Some(fs)
  {
    if fs != [] {
      var rest := Encode(fs[1..]);
      assert fs == [fs[0]] + fs[1..];
      assert Encode(fs) == Tlv(fs[0]) + rest;
      DecodeEncode(fs[1..]);
      DecodeField(fs[0], rest);
      assert Decode(Tlv(fs[0]) + rest) == Some([fs[0]] + fs[1..]);
    }
  }

  /** One well-formed field in front of any text is read back before that text is decoded. */
  lemma DecodeField(f: Field, rest: string)
    requires |f.id| == 2 && |f.value| <= 99
    ensures Decode(Tlv(f) + rest) == match Decode(rest)
      case None => None
      case Some(fs) => Some([f] + fs)
  {
    LengthDigits(|f.value|);
    var len := PadStart(NatToString(|f.value|), 2, '0');
    EncodedPieces(f.id, len, f.value, rest);
  }

  /** Where the pieces of one encoded field sit in the encoding. */
  lemma EncodedPieces(id: string, len: string, value: string, rest: string)
    requires |id| == 2 && |len| == 2
    ensures var s := id + len + value + rest;
      s[..2] == id && s[2..4] == len && s[4..4 + |value|] == value && s[4 + |value|..] == rest
  {
  }

  // ---------------------------------------------------------------- payload

  datatype KeyType = Cpf | Cnpj | Email | Phone | RandomKey

  /**
   * The input of `generatePixCode`. The amount is in centavos; `None` stands
   * for an absent amount.
   */
  datatype PixPayload = PixPayload(
    pixKey: string,
    pixKeyType: KeyType,
    merchantName: string,
    merchantCity: string,
    amountCents: Option<int>,
    txId: Option<string>,
    description: Option<string>)

  predicate HasAmount(p: PixPayload) { p.amountCents.Some? && p.amountCents.value > 0 }

  /** `amount.toFixed(2)` for an amount given in centavos. */
  function AmountText(cents: nat): string
  {
    NatToString(cents / 100) + "." + PadStart(NatToString(cents % 100), 2, '0')
  }

  /** `formatMerchantAccountInfo`: the Pix GUI and the key, nested under id 26. */
  function MerchantAccountInfo(pixKey: string): Field
  {
    Field("26", Tlv(Field("00", "br.gov.bcb.pix")) + Tlv(Field("01", pixKey)))
  }

  /** `formatAdditionalData`: the transaction id under 05, nested under id 62. */
  function AdditionalData(txId: string): Field
  {
    Field("62", Tlv(Field("05", txId)))
  }

  function Take(s: string, n: nat): (r: string)
    ensures |r| <= n && StartsWith(s, r)
    ensures |s| <= n ==> r == s
    ensures |s| > n ==> |r| == n
  {
    if |s| <= n then s else s[..n]
  }

  function CleanName(name: string, stripAccents: string -> string): string
  {
    ToUpper(Take(stripAccents(name), 25))
  }

  function CleanCity(city: string, stripAccents: string -> string): string
  {
    ToUpper(Take(stripAccents(city), 15))
  }

  function AlnumOnly(s: string): (r: string)
    ensures forall i :: 0 <= i < |r| ==> IsAsciiAlnum(r[i])
    ensures forall c :: c in s && IsAsciiAlnum(c) ==> c in r
    ensures (forall i :: 0 <= i < |s| ==> IsAsciiAlnum(s[i])) ==> r == s
  {
    if s == [] then [] else (if IsAsciiAlnum(s[0]) then [s[0]] else []) + AlnumOnly(s[1..])
  }

  /** Removal works piece by piece: the letters and digits kept keep their order. */
  lemma {:induction false} AlnumOnlyConcat(a: string, b: string)
    ensures AlnumOnly(a + b) == AlnumOnly(a) + AlnumOnly(b)
    decreases |a|
  {
    if a == [] {
      assert a + b == b;
    } else {
      assert (a + b)[0] == a[0];
      assert (a + b)[1..] == a[1..] + b;
      AlnumOnlyConcat(a[1..], b);
    }
  }

  /** The transaction id: ASCII letters and digits only, at most 25 of them, "***" if none. */
  function CleanTxId(txId: Option<string>): string
  {
    var t := Take(AlnumOnly(txId.GetOr("***")), 25);
    if t == [] then "***" else t
  }

  /** The fields of the payload before the CRC, in emission order. */
  function PixFields(p: PixPayload, stripAccents: string -> string): seq<Field>
  {
    var indicator := [Field("00", "01")];
    var initiated := if HasAmount(p) then indicator + [Field("01", "12")] else indicator;
    var merchant := initiated + [MerchantAccountInfo(p.pixKey)] + [Field("52", "0000")] + [Field("53", "986")];
    var priced := if HasAmount(p) then merchant + [Field("54", AmountText(p.amountCents.value))] else merchant;
    priced + [Field("58", "BR")] + [Field("59", CleanName(p.merchantName, stripAccents))]
    + [Field("60", CleanCity(p.merchantCity, stripAccents))] + [AdditionalData(CleanTxId(p.txId))]
  }

  /** The payload before the CRC, field after field as `generatePixCode` appends them. */
  function PixBody(p: PixPayload, stripAccents: string -> string): string
  {
    var indicator := Tlv(Field("00", "01"));
    var initiated := if HasAmount(p) then indicator + Tlv(Field("01", "12")) else indicator;
    var merchant := initiated + Tlv(MerchantAccountInfo(p.pixKey)) + Tlv(Field("52", "0000"))
      + Tlv(Field("53", "986"));
    var priced := if HasAmount(p) then merchant + Tlv(Field("54", AmountText(p.amountCents.value)))
      else merchant;
    priced + Tlv(Field("58", "BR")) + Tlv(Field("59", CleanName(p.merchantName, stripAccents)))
    + Tlv(Field("60", CleanCity(p.merchantCity, stripAccents))) + Tlv(AdditionalData(CleanTxId(p.txId)))
  }

  /** The complete code: body, CRC field header, checksum of both. */
  function PixCode(p: PixPayload, stripAccents: string -> string): string
  {
    var body := PixBody(p, stripAccents);
    body + "6304" + Crc16Hex(CrcOf(body + "6304"))
  }

  /** `generatePixCode`; `stripAccents` is `removeAccents`. */
  method GeneratePixCode(p: PixPayload, stripAccents: string -> string) returns (code: string)
    ensures code == PixCode(p, stripAccents)
  {
    code := Tlv(Field("00", "01"));
    if p.amountCents.Some? && p.amountCents.value > 0 {
      code := code + Tlv(Field("01", "12"));
    }
    code := code + Tlv(MerchantAccountInfo(p.pixKey));
    code := code + Tlv(Field("52", "0000"));
    code := code + Tlv(Field("53", "986"));
    if p.amountCents.Some? && p.amountCents.value > 0 {
      var formattedAmount := AmountText(p.amountCents.value);
      code := code + Tlv(Field("54", formattedAmount));
    }
    code := code + Tlv(Field("58", "BR"));
    var cleanName := CleanName(p.merchantName, stripAccents);
    code := code + Tlv(Field("59", cleanName));
    var cleanCity := CleanCity(p.merchantCity, stripAccents);
    code := code + Tlv(Field("60", cleanCity));
    var cleanTxId := CleanTxId(p.txId);
    code := code + Tlv(AdditionalData(cleanTxId));
    var crc := CalculateCrc16(code);
    code := code + "6304" + crc;
  }

  /** The body is the TLV encoding of the field list. */
  lemma PixBodyEncodesFields(p: PixPayload, stripAccents: string -> string)
    ensures PixBody(p, stripAccents) == Encode(PixFields(p, stripAccents))
  {
    var indicator := [Field("00", "01")];
    EncodeOne(Field("00", "01"));
    var initiated := if HasAmount(p) then indicator + [Field("01", "12")] else indicator;
    var initiatedText := if HasAmount(p) then Tlv(Field("00", "01")) + Tlv(Field("01", "12"))
      else Tlv(Field("00", "01"));
    if HasAmount(p) {
      EncodeAppend(indicator, Field("01", "12"));
    }
    assert Encode(initiated) == initiatedText;
    var merchant0 := initiated + [MerchantAccountInfo(p.pixKey)];
    EncodeAppend(initiated, MerchantAccountInfo(p.pixKey));
    var merchant1 := merchant0 + [Field("52", "0000")];
    EncodeAppend(merchant0, Field("52", "0000"));
    var merchant := merchant1 + [Field("53", "986")];
    EncodeAppend(merchant1, Field("53", "986"));
    var merchantText := initiatedText + Tlv(MerchantAccountInfo(p.pixKey)) + Tlv(Field("52", "0000"))
      + Tlv(Field("53", "986"));
    assert Encode(merchant) == merchantText;
    var priced := merchant;
    var pricedText := merchantText;
    if HasAmount(p) {
      var amount := Field("54", AmountText(p.amountCents.value));
      EncodeAppend(merchant, amount);
      priced := merchant + [amount];
      pricedText := merchantText + Tlv(amount);
    }
    assert Encode(priced) == pricedText;
    var country := priced + [Field("58", "BR")];
    EncodeAppend(priced, Field("58", "BR"));
    var named := country + [Field("59", CleanName(p.merchantName, stripAccents))];
    EncodeAppend(country, Field("59", CleanName(p.merchantName, stripAccents)));
    var located := named + [Field("60", CleanCity(p.merchantCity, stripAccents))];
    EncodeAppend(named, Field("60", CleanCity(p.merchantCity, stripAccents)));
    EncodeAppend(located, AdditionalData(CleanTxId(p.txId)));
    assert located + [AdditionalData(CleanTxId(p.txId))] == PixFields(p, stripAccents);
  }

  lemma EncodeOne(f: Field)
    ensures Encode([f]) == Tlv(f)
  {
    assert [f][1..] == [];
  }

  /** What the body opens with: the header, then "26" when no amount is set. */
  lemma PixBodyOpening(p: PixPayload, stripAccents: string -> string)
    ensures HasAmount(p) ==> StartsWith(PixBody(p, stripAccents), "000201010212")
    ensures !HasAmount(p) ==> StartsWith(PixBody(p, stripAccents), "00020126")
  {
    var indicator := Tlv(Field("00", "01"));
    TlvFormatIndicator();
    var initiated := if HasAmount(p) then indicator + Tlv(Field("01", "12")) else indicator;
    var mai := Tlv(MerchantAccountInfo(p.pixKey));
    var q := if HasAmount(p) then "000201010212" else "00020126";
    if HasAmount(p) {
      TlvInitiation();
      OpeningWithAmount(initiated, mai);
    } else {
      MerchantStart(p.pixKey);
      OpeningWithoutAmount(initiated, mai);
    }
    var m1 := initiated + mai + Tlv(Field("52", "0000"));
    PrefixExtend(initiated + mai, Tlv(Field("52", "0000")), q);
    var merchant := m1 + Tlv(Field("53", "986"));
    PrefixExtend(m1, Tlv(Field("53", "986")), q);
    var priced := merchant;
    if HasAmount(p) {
      var amount := Tlv(Field("54", AmountText(p.amountCents.value)));
      PrefixExtend(merchant, amount, q);
      priced := merchant + amount;
    }
    var country := priced + Tlv(Field("58", "BR"));
    PrefixExtend(priced, Tlv(Field("58", "BR")), q);
    var named := country + Tlv(Field("59", CleanName(p.merchantName, stripAccents)));
    PrefixExtend(country, Tlv(Field("59", CleanName(p.merchantName, stripAccents))), q);
    var located := named + Tlv(Field("60", CleanCity(p.merchantCity, stripAccents)));
    PrefixExtend(named, Tlv(Field("60", CleanCity(p.merchantCity, stripAccents))), q);
    PrefixExtend(located, Tlv(AdditionalData(CleanTxId(p.txId))), q);
  }

  lemma TlvFormatIndicator()
    ensures Tlv(Field("00", "01")) == "000201"
  {
  }

  lemma TlvInitiation()
    ensures Tlv(Field("01", "12")) == "010212"
  {
  }

  /** The merchant account field opens with its id, 26. */
  lemma MerchantStart(pixKey: string)
    ensures StartsWith(Tlv(MerchantAccountInfo(pixKey)), "26")
  {
  }

  lemma OpeningWithAmount(h: string, m: string)
    requires h == "000201" + "010212"
    ensures StartsWith(h + m, "000201010212")
  {
    assert (h + m)[..12] == h;
  }

  lemma OpeningWithoutAmount(h: string, m: string)
    requires h == "000201" && StartsWith(m, "26")
    ensures StartsWith(h + m, "00020126")
  {
    assert (h + m)[..8] == h + m[..2];
  }

  /** Both openings begin with the format indicator. */
  lemma OpeningIndicator(c: string)
    requires StartsWith(c, "000201010212") || StartsWith(c, "00020126")
    ensures StartsWith(c, "000201")
  {
    if StartsWith(c, "000201010212") {
      assert c[..6] == c[..12][..6];
    } else {
      assert c[..6] == c[..8][..6];
    }
  }

  /** Characters 6 to 12 read "010212" under the first opening and not under the second. */
  lemma OpeningInitiation(c: string)
    requires |c| >= 12
    ensures StartsWith(c, "000201010212") ==> c[6..12] == "010212"
    ensures StartsWith(c, "00020126") ==> c[6..12] != "010212"
  {
    if StartsWith(c, "000201010212") {
      assert c[6..12] == c[..12][6..12];
    }
    if StartsWith(c, "00020126") {
      assert c[6..12][1] == c[..8][7];
    }
  }

  /** Any prefix of the body is a prefix of the whole code. */
  lemma PixCodePrefix(p: PixPayload, stripAccents: string -> string, q: string)
    requires StartsWith(PixBody(p, stripAccents), q)
    ensures StartsWith(PixCode(p, stripAccents), q)
  {
    var body := PixBody(p, stripAccents);
    PrefixExtend(body, "6304", q);
    PrefixExtend(body + "6304", Crc16Hex(CrcOf(body + "6304")), q);
  }

  /**
   * The code opens with the payload format indicator, followed by the point
   * of initiation "010212" when an amount is set and by the merchant account
   * field (id 26) when not.
   */
  lemma PixCodeOpening(p: PixPayload, stripAccents: string -> string)
    ensures HasAmount(p) ==> StartsWith(PixCode(p, stripAccents), "000201010212")
    ensures !HasAmount(p) ==> StartsWith(PixCode(p, stripAccents), "00020126")
  {
    PixBodyOpening(p, stripAccents);
    if HasAmount(p) {
      PixCodePrefix(p, stripAccents, "000201010212");
    } else {
      PixCodePrefix(p, stripAccents, "00020126");
    }
  }

  /** Every code opens with the payload format indicator "000201". */
  lemma PixCodeStartsWithFormatIndicator(p: PixPayload, stripAccents: string -> string)
    ensures StartsWith(PixCode(p, stripAccents), "000201")
  {
    PixCodeOpening(p, stripAccents);
    OpeningIndicator(PixCode(p, stripAccents));
  }

  /**
   * The last eight characters are the CRC field: "6304" and the checksum of
   * everything before them, so a reader can recompute and compare.
   */
  lemma PixCodeChecksum(p: PixPayload, stripAccents: string -> string)
    ensures |PixCode(p, stripAccents)| >= 8
    ensures var c := PixCode(p, stripAccents);
      c[|c| - 8..|c| - 4] == "6304" && c[|c| - 4..] == Crc16Hex(CrcOf(c[..|c| - 4]))
  {
    var body := PixBody(p, stripAccents);
    var crc := Crc16Hex(CrcOf(body + "6304"));
    Crc16HexShape(CrcOf(body + "6304"));
    var c := body + "6304" + crc;
    assert c == PixCode(p, stripAccents);
    assert c[..|c| - 4] == body + "6304";
    assert c[|c| - 4..] == crc;
  }

  /** The point-of-initiation field "010212" follows the indicator exactly when an amount is set. */
  lemma PointOfInitiationIffAmount(p: PixPayload, stripAccents: string -> string)
    ensures |PixCode(p, stripAccents)| >= 12
    ensures PixCode(p, stripAccents)[6..12] == "010212" <==> HasAmount(p)
  {
    PixCodeOpening(p, stripAccents);
    OpeningInitiation(PixCode(p, stripAccents));
  }

  lemma TlvLength(f: Field)
    requires |f.value| <= 99
    ensures |Tlv(f)| == |f.id| + 2 + |f.value|
  {
    LengthDigits(|f.value|);
  }

  lemma WellFormedSnoc(fs: seq<Field>, f: Field)
    requires WellFormed(fs) && |f.id| == 2 && |f.value| <= 99
    ensures WellFormed(fs + [f])
  {
  }

  function Pow10(k: nat): nat
  {
    if k == 0 then 1 else 10 * Pow10(k - 1)
  }

  lemma {:induction false} DecimalLengthBound(n: nat, k: nat)
    requires n < Pow10(k) && k >= 1
    ensures |NatToString(n)| <= k
    decreases n
  {
    if n >= 10 {
      DecimalLengthBound(n / 10, k - 1);
    }
  }

  lemma AmountTextLength(cents: nat)
    requires cents < 100 * Pow10(15)
    ensures |AmountText(cents)| <= 18
  {
    DecimalLengthBound(cents / 100, 15);
    assert cents % 100 < Pow10(2);
    DecimalLengthBound(cents % 100, 2);
  }

  /** The merchant account field fits a two-digit length when the key has at most 77 characters. */
  lemma MerchantAccountInfoLength(pixKey: string)
    requires |pixKey| <= 77
    ensures |MerchantAccountInfo(pixKey).value| <= 99
  {
    TlvLength(Field("00", "br.gov.bcb.pix"));
    TlvLength(Field("01", pixKey));
  }

  /**
   * With a key of at most 77 characters (and an amount below 10^15 reais)
   * every field fits a two-digit length, and the body parses back into the
   * fields it was built from.
   */
  lemma PixBodyParses(p: PixPayload, stripAccents: string -> string)
    requires |p.pixKey| <= 77
    requires HasAmount(p) ==> p.amountCents.value < 100 * Pow10(15)
    ensures Decode(PixBody(p, stripAccents)) == Some(PixFields(p, stripAccents))
  {
    var indicator := [Field("00", "01")];
    var initiated := if HasAmount(p) then indicator + [Field("01", "12")] else indicator;
    assert WellFormed(initiated);
    MerchantAccountInfoLength(p.pixKey);
    var merchant0 := initiated + [MerchantAccountInfo(p.pixKey)];
    WellFormedSnoc(initiated, MerchantAccountInfo(p.pixKey));
    var merchant1 := merchant0 + [Field("52", "0000")];
    WellFormedSnoc(merchant0, Field("52", "0000"));
    var merchant := merchant1 + [Field("53", "986")];
    WellFormedSnoc(merchant1, Field("53", "986"));
    var priced := merchant;
    if HasAmount(p) {
      var amount := Field("54", AmountText(p.amountCents.value));
      AmountTextLength(p.amountCents.value);
      WellFormedSnoc(merchant, amount);
      priced := merchant + [amount];
    }
    MerchantFieldsBounded(p, stripAccents);
    var country := priced + [Field("58", "BR")];
    WellFormedSnoc(priced, Field("58", "BR"));
    var named := country + [Field("59", CleanName(p.merchantName, stripAccents))];
    WellFormedSnoc(country, Field("59", CleanName(p.merchantName, stripAccents)));
    var located := named + [Field("60", CleanCity(p.merchantCity, stripAccents))];
    WellFormedSnoc(named, Field("60", CleanCity(p.merchantCity, stripAccents)));
    TlvLength(Field("05", CleanTxId(p.txId)));
    WellFormedSnoc(located, AdditionalData(CleanTxId(p.txId)));
    DecodeEncode(PixFields(p, stripAccents));
    PixBodyEncodesFields(p, stripAccents);
  }

  /** The name and city fields are upper case and at most 25 and 15 characters long. */
  lemma MerchantFieldsBounded(p: PixPayload, stripAccents: string -> string)
    ensures var n := CleanName(p.merchantName, stripAccents);
      |n| <= 25 && forall i :: 0 <= i < |n| ==> !IsAsciiLower(n[i])
    ensures var c := CleanCity(p.merchantCity, stripAccents);
      |c| <= 15 && forall i :: 0 <= i < |c| ==> !IsAsciiLower(c[i])
    ensures var t := CleanTxId(p.txId);
      t == "***" || (1 <= |t| <= 25 && forall i :: 0 <= i < |t| ==> IsAsciiAlnum(t[i]))
  {
  }

  // ---------------------------------------------------------------- keys

  function ParseKeyType(t: string): Option<KeyType>
  {
    if t == "cpf" then Some(Cpf)
    else if t == "cnpj" then Some(Cnpj)
    else if t == "email" then Some(Email)
    else if t == "phone" then Some(Phone)
    else if t == "random" then Some(RandomKey)
    else None
  }

  predicate IsWsOrAt(c: char) { IsJsWhitespace(c) || c == '@' }

  predicate NoWsOrAt(s: string) { forall i :: 0 <= i < |s| ==> !IsWsOrAt(s[i]) }

  /** `/^[^\s@]+@[^\s@]+\.[^\s@]+$/` */
  predicate PixEmailShape(key: string)
  {
    exists at :: 0 < at < |key| && key[at] == '@' && NoWsOrAt(key[..at])
      && NoWsOrAt(key[at + 1..])
      && exists dot :: at + 1 < dot < |key| - 1 && key[dot] == '.'
  }

  /** `/^\+55\d{10,11}$/` */
  predicate PlusFiftyFivePhone(key: string)
  {
    StartsWith(key, "+55") && AllDigits(key[3..]) && 10 <= |key| - 3 <= 11
  }

  /** `/^[a-f0-9-]{32,36}$/i` */
  predicate RandomKeyShape(key: string)
  {
    32 <= |key| <= 36 && forall i :: 0 <= i < |key| ==> IsHexDigit(key[i]) || key[i] == '-'
  }

  /** `validatePixKey`: the format test for each declared key type; unknown types are invalid. */
  function ValidatePixKey(key: string, keyType: string): (r: bool)
    ensures r ==> keyType == "cpf" || keyType == "cnpj" || keyType == "email" || keyType == "phone" || keyType == "random"
    ensures r && keyType == "email" ==> '@' in key
    ensures r && keyType == "random" ==> 32 <= |key| <= 36
  {
    match ParseKeyType(keyType)
    case None => false
    case Some(Cpf) => |Digits(key)| == 11
    case Some(Cnpj) => |Digits(key)| == 14
    case Some(Email) => PixEmailShape(key)
    case Some(Phone) => PlusFiftyFivePhone(key) || 10 <= |Digits(key)| <= 11
    case Some(RandomKey) => RandomKeyShape(key)
  }

  /** `formatPhoneForPix`: the digits behind "+", adding the country code 55 unless present. */
  function FormatPhoneForPix(phone: string): (r: string)
    ensures StartsWith(r, "+55")
    ensures AllDigits(r[1..])
    ensures r == "+" + Digits(r)
    ensures Digits(r) == if StartsWith(Digits(phone), "55") then Digits(phone) else "55" + Digits(phone)
  {
    var d := Digits(phone);
    DigitsAreDigits(phone);
    assert AllDigits("55" + d);
    if StartsWith(d, "55") then
      DigitsOfPlus(d);
      "+" + d
    else
      DigitsOfPlusFiftyFive(d);
      assert "+55" + d == "+" + ("55" + d);
      "+55" + d
  }

  lemma DigitsOfPlus(d: string)
    requires AllDigits(d)
    ensures Digits("+" + d) == d
  {
    DigitsOfDigits(d);
    DigitsConcat("+", d);
  }

  lemma DigitsOfPlusFiftyFive(d: string)
    requires AllDigits(d)
    ensures Digits("+55" + d) == "55" + d
  {
    DigitsOfDigits(d);
    DigitsConcat("+55", d);
    assert Digits("+55") == "55";
  }

  /**
   * Which phones become valid Pix phone keys: 10 to 13 digits when they already
   * start with 55, otherwise 8 to 11 digits.
   */
  lemma FormattedPhoneValidity(phone: string)
    ensures var d := Digits(phone);
      ValidatePixKey(FormatPhoneForPix(phone), "phone")
      <==> if StartsWith(d, "55") then 10 <= |d| <= 13 else 8 <= |d| <= 11
  {
    DigitsAreDigits(phone);
    FormattedDigitsValidity(Digits(phone));
  }

  /** The same, for the digits themselves. */
  lemma FormattedDigitsValidity(d: string)
    requires AllDigits(d)
    ensures ValidatePixKey(if StartsWith(d, "55") then "+" + d else "+55" + d, "phone")
      <==> if StartsWith(d, "55") then 10 <= |d| <= 13 else 8 <= |d| <= 11
  {
    if StartsWith(d, "55") {
      var rest := d[2..];
      assert d == "55" + rest;
      assert "+" + d == "+55" + rest;
      PlusFiftyFiveKey(rest);
    } else {
      PlusFiftyFiveKey(d);
    }
  }

  /** "+55" and then some digits is a valid phone key exactly for 8 to 11 of them. */
  lemma PlusFiftyFiveKey(rest: string)
    requires AllDigits(rest)
    ensures ValidatePixKey("+55" + rest, "phone") <==> 8 <= |rest| <= 11
  {
    var f := "+55" + rest;
    DigitsOfPlusFiftyFive(rest);
    assert f[..3] == "+55" && f[3..] == rest;
    assert PlusFiftyFivePhone(f) <==> 10 <= |rest| <= 11;
    assert |Digits(f)| == |rest| + 2;
  }

  /** `formatCPF`: the first eleven digits as 000.000.000-00; shorter inputs stay bare digits. */
  function FormatCpf(cpf: string): (r: string)
    ensures |r| == |Digits(cpf)| + if |Digits(cpf)| >= 11 then 3 else 0
  {
    var d := Digits(cpf);
    if |d| >= 11 then
      d[..3] + "." + d[3..6] + "." + d[6..9] + "-" + d[9..11] + d[11..]
    else d
  }

  /** `formatCNPJ`: the first fourteen digits as 00.000.000/0000-00. */
  function FormatCnpj(cnpj: string): (r: string)
    ensures |r| == |Digits(cnpj)| + if |Digits(cnpj)| >= 14 then 4 else 0
  {
    var d := Digits(cnpj);
    if |d| >= 14 then
      d[..2] + "." + d[2..5] + "." + d[5..8] + "/" + d[8..12] + "-" + d[12..14] + d[14..]
    else d
  }

  /** Formatting a CPF keeps exactly its digits. */
  lemma FormatCpfKeepsDigits(cpf: string)
    ensures Digits(FormatCpf(cpf)) == Digits(cpf)
  {
    var d := Digits(cpf);
    DigitsAreDigits(cpf);
    DigitsIdempotent(cpf);
    if |d| >= 11 {
      var r0 := d[..3];
      DigitsOfDigits(r0);
      var r1 := r0 + ".";
      DigitsSnocPunct(r0, '.');
      var r2 := r1 + d[3..6];
      DigitsSnocDigits(r1, d[3..6]);
      assert r0 + d[3..6] == d[..6];
      var r3 := r2 + ".";
      DigitsSnocPunct(r2, '.');
      var r4 := r3 + d[6..9];
      DigitsSnocDigits(r3, d[6..9]);
      assert d[..6] + d[6..9] == d[..9];
      var r5 := r4 + "-";
      DigitsSnocPunct(r4, '-');
      var r6 := r5 + d[9..11];
      DigitsSnocDigits(r5, d[9..11]);
      assert d[..9] + d[9..11] == d[..11];
      var r7 := r6 + d[11..];
      DigitsSnocDigits(r6, d[11..]);
      assert d[..11] + d[11..] == d;
      assert r7 == FormatCpf(cpf);
    }
  }

  /** With eleven or more digits the CPF takes the mask 000.000.000-00. */
  lemma FormatCpfMask(cpf: string)
    requires |Digits(cpf)| >= 11
    ensures |FormatCpf(cpf)| == |Digits(cpf)| + 3
    ensures FormatCpf(cpf)[3] == '.' && FormatCpf(cpf)[7] == '.' && FormatCpf(cpf)[11] == '-'
  {
    var d := Digits(cpf);
    var r := d[..3] + "." + d[3..6] + "." + d[6..9] + "-" + d[9..11] + d[11..];
    assert r == FormatCpf(cpf);
    assert r[3] == '.';
    assert r[7] == '.';
    assert r[11] == '-';
  }

  /** Formatting a CNPJ keeps exactly its digits. */
  lemma FormatCnpjKeepsDigits(cnpj: string)
    ensures Digits(FormatCnpj(cnpj)) == Digits(cnpj)
  {
    var d := Digits(cnpj);
    DigitsAreDigits(cnpj);
    DigitsIdempotent(cnpj);
    if |d| >= 14 {
      var r0 := d[..2];
      DigitsOfDigits(r0);
      var r1 := r0 + ".";
      DigitsSnocPunct(r0, '.');
      var r2 := r1 + d[2..5];
      DigitsSnocDigits(r1, d[2..5]);
      assert r0 + d[2..5] == d[..5];
      var r3 := r2 + ".";
      DigitsSnocPunct(r2, '.');
      var r4 := r3 + d[5..8];
      DigitsSnocDigits(r3, d[5..8]);
      assert d[..5] + d[5..8] == d[..8];
      var r5 := r4 + "/";
      DigitsSnocPunct(r4, '/');
      var r6 := r5 + d[8..12];
      DigitsSnocDigits(r5, d[8..12]);
      assert d[..8] + d[8..12] == d[..12];
      var r7 := r6 + "-";
      DigitsSnocPunct(r6, '-');
      var r8 := r7 + d[12..14];
      DigitsSnocDigits(r7, d[12..14]);
      assert d[..12] + d[12..14] == d[..14];
      var r9 := r8 + d[14..];
      DigitsSnocDigits(r8, d[14..]);
      assert d[..14] + d[14..] == d;
      assert r9 == FormatCnpj(cnpj);
    }
  }

  /** With fourteen or more digits the CNPJ takes the mask 00.000.000/0000-00. */
  lemma FormatCnpjMask(cnpj: string)
    requires |Digits(cnpj)| >= 14
    ensures |FormatCnpj(cnpj)| == |Digits(cnpj)| + 4
    ensures FormatCnpj(cnpj)[2] == '.' && FormatCnpj(cnpj)[6] == '.'
      && FormatCnpj(cnpj)[10] == '/' && FormatCnpj(cnpj)[15] == '-'
  {
    var d := Digits(cnpj);
    var r := d[..2] + "." + d[2..5] + "." + d[5..8] + "/" + d[8..12] + "-" + d[12..14] + d[14..];
    assert r == FormatCnpj(cnpj);
    assert r[2] == '.';
    assert r[6] == '.';
    assert r[10] == '/';
    assert r[15] == '-';
  }

  /**
   * A CPF or CNPJ key is judged on its digits alone, so formatting it for
   * display never changes whether it is valid: valid exactly with 11 (CPF)
   * or 14 (CNPJ) digits, before and after.
   */
  lemma DocumentKeyValidity(key: string)
    ensures ValidatePixKey(key, "cpf") <==> |Digits(key)| == 11
    ensures ValidatePixKey(FormatCpf(key), "cpf") <==> ValidatePixKey(key, "cpf")
    ensures ValidatePixKey(key, "cnpj") <==> |Digits(key)| == 14
    ensures ValidatePixKey(FormatCnpj(key), "cnpj") <==> ValidatePixKey(key, "cnpj")
    ensures forall t :: ParseKeyType(t).None? ==> !ValidatePixKey(key, t)
  {
    FormatCpfKeepsDigits(key);
    FormatCnpjKeepsDigits(key);
  }

  /** Eleven digits, with nothing else, make a valid CPF key. */
  lemma DigitStringCpfKey(key: string)
    requires AllDigits(key) && |key| == 11
    ensures ValidatePixKey(key, "cpf")
  {
    DigitsOfDigits(key);
    assert ParseKeyType("cpf") == Some(Cpf);
  }

  /** `getPixKeyTypeLabel`, with the random-key label spelled as `getPixKeyTypeLabel` spells it. */
  function PixKeyTypeLabel(t: KeyType): string
  {
    match t
    case Cpf => "CPF"
    case Cnpj => "CNPJ"
    case Email => "E-mail"
    case Phone => "Telefone"
    case RandomKey => "Chave Aleat√≥ria"
  }
}
