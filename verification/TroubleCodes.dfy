/** Diagnostic trouble codes: two bytes on the wire, six characters in memory. */
module TroubleCodes {
  function RawToAscii(raw: bv8): bv8 {
    if raw > 9 then 0x41 + raw - 10 else 0x30 + raw
  }

  /** 'P', 'C', 'B' or 'U': powertrain, chassis, body or network. */
  function FirstCharacter(raw: bv8): bv8 {
    if raw == 0 then 0x50 else if raw == 1 then 0x43 else if raw == 2 then 0x42 else 0x55
  }

  /** The trouble code that the bytes `a` and `b` stand for. */
  function TroubleCode(a: bv8, b: bv8): (code: seq<bv8>)
    ensures |code| == 6
  {
    [FirstCharacter(a >> 6), 0x30 + ((a & 0x30) >> 4), RawToAscii(a & 0x0F),
     RawToAscii(b >> 4), RawToAscii(b & 0x0F), 0]
  }

  // ---------- The format of a code ----------

  predicate IsHexDigit(c: bv8) {
    0x30 <= c <= 0x39 || 0x41 <= c <= 0x46
  }

  /** `[PCBU][0-3][0-9A-F]{3}`, terminated by NUL. */
  predicate IsTroubleCode(code: seq<bv8>) {
    && |code| == 6
    && code[0] in [0x50, 0x43, 0x42, 0x55]
    && 0x30 <= code[1] <= 0x33
    && IsHexDigit(code[2]) && IsHexDigit(code[3]) && IsHexDigit(code[4])
    && code[5] == 0
  }

  /** The value of a hexadecimal digit. */
  function DigitValue(c: bv8): bv8 {
    if c <= 0x39 then c - 0x30 else c - 0x41 + 10
  }

  function SystemValue(c: bv8): bv8 {
    if c == 0x50 then 0 else if c == 0x43 then 1 else if c == 0x42 then 2 else 3
  }

  /** The two bytes that a code is transmitted as. */
  function Encode(code: seq<bv8>): (bv8, bv8)
    requires |code| == 6
  {
    ((SystemValue(code[0]) << 6) | ((code[1] - 0x30) << 4) | DigitValue(code[2]),
     (DigitValue(code[3]) << 4) | DigitValue(code[4]))
  }

  lemma TroubleCodeFormat(a: bv8, b: bv8)
    ensures IsTroubleCode(TroubleCode(a, b))
  {
  }

  lemma EncodeTroubleCode(a: bv8, b: bv8)
    ensures Encode(TroubleCode(a, b)) == (a, b)
  {
  }

  lemma TroubleCodeOfEncoded(code: seq<bv8>)
    requires IsTroubleCode(code)
    ensures var (a, b) := Encode(code); TroubleCode(a, b) == code
  {
  }

  /** The upper-case hexadecimal digit for a value below sixteen. */
  function HexDigit(value: bv8): bv8
    requires value < 16
  {
    var digits: seq<bv8> := [0x30, 0x31, 0x32, 0x33, 0x34, 0x35, 0x36, 0x37,
                             0x38, 0x39, 0x41, 0x42, 0x43, 0x44, 0x45, 0x46];
    digits[value as int]
  }

  lemma DigitIsAscii(value: bv8)
    requires value < 16
    ensures RawToAscii(value) == HexDigit(value)
  {
  }

  /** The characters of a code: P, C, B or U by the quarter that the first byte is in, a digit
      from 0 to 3, and three hexadecimal digits. */
  lemma CodeCharacters(a: bv8, b: bv8)
    ensures TroubleCode(a, b) ==
            [if a < 0x40 then 0x50 else if a < 0x80 then 0x43 else if a < 0xC0 then 0x42 else 0x55,
             0x30 + a / 0x10 % 4, HexDigit(a % 0x10), HexDigit(b / 0x10), HexDigit(b % 0x10), 0]
  {
    DigitIsAscii(a % 0x10);
    DigitIsAscii(b / 0x10);
    DigitIsAscii(b % 0x10);
  }

  // ---------- Whole payloads ----------

  /** The trouble codes in the data bytes of a reply, two bytes each. */
  function CodesIn(data: seq<bv8>): (codes: seq<seq<bv8>>)
    requires |data| % 2 == 0
    ensures |codes| == |data| / 2
  {
    seq(|data| / 2, i requires 0 <= i < |data| / 2 => TroubleCode(data[2 * i], data[2 * i + 1]))
  }

  predicate AreTroubleCodes(codes: seq<seq<bv8>>) {
    forall i :: 0 <= i < |codes| ==> IsTroubleCode(codes[i])
  }

  /** The data bytes that a list of codes is transmitted as. */
  function EncodeAll(codes: seq<seq<bv8>>): (data: seq<bv8>)
    requires AreTroubleCodes(codes)
    ensures |data| == 2 * |codes|
  {
    seq(2 * |codes|, j requires 0 <= j < 2 * |codes| =>
      if j % 2 == 0 then Encode(codes[j / 2]).0 else Encode(codes[j / 2]).1)
  }

  /** Decoding loses nothing: the codes determine every data byte. */
  lemma CodesRoundTrip(data: seq<bv8>)
    requires |data| % 2 == 0
    ensures AreTroubleCodes(CodesIn(data))
    ensures EncodeAll(CodesIn(data)) == data
  {
    forall i | 0 <= i < |data| / 2
      ensures IsTroubleCode(CodesIn(data)[i])
      ensures Encode(CodesIn(data)[i]) == (data[2 * i], data[2 * i + 1])
    {
      TroubleCodeFormat(data[2 * i], data[2 * i + 1]);
      EncodeTroubleCode(data[2 * i], data[2 * i + 1]);
    }
    forall j | 0 <= j < |data|
      ensures EncodeAll(CodesIn(data))[j] == data[j]
    {
      assert j == 2 * (j / 2) + j % 2;
    }
  }

  lemma EncodeAllAt(codes: seq<seq<bv8>>, i: nat)
    requires AreTroubleCodes(codes) && i < |codes|
    ensures (EncodeAll(codes)[2 * i], EncodeAll(codes)[2 * i + 1]) == Encode(codes[i])
  {
  }

  lemma CodeAt(data: seq<bv8>, i: nat, code: seq<bv8>)
    requires |data| % 2 == 0 && 2 * i + 1 < |data|
    requires IsTroubleCode(code) && (data[2 * i], data[2 * i + 1]) == Encode(code)
    ensures CodesIn(data)[i] == code
  {
    TroubleCodeOfEncoded(code);
  }

  /** And it reaches every list of well-formed codes. */
  lemma EncodeRoundTrip(codes: seq<seq<bv8>>)
    requires AreTroubleCodes(codes)
    ensures CodesIn(EncodeAll(codes)) == codes
  {
    var data := EncodeAll(codes);
    forall i | 0 <= i < |codes|
      ensures CodesIn(data)[i] == codes[i]
    {
      EncodeAllAt(codes, i);
      CodeAt(data, i, codes[i]);
    }
  }

  lemma CodesInjective(data: seq<bv8>, other: seq<bv8>)
    requires |data| % 2 == 0 && |other| % 2 == 0 && CodesIn(data) == CodesIn(other)
    ensures data == other
  {
    CodesRoundTrip(data);
    CodesRoundTrip(other);
  }
}
