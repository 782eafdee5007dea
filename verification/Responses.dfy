/** Responses: how a payload that answers a command is decoded in place. */
module Responses {
  import opened Commands
  import opened TroubleCodes

  /** What a caller finds in a response. */
  datatype Decoded = Decoded(success: bool, bitfield: bv32, codes: seq<seq<bv8>>)

  /** A response that reports failure: every field is zero. */
  const FAILED := Decoded(false, 0, [])

  /** What decoding a payload as the answer to `c` comes to. */
  function Decode(c: Command, payload: seq<bv8>): Decoded
    requires Decodable(c)
  {
    if !Successful(c, payload) then FAILED
    else match c.decoder
      case DecodeBitfield => Decoded(true, DecodedBitfield(payload), [])
      case DecodeSingleByteBitfield => Decoded(true, payload[2] as bv32, [])
      case DecodeTwoByteBitfield => Decoded(true, ((payload[2] as bv32) << 8) | (payload[3] as bv32), [])
      case DecodeDTCs =>
        if |payload| < 2 || |payload| % 2 != 0 then FAILED else Decoded(true, 0, CodesIn(payload[2..]))
      case _ => Decoded(true, 0, [])
  }

  /** Decoding calls a null pointer: the payload is valid, and the command has no decoder. */
  predicate Crashes(c: Command, payload: seq<bv8>) {
    Successful(c, payload) && c.decoder == NoDecoder
  }

  function Row(codes: array2<bv8>, i: nat): (row: seq<bv8>)
    requires i < codes.Length0 && codes.Length1 == 6
    reads codes
  {
    [codes[i, 0], codes[i, 1], codes[i, 2], codes[i, 3], codes[i, 4], codes[i, 5]]
  }

  /** Fills in the characters of the code at row `i`, and the NUL that ends it. */
  method FillCode(codes: array2<bv8>, i: nat, a: bv8, b: bv8)
    requires i < codes.Length0 && codes.Length1 == 6
    modifies codes
    ensures Row(codes, i) == TroubleCode(a, b)
    ensures forall n :: 0 <= n < codes.Length0 && n != i ==> Row(codes, n) == old(Row(codes, n))
  {
    codes[i, 0] := FirstCharacter(a >> 6);
    codes[i, 1] := 0x30 + ((a & 0x30) >> 4);
    codes[i, 2] := RawToAscii(a & 0x0F);
    codes[i, 3] := RawToAscii(b >> 4);
    codes[i, 4] := RawToAscii(b & 0x0F);
    codes[i, 5] := 0;
  }

  class Response {
    var success: bool
    var bitfieldValue: bv32
    var numTroubleCodes: nat
    var troubleCodes: array2?<bv8>

    constructor ()
      ensures Zero()
    {
      success, bitfieldValue, numTroubleCodes, troubleCodes := false, 0, 0, null;
    }

    predicate Zero()
      reads this
    {
      !success && bitfieldValue == 0 && numTroubleCodes == 0 && troubleCodes == null
    }

    /** The array of codes is there if and only if there may be codes in it. */
    predicate Valid()
      reads this
    {
      if troubleCodes == null then numTroubleCodes == 0
      else troubleCodes.Length0 == numTroubleCodes && troubleCodes.Length1 == 6
    }

    function Codes(): (codes: seq<seq<bv8>>)
      requires Valid()
      reads this, troubleCodes
      ensures |codes| == numTroubleCodes
    {
      seq(numTroubleCodes, i requires 0 <= i < numTroubleCodes && Valid() reads this, troubleCodes =>
        Row(troubleCodes, i))
    }

    function View(): Decoded
      requires Valid()
      reads this, troubleCodes
    {
      Decoded(success, bitfieldValue, Codes())
    }

    /** Splits the data bytes of a mode 3 reply into codes; a payload with half a code,
        or none of the two bytes before the codes, makes the response a failure. */
    method DecodeTroubleCodes(payload: seq<bv8>)
      requires Valid()
      modifies this
      ensures Valid() && bitfieldValue == old(bitfieldValue)
      ensures |payload| < 2 || |payload| % 2 != 0 ==>
                !success && troubleCodes == old(troubleCodes) && numTroubleCodes == old(numTroubleCodes)
      ensures |payload| >= 2 && |payload| % 2 == 0 ==>
                success == old(success) && fresh(troubleCodes) && Codes() == CodesIn(payload[2..])
    {
      var numBytes := |payload| - 2;
      if numBytes < 0 || numBytes % 2 != 0 {
        success := false;
        return;
      }
      var numDTCs := numBytes / 2;
      var codes := new bv8[numDTCs, 6];
      ghost var data := payload[2..];
      for i := 0 to numDTCs
        modifies codes
        invariant forall n :: 0 <= n < i ==> Row(codes, n) == TroubleCode(data[2 * n], data[2 * n + 1])
      {
        var offset := 2 + i * 2;
        var a, b := payload[offset], payload[offset + 1];
        FillCode(codes, i, a, b);
      }
      troubleCodes, numTroubleCodes := codes, numDTCs;
      assert Codes() == CodesIn(data);
    }
  }

  /** Validates a payload and hands it to the decoder of the command. `crashed` says that
      the decoder is a null pointer; the response is then as the call found it. */
  method DecodeResponseForCommand(c: Command, payload: seq<bv8>) returns (response: Response, crashed: bool)
    requires Decodable(c)
    ensures fresh(response) && response.Valid()
    ensures response.View() == Decode(c, payload)
    ensures crashed <==> Crashes(c, payload)
    ensures c.mode < 0x80 && c.decoder != DecodeDTCs ==>
              (response.success <==>
                && |payload| > 0
                && (c.expectedLength != 0 ==> |payload| == c.expectedLength)
                && payload[0] as int == c.mode + 0x40
                && (c.mode == 0x01 || c.mode == 0x09 ==> |payload| >= 2 && payload[1] as int == c.pid))
  {
    response := new Response();
    crashed := false;
    if |payload| == 0 {
      return;
    }
    assert response.Codes() == [];
    response.success := Successful(c, payload);
    if response.success {
      match c.decoder
      case DecodeBitfield => response.bitfieldValue := DecodedBitfield(payload);
      case DecodeSingleByteBitfield => response.bitfieldValue := payload[2] as bv32;
      case DecodeTwoByteBitfield => response.bitfieldValue := ((payload[2] as bv32) << 8) | (payload[3] as bv32);
      case DecodeDTCs => response.DecodeTroubleCodes(payload);
      case NoDecoder => crashed := true;
      case _ =>
    }
  }

  /** What a caller may conclude from success, whatever payload was decoded. */
  lemma SuccessMatchesCommand(c: Command, payload: seq<bv8>)
    requires Decodable(c) && c.mode < 0x80 && Decode(c, payload).success
    ensures |payload| > 0 && payload[0] as int == c.mode + 0x40
    ensures c.mode == 0x01 || c.mode == 0x09 ==> |payload| > 1 && payload[1] as int == c.pid
  {
  }

  /** Every response to a predefined command but the trouble codes succeeds exactly if it
      begins as it should and has the length of its PID, whatever its data. */
  lemma SuccessOnBytes(k: CommandId, payload: seq<bv8>)
    requires k != 79
    ensures Decode(TableCommand(k), payload).success <==>
            && |payload| >= 2
            && payload[0] == (if k < 79 then 0x41 else 0x49)
            && payload[1] as int == (if k < 79 then k else k - 80)
            && (k < 79 ==> |payload| == ResponseLength(k))
            && (k == 80 ==> |payload| == 6)
            && (k == 81 ==> |payload| == 3)
  {
  }

  lemma BigEndianValue(d0: bv8, d1: bv8, d2: bv8, d3: bv8)
    ensures BigEndian(d0, d1, d2, d3) ==
            0x1000000 * (d0 as bv32) + 0x10000 * (d1 as bv32) + 0x100 * (d2 as bv32) + (d3 as bv32)
  {
  }

  lemma TwoByteValue(d0: bv8, d1: bv8)
    ensures ((d0 as bv32) << 8) | (d1 as bv32) == 0x100 * (d0 as bv32) + (d1 as bv32)
  {
  }

  /** The value of a bitfield is its data bytes to base 256, the first one highest. */
  lemma BitfieldOnBytes(c: Command, payload: seq<bv8>)
    requires Decodable(c) && c.decoder == DecodeBitfield && Decode(c, payload).success
    ensures Decode(c, payload).bitfield ==
            0x1000000 * (payload[2] as bv32) + 0x10000 * (payload[3] as bv32)
            + 0x100 * (payload[4] as bv32) + (payload[5] as bv32)
  {
    BigEndianValue(payload[2], payload[3], payload[4], payload[5]);
  }

  /** So it is of the short ones; other responses have none, and only mode 3 has codes. */
  lemma ShortBitfieldOnBytes(c: Command, payload: seq<bv8>)
    requires Decodable(c) && c.decoder != DecodeBitfield && Decode(c, payload).success
    ensures Decode(c, payload).bitfield ==
            if c.decoder == DecodeSingleByteBitfield then payload[2] as bv32
            else if c.decoder == DecodeTwoByteBitfield then 0x100 * (payload[2] as bv32) + (payload[3] as bv32)
            else 0
    ensures c.decoder != DecodeDTCs ==> Decode(c, payload).codes == []
  {
    if c.decoder == DecodeTwoByteBitfield {
      TwoByteValue(payload[2], payload[3]);
    }
  }

  /** Of all predefined commands only the VIN message count crashes, and on every valid reply. */
  lemma OnlyTheCountCrashes(k: CommandId, payload: seq<bv8>)
    ensures Crashes(TableCommand(k), payload) <==>
            k == 81 && |payload| == 3 && payload[0] == 0x49 && payload[1] == 0x01
  {
    OnlyTheCountHasNoDecoder(k);
  }

  /** Code `n` of a response stands for its two bytes. */
  lemma CodeOnBytes(payload: seq<bv8>, n: nat)
    requires Decode(MODE3_COMMAND, payload).success && n < |Decode(MODE3_COMMAND, payload).codes|
    ensures 2 * n + 3 < |payload|
    ensures Decode(MODE3_COMMAND, payload).codes[n] == TroubleCode(payload[2 * n + 2], payload[2 * n + 3])
  {
  }

  /** Exactly the even replies of two bytes or more decode to trouble codes; the codes
      are well formed, and every data byte can be recovered from them. */
  lemma TroubleCodesOfReply(payload: seq<bv8>)
    ensures var d := Decode(MODE3_COMMAND, payload);
      && (d.success <==> |payload| >= 2 && |payload| % 2 == 0 && payload[0] == 0x43)
      && (d.success ==>
            |d.codes| == (|payload| - 2) / 2 && AreTroubleCodes(d.codes) && EncodeAll(d.codes) == payload[2..])
      && (!d.success ==> d == FAILED)
  {
    if |payload| >= 2 && |payload| % 2 == 0 {
      CodesRoundTrip(payload[2..]);
    }
  }

  /** The data bytes that a bitfield is decoded from, most significant first. */
  function BitfieldBytes(d: Decoder, v: bv32): seq<bv8>
    requires d == DecodeBitfield || d == DecodeTwoByteBitfield || d == DecodeSingleByteBitfield
  {
    var last := (v & 0xFF) as bv8;
    if d == DecodeSingleByteBitfield then [last]
    else
      var third := ((v >> 8) & 0xFF) as bv8;
      if d == DecodeTwoByteBitfield then [third, last]
      else [(v >> 24) as bv8, ((v >> 16) & 0xFF) as bv8, third, last]
  }

  /** No bit of a bitfield is lost or moved: its value gives back the data bytes. */
  lemma BitfieldRoundTrip(c: Command, payload: seq<bv8>)
    requires c.decoder == DecodeBitfield || c.decoder == DecodeTwoByteBitfield || c.decoder == DecodeSingleByteBitfield
    requires Decodable(c) && Successful(c, payload)
    ensures BitfieldBytes(c.decoder, Decode(c, payload).bitfield) == payload[2..BytesRead(c.decoder)]
  {
    if c.decoder == DecodeBitfield {
      SplitFour(payload[2], payload[3], payload[4], payload[5], DecodedBitfield(payload));
    } else if c.decoder == DecodeTwoByteBitfield {
      SplitTwo(payload[2], payload[3]);
    } else {
      SplitOne(payload[2]);
    }
  }

  lemma SplitFour(d0: bv8, d1: bv8, d2: bv8, d3: bv8, v: bv32)
    requires v == BigEndian(d0, d1, d2, d3)
    ensures (v >> 24) as bv8 == d0 && ((v >> 16) & 0xFF) as bv8 == d1
    ensures ((v >> 8) & 0xFF) as bv8 == d2 && (v & 0xFF) as bv8 == d3
  {
  }

  lemma SplitTwo(d0: bv8, d1: bv8)
    ensures BitfieldBytes(DecodeTwoByteBitfield, ((d0 as bv32) << 8) | (d1 as bv32)) == [d0, d1]
  {
  }

  lemma SplitOne(d0: bv8)
    ensures BitfieldBytes(DecodeSingleByteBitfield, d0 as bv32) == [d0]
  {
  }
}
