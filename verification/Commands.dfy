/** The predefined commands, membership in a command set, and the validation and
    decoding of supported-PID replies. */
module Commands {
  import opened Bits

  type Byte = b: int | 0 <= b < 256

  /** The response decoders; `NoDecoder` is the null function pointer. */
  datatype Decoder =
    | DecodeBitfield | DecodeEngineRPMs | DecodeTimingAdvance | DecodeTemperature | DecodePercentage
    | DecodeFuelTrim | DecodeFuelPressure | DecodeDTCs | DecodeVIN | DecodeOxygenSensorValues
    | DecodeThrottlePosition | DecodeMAFAirFlowRate | DecodeSingleByteBitfield | DecodeTwoByteBitfield
    | DecodeUInt16 | DecodeFuelRailPressure | DecodeFuelRailGaugePressure | DecodeOxygenSensorValues2
    | DecodeUInt8 | DecodeEGRError | DecodeVaporPressure | DecodeOxygenSensorValues3
    | DecodeCatalystTemperature | DecodeControlModuleVoltage | DecodeAbsoluteLoadValue
    | DecodeFuelAirEquivalence | DecodeNop | NoDecoder

  /** A command: the two bytes of its request, the length of its response and its decoder. */
  datatype Command = Command(mode: Byte, pid: Byte, expectedLength: nat, decoder: Decoder)

  const VARIABLE_RESPONSE_LENGTH := 0

  const MODE1_00: seq<Command> := [
    Command(0x01, 0x00, 6, DecodeBitfield),
    Command(0x01, 0x01, 6, DecodeBitfield),
    Command(0x01, 0x02, 4, DecodeNop),
    Command(0x01, 0x03, 4, DecodeTwoByteBitfield),
    Command(0x01, 0x04, 3, DecodePercentage),
    Command(0x01, 0x05, 3, DecodeTemperature),
    Command(0x01, 0x06, 3, DecodeFuelTrim),
    Command(0x01, 0x07, 3, DecodeFuelTrim),
    Command(0x01, 0x08, 3, DecodeFuelTrim),
    Command(0x01, 0x09, 3, DecodeFuelTrim),
    Command(0x01, 0x0A, 3, DecodeFuelPressure),
    Command(0x01, 0x0B, 3, DecodeUInt8),
    Command(0x01, 0x0C, 4, DecodeEngineRPMs),
    Command(0x01, 0x0D, 3, DecodeUInt8),
    Command(0x01, 0x0E, 3, DecodeTimingAdvance),
    Command(0x01, 0x0F, 3, DecodeTemperature)
  ]

  const MODE1_10: seq<Command> := [
    Command(0x01, 0x10, 4, DecodeMAFAirFlowRate),
    Command(0x01, 0x11, 3, DecodeThrottlePosition),
    Command(0x01, 0x12, 3, DecodeSingleByteBitfield),
    Command(0x01, 0x13, 3, DecodeSingleByteBitfield),
    Command(0x01, 0x14, 4, DecodeOxygenSensorValues),
    Command(0x01, 0x15, 4, DecodeOxygenSensorValues),
    Command(0x01, 0x16, 4, DecodeOxygenSensorValues),
    Command(0x01, 0x17, 4, DecodeOxygenSensorValues),
    Command(0x01, 0x18, 4, DecodeOxygenSensorValues),
    Command(0x01, 0x19, 4, DecodeOxygenSensorValues),
    Command(0x01, 0x1A, 4, DecodeOxygenSensorValues),
    Command(0x01, 0x1B, 4, DecodeOxygenSensorValues),
    Command(0x01, 0x1C, 3, DecodeSingleByteBitfield),
    Command(0x01, 0x1D, 3, DecodeSingleByteBitfield),
    Command(0x01, 0x1E, 3, DecodeSingleByteBitfield),
    Command(0x01, 0x1F, 4, DecodeUInt16)
  ]

  const MODE1_20: seq<Command> := [
    Command(0x01, 0x20, 6, DecodeBitfield),
    Command(0x01, 0x21, 4, DecodeUInt16),
    Command(0x01, 0x22, 4, DecodeFuelRailPressure),
    Command(0x01, 0x23, 4, DecodeFuelRailGaugePressure),
    Command(0x01, 0x24, 6, DecodeOxygenSensorValues2),
    Command(0x01, 0x25, 6, DecodeOxygenSensorValues2),
    Command(0x01, 0x26, 6, DecodeOxygenSensorValues2),
    Command(0x01, 0x27, 6, DecodeOxygenSensorValues2),
    Command(0x01, 0x28, 6, DecodeOxygenSensorValues2),
    Command(0x01, 0x29, 6, DecodeOxygenSensorValues2),
    Command(0x01, 0x2A, 6, DecodeOxygenSensorValues2),
    Command(0x01, 0x2B, 6, DecodeOxygenSensorValues2),
    Command(0x01, 0x2C, 3, DecodePercentage),
    Command(0x01, 0x2D, 3, DecodeEGRError),
    Command(0x01, 0x2E, 3, DecodePercentage),
    Command(0x01, 0x2F, 3, DecodePercentage)
  ]

  const MODE1_30: seq<Command> := [
    Command(0x01, 0x30, 3, DecodeUInt8),
    Command(0x01, 0x31, 4, DecodeUInt16),
    Command(0x01, 0x32, 4, DecodeVaporPressure),
    Command(0x01, 0x33, 3, DecodeUInt8),
    Command(0x01, 0x34, 6, DecodeOxygenSensorValues3),
    Command(0x01, 0x35, 6, DecodeOxygenSensorValues3),
    Command(0x01, 0x36, 6, DecodeOxygenSensorValues3),
    Command(0x01, 0x37, 6, DecodeOxygenSensorValues3),
    Command(0x01, 0x38, 6, DecodeOxygenSensorValues3),
    Command(0x01, 0x39, 6, DecodeOxygenSensorValues3),
    Command(0x01, 0x3A, 6, DecodeOxygenSensorValues3),
    Command(0x01, 0x3B, 6, DecodeOxygenSensorValues3),
    Command(0x01, 0x3C, 4, DecodeCatalystTemperature),
    Command(0x01, 0x3D, 4, DecodeCatalystTemperature),
    Command(0x01, 0x3E, 4, DecodeCatalystTemperature),
    Command(0x01, 0x3F, 4, DecodeCatalystTemperature)
  ]

  const MODE1_40: seq<Command> := [
    Command(0x01, 0x40, 6, DecodeBitfield),
    Command(0x01, 0x41, 6, DecodeBitfield),
    Command(0x01, 0x42, 4, DecodeControlModuleVoltage),
    Command(0x01, 0x43, 4, DecodeAbsoluteLoadValue),
    Command(0x01, 0x44, 4, DecodeFuelAirEquivalence),
    Command(0x01, 0x45, 3, DecodePercentage),
    Command(0x01, 0x46, 3, DecodeTemperature),
    Command(0x01, 0x47, 3, DecodePercentage),
    Command(0x01, 0x48, 3, DecodePercentage),
    Command(0x01, 0x49, 3, DecodePercentage),
    Command(0x01, 0x4A, 3, DecodePercentage),
    Command(0x01, 0x4B, 3, DecodePercentage),
    Command(0x01, 0x4C, 3, DecodePercentage),
    Command(0x01, 0x4D, 4, DecodeUInt16),
    Command(0x01, 0x4E, 4, DecodeUInt16)
  ]

  /** The mode 1 commands, sixteen PIDs a row. */
  const MODE1_COMMANDS: seq<Command> := MODE1_00 + MODE1_10 + MODE1_20 + MODE1_30 + MODE1_40

  const MODE3_COMMAND := Command(0x03, 0x00, VARIABLE_RESPONSE_LENGTH, DecodeDTCs)

  const MODE9_COMMANDS: seq<Command> := [
    Command(0x09, 0x00, 6, DecodeBitfield),
    Command(0x09, 0x01, 3, NoDecoder),
    Command(0x09, 0x02, VARIABLE_RESPONSE_LENGTH, DecodeVIN)
  ]

  // ---------- The tables ----------

  /** The number of leading bytes of a response payload that a decoder may read, apart
      from the bytes that the length of the payload itself tells it to read. */
  function BytesRead(d: Decoder): nat {
    match d
    case DecodeBitfield | DecodeOxygenSensorValues2 | DecodeOxygenSensorValues3 => 6
    case DecodeEngineRPMs | DecodeOxygenSensorValues | DecodeMAFAirFlowRate | DecodeTwoByteBitfield => 4
    case DecodeUInt16 | DecodeFuelRailPressure | DecodeFuelRailGaugePressure | DecodeVaporPressure => 4
    case DecodeCatalystTemperature | DecodeControlModuleVoltage => 4
    case DecodeAbsoluteLoadValue | DecodeFuelAirEquivalence => 4
    case DecodeTimingAdvance | DecodeTemperature | DecodePercentage | DecodeFuelTrim => 3
    case DecodeFuelPressure | DecodeThrottlePosition | DecodeSingleByteBitfield => 3
    case DecodeUInt8 | DecodeEGRError => 3
    case DecodeVIN => 2
    case DecodeDTCs | DecodeNop | NoDecoder => 0
  }

  /** What validation lets through is long enough for the decoder: the expected length is,
      or where there is none, the bytes that validation itself looks at. */
  predicate Decodable(c: Command) {
    BytesRead(c.decoder) <=
    if c.expectedLength != VARIABLE_RESPONSE_LENGTH then c.expectedLength
    else if c.mode == 0x01 || c.mode == 0x09 then 2
    else 1
  }

  /** The commands `cs` are those of `mode`, in the order of their PIDs from `from` on. */
  predicate IsTable(cs: seq<Command>, mode: int, from: int) {
    forall i :: 0 <= i < |cs| ==> cs[i].mode == mode && cs[i].pid == from + i && Decodable(cs[i])
  }

  /** The length of a mode 1 response in bytes, by its PID: two more than its data. */
  function ResponseLength(pid: int): nat {
    if IsLongBitfield(pid) || 0x24 <= pid <= 0x2B || 0x34 <= pid <= 0x3B then 6
    else if 0x02 <= pid <= 0x03 || pid == 0x0C || pid == 0x10 || 0x14 <= pid <= 0x1B || pid == 0x1F
         || 0x21 <= pid <= 0x23 || 0x31 <= pid <= 0x32 || 0x3C <= pid <= 0x3F || 0x42 <= pid <= 0x44
         || 0x4D <= pid <= 0x4E then 4
    else 3
  }

  predicate IsLongBitfield(pid: int) {
    0x00 <= pid <= 0x01 || pid == 0x20 || 0x40 <= pid <= 0x41
  }

  predicate IsShortBitfield(pid: int) {
    0x12 <= pid <= 0x13 || 0x1C <= pid <= 0x1E
  }

  /** The command expects the length that its PID has. */
  predicate IsSized(c: Command) {
    c.expectedLength == ResponseLength(c.pid)
  }

  /** Its decoder, if it does anything, reads the whole response; and it decodes a bitfield
      if and only if the PID is one. */
  predicate IsDecoded(c: Command) {
    && (if c.pid == 0x02 then c.decoder == DecodeNop else BytesRead(c.decoder) == c.expectedLength)
    && (c.decoder == DecodeBitfield <==> IsLongBitfield(c.pid))
    && (c.decoder == DecodeTwoByteBitfield <==> c.pid == 0x03)
    && (c.decoder == DecodeSingleByteBitfield <==> IsShortBitfield(c.pid))
  }

  predicate IsExact(c: Command) {
    IsSized(c) && IsDecoded(c)
  }

  predicate AreExact(cs: seq<Command>) {
    forall i :: 0 <= i < |cs| ==> IsExact(cs[i])
  }

  lemma Row00()
    ensures IsTable(MODE1_00, 0x01, 0x00) && |MODE1_00| == 16
  {
  }

  lemma SizedRow00()
    ensures forall i :: 0 <= i < |MODE1_00| ==> IsSized(MODE1_00[i])
  {
  }

  lemma DecodedRow00()
    ensures forall i :: 0 <= i < |MODE1_00| ==> IsDecoded(MODE1_00[i])
  {
  }

  lemma Row10()
    ensures IsTable(MODE1_10, 0x01, 0x10) && |MODE1_10| == 16
  {
  }

  lemma SizedRow10()
    ensures forall i :: 0 <= i < |MODE1_10| ==> IsSized(MODE1_10[i])
  {
  }

  lemma DecodedRow10()
    ensures forall i :: 0 <= i < |MODE1_10| ==> IsDecoded(MODE1_10[i])
  {
  }

  lemma Row20()
    ensures IsTable(MODE1_20, 0x01, 0x20) && |MODE1_20| == 16
  {
  }

  lemma SizedRow20()
    ensures forall i :: 0 <= i < |MODE1_20| ==> IsSized(MODE1_20[i])
  {
  }

  lemma DecodedRow20()
    ensures forall i :: 0 <= i < |MODE1_20| ==> IsDecoded(MODE1_20[i])
  {
  }

  lemma Row30()
    ensures IsTable(MODE1_30, 0x01, 0x30) && |MODE1_30| == 16
  {
  }

  lemma SizedRow30()
    ensures forall i :: 0 <= i < |MODE1_30| ==> IsSized(MODE1_30[i])
  {
  }

  lemma DecodedRow30()
    ensures forall i :: 0 <= i < |MODE1_30| ==> IsDecoded(MODE1_30[i])
  {
  }

  lemma Row40()
    ensures IsTable(MODE1_40, 0x01, 0x40) && |MODE1_40| == 15
  {
  }

  lemma SizedRow40()
    ensures forall i :: 0 <= i < |MODE1_40| ==> IsSized(MODE1_40[i])
  {
  }

  lemma DecodedRow40()
    ensures forall i :: 0 <= i < |MODE1_40| ==> IsDecoded(MODE1_40[i])
  {
  }

  lemma RowsAreExact()
    ensures AreExact(MODE1_00) && AreExact(MODE1_10) && AreExact(MODE1_20) && AreExact(MODE1_30) && AreExact(MODE1_40)
  {
    SizedRow00();
    SizedRow10();
    SizedRow20();
    SizedRow30();
    SizedRow40();
    DecodedRow00();
    DecodedRow10();
    DecodedRow20();
    DecodedRow30();
    DecodedRow40();
  }

  lemma AppendRow(cs: seq<Command>, row: seq<Command>, from: nat)
    requires IsTable(cs, 0x01, 0) && IsTable(row, 0x01, from) && |cs| == from
    requires AreExact(cs) && AreExact(row)
    ensures IsTable(cs + row, 0x01, 0) && |cs + row| == from + |row|
    ensures AreExact(cs + row)
  {
  }

  /** Both tables are indexed by PID, and every decoder stays inside the payloads that
      validation lets through to it. Lengths and kinds are those of the PIDs. */
  lemma TablesByPid()
    ensures |MODE1_COMMANDS| == 79 && IsTable(MODE1_COMMANDS, 0x01, 0) && AreExact(MODE1_COMMANDS)
    ensures |MODE9_COMMANDS| == 3 && IsTable(MODE9_COMMANDS, 0x09, 0)
    ensures MODE9_COMMANDS[0].expectedLength == 6 && MODE9_COMMANDS[0].decoder == DecodeBitfield
    ensures MODE9_COMMANDS[1].expectedLength == 3 && MODE9_COMMANDS[1].decoder == NoDecoder
    ensures MODE9_COMMANDS[2].expectedLength == 0 && MODE9_COMMANDS[2].decoder == DecodeVIN
    ensures MODE3_COMMAND.mode == 0x03 && MODE3_COMMAND.expectedLength == 0 && MODE3_COMMAND.decoder == DecodeDTCs
    ensures Decodable(MODE3_COMMAND)
  {
    Row00();
    Row10();
    Row20();
    Row30();
    Row40();
    RowsAreExact();
    AppendRow(MODE1_00, MODE1_10, 0x10);
    AppendRow(MODE1_00 + MODE1_10, MODE1_20, 0x20);
    AppendRow(MODE1_00 + MODE1_10 + MODE1_20, MODE1_30, 0x30);
    AppendRow(MODE1_00 + MODE1_10 + MODE1_20 + MODE1_30, MODE1_40, 0x40);
  }

  lemma ExactHasDecoder(c: Command)
    requires IsExact(c)
    ensures c.decoder != NoDecoder && c.decoder != DecodeDTCs && c.decoder != DecodeVIN
  {
  }

  function Mode1Command(pid: nat): (c: Command)
    requires pid < 79
    ensures Decodable(c) && HasBit(c) && c.mode == 0x01 && c.pid == pid && IsExact(c)
  {
    TablesByPid();
    MODE1_COMMANDS[pid]
  }

  function Mode9Command(pid: nat): (c: Command)
    requires pid < 3
    ensures Decodable(c) && HasBit(c) && c.mode == 0x09 && c.pid == pid
    ensures c.expectedLength == (if pid == 0 then 6 else if pid == 1 then 3 else 0)
    ensures c.decoder == if pid == 0 then DecodeBitfield else if pid == 1 then NoDecoder else DecodeVIN
  {
    TablesByPid();
    MODE9_COMMANDS[pid]
  }

  /** A predefined command, by its place in the structure that lists them all. */
  type CommandId = k: nat | k < 83

  /** The predefined commands: mode 1, the trouble codes, mode 9. */
  function TableCommand(k: CommandId): (c: Command)
    ensures Decodable(c)
    ensures if k < 79 then c.mode == 0x01 && c.pid == k && IsExact(c)
      else if k == 79 then c == Command(0x03, 0x00, 0, DecodeDTCs)
      else if k == 80 then c == Command(0x09, 0x00, 6, DecodeBitfield)
      else if k == 81 then c == Command(0x09, 0x01, 3, NoDecoder)
      else c == Command(0x09, 0x02, 0, DecodeVIN)
  {
    if k < 79 then Mode1Command(k)
    else if k == 79 then TablesByPid(); MODE3_COMMAND
    else Mode9Command(k - 80)
  }

  lemma OnlyTheCountHasNoDecoder(k: CommandId)
    ensures TableCommand(k).decoder == NoDecoder <==> k == 81
  {
    if k < 79 {
      ExactHasDecoder(TableCommand(k));
    }
  }

  // ---------- Membership ----------

  /** The supported-PID words of a command set. */
  datatype PidWords = PidWords(w01: bv32, w21: bv32, w41: bv32, w61: bv32, w09: bv32)

  /** The PIDs that the words have bits for; for others the source shifts by a negative amount. */
  predicate HasBit(c: Command) {
    && (c.mode == 0x01 ==> c.pid <= 0x80)
    && (c.mode == 0x09 ==> c.pid <= 0x20)
  }

  predicate Supports(words: PidWords, c: Command)
    requires HasBit(c)
  {
    if c.mode == 0x01 then
      if c.pid == 0x00 then true
      else if c.pid <= 0x20 then Bit(words.w01, 0x20 - c.pid)
      else if c.pid <= 0x40 then Bit(words.w21, 0x40 - c.pid)
      else if c.pid <= 0x60 then Bit(words.w41, 0x60 - c.pid)
      else Bit(words.w61, 0x80 - c.pid)
    else if c.mode == 0x09 then
      if c.pid == 0x00 then true else Bit(words.w09, 0x20 - c.pid)
    else
      false
  }

  // ---------- Replies ----------

  /** The value of a byte that is stored in a signed `char`. */
  function SignedChar(b: Byte): int {
    if b < 128 then b else b - 256
  }

  /** A payload is a successful response to a command. */
  predicate Successful(c: Command, payload: seq<bv8>) {
    && |payload| > 0
    && (c.expectedLength != VARIABLE_RESPONSE_LENGTH ==> |payload| == c.expectedLength)
    && payload[0] as int == SignedChar(c.mode) + 0x40
    && (SignedChar(c.mode) == 0x01 || SignedChar(c.mode) == 0x09 ==> |payload| >= 2 && payload[1] as int == c.pid)
  }

  /** No decoder is handed a payload that is too short for it. */
  lemma SuccessfulFits(c: Command, payload: seq<bv8>)
    requires Decodable(c) && Successful(c, payload)
    ensures BytesRead(c.decoder) <= |payload|
  {
  }

  /** The four data bytes of a reply as one word, most significant byte first. */
  function BigEndian(d0: bv8, d1: bv8, d2: bv8, d3: bv8): bv32 {
    ((d0 as bv32) << 24) | ((d1 as bv32) << 16) | ((d2 as bv32) << 8) | (d3 as bv32)
  }

  function DecodedBitfield(payload: seq<bv8>): bv32
    requires |payload| >= 6
  {
    BigEndian(payload[2], payload[3], payload[4], payload[5])
  }
}
