/** The datagrams that clients and the daemon exchange: how a client marshals a
    request, and how the daemon takes it apart again. */
module Wire {
  datatype Option<+T> = None | Some(value: T)

  /** What identifies a shared socket: interface index, transfer ID and receive ID. */
  datatype Key = Key(ifindex: bv32, tid: bv32, rid: bv32)

  datatype Operation = Open | Close

  datatype Request = Request(op: Operation, key: Key)

  const API_VERSION: bv16 := 1
  const REQUEST_HEADER_SIZE := 4
  const REQUEST_MAX_SIZE := 100

  // ---------- The bytes of the host's integers ----------

  /** The bytes of a 16-bit integer in the memory of a little-endian host. */
  function Bytes16(w: bv16): (b: seq<bv8>)
    ensures |b| == 2
  {
    [(w & 0xFF) as bv8, (w >> 8) as bv8]
  }

  /** The bytes of a 32-bit integer in the memory of a little-endian host. */
  function Bytes32(w: bv32): (b: seq<bv8>)
    ensures |b| == 4
  {
    [(w & 0xFF) as bv8, ((w >> 8) & 0xFF) as bv8, ((w >> 16) & 0xFF) as bv8, (w >> 24) as bv8]
  }

  /** How the daemon reassembles two bytes. */
  function AsUint16(b0: bv8, b1: bv8): bv16 {
    (b0 as bv16) | ((b1 as bv16) << 8)
  }

  /** How the daemon reassembles four bytes. */
  function AsUint32(b0: bv8, b1: bv8, b2: bv8, b3: bv8): bv32 {
    (b0 as bv32) | ((b1 as bv32) << 8) | ((b2 as bv32) << 16) | ((b3 as bv32) << 24)
  }

  lemma Bytes16Reassemble(w: bv16)
    ensures var b := Bytes16(w); AsUint16(b[0], b[1]) == w
  {
  }

  lemma Bytes32Reassemble(w: bv32)
    ensures var b := Bytes32(w); AsUint32(b[0], b[1], b[2], b[3]) == w
  {
  }

  lemma Reassemble16Bytes(b0: bv8, b1: bv8)
    ensures Bytes16(AsUint16(b0, b1)) == [b0, b1]
  {
  }

  lemma Reassemble32Bytes(b0: bv8, b1: bv8, b2: bv8, b3: bv8)
    ensures Bytes32(AsUint32(b0, b1, b2, b3)) == [b0, b1, b2, b3]
  {
  }

  // ---------- Marshalling ----------

  function TypeCode(op: Operation): bv16 {
    match op
    case Open => 0
    case Close => 1
  }

  /** The sixteen bytes of a request. */
  function Marshal(version: bv16, requestType: bv16, key: Key): (b: seq<bv8>)
    ensures |b| == 16
  {
    Bytes16(version) + Bytes16(requestType) + Bytes32(key.ifindex) + Bytes32(key.tid) + Bytes32(key.rid)
  }

  function MarshalRequest(r: Request): (b: seq<bv8>)
    ensures |b| == 16
  {
    Marshal(API_VERSION, TypeCode(r.op), r.key)
  }

  /** `pack`: copies `data` to the cursor `p` of `buffer` and advances the cursor. */
  method Pack(buffer: array<bv8>, p: nat, data: seq<bv8>) returns (next: nat)
    requires p + |data| <= buffer.Length
    modifies buffer
    ensures next == p + |data|
    ensures buffer[..next] == old(buffer[..p]) + data
    ensures buffer[next..] == old(buffer[next..])
  {
    forall i | 0 <= i < |data| {
      buffer[p + i] := data[i];
    }
    next := p + |data|;
  }

  /** Five calls of `pack` fill the request buffer, and nothing of it is left over. */
  method BuildRequest(version: bv16, requestType: bv16, key: Key) returns (request: array<bv8>)
    ensures fresh(request) && request.Length == 16
    ensures request[..] == Marshal(version, requestType, key)
  {
    request := new bv8[16];
    var p := Pack(request, 0, Bytes16(version));
    p := Pack(request, p, Bytes16(requestType));
    p := Pack(request, p, Bytes32(key.ifindex));
    p := Pack(request, p, Bytes32(key.tid));
    p := Pack(request, p, Bytes32(key.rid));
    assert request[..] == request[..p];
  }

  // ---------- Unmarshalling ----------

  function HeaderVersion(b: seq<bv8>): bv16
    requires |b| >= REQUEST_HEADER_SIZE
  {
    AsUint16(b[0], b[1])
  }

  function HeaderType(b: seq<bv8>): bv16
    requires |b| >= REQUEST_HEADER_SIZE
  {
    AsUint16(b[2], b[3])
  }

  /** The parameters of a request; `payload` is what follows the header. */
  function UnmarshalKey(payload: seq<bv8>): Option<Key> {
    if |payload| < 12 then
      None
    else
      Some(Key(AsUint32(payload[0], payload[1], payload[2], payload[3]),
               AsUint32(payload[4], payload[5], payload[6], payload[7]),
               AsUint32(payload[8], payload[9], payload[10], payload[11])))
  }

  /** What the dispatcher makes of a datagram; `None` is a datagram it ignores. */
  function Parse(b: seq<bv8>): Option<Request> {
    if |b| < REQUEST_HEADER_SIZE || HeaderVersion(b) != API_VERSION then
      None
    else if HeaderType(b) != TypeCode(Open) && HeaderType(b) != TypeCode(Close) then
      None
    else
      var op := if HeaderType(b) == TypeCode(Open) then Open else Close;
      match UnmarshalKey(b[REQUEST_HEADER_SIZE..])
      case None => None
      case Some(key) => Some(Request(op, key))
  }

  // ---------- Round trips ----------

  /** Header and parameters come back as they were, whatever their values. */
  lemma MarshalRoundTrip(version: bv16, requestType: bv16, key: Key)
    ensures var b := Marshal(version, requestType, key);
      && HeaderVersion(b) == version
      && HeaderType(b) == requestType
      && UnmarshalKey(b[REQUEST_HEADER_SIZE..]) == Some(key)
  {
    Bytes16Reassemble(version);
    Bytes16Reassemble(requestType);
    Bytes32Reassemble(key.ifindex);
    Bytes32Reassemble(key.tid);
    Bytes32Reassemble(key.rid);
  }

  lemma MarshalInjective(v1: bv16, t1: bv16, k1: Key, v2: bv16, t2: bv16, k2: Key)
    requires Marshal(v1, t1, k1) == Marshal(v2, t2, k2)
    ensures v1 == v2 && t1 == t2 && k1 == k2
  {
    MarshalRoundTrip(v1, t1, k1);
    MarshalRoundTrip(v2, t2, k2);
  }

  lemma ParseMarshalled(r: Request, rest: seq<bv8>)
    ensures Parse(MarshalRequest(r) + rest) == Some(r)
  {
    MarshalRoundTrip(API_VERSION, TypeCode(r.op), r.key);
    var b := MarshalRequest(r);
    assert (b + rest)[REQUEST_HEADER_SIZE..] == b[REQUEST_HEADER_SIZE..] + rest;
  }

  lemma ParsedPrefix(b: seq<bv8>, r: Request)
    requires Parse(b) == Some(r)
    ensures |b| >= 16 && b[..16] == MarshalRequest(r)
  {
    Reassemble16Bytes(b[0], b[1]);
    Reassemble16Bytes(b[2], b[3]);
    Reassemble32Bytes(b[4], b[5], b[6], b[7]);
    Reassemble32Bytes(b[8], b[9], b[10], b[11]);
    Reassemble32Bytes(b[12], b[13], b[14], b[15]);
  }

  /** A datagram is a request exactly when it begins with that request's sixteen
      bytes: each request has one encoding, and what follows it never matters. */
  lemma ParseExactly(b: seq<bv8>, r: Request)
    ensures Parse(b) == Some(r) <==> |b| >= 16 && b[..16] == MarshalRequest(r)
  {
    if |b| >= 16 && b[..16] == MarshalRequest(r) {
      assert b == b[..16] + b[16..];
      ParseMarshalled(r, b[16..]);
    }
    if Parse(b) == Some(r) {
      ParsedPrefix(b, r);
    }
  }

  /** How the daemon reads an integer: byte `n` counts 256 to the power of `n`. */
  lemma IntegerFormat(b0: bv8, b1: bv8, b2: bv8, b3: bv8)
    ensures AsUint32(b0, b1, b2, b3) ==
            (b0 as bv32) + 0x100 * (b1 as bv32) + 0x10000 * (b2 as bv32) + 0x1000000 * (b3 as bv32)
  {
  }

  /** The digits of `w` to base 256, the lowest first. */
  function Digits(w: bv32): seq<bv8> {
    [(w % 0x100) as bv8, (w / 0x100 % 0x100) as bv8, (w / 0x10000 % 0x100) as bv8, (w / 0x1000000) as bv8]
  }

  lemma BytesAreDigits(w: bv32)
    ensures Bytes32(w) == Digits(w)
  {
  }

  lemma HeaderBytes(op: Operation)
    ensures Bytes16(API_VERSION) == [1, 0]
    ensures Bytes16(TypeCode(op)) == [if op == Open then 0 else 1, 0]
  {
  }

  lemma Slices(b: seq<bv8>, v: seq<bv8>, t: seq<bv8>, i: seq<bv8>, s: seq<bv8>, r: seq<bv8>)
    requires |b| >= 16 && |v| == |t| == 2 && |i| == |s| == |r| == 4
    ensures b[..16] == v + t + i + s + r <==>
            b[..2] == v && b[2..4] == t && b[4..8] == i && b[8..12] == s && b[12..16] == r
  {
    var whole := v + t + i + s + r;
    if b[..16] == whole {
      assert v == whole[..2] && t == whole[2..4] && i == whole[4..8] && s == whole[8..12] && r == whole[12..];
    }
  }

  /** The format on the wire: version 1, type 0 to open and 1 to close, interface index,
      transfer ID and receive ID, each with its lowest byte first. */
  lemma WireFormat(b: seq<bv8>, r: Request)
    ensures Parse(b) == Some(r) <==>
            && |b| >= 16
            && b[..2] == [1, 0] && b[2..4] == [if r.op == Open then 0 else 1, 0]
            && b[4..8] == Digits(r.key.ifindex) && b[8..12] == Digits(r.key.tid) && b[12..16] == Digits(r.key.rid)
  {
    ParseExactly(b, r);
    HeaderBytes(r.op);
    BytesAreDigits(r.key.ifindex);
    BytesAreDigits(r.key.tid);
    BytesAreDigits(r.key.rid);
    if |b| >= 16 {
      Slices(b, Bytes16(API_VERSION), Bytes16(TypeCode(r.op)),
             Bytes32(r.key.ifindex), Bytes32(r.key.tid), Bytes32(r.key.rid));
    }
  }

  lemma ParseTruncated(b: seq<bv8>, size: nat)
    requires 16 <= size <= |b|
    ensures Parse(b[..size]) == Parse(b)
  {
    assert b[..size][..16] == b[..16];
    if Parse(b).Some? {
      ParseExactly(b, Parse(b).value);
      ParseExactly(b[..size], Parse(b).value);
    } else if Parse(b[..size]).Some? {
      ParseExactly(b, Parse(b[..size]).value);
      ParseExactly(b[..size], Parse(b[..size]).value);
    }
  }

  /** The daemon's receive buffer cuts long datagrams, without effect on the request. */
  lemma ReceiveBufferSuffices(b: seq<bv8>)
    ensures Parse(if |b| > REQUEST_MAX_SIZE then b[..REQUEST_MAX_SIZE] else b) == Parse(b)
  {
    if |b| > REQUEST_MAX_SIZE {
      ParseTruncated(b, REQUEST_MAX_SIZE);
    }
  }
}
