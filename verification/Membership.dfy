/** From the bits on the wire to membership: a supported-PID reply carries PID `k` of
    its group in bit `7 - (k - 1) % 8` of data byte `(k - 1) / 8`. */
module Membership {
  import opened Wire
  import opened Bits
  import opened Commands
  import opened Query
  import opened Discovery

  predicate ByteBit(b: bv8, n: nat)
    requires n < 8
  {
    match n
    case 0 => b & 0x01 != 0
    case 1 => b & 0x02 != 0
    case 2 => b & 0x04 != 0
    case 3 => b & 0x08 != 0
    case 4 => b & 0x10 != 0
    case 5 => b & 0x20 != 0
    case 6 => b & 0x40 != 0
    case _ => b & 0x80 != 0
  }

  /** The bit of PID `k` of the group among the four data bytes `d`. */
  predicate DataBit(d: seq<bv8>, k: nat)
    requires |d| == 4 && 1 <= k <= 32
  {
    ByteBit(d[(k - 1) / 8], 7 - (k - 1) % 8)
  }

  lemma WireBit0(d: seq<bv8>, k: nat)
    requires |d| == 4 && 0 < k <= 8
    ensures Bit(BigEndian(d[0], d[1], d[2], d[3]), 32 - k) <==> DataBit(d, k)
  {
  }

  lemma WireBit1(d: seq<bv8>, k: nat)
    requires |d| == 4 && 8 < k <= 16
    ensures Bit(BigEndian(d[0], d[1], d[2], d[3]), 32 - k) <==> DataBit(d, k)
  {
  }

  lemma WireBit2(d: seq<bv8>, k: nat)
    requires |d| == 4 && 16 < k <= 24
    ensures Bit(BigEndian(d[0], d[1], d[2], d[3]), 32 - k) <==> DataBit(d, k)
  {
  }

  lemma WireBit3High(d: seq<bv8>, k: nat)
    requires |d| == 4 && 24 < k <= 28
    ensures Bit(BigEndian(d[0], d[1], d[2], d[3]), 32 - k) <==> DataBit(d, k)
  {
  }

  lemma WireBit3Low(d: seq<bv8>, k: nat)
    requires |d| == 4 && 28 < k <= 32
    ensures Bit(BigEndian(d[0], d[1], d[2], d[3]), 32 - k) <==> DataBit(d, k)
  {
  }

  /** Big-endian decoding puts PID `k` of the group at bit `32 - k` of the word. */
  lemma WireBit(d: seq<bv8>, k: nat)
    requires |d| == 4 && 1 <= k <= 32
    ensures Bit(BigEndian(d[0], d[1], d[2], d[3]), 32 - k) <==> DataBit(d, k)
  {
    if k <= 8 {
      WireBit0(d, k);
    } else if k <= 16 {
      WireBit1(d, k);
    } else if k <= 24 {
      WireBit2(d, k);
    } else if k <= 28 {
      WireBit3High(d, k);
    } else {
      WireBit3Low(d, k);
    }
  }

  // ---------- From replies to membership ----------

  /** The four data bytes of the reply to `c`, if a valid reply is read. */
  function Data(queue: seq<seq<bv8>>, c: Command, ev: LinkEvent): (d: Option<seq<bv8>>)
    requires c.expectedLength == 6
    ensures d.Some? ==> |d.value| == 4
  {
    if ev.WriteFails? || queue + ev.arriving == [] || ev.selectFails || ev.readFails then None
    else match Accept(c, (queue + ev.arriving)[0])
      case None => None
      case Some(payload) => if Successful(c, payload) then Some(payload[2..6]) else None
  }

  /** The reply reports PID `k` of its group. */
  predicate Reported(d: Option<seq<bv8>>, k: nat)
    requires d.Some? ==> |d.value| == 4
    requires 1 <= k <= 32
  {
    d.Some? && DataBit(d.value, k)
  }

  lemma WireWord(payload: seq<bv8>, k: nat)
    requires |payload| == 6 && 1 <= k <= 32
    ensures Bit(DecodedBitfield(payload), 32 - k) <==> DataBit(payload[2..6], k)
  {
    WireBit(payload[2..6], k);
  }

  lemma NoBits(n: nat)
    requires n < 32
    ensures !Bit(0, n)
  {
  }

  /** The bits of the response are the bits on the wire; a failed query has none. */
  lemma AskReports(queue: seq<seq<bv8>>, c: Command, ev: LinkEvent, k: nat)
    requires Decodable(c) && c.expectedLength == 6 && c.decoder == DecodeBitfield && 1 <= k <= 32
    ensures Bit(Ask(queue, c, ev).response.bitfield, 32 - k) <==> Reported(Data(queue, c, ev), k)
  {
    NoBits(32 - k);
    if Data(queue, c, ev).Some? {
      WireWord(Accept(c, (queue + ev.arriving)[0]).value, k);
    }
  }

  // ---------- The whole discovery ----------

  lemma GroupCommands()
    ensures Mode1Command(0x00).decoder == DecodeBitfield && Mode1Command(0x00).expectedLength == 6
    ensures Mode1Command(0x20).decoder == DecodeBitfield && Mode1Command(0x20).expectedLength == 6
    ensures Mode1Command(0x40).decoder == DecodeBitfield && Mode1Command(0x40).expectedLength == 6
    ensures Mode9Command(0x00).decoder == DecodeBitfield && Mode9Command(0x00).expectedLength == 6
  {
  }

  type DataBytes = d: Option<seq<bv8>> | d.Some? ==> |d.value| == 4 witness None

  /** The data bytes of the replies to the four queries, `None` where there are none. */
  datatype Reports = Reports(d01: DataBytes, d21: DataBytes, d41: DataBytes, d09: DataBytes)

  function AskGroup(queue: seq<seq<bv8>>, c: Command, ev: LinkEvent): (DataBytes, seq<seq<bv8>>)
    requires Decodable(c) && c.expectedLength == 6
  {
    (Data(queue, c, ev), Ask(queue, c, ev).queue)
  }

  function GatherMode9(queue: seq<seq<bv8>>, d01: DataBytes, d21: DataBytes, d41: DataBytes, ev: LinkEvent): Reports {
    GroupCommands();
    Reports(d01, d21, d41, AskGroup(queue, Mode9Command(0x00), ev).0)
  }

  function Gather41(queue: seq<seq<bv8>>, d01: DataBytes, d21: DataBytes, script: Script): Reports {
    GroupCommands();
    var (d41, rest) := AskGroup(queue, Mode1Command(0x40), script.e41);
    GatherMode9(rest, d01, d21, d41, script.e09)
  }

  function Gather21(queue: seq<seq<bv8>>, d01: DataBytes, script: Script): Reports {
    GroupCommands();
    var (d21, rest) := AskGroup(queue, Mode1Command(0x20), script.e21);
    if !Reported(d21, 32) then GatherMode9(rest, d01, d21, None, script.e09)
    else Gather41(rest, d01, d21, script)
  }

  /** The protocol of Annex A of ISO 15031-5: a group is asked for only if the group
      before it reports PID 32 of its own. */
  function Gather(queue: seq<seq<bv8>>, script: Script): Reports {
    GroupCommands();
    var (d01, rest) := AskGroup(queue, Mode1Command(0x00), script.e01);
    if !Reported(d01, 32) then GatherMode9(rest, d01, None, None, script.e09)
    else Gather21(rest, d01, script)
  }

  /** The bit of PID `k` of the group in its word. */
  predicate PidBit(w: bv32, k: nat)
    requires 1 <= k <= 32
  {
    Bit(w, 32 - k)
  }

  function PidsOfWord(w: bv32): set<nat> {
    set k: nat | 1 <= k <= 32 && PidBit(w, k)
  }

  function PidsReported(d: DataBytes, limit: nat): set<nat> {
    set k: nat | 1 <= k <= 32 && k <= limit && Reported(d, k)
  }

  /** The word has the bits of the reported PIDs up to `limit`, and no others. */
  predicate Carries(w: bv32, d: DataBytes, limit: nat) {
    PidsOfWord(w) == PidsReported(d, limit)
  }

  ghost predicate WordsCarry(words: PidWords, r: Reports) {
    && Carries(words.w01, r.d01, 32)
    && Carries(words.w21, r.d21, 32)
    && Carries(words.w41, r.d41, 14)
    && words.w61 == 0
    && Carries(words.w09, r.d09, 3)
  }

  lemma ResponseCarries(queue: seq<seq<bv8>>, c: Command, ev: LinkEvent)
    requires Decodable(c) && c.expectedLength == 6 && c.decoder == DecodeBitfield
    ensures Carries(Ask(queue, c, ev).response.bitfield, Data(queue, c, ev), 32)
  {
    var w, d := Ask(queue, c, ev).response.bitfield, Data(queue, c, ev);
    forall k: nat | 1 <= k <= 32
      ensures PidBit(w, k) <==> Reported(d, k)
    {
      AskReports(queue, c, ev, k);
    }
  }

  lemma ZeroCarries(limit: nat)
    ensures Carries(0, None, limit)
  {
    var zero: bv32 := 0;
    forall k: nat | 1 <= k <= 32
      ensures !PidBit(zero, k)
    {
      NoBits(32 - k);
    }
  }

  lemma Mode1MaskedPid(w: bv32, k: nat)
    requires 1 <= k <= 32
    ensures PidBit(w & MODE1_41_MASK, k) <==> PidBit(w, k) && k <= 14
  {
    var n := 32 - k;
    Mode1Masked(w, n);
    assert k <= 14 <==> n >= 18;
  }

  lemma Mode9MaskedPid(w: bv32, k: nat)
    requires 1 <= k <= 32
    ensures PidBit(w & MODE9_MASK, k) <==> PidBit(w, k) && k <= 3
  {
    Mode9Masked(w, 32 - k);
  }

  lemma Mode1MaskedCarries(w: bv32, d: DataBytes)
    requires Carries(w, d, 32)
    ensures Carries(w & MODE1_41_MASK, d, 14)
  {
    var masked := w & MODE1_41_MASK;
    forall k: nat | 1 <= k <= 32
      ensures PidBit(masked, k) <==> Reported(d, k) && k <= 14
    {
      Mode1MaskedPid(w, k);
      assert k in PidsOfWord(w) <==> k in PidsReported(d, 32);
    }
  }

  lemma Mode9MaskedCarries(w: bv32, d: DataBytes)
    requires Carries(w, d, 32)
    ensures Carries(w & MODE9_MASK, d, 3)
  {
    var masked := w & MODE9_MASK;
    forall k: nat | 1 <= k <= 32
      ensures PidBit(masked, k) <==> Reported(d, k) && k <= 3
    {
      Mode9MaskedPid(w, k);
      assert k in PidsOfWord(w) <==> k in PidsReported(d, 32);
    }
  }

  lemma LastBit(w: bv32, d: DataBytes)
    requires Carries(w, d, 32)
    ensures w & 0x01 != 0 <==> Reported(d, 32)
  {
    EndBits(w);
    assert 32 in PidsOfWord(w) <==> 32 in PidsReported(d, 32);
  }

  lemma CarryMode9(queue: seq<seq<bv8>>, w01: bv32, w21: bv32, w41: bv32,
                   d01: DataBytes, d21: DataBytes, d41: DataBytes, ev: LinkEvent)
    requires Carries(w01, d01, 32) && Carries(w21, d21, 32) && Carries(w41, d41, 14)
    ensures WordsCarry(DiscoverMode9(queue, w01, w21, w41, ev).words, GatherMode9(queue, d01, d21, d41, ev))
  {
    GroupCommands();
    ResponseCarries(queue, Mode9Command(0x00), ev);
    Mode9MaskedCarries(Ask(queue, Mode9Command(0x00), ev).response.bitfield, Data(queue, Mode9Command(0x00), ev));
  }

  lemma CarryRaw41(queue: seq<seq<bv8>>, w01: bv32, w21: bv32, raw: bv32,
                   d01: DataBytes, d21: DataBytes, d41: DataBytes, ev: LinkEvent)
    requires Carries(w01, d01, 32) && Carries(w21, d21, 32) && Carries(raw, d41, 32)
    ensures var words := DiscoverMode9(queue, w01, w21, raw & MODE1_41_MASK, ev).words;
      WordsCarry(words, GatherMode9(queue, d01, d21, d41, ev))
  {
    Mode1MaskedCarries(raw, d41);
    CarryMode9(queue, w01, w21, raw & MODE1_41_MASK, d01, d21, d41, ev);
  }

  lemma Carry41(queue: seq<seq<bv8>>, w01: bv32, w21: bv32, d01: DataBytes, d21: DataBytes, script: Script)
    requires Carries(w01, d01, 32) && Carries(w21, d21, 32)
    ensures WordsCarry(Discover41(queue, w01, w21, script).words, Gather41(queue, d01, d21, script))
  {
    GroupCommands();
    var c := Mode1Command(0x40);
    ResponseCarries(queue, c, script.e41);
    var q := Ask(queue, c, script.e41);
    CarryRaw41(q.queue, w01, w21, q.response.bitfield, d01, d21, Data(queue, c, script.e41), script.e09);
  }

  lemma Carry21(queue: seq<seq<bv8>>, w01: bv32, d01: DataBytes, script: Script)
    requires Carries(w01, d01, 32)
    ensures WordsCarry(Discover21(queue, w01, script).words, Gather21(queue, d01, script))
  {
    GroupCommands();
    var c := Mode1Command(0x20);
    var q, d21 := Ask(queue, c, script.e21), Data(queue, c, script.e21);
    ResponseCarries(queue, c, script.e21);
    LastBit(q.response.bitfield, d21);
    if Reported(d21, 32) {
      Carry41(q.queue, w01, q.response.bitfield, d01, d21, script);
    } else {
      ZeroCarries(14);
      CarryMode9(q.queue, w01, q.response.bitfield, 0, d01, d21, None, script.e09);
    }
  }

  lemma CarryAll(queue: seq<seq<bv8>>, script: Script)
    ensures WordsCarry(Discover(queue, script).words, Gather(queue, script))
  {
    GroupCommands();
    var c := Mode1Command(0x00);
    var q, d01 := Ask(queue, c, script.e01), Data(queue, c, script.e01);
    ResponseCarries(queue, c, script.e01);
    LastBit(q.response.bitfield, d01);
    if Reported(d01, 32) {
      Carry21(q.queue, q.response.bitfield, d01, script);
    } else {
      ZeroCarries(32);
      ZeroCarries(14);
      CarryMode9(q.queue, q.response.bitfield, 0, 0, d01, None, None, script.e09);
    }
  }

  /** What the membership test for `c` reads off the data bytes: of the last mode 1 group
      only PIDs up to 0x4E, of mode 9 only those up to 3, and PID 0 of both without any. */
  predicate ReportedCommand(r: Reports, c: Command) {
    if c.mode == 0x09 then c.pid == 0 || (c.pid <= 3 && Reported(r.d09, c.pid))
    else if c.mode != 0x01 then false
    else if c.pid <= 0x20 then c.pid == 0 || Reported(r.d01, c.pid)
    else if c.pid <= 0x40 then Reported(r.d21, c.pid - 0x20)
    else c.pid <= 0x4E && Reported(r.d41, c.pid - 0x40)
  }

  lemma CarriesPid(w: bv32, d: DataBytes, limit: nat, k: nat)
    requires Carries(w, d, limit) && 1 <= k <= 32
    ensures PidBit(w, k) <==> Reported(d, k) && k <= limit
  {
    assert k in PidsOfWord(w) <==> k in PidsReported(d, limit);
  }

  lemma Mode9Carried(words: PidWords, r: Reports, c: Command)
    requires c.mode == 0x09 && 0 < c.pid <= 0x20 && WordsCarry(words, r)
    ensures Supports(words, c) <==> ReportedCommand(r, c)
  {
    CarriesPid(words.w09, r.d09, 3, c.pid);
  }

  lemma SupportsIsPidBit(words: PidWords, c: Command)
    requires c.mode == 0x01 && 0 < c.pid <= 0x40
    ensures Supports(words, c) <==>
            if c.pid <= 0x20 then PidBit(words.w01, c.pid) else PidBit(words.w21, c.pid - 0x20)
  {
  }

  lemma Mode1Carried(words: PidWords, r: Reports, c: Command)
    requires c.mode == 0x01 && 0 < c.pid <= 0x40 && WordsCarry(words, r)
    ensures Supports(words, c) <==> ReportedCommand(r, c)
  {
    SupportsIsPidBit(words, c);
    if c.pid <= 0x20 {
      CarriesPid(words.w01, r.d01, 32, c.pid);
    } else {
      CarriesPid(words.w21, r.d21, 32, c.pid - 0x20);
    }
  }

  lemma HighMode1Carried(words: PidWords, r: Reports, c: Command)
    requires c.mode == 0x01 && 0x40 < c.pid <= 0x80 && WordsCarry(words, r)
    ensures Supports(words, c) <==> ReportedCommand(r, c)
  {
    if c.pid <= 0x60 {
      CarriesPid(words.w41, r.d41, 14, c.pid - 0x40);
    } else {
      NoBits(0x80 - c.pid);
    }
  }

  lemma SupportsCarried(words: PidWords, r: Reports, c: Command)
    requires HasBit(c) && WordsCarry(words, r)
    ensures Supports(words, c) <==> ReportedCommand(r, c)
  {
    if c.mode == 0x09 && c.pid > 0 {
      Mode9Carried(words, r, c);
    } else if c.mode == 0x01 && c.pid > 0x40 {
      HighMode1Carried(words, r, c);
    } else if c.mode == 0x01 && c.pid > 0 {
      Mode1Carried(words, r, c);
    }
  }

  /** From the wire to the membership test: a command is in the discovered set exactly if
      its bit is set in the data bytes of the reply for its group. */
  lemma MembershipOnTheWire(queue: seq<seq<bv8>>, script: Script, c: Command)
    requires HasBit(c)
    ensures Supports(Discover(queue, script).words, c) <==> ReportedCommand(Gather(queue, script), c)
  {
    CarryAll(queue, script);
    SupportsCarried(Discover(queue, script).words, Gather(queue, script), c);
  }

  /** The data bytes of a reply are those that follow mode and PID in the first datagram, if
      that is read, is long enough and begins with them. */
  lemma DataOnBytes(queue: seq<seq<bv8>>, c: Command, ev: LinkEvent)
    requires c.expectedLength == 6 && (c.mode == 0x01 || c.mode == 0x09)
    ensures Data(queue, c, ev) ==
            if ev.WriteFails? || queue + ev.arriving == [] || ev.selectFails || ev.readFails then
              None
            else
              var d := (queue + ev.arriving)[0];
              if |d| >= 6 && d[0] as int == c.mode + 0x40 && d[1] as int == c.pid then Some(d[2..6]) else None
  {
    if ev.Waits? && queue + ev.arriving != [] {
      var d := (queue + ev.arriving)[0];
      AcceptedBytes(c, d);
      if |d| >= 6 {
        assert d[..6][2..6] == d[2..6];
      }
    }
  }

  /** The datagram is a reply for the group of `first`, and has the bit of its PID `k`. */
  predicate DatagramReports(d: seq<bv8>, mode: bv8, first: bv8, k: nat)
    requires 1 <= k <= 32
  {
    |d| >= 6 && d[0] == mode && d[1] == first && DataBit(d[2..6], k)
  }

  /** One datagram arrives during the query. */
  function Arrives(d: seq<bv8>): LinkEvent {
    Waits([d], false, false)
  }

  lemma GroupOnBytes(c: Command, d: seq<bv8>, mode: bv8, first: bv8, k: nat)
    requires Decodable(c) && c.expectedLength == 6 && (c.mode == 0x01 || c.mode == 0x09) && 1 <= k <= 32
    requires mode as int == c.mode + 0x40 && first as int == c.pid
    ensures AskGroup([], c, Arrives(d)).1 == []
    ensures Reported(AskGroup([], c, Arrives(d)).0, k) <==> DatagramReports(d, mode, first, k)
  {
    DataOnBytes([], c, Arrives(d));
    assert [] + [d] == [d];
  }

  /** Which of the four datagrams are read as replies for their groups. */
  lemma GatherOnBytes(d01: seq<bv8>, d21: seq<bv8>, d41: seq<bv8>, d09: seq<bv8>)
    ensures var r := Gather([], Script(Arrives(d01), Arrives(d21), Arrives(d41), Arrives(d09)));
      && r.d01 == AskGroup([], Mode1Command(0x00), Arrives(d01)).0
      && r.d21 == (if DatagramReports(d01, 0x41, 0x00, 32)
                   then AskGroup([], Mode1Command(0x20), Arrives(d21)).0 else None)
      && r.d41 == (if DatagramReports(d01, 0x41, 0x00, 32) && DatagramReports(d21, 0x41, 0x20, 32)
                   then AskGroup([], Mode1Command(0x40), Arrives(d41)).0 else None)
      && r.d09 == AskGroup([], Mode9Command(0x00), Arrives(d09)).0
  {
    GroupCommands();
    GroupOnBytes(Mode1Command(0x00), d01, 0x41, 0x00, 32);
    GroupOnBytes(Mode1Command(0x20), d21, 0x41, 0x20, 32);
    GroupOnBytes(Mode1Command(0x40), d41, 0x41, 0x40, 32);
  }

  /** The bit of the PID of `c` is set in the datagram for its group, and, for the later
      groups, so is the last bit of each group before it. */
  predicate BytesSupport(d01: seq<bv8>, d21: seq<bv8>, d41: seq<bv8>, d09: seq<bv8>, c: Command) {
    if c.mode == 0x09 then
      c.pid == 0 || (c.pid <= 3 && DatagramReports(d09, 0x49, 0x00, c.pid))
    else if c.mode != 0x01 then
      false
    else if c.pid <= 0x20 then
      c.pid == 0 || DatagramReports(d01, 0x41, 0x00, c.pid)
    else if c.pid <= 0x40 then
      DatagramReports(d01, 0x41, 0x00, 32) && DatagramReports(d21, 0x41, 0x20, c.pid - 0x20)
    else
      c.pid <= 0x4E && DatagramReports(d01, 0x41, 0x00, 32) && DatagramReports(d21, 0x41, 0x20, 32)
      && DatagramReports(d41, 0x41, 0x40, c.pid - 0x40)
  }

  lemma ReportedOnBytes(d01: seq<bv8>, d21: seq<bv8>, d41: seq<bv8>, d09: seq<bv8>, c: Command)
    ensures var r := Gather([], Script(Arrives(d01), Arrives(d21), Arrives(d41), Arrives(d09)));
      ReportedCommand(r, c) <==> BytesSupport(d01, d21, d41, d09, c)
  {
    GroupCommands();
    GatherOnBytes(d01, d21, d41, d09);
    if c.mode == 0x09 && 0 < c.pid <= 3 {
      GroupOnBytes(Mode9Command(0x00), d09, 0x49, 0x00, c.pid);
    } else if c.mode == 0x01 && 0 < c.pid <= 0x20 {
      GroupOnBytes(Mode1Command(0x00), d01, 0x41, 0x00, c.pid);
    } else if c.mode == 0x01 && 0x20 < c.pid <= 0x40 {
      GroupOnBytes(Mode1Command(0x20), d21, 0x41, 0x20, c.pid - 0x20);
    } else if c.mode == 0x01 && 0x40 < c.pid <= 0x4E {
      GroupOnBytes(Mode1Command(0x40), d41, 0x41, 0x40, c.pid - 0x40);
    }
  }

  /** If one datagram arrives during each query, whatever it is, a command is in the
      discovered set exactly if the bytes of the datagrams say so. */
  lemma MembershipOnBytes(d01: seq<bv8>, d21: seq<bv8>, d41: seq<bv8>, d09: seq<bv8>, c: Command)
    requires HasBit(c)
    ensures var script := Script(Arrives(d01), Arrives(d21), Arrives(d41), Arrives(d09));
      Supports(Discover([], script).words, c) <==> BytesSupport(d01, d21, d41, d09, c)
  {
    MembershipOnTheWire([], Script(Arrives(d01), Arrives(d21), Arrives(d41), Arrives(d09)), c);
    ReportedOnBytes(d01, d21, d41, d09, c);
  }

  /** The array is filled exactly if the ECU does not report mode 9 PID 3, which is counted
      but has no command. */
  lemma ArrayIsFilledIff(queue: seq<seq<bv8>>, script: Script)
    ensures var words := Discover(queue, script).words;
      |CommandList(words)| == Allocated(words) <==> !Reported(Gather(queue, script).d09, 3)
  {
    var words := Discover(queue, script).words;
    DiscoverChained(queue, script);
    ListFillsArray(words);
    CarryAll(queue, script);
    CarriesPid(words.w09, Gather(queue, script).d09, 3, 3);
  }

  /** The documented size of a set can exceed its list: an ECU whose one reply reports
      mode 9 PID 3 makes the array one longer than what is written to it. */
  lemma LastElementCanStayUnwritten() returns (script: Script)
    ensures var words := Discover([], script).words; |CommandList(words)| == Allocated(words) - 1
  {
    var silence := Waits([], false, false);
    var reply: seq<bv8> := [0x49, 0x00, 0x20, 0x00, 0x00, 0x00];
    script := Script(silence, silence, silence, Waits([reply], false, false));
    GroupCommands();
    assert [] + [reply] == [reply];
    assert Data([], Mode9Command(0x00), script.e09) == Some(reply[2..6]);
    assert DataBit(reply[2..6], 3);
    ArrayIsFilledIff([], script);
    DiscoverChained([], script);
    ListFillsArray(Discover([], script).words);
  }
}
