/** One query: lock the socket, write the request, wait, read the reply, unlock, decode. */
module Query {
  import opened Wire
  import opened Commands
  import opened TroubleCodes
  import opened Responses

  const MAX_ISOTP_PAYLOAD := 4095

  /** What happens on the link while a query is under way: the request cannot be written,
      or some datagrams arrive before the wait ends, waiting fails or not, and so does reading. */
  datatype LinkEvent = WriteFails | Waits(arriving: seq<seq<bv8>>, selectFails: bool, readFails: bool)

  /** What reading a datagram as the reply to `c` yields: a buffer of the expected length
      cuts longer datagrams, and shorter ones are refused. */
  function Accept(c: Command, datagram: seq<bv8>): (payload: Option<seq<bv8>>)
    ensures payload.Some? && c.expectedLength != VARIABLE_RESPONSE_LENGTH ==> |payload.value| == c.expectedLength
  {
    var size := if c.expectedLength == VARIABLE_RESPONSE_LENGTH then MAX_ISOTP_PAYLOAD else c.expectedLength;
    var got := if |datagram| > size then datagram[..size] else datagram;
    if c.expectedLength != VARIABLE_RESPONSE_LENGTH && |got| != c.expectedLength then None else Some(got)
  }

  /** The response to `c` if the datagram is what is read. */
  function Answer(c: Command, datagram: seq<bv8>): Decoded
    requires Decodable(c)
  {
    match Accept(c, datagram)
    case None => FAILED
    case Some(payload) => Decode(c, payload)
  }

  /** A datagram is read whole if the length of the response varies, up to 4095 bytes, and
      otherwise cut to that length; a datagram that is too short for it is not accepted. */
  lemma AcceptedBytes(c: Command, datagram: seq<bv8>)
    ensures c.expectedLength == 0 && |datagram| <= 4095 ==> Accept(c, datagram) == Some(datagram)
    ensures c.expectedLength == 0 && |datagram| > 4095 ==> Accept(c, datagram) == Some(datagram[..4095])
    ensures c.expectedLength > 0 ==>
              Accept(c, datagram) ==
              if |datagram| >= c.expectedLength then Some(datagram[..c.expectedLength]) else None
  {
    assert datagram[..|datagram|] == datagram;
  }

  /** A datagram answers a predefined command of mode 1 or 9 exactly if it has the mode, plus
      0x40, the PID, and at least the bytes of the response, whatever they are. */
  lemma AnswerOnBytes(k: CommandId, datagram: seq<bv8>)
    requires k != 79
    ensures Answer(TableCommand(k), datagram).success <==>
            && |datagram| >= 2
            && datagram[0] == (if k < 79 then 0x41 else 0x49)
            && datagram[1] as int == (if k < 79 then k else k - 80)
            && (k < 79 ==> |datagram| >= ResponseLength(k))
            && (k == 80 ==> |datagram| >= 6)
            && (k == 81 ==> |datagram| >= 3)
  {
    var c := TableCommand(k);
    AcceptedBytes(c, datagram);
    if Accept(c, datagram).Some? {
      SuccessOnBytes(k, Accept(c, datagram).value);
    }
  }

  /** A datagram answers the query for trouble codes exactly if it begins with 0x43, is no
      longer than can be read, and has an even length; its codes are those of its bytes. */
  lemma TroubleCodesOnBytes(datagram: seq<bv8>)
    ensures var r := Answer(MODE3_COMMAND, datagram);
      && (r.success <==> 2 <= |datagram| <= 4095 && |datagram| % 2 == 0 && datagram[0] == 0x43)
      && (r.success ==> |r.codes| == (|datagram| - 2) / 2)
      && (r.success ==> forall n :: 0 <= n < |r.codes| ==>
            r.codes[n] == TroubleCode(datagram[2 * n + 2], datagram[2 * n + 3]))
  {
    AcceptedBytes(MODE3_COMMAND, datagram);
    var payload := Accept(MODE3_COMMAND, datagram).value;
    TroubleCodesOfReply(payload);
    var r := Answer(MODE3_COMMAND, datagram);
    if r.success {
      forall n | 0 <= n < |r.codes|
        ensures r.codes[n] == TroubleCode(datagram[2 * n + 2], datagram[2 * n + 3])
      {
        CodeOnBytes(payload, n);
      }
    }
  }

  datatype Queried = Queried(queue: seq<seq<bv8>>, response: Decoded)

  /** The datagrams left in the socket's queue by a query, and its response. */
  function Ask(queue: seq<seq<bv8>>, c: Command, ev: LinkEvent): Queried
    requires Decodable(c)
  {
    match ev
    case WriteFails => Queried(queue, FAILED)
    case Waits(arriving, selectFails, readFails) =>
      var q := queue + arriving;
      if q == [] || selectFails || readFails then Queried(q, FAILED) else Queried(q[1..], Answer(c, q[0]))
  }

  /** Decoding what is read calls a null pointer. */
  predicate AskCrashes(queue: seq<seq<bv8>>, c: Command, ev: LinkEvent)
    requires Decodable(c)
  {
    c.decoder == NoDecoder && Ask(queue, c, ev).response.success
  }

  /** A socket to an ECU; it is shared if the daemon opened it. */
  class Socket {
    const shared: bool
    var locked: bool
    var sent: seq<Command>
    var received: seq<seq<bv8>>

    constructor (shared: bool)
      ensures this.shared == shared && !locked && sent == [] && received == []
    {
      this.shared, locked, sent, received := shared, false, [], [];
    }

    method LockIfNecessary()
      modifies `locked
      ensures locked == (shared || old(locked))
    {
      if shared {
        locked := true;
      }
    }

    method UnlockIfNecessary()
      modifies `locked
      ensures locked == (!shared && old(locked))
    {
      if shared {
        locked := false;
      }
    }

    /** Nobody may write to a shared socket without the lock. */
    method Write(c: Command, ev: LinkEvent) returns (ok: bool)
      requires shared ==> locked
      modifies `sent
      ensures ok == !ev.WriteFails?
      ensures sent == if ok then old(sent) + [c] else old(sent)
    {
      ok := !ev.WriteFails?;
      if ok {
        sent := sent + [c];
      }
    }

    /** Waits for at most a second; `ready` says that a datagram can be read. */
    method Select(ev: LinkEvent) returns (ready: bool)
      requires ev.Waits?
      modifies `received
      ensures received == old(received) + ev.arriving
      ensures ready == (received != [] && !ev.selectFails)
    {
      received := received + ev.arriving;
      ready := received != [] && !ev.selectFails;
    }

    /** Nobody may read from a shared socket without the lock. */
    method Read(size: nat, ev: LinkEvent) returns (got: Option<seq<bv8>>)
      requires shared ==> locked
      requires ev.Waits? && received != []
      modifies `received
      ensures ev.readFails ==> got == None && received == old(received)
      ensures !ev.readFails ==>
                && received == old(received)[1..]
                && got == Some(if |old(received)[0]| > size then old(received)[0][..size] else old(received)[0])
    {
      if ev.readFails {
        return None;
      }
      var datagram := received[0];
      received := received[1..];
      got := Some(if |datagram| > size then datagram[..size] else datagram);
    }
  }

  /** Whatever happens on the link, the lock is held for every write and read and given
      back in the end, and the response is what `Ask` says. If decoding crashes, then
      only after the lock has been given back. */
  method PerformQuery(socket: Socket?, c: Command, ev: LinkEvent) returns (response: Response, crashed: bool)
    requires Decodable(c)
    modifies socket
    ensures fresh(response) && response.Valid()
    ensures socket == null ==> response.View() == FAILED && !crashed
    ensures socket != null ==>
              && response.View() == Ask(old(socket.received), c, ev).response
              && socket.received == Ask(old(socket.received), c, ev).queue
              && socket.sent == (if ev.WriteFails? then old(socket.sent) else old(socket.sent) + [c])
              && socket.locked == (!socket.shared && old(socket.locked))
              && (crashed <==> AskCrashes(old(socket.received), c, ev))
    ensures socket != null && ev.WriteFails? ==>
              response.View() == FAILED && !crashed && socket.received == old(socket.received)
    ensures socket != null && ev.Waits? ==>
              var queue := old(socket.received) + ev.arriving;
              if queue == [] || ev.selectFails || ev.readFails then
                response.View() == FAILED && !crashed && socket.received == queue
              else
                response.View() == Answer(c, queue[0]) && socket.received == queue[1..]
  {
    response := new Response();
    crashed := false;
    assert response.View() == FAILED;
    if socket == null {
      return;
    }
    socket.LockIfNecessary();
    var ok := socket.Write(c, ev);
    if !ok {
      socket.UnlockIfNecessary();
      return;
    }
    var ready := socket.Select(ev);
    if !ready {
      socket.UnlockIfNecessary();
      return;
    }
    var responseLength := if c.expectedLength == VARIABLE_RESPONSE_LENGTH then MAX_ISOTP_PAYLOAD else c.expectedLength;
    ghost var q := socket.received;
    var got := socket.Read(responseLength, ev);
    if got == None || (c.expectedLength != VARIABLE_RESPONSE_LENGTH && |got.value| != c.expectedLength) {
      socket.UnlockIfNecessary();
      return;
    }
    socket.UnlockIfNecessary();
    assert Accept(c, q[0]) == got;
    response, crashed := DecodeResponseForCommand(c, got.value);
  }
}
