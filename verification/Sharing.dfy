/** The whole sharing protocol as a system of steps: any number of clients, the queue
    of requests to the daemon, the daemon, and a queue of replies to each client. */
module Sharing {
  import opened Wire
  import opened SocketTable

  /** A client's view of a shared socket: its key, and its descriptor once received. */
  datatype ClientSocket = ClientSocket(key: Key, s: int)

  /** Where a client stands in `requestRemoteSocket`. */
  datatype Pc =
    | Idle
    | AwaitCode(op: Operation, sock: ClientSocket)
    | AwaitDescriptor(sock: ClientSocket)
    | Crashed

  /** `misread` records that a message was taken for one of the other kind, and
      `result` is what the last call returned. */
  datatype Client = Client(daemonSocket: nat, pc: Pc, held: seq<ClientSocket>, inbox: seq<Reply>,
                           misread: bool, result: int)

  datatype Datagram = Datagram(sender: nat, bytes: seq<bv8>)

  datatype Packet = Packet(addressee: nat, reply: Reply)

  /** `outbox` holds what the daemon has still to send for the request it is serving. */
  datatype System = System(table: Table, outbox: seq<Packet>, requests: seq<Datagram>, clients: seq<Client>)

  datatype Action =
    | StartOpen(client: nat, sock: ClientSocket)
    | StartClose(client: nat, index: nat)
    | SendGarbage(sender: nat, bytes: seq<bv8>)
    | ServeNext(outcome: OpenOutcome)
    | SendNext
    | Receive(client: nat)

  // ---------- The steps ----------

  predicate Enabled(sys: System, a: Action) {
    match a
    case StartOpen(i, _) => i < |sys.clients| && sys.clients[i].pc == Idle
    case StartClose(i, j) => i < |sys.clients| && sys.clients[i].pc == Idle && j < |sys.clients[i].held|
    case SendGarbage(_, bytes) => Parse(bytes) == None
    case ServeNext(o) => sys.outbox == [] && sys.requests != [] && Fresh(sys.table, o)
    case SendNext => sys.outbox != []
    case Receive(i) =>
      && i < |sys.clients|
      && (sys.clients[i].pc.AwaitCode? || sys.clients[i].pc.AwaitDescriptor?)
      && sys.clients[i].inbox != []
  }

  function SendRequest(sys: System, i: nat, c: Client, r: Request): System
    requires i < |sys.clients|
  {
    sys.(requests := sys.requests + [Datagram(i, MarshalRequest(r))], clients := sys.clients[i := c])
  }

  /** A client takes the first message of its queue. A descriptor message carries no
      bytes, so that reading it as a response code fails; and on a socket that happens
      to be descriptor 0 no descriptor is awaited at all. */
  function Take(c: Client): Client
    requires c.pc.AwaitCode? || c.pc.AwaitDescriptor?
    requires c.inbox != []
  {
    var d := c.(inbox := c.inbox[1..]);
    match (c.pc, c.inbox[0])
    case (AwaitCode(op, sock), Descriptor(_)) => d.(pc := Idle, misread := true, result := -1)
    case (AwaitCode(op, sock), Code(code)) =>
      if code != Success then d.(pc := Idle, result := -1)
      else if op == Close then d.(pc := Idle, result := 0)
      else if c.daemonSocket == 0 then d.(pc := Idle, held := c.held + [sock], result := 0)
      else d.(pc := AwaitDescriptor(sock))
    case (AwaitDescriptor(sock), Descriptor(s)) => d.(pc := Idle, held := c.held + [sock.(s := s)], result := 0)
    case (AwaitDescriptor(sock), Code(_)) => d.(pc := Crashed, misread := true)
    case (_, _) => d
  }

  function Packets(to: nat, replies: seq<Reply>): (ps: seq<Packet>)
    ensures |ps| == |replies|
  {
    seq(|replies|, n requires 0 <= n < |replies| => Packet(to, replies[n]))
  }

  function Apply(sys: System, a: Action): System
    requires Enabled(sys, a)
  {
    match a
    case StartOpen(i, sock) =>
      SendRequest(sys, i, sys.clients[i].(pc := AwaitCode(Open, sock)), Request(Open, sock.key))
    case StartClose(i, j) =>
      var c := sys.clients[i];
      var after := c.(pc := AwaitCode(Close, c.held[j]), held := Without(c.held, j));
      SendRequest(sys, i, after, Request(Close, c.held[j].key))
    case SendGarbage(sender, bytes) =>
      sys.(requests := sys.requests + [Datagram(sender, bytes)])
    case ServeNext(o) =>
      var d := sys.requests[0];
      var served := Handle(sys.table, d.bytes, o);
      sys.(table := served.sockets, outbox := Packets(d.sender, served.replies), requests := sys.requests[1..])
    case SendNext =>
      var p := sys.outbox[0];
      var sent := sys.(outbox := sys.outbox[1..]);
      if p.addressee < |sys.clients| then
        var c := sys.clients[p.addressee];
        sent.(clients := sys.clients[p.addressee := c.(inbox := c.inbox + [p.reply])])
      else
        sent
    case Receive(i) =>
      sys.(clients := sys.clients[i := Take(sys.clients[i])])
  }

  /** Nobody has called anything yet; `sockets` are the clients' own descriptors for
      their sockets to the daemon. */
  function Init(sockets: seq<nat>): System {
    System([], [], [], seq(|sockets|, i requires 0 <= i < |sockets| => Client(sockets[i], Idle, [], [], false, 0)))
  }

  predicate Possible(sys: System, run: seq<Action>)
    decreases |run|
  {
    run == [] || (Enabled(sys, run[0]) && Possible(Apply(sys, run[0]), run[1..]))
  }

  function Execute(sys: System, run: seq<Action>): System
    requires Possible(sys, run)
    decreases |run|
  {
    if run == [] then sys else Execute(Apply(sys, run[0]), run[1..])
  }

  // ---------- What is under way ----------

  /** The request that the datagram is, if it is one of client `i`. */
  function RequestOf(d: Datagram, i: nat): seq<Request> {
    if d.sender == i && Parse(d.bytes).Some? then [Parse(d.bytes).value] else []
  }

  /** The requests of client `i` that the daemon has not served. */
  function InFlight(ds: seq<Datagram>, i: nat): seq<Request> {
    if ds == [] then [] else RequestOf(ds[0], i) + InFlight(ds[1..], i)
  }

  /** The messages to client `i` that the daemon has not sent. */
  function Unsent(ps: seq<Packet>, i: nat): seq<Reply> {
    if ps == [] then []
    else (if ps[0].addressee == i then [ps[0].reply] else []) + Unsent(ps[1..], i)
  }

  /** The messages that client `i` has yet to read. */
  function Stream(sys: System, i: nat): seq<Reply>
    requires i < |sys.clients|
  {
    sys.clients[i].inbox + Unsent(sys.outbox, i)
  }

  /** The closes of `k` that the daemon has not served. */
  function PendingCloses(ds: seq<Datagram>, k: Key): nat {
    if ds == [] then 0
    else (if Parse(ds[0].bytes) == Some(Request(Close, k)) then 1 else 0) + PendingCloses(ds[1..], k)
  }

  function HeldCount(held: seq<ClientSocket>, k: Key): nat {
    if held == [] then 0 else (if held[0].key == k then 1 else 0) + HeldCount(held[1..], k)
  }

  /** An open of `k` has been granted, and the client has yet to read the descriptor. */
  predicate GrantUnderWay(pc: Pc, stream: seq<Reply>, k: Key) {
    && ((pc.AwaitCode? && pc.op == Open) || pc.AwaitDescriptor?)
    && pc.sock.key == k
    && stream != [] && stream[|stream| - 1].Descriptor?
  }

  /** The references to `k` that are due to one client. */
  function Share(c: Client, stream: seq<Reply>, k: Key): nat {
    HeldCount(c.held, k) + if GrantUnderWay(c.pc, stream, k) then 1 else 0
  }

  function Shares(sys: System, k: Key): (xs: seq<nat>)
    ensures |xs| == |sys.clients|
  {
    seq(|sys.clients|, i requires 0 <= i < |sys.clients| => Share(sys.clients[i], Stream(sys, i), k))
  }

  function Sum(xs: seq<nat>): nat {
    if xs == [] then 0 else xs[0] + Sum(xs[1..])
  }

  // ---------- The invariant ----------

  predicate Listed(t: Table, k: Key, s: int) {
    Lookup(t, k).Some? && Lookup(t, k).value.s == s
  }

  /** What a client's queue and its unserved requests are, by where the client stands. */
  predicate InStep(pc: Pc, requests: seq<Request>, stream: seq<Reply>) {
    match pc
    case Idle => requests == [] && stream == []
    case AwaitCode(op, sock) =>
      || (requests == [Request(op, sock.key)] && stream == [])
      || (requests == [] && op == Close && |stream| == 1 && stream[0].Code?)
      || (requests == [] && op == Open && stream == [Code(OpenSocketError)])
      || (requests == [] && op == Open && |stream| == 2 && stream[0] == Code(Success) && stream[1].Descriptor?)
    case AwaitDescriptor(_) => requests == [] && |stream| == 1 && stream[0].Descriptor?
    case Crashed => false
  }

  /** What a client is about to read is true: its close has succeeded, and the descriptor
      it has been granted is listed. */
  predicate Truthful(pc: Pc, stream: seq<Reply>, t: Table) {
    stream != [] ==>
      match (pc, stream[|stream| - 1])
      case (AwaitCode(Close, _), reply) => reply == Code(Success)
      case (AwaitCode(Open, sock), Descriptor(s)) => Listed(t, sock.key, s)
      case (AwaitDescriptor(sock), Descriptor(s)) => Listed(t, sock.key, s)
      case (_, _) => true
  }

  ghost predicate ClientInv(c: Client, requests: seq<Request>, stream: seq<Reply>, t: Table) {
    && c.daemonSocket != 0
    && !c.misread
    && InStep(c.pc, requests, stream)
    && Truthful(c.pc, stream, t)
    && (forall j :: 0 <= j < |c.held| ==> Listed(t, c.held[j].key, c.held[j].s))
  }

  ghost predicate ClientAt(sys: System, i: nat)
    requires i < |sys.clients|
  {
    ClientInv(sys.clients[i], InFlight(sys.requests, i), Stream(sys, i), sys.table)
  }

  /** The daemon's count of `k` is what clients hold, what they have been granted and
      not yet read, and what they have given back and the daemon has not yet seen. */
  predicate Counted(sys: System, k: Key) {
    References(sys.table, k) == Sum(Shares(sys, k)) + PendingCloses(sys.requests, k)
  }

  /** Requests come from clients, and replies go to clients. */
  ghost predicate Addressed(sys: System) {
    && (forall n :: 0 <= n < |sys.requests| && Parse(sys.requests[n].bytes).Some? ==>
          sys.requests[n].sender < |sys.clients|)
    && (forall n :: 0 <= n < |sys.outbox| ==> sys.outbox[n].addressee < |sys.clients|)
  }

  ghost predicate Inv(sys: System) {
    && WellFormed(sys.table)
    && (forall i :: 0 <= i < |sys.clients| ==> ClientAt(sys, i))
    && (forall k :: Counted(sys, k))
    && Addressed(sys)
  }

  // ---------- Sums and queues ----------

  lemma {:induction false} SumUpdate(xs: seq<nat>, i: nat, x: nat)
    requires i < |xs|
    ensures Sum(xs[i := x]) == Sum(xs) - xs[i] + x
  {
    if i == 0 {
      assert xs[i := x][1..] == xs[1..];
    } else {
      assert xs[i := x][1..] == xs[1..][i - 1 := x];
      SumUpdate(xs[1..], i - 1, x);
    }
  }

  lemma {:induction false} SumBounds(xs: seq<nat>, i: nat)
    requires i < |xs|
    ensures xs[i] <= Sum(xs)
  {
    if i > 0 {
      SumBounds(xs[1..], i - 1);
    }
  }

  lemma {:induction false} AppendInFlight(ds: seq<Datagram>, d: Datagram, i: nat)
    ensures InFlight(ds + [d], i) == InFlight(ds, i) + InFlight([d], i)
  {
    if ds == [] {
      assert ds + [d] == [d];
    } else {
      assert (ds + [d])[1..] == ds[1..] + [d];
      AppendInFlight(ds[1..], d, i);
    }
  }

  lemma {:induction false} AppendPendingCloses(ds: seq<Datagram>, d: Datagram, k: Key)
    ensures PendingCloses(ds + [d], k) == PendingCloses(ds, k) + PendingCloses([d], k)
  {
    if ds == [] {
      assert ds + [d] == [d];
    } else {
      assert (ds + [d])[1..] == ds[1..] + [d];
      AppendPendingCloses(ds[1..], d, k);
    }
  }

  lemma InFlightOfCall(ds: seq<Datagram>, i: nat, r: Request, j: nat, k: Key)
    ensures InFlight(ds + [Datagram(i, MarshalRequest(r))], j) == InFlight(ds, j) + if j == i then [r] else []
    ensures PendingCloses(ds + [Datagram(i, MarshalRequest(r))], k) ==
            PendingCloses(ds, k) + if r == Request(Close, k) then 1 else 0
  {
    var d := Datagram(i, MarshalRequest(r));
    AppendInFlight(ds, d, j);
    AppendPendingCloses(ds, d, k);
    ParseMarshalled(r, []);
    assert MarshalRequest(r) + [] == MarshalRequest(r);
    assert [d][1..] == [];
  }

  lemma {:induction false} UnsentPackets(to: nat, replies: seq<Reply>, i: nat)
    ensures Unsent(Packets(to, replies), i) == if i == to then replies else []
  {
    if replies != [] {
      assert Packets(to, replies)[1..] == Packets(to, replies[1..]);
      UnsentPackets(to, replies[1..], i);
    }
  }

  lemma ServeStreams(sys: System, o: OpenOutcome, i: nat, r: Request, j: nat)
    requires Enabled(sys, ServeNext(o)) && j < |sys.clients|
    requires i == sys.requests[0].sender && Parse(sys.requests[0].bytes) == Some(r)
    ensures Stream(Apply(sys, ServeNext(o)), j) ==
            Stream(sys, j) + if j == i then Serve(sys.table, r, o).replies else []
  {
    UnsentPackets(i, Serve(sys.table, r, o).replies, j);
  }

  lemma SendKeepsStream(sys: System, i: nat)
    requires i < |sys.clients| && Enabled(sys, SendNext)
    ensures Stream(Apply(sys, SendNext), i) == Stream(sys, i)
  {
    var p := sys.outbox[0];
    if p.addressee == i {
      var inbox, rest := sys.clients[i].inbox, Unsent(sys.outbox[1..], i);
      assert (inbox + [p.reply]) + rest == inbox + ([p.reply] + rest);
    }
  }

  lemma ReceiveStreams(sys: System, i: nat, j: nat)
    requires Enabled(sys, Receive(i)) && j < |sys.clients|
    ensures Stream(sys, i) != [] && Stream(sys, i)[0] == sys.clients[i].inbox[0]
    ensures Stream(Apply(sys, Receive(i)), j) == if j == i then Stream(sys, i)[1..] else Stream(sys, j)
  {
  }

  lemma {:induction false} HeldAppend(held: seq<ClientSocket>, h: ClientSocket, k: Key)
    ensures HeldCount(held + [h], k) == HeldCount(held, k) + if h.key == k then 1 else 0
  {
    if held == [] {
      assert held + [h] == [h];
    } else {
      assert (held + [h])[1..] == held[1..] + [h];
      HeldAppend(held[1..], h, k);
    }
  }

  lemma {:induction false} HeldRemove(held: seq<ClientSocket>, j: nat, k: Key)
    requires j < |held|
    ensures HeldCount(Without(held, j), k) == HeldCount(held, k) - if held[j].key == k then 1 else 0
  {
    if j == 0 {
      assert Without(held, j) == held[1..];
    } else {
      assert Without(held, j)[1..] == Without(held[1..], j - 1);
      HeldRemove(held[1..], j - 1, k);
    }
  }

  lemma {:induction false} HeldCounts(held: seq<ClientSocket>, j: nat)
    requires j < |held|
    ensures HeldCount(held, held[j].key) > 0
  {
    if j > 0 {
      HeldCounts(held[1..], j - 1);
    }
  }
}
