/** What holds of one client of the sharing protocol, whatever the others are. */
module SharingClients {
  import opened Wire
  import opened SocketTable
  import opened Sharing

  /** A client whose socket to the daemon is not descriptor 0 is in step; any other has at
      least something to wait for. */
  predicate OnTrack(c: Client, requests: seq<Request>, stream: seq<Reply>) {
    if c.daemonSocket != 0 then !c.misread && InStep(c.pc, requests, stream)
    else c.pc == Idle || (c.pc.AwaitCode? && (requests != [] || stream != []))
  }

  predicate OnTrackAt(sys: System, i: nat)
    requires i < |sys.clients|
  {
    OnTrack(sys.clients[i], InFlight(sys.requests, i), Stream(sys, i))
  }

  lemma CallKeepsTrack(sys: System, j: nat, c: Client, r: Request, i: nat)
    requires j < |sys.clients| && i < |sys.clients| && OnTrackAt(sys, i)
    requires sys.clients[j].pc == Idle && c.pc.AwaitCode? && r == Request(c.pc.op, c.pc.sock.key)
    requires c.(pc := Idle, held := []) == sys.clients[j].(held := [])
    ensures OnTrackAt(SendRequest(sys, j, c, r), i)
  {
    InFlightOfCall(sys.requests, j, r, i, r.key);
    assert c.(pc := Idle, held := []).inbox == sys.clients[j].(held := []).inbox;
  }

  lemma GarbageKeepsTrack(sys: System, sender: nat, bytes: seq<bv8>, i: nat)
    requires i < |sys.clients| && OnTrackAt(sys, i) && Parse(bytes) == None
    ensures OnTrackAt(Apply(sys, SendGarbage(sender, bytes)), i)
  {
    var d := Datagram(sender, bytes);
    AppendInFlight(sys.requests, d, i);
    assert [d][1..] == [];
  }

  lemma SendKeepsTrack(sys: System, i: nat)
    requires i < |sys.clients| && OnTrackAt(sys, i) && Enabled(sys, SendNext)
    ensures OnTrackAt(Apply(sys, SendNext), i)
  {
    SendKeepsStream(sys, i);
    assert Apply(sys, SendNext).clients[i].(inbox := []) == sys.clients[i].(inbox := []);
  }

  lemma AnswerKeepsTrack(c: Client, r: Request, rest: seq<Request>, stream: seq<Reply>, t: Table, o: OpenOutcome)
    requires OnTrack(c, [r] + rest, stream)
    ensures OnTrack(c, rest, stream + Serve(t, r, o).replies)
  {
    assert ([r] + rest)[0] == r && |[r] + rest| == 1 + |rest|;
  }

  lemma ServeKeepsTrack(sys: System, o: OpenOutcome, i: nat)
    requires i < |sys.clients| && OnTrackAt(sys, i) && Enabled(sys, ServeNext(o))
    ensures OnTrackAt(Apply(sys, ServeNext(o)), i)
  {
    var d, rest := sys.requests[0], InFlight(sys.requests[1..], i);
    match Parse(d.bytes)
    case None =>
      assert Stream(Apply(sys, ServeNext(o)), i) == Stream(sys, i);
    case Some(r) =>
      ServeStreams(sys, o, d.sender, r, i);
      if d.sender == i {
        assert InFlight(sys.requests, i) == [r] + rest;
        AnswerKeepsTrack(sys.clients[i], r, rest, Stream(sys, i), sys.table, o);
      }
  }

  lemma TakeKeepsTrack(c: Client, requests: seq<Request>, stream: seq<Reply>)
    requires c.pc.AwaitCode? || c.pc.AwaitDescriptor?
    requires c.inbox != [] && stream != [] && stream[0] == c.inbox[0]
    requires OnTrack(c, requests, stream)
    ensures OnTrack(Take(c), requests, stream[1..])
  {
  }

  lemma ReceiveKeepsTrack(sys: System, j: nat, i: nat)
    requires i < |sys.clients| && OnTrackAt(sys, i) && Enabled(sys, Receive(j))
    ensures OnTrackAt(Apply(sys, Receive(j)), i)
  {
    if i == j {
      ReceiveStreams(sys, i, i);
      TakeKeepsTrack(sys.clients[i], InFlight(sys.requests, i), Stream(sys, i));
    }
  }

  /** Every step of anyone keeps every client on track. */
  lemma StepKeepsTrack(sys: System, a: Action, i: nat)
    requires i < |sys.clients| && OnTrackAt(sys, i) && Enabled(sys, a)
    ensures i < |Apply(sys, a).clients| && OnTrackAt(Apply(sys, a), i)
  {
    match a
    case StartOpen(j, sock) =>
      CallKeepsTrack(sys, j, sys.clients[j].(pc := AwaitCode(Open, sock)), Request(Open, sock.key), i);
    case StartClose(j, n) =>
      var c := sys.clients[j];
      var h := c.held[n];
      CallKeepsTrack(sys, j, c.(pc := AwaitCode(Close, h), held := Without(c.held, n)), Request(Close, h.key), i);
    case SendGarbage(sender, bytes) => GarbageKeepsTrack(sys, sender, bytes, i);
    case ServeNext(o) => ServeKeepsTrack(sys, o, i);
    case SendNext => SendKeepsTrack(sys, i);
    case Receive(j) => ReceiveKeepsTrack(sys, j, i);
  }

  /** The clients of the state have these sockets to the daemon. */
  predicate HaveSockets(clients: seq<Client>, sockets: seq<nat>) {
    |clients| == |sockets| && forall i :: 0 <= i < |clients| ==> clients[i].daemonSocket == sockets[i]
  }

  lemma StepKeepsSockets(sys: System, a: Action, sockets: seq<nat>)
    requires HaveSockets(sys.clients, sockets) && Enabled(sys, a)
    ensures HaveSockets(Apply(sys, a).clients, sockets)
  {
  }

  lemma {:induction false} RunKeepsSockets(sys: System, run: seq<Action>, sockets: seq<nat>)
    requires HaveSockets(sys.clients, sockets) && Possible(sys, run)
    ensures HaveSockets(Execute(sys, run).clients, sockets)
    decreases |run|
  {
    if run != [] {
      StepKeepsSockets(sys, run[0], sockets);
      RunKeepsSockets(Apply(sys, run[0]), run[1..], sockets);
    }
  }

  lemma {:induction false} RunKeepsTrack(sys: System, run: seq<Action>, i: nat)
    requires i < |sys.clients| && OnTrackAt(sys, i) && Possible(sys, run)
    ensures i < |Execute(sys, run).clients| && OnTrackAt(Execute(sys, run), i)
    decreases |run|
  {
    if run != [] {
      StepKeepsTrack(sys, run[0], i);
      RunKeepsTrack(Apply(sys, run[0]), run[1..], i);
    }
  }

  /** In every run, every client is on track, whatever the sockets of the others are. */
  lemma ReachableOnTrack(sockets: seq<nat>, run: seq<Action>, i: nat)
    requires Possible(Init(sockets), run) && i < |sockets|
    ensures HaveSockets(Execute(Init(sockets), run).clients, sockets)
    ensures OnTrackAt(Execute(Init(sockets), run), i)
  {
    RunKeepsSockets(Init(sockets), run, sockets);
    RunKeepsTrack(Init(sockets), run, i);
  }

  // ---------- What a call returns ----------

  /** A call returns 0 on Success, or on the descriptor that it waits for, and -1 on anything
      else; what the client holds grows by one when an open returns 0, and only then. */
  lemma CallResult(sys: System, i: nat)
    requires Enabled(sys, Receive(i))
    ensures var c, d := sys.clients[i], Apply(sys, Receive(i)).clients[i];
      var granted := c.pc.AwaitCode? && c.inbox[0] == Code(Success);
      var received := c.pc.AwaitDescriptor? && c.inbox[0].Descriptor?;
      && (d.pc == Idle ==> d.result == if granted || received then 0 else -1)
      && (d.pc == Idle && d.result == 0 && !(c.pc.AwaitCode? && c.pc.op == Close) ==>
            |d.held| == |c.held| + 1 && d.held[..|c.held|] == c.held && d.held[|c.held|].key == c.pc.sock.key)
      && (d.pc != Idle || d.result != 0 || (c.pc.AwaitCode? && c.pc.op == Close) ==> d.held == c.held)
      && (d.pc.AwaitDescriptor? ==> granted && c.pc.op == Open && c.daemonSocket != 0)
      && (d.pc == Crashed <==> c.pc.AwaitDescriptor? && c.inbox[0].Code?)
      && d.inbox == c.inbox[1..]
  {
  }
}
