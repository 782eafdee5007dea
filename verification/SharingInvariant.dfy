/** Every step of the sharing protocol keeps its invariant. */
module SharingInvariant {
  import opened Wire
  import opened SocketTable
  import opened Sharing

  /** `after` differs from `before` for client `i` at most, as far as clients can tell. */
  ghost predicate OnlyClient(before: System, after: System, i: nat) {
    && |after.clients| == |before.clients|
    && i < |before.clients|
    && forall j :: 0 <= j < |before.clients| && j != i ==>
         after.clients[j] == before.clients[j] && Stream(after, j) == Stream(before, j)
  }

  lemma SumOfOneClient(before: System, after: System, i: nat, k: Key)
    requires OnlyClient(before, after, i)
    ensures Sum(Shares(after, k)) == Sum(Shares(before, k))
                                     - Share(before.clients[i], Stream(before, i), k)
                                     + Share(after.clients[i], Stream(after, i), k)
  {
    var x := Share(after.clients[i], Stream(after, i), k);
    assert Shares(after, k) == Shares(before, k)[i := x];
    SumUpdate(Shares(before, k), i, x);
  }

  // ---------- Clients call the daemon ----------

  /** What a client may have become when it sends request `r`. */
  ghost predicate BecomesCaller(before: Client, after: Client, r: Request, t: Table) {
    && before.pc == Idle
    && after.pc.AwaitCode? && after.pc.op == r.op && after.pc.sock.key == r.key
    && after.daemonSocket == before.daemonSocket && after.misread == before.misread && after.inbox == before.inbox
    && (forall k :: HeldCount(after.held, k) == HeldCount(before.held, k) - if r == Request(Close, k) then 1 else 0)
    && (forall j :: 0 <= j < |after.held| ==> Listed(t, after.held[j].key, after.held[j].s))
  }

  lemma CallKeepsClient(sys: System, i: nat, c: Client, r: Request, j: nat)
    requires i < |sys.clients| && BecomesCaller(sys.clients[i], c, r, sys.table)
    requires j < |sys.clients| && ClientAt(sys, j)
    ensures ClientAt(SendRequest(sys, i, c, r), j)
  {
    InFlightOfCall(sys.requests, i, r, j, r.key);
  }

  lemma CallKeepsCount(sys: System, i: nat, c: Client, r: Request, k: Key)
    requires i < |sys.clients| && BecomesCaller(sys.clients[i], c, r, sys.table)
    requires ClientAt(sys, i) && Counted(sys, k)
    ensures Counted(SendRequest(sys, i, c, r), k)
  {
    InFlightOfCall(sys.requests, i, r, i, k);
    SumOfOneClient(sys, SendRequest(sys, i, c, r), i, k);
  }

  lemma CallKeepsAddresses(sys: System, i: nat, c: Client, r: Request)
    requires i < |sys.clients| && Addressed(sys)
    ensures Addressed(SendRequest(sys, i, c, r))
  {
  }

  lemma CallKeepsInv(sys: System, i: nat, c: Client, r: Request)
    requires Inv(sys) && i < |sys.clients| && BecomesCaller(sys.clients[i], c, r, sys.table)
    ensures Inv(SendRequest(sys, i, c, r))
  {
    var after := SendRequest(sys, i, c, r);
    forall j | 0 <= j < |after.clients|
      ensures ClientAt(after, j)
    {
      CallKeepsClient(sys, i, c, r, j);
    }
    forall k
      ensures Counted(after, k)
    {
      CallKeepsCount(sys, i, c, r, k);
    }
    CallKeepsAddresses(sys, i, c, r);
  }

  lemma OpenKeepsInv(sys: System, i: nat, sock: ClientSocket)
    requires Inv(sys) && Enabled(sys, StartOpen(i, sock))
    ensures Inv(Apply(sys, StartOpen(i, sock)))
  {
    var c := sys.clients[i];
    assert ClientAt(sys, i);
    CallKeepsInv(sys, i, c.(pc := AwaitCode(Open, sock)), Request(Open, sock.key));
  }

  lemma CloseKeepsInv(sys: System, i: nat, j: nat)
    requires Inv(sys) && Enabled(sys, StartClose(i, j))
    ensures Inv(Apply(sys, StartClose(i, j)))
  {
    var c := sys.clients[i];
    var h, rest := c.held[j], Without(c.held, j);
    assert ClientAt(sys, i);
    forall k
      ensures HeldCount(rest, k) == HeldCount(c.held, k) - if h.key == k then 1 else 0
    {
      HeldRemove(c.held, j, k);
    }
    forall n | 0 <= n < |rest|
      ensures Listed(sys.table, rest[n].key, rest[n].s)
    {
      assert rest[n] == c.held[if n < j then n else n + 1];
    }
    CallKeepsInv(sys, i, c.(pc := AwaitCode(Close, h), held := rest), Request(Close, h.key));
  }

  /** Nothing that clients can tell has changed, and no request either. */
  ghost predicate Unnoticed(before: System, after: System) {
    && after.table == before.table
    && |after.clients| == |before.clients|
    && (forall i :: 0 <= i < |before.clients| ==>
          && after.clients[i].(inbox := []) == before.clients[i].(inbox := [])
          && Stream(after, i) == Stream(before, i)
          && InFlight(after.requests, i) == InFlight(before.requests, i))
    && (forall k :: PendingCloses(after.requests, k) == PendingCloses(before.requests, k))
  }

  lemma UnnoticedKeepsInv(before: System, after: System)
    requires Inv(before) && Unnoticed(before, after) && Addressed(after)
    ensures Inv(after)
  {
    forall i | 0 <= i < |after.clients|
      ensures ClientAt(after, i)
    {
      assert ClientAt(before, i);
      assert after.clients[i].(inbox := []) == before.clients[i].(inbox := []);
    }
    forall k
      ensures Counted(after, k)
    {
      assert Counted(before, k);
      forall i | 0 <= i < |after.clients|
        ensures Shares(after, k)[i] == Shares(before, k)[i]
      {
        assert after.clients[i].(inbox := []) == before.clients[i].(inbox := []);
      }
      assert Shares(after, k) == Shares(before, k);
    }
  }

  lemma GarbageKeepsInv(sys: System, sender: nat, bytes: seq<bv8>)
    requires Inv(sys) && Parse(bytes) == None
    ensures Inv(Apply(sys, SendGarbage(sender, bytes)))
  {
    var after, d := Apply(sys, SendGarbage(sender, bytes)), Datagram(sender, bytes);
    assert [d][1..] == [];
    forall i: nat
      ensures InFlight(after.requests, i) == InFlight(sys.requests, i)
    {
      AppendInFlight(sys.requests, d, i);
    }
    forall k
      ensures PendingCloses(after.requests, k) == PendingCloses(sys.requests, k)
    {
      AppendPendingCloses(sys.requests, d, k);
    }
    UnnoticedKeepsInv(sys, after);
  }

  // ---------- Messages travel ----------

  /** A message that leaves the daemon is still one that its addressee has yet to read. */
  lemma SendKeepsInv(sys: System)
    requires Inv(sys) && Enabled(sys, SendNext)
    ensures Inv(Apply(sys, SendNext))
  {
    var after := Apply(sys, SendNext);
    forall i | 0 <= i < |sys.clients|
      ensures Stream(after, i) == Stream(sys, i)
    {
      SendKeepsStream(sys, i);
    }
    UnnoticedKeepsInv(sys, after);
  }

  /** Reading a message advances the client, keeps it in step and keeps its share. */
  lemma TakeKeepsClient(c: Client, requests: seq<Request>, stream: seq<Reply>, t: Table, k: Key)
    requires c.pc.AwaitCode? || c.pc.AwaitDescriptor?
    requires c.inbox != [] && stream != [] && stream[0] == c.inbox[0]
    requires ClientInv(c, requests, stream, t)
    ensures ClientInv(Take(c), requests, stream[1..], t)
    ensures Share(Take(c), stream[1..], k) == Share(c, stream, k)
  {
    if c.pc.AwaitDescriptor? {
      var h := c.pc.sock.(s := stream[0].s);
      assert Take(c).held == c.held + [h];
      HeldAppend(c.held, h, k);
    }
  }

  lemma ReceiveKeepsClient(sys: System, i: nat, j: nat)
    requires Enabled(sys, Receive(i)) && ClientAt(sys, i)
    requires j < |sys.clients| && ClientAt(sys, j)
    ensures ClientAt(Apply(sys, Receive(i)), j)
  {
    if i == j {
      ReceiveStreams(sys, i, i);
      TakeKeepsClient(sys.clients[i], InFlight(sys.requests, i), Stream(sys, i), sys.table, Key(0, 0, 0));
    }
  }

  lemma ReceiveTouchesOne(sys: System, i: nat)
    requires Enabled(sys, Receive(i))
    ensures OnlyClient(sys, Apply(sys, Receive(i)), i)
  {
  }

  lemma ReceiveKeepsCount(sys: System, i: nat, k: Key)
    requires Enabled(sys, Receive(i)) && ClientAt(sys, i) && Counted(sys, k)
    ensures Counted(Apply(sys, Receive(i)), k)
  {
    var after := Apply(sys, Receive(i));
    ReceiveStreams(sys, i, i);
    TakeKeepsClient(sys.clients[i], InFlight(sys.requests, i), Stream(sys, i), sys.table, k);
    ReceiveTouchesOne(sys, i);
    SumOfOneClient(sys, after, i, k);
  }

  lemma ReceiveKeepsInv(sys: System, i: nat)
    requires Inv(sys) && Enabled(sys, Receive(i))
    ensures Inv(Apply(sys, Receive(i)))
  {
    var after := Apply(sys, Receive(i));
    forall j | 0 <= j < |after.clients|
      ensures ClientAt(after, j)
    {
      ReceiveKeepsClient(sys, i, j);
    }
    forall k
      ensures Counted(after, k)
    {
      ReceiveKeepsCount(sys, i, k);
    }
  }

  // ---------- The daemon serves a request ----------

  /** The daemon is about to serve request `r` of client `i`. */
  ghost predicate Serving(sys: System, o: OpenOutcome, i: nat, r: Request) {
    && Inv(sys)
    && Enabled(sys, ServeNext(o))
    && i == sys.requests[0].sender
    && Parse(sys.requests[0].bytes) == Some(r)
  }

  /** The client whose request is served waits for it, and for nothing else. */
  lemma ServedClient(sys: System, o: OpenOutcome, i: nat, r: Request)
    requires Serving(sys, o, i, r)
    ensures i < |sys.clients| && Stream(sys, i) == []
    ensures InFlight(sys.requests[1..], i) == []
    ensures var pc := sys.clients[i].pc; pc.AwaitCode? && pc.op == r.op && pc.sock.key == r.key
  {
    assert ClientAt(sys, i);
    var rest := InFlight(sys.requests[1..], i);
    assert InFlight(sys.requests, i) == [r] + rest;
    assert sys.clients[i].pc.AwaitCode? && [r] + rest == [Request(sys.clients[i].pc.op, sys.clients[i].pc.sock.key)];
    assert |[r] + rest| == 1 && ([r] + rest)[0] == r;
  }

  lemma ShareIsCounted(sys: System, i: nat, k: Key)
    requires i < |sys.clients| && Counted(sys, k)
    ensures Share(sys.clients[i], Stream(sys, i), k) + PendingCloses(sys.requests, k) <= References(sys.table, k)
  {
    SumBounds(Shares(sys, k), i);
  }

  /** A close always finds its socket. */
  lemma CloseFinds(sys: System, o: OpenOutcome, i: nat, r: Request)
    requires Serving(sys, o, i, r) && r.op == Close
    ensures Lookup(sys.table, r.key).Some?
  {
    ServedClient(sys, o, i, r);
    assert Counted(sys, r.key);
    ShareIsCounted(sys, i, r.key);
  }

  /** A socket that somebody holds, or has been granted, is not torn down. */
  lemma SharedSurvives(sys: System, o: OpenOutcome, i: nat, r: Request, j: nat, k: Key, s: int)
    requires Serving(sys, o, i, r)
    requires j < |sys.clients| && Share(sys.clients[j], Stream(sys, j), k) > 0
    requires Listed(sys.table, k, s)
    ensures Listed(Serve(sys.table, r, o).sockets, k, s)
  {
    ServeLookup(sys.table, r, o, k);
    if r == Request(Close, k) {
      assert Counted(sys, k);
      ShareIsCounted(sys, j, k);
    }
  }

  lemma HeldSurvive(sys: System, o: OpenOutcome, i: nat, r: Request, j: nat)
    requires Serving(sys, o, i, r) && j < |sys.clients|
    ensures var held := sys.clients[j].held;
      forall n :: 0 <= n < |held| ==> Listed(Serve(sys.table, r, o).sockets, held[n].key, held[n].s)
  {
    var held := sys.clients[j].held;
    forall n | 0 <= n < |held|
      ensures Listed(Serve(sys.table, r, o).sockets, held[n].key, held[n].s)
    {
      assert ClientAt(sys, j);
      HeldCounts(held, n);
      SharedSurvives(sys, o, i, r, j, held[n].key, held[n].s);
    }
  }

  lemma ServeKeepsOther(sys: System, o: OpenOutcome, i: nat, r: Request, j: nat)
    requires Serving(sys, o, i, r) && j < |sys.clients| && j != i
    ensures ClientAt(Apply(sys, ServeNext(o)), j)
  {
    ServeStreams(sys, o, i, r, j);
    HeldSurvive(sys, o, i, r, j);
    assert ClientAt(sys, j);
    var pc, stream := sys.clients[j].pc, Stream(sys, j);
    if stream != [] && stream[|stream| - 1].Descriptor? {
      SharedSurvives(sys, o, i, r, j, pc.sock.key, stream[|stream| - 1].s);
    }
  }

  lemma ServeKeepsServed(sys: System, o: OpenOutcome, i: nat, r: Request)
    requires Serving(sys, o, i, r) && i < |sys.clients|
    ensures ClientAt(Apply(sys, ServeNext(o)), i)
  {
    ServedClient(sys, o, i, r);
    ServeStreams(sys, o, i, r, i);
    HeldSurvive(sys, o, i, r, i);
    ServeLookup(sys.table, r, o, r.key);
    assert ClientAt(sys, i);
    if r.op == Close {
      CloseFinds(sys, o, i, r);
    }
  }

  lemma ServeKeepsCount(sys: System, o: OpenOutcome, i: nat, r: Request, k: Key)
    requires Serving(sys, o, i, r)
    ensures Counted(Apply(sys, ServeNext(o)), k)
  {
    var after := Apply(sys, ServeNext(o));
    ServedClient(sys, o, i, r);
    forall j | 0 <= j < |sys.clients|
      ensures j != i ==> Stream(after, j) == Stream(sys, j)
    {
      ServeStreams(sys, o, i, r, j);
    }
    ServeStreams(sys, o, i, r, i);
    SumOfOneClient(sys, after, i, k);
    ServeReferences(sys.table, r, o, k);
    assert Counted(sys, k);
    if r.op == Close {
      CloseFinds(sys, o, i, r);
    }
  }

  lemma ServeKeepsAddresses(sys: System, o: OpenOutcome)
    requires Addressed(sys) && Enabled(sys, ServeNext(o))
    ensures Addressed(Apply(sys, ServeNext(o)))
  {
  }

  lemma ServeRequestKeepsInv(sys: System, o: OpenOutcome, i: nat, r: Request)
    requires Serving(sys, o, i, r)
    ensures Inv(Apply(sys, ServeNext(o)))
  {
    var after := Apply(sys, ServeNext(o));
    ServeWellFormed(sys.table, r, o);
    forall j | 0 <= j < |after.clients|
      ensures ClientAt(after, j)
    {
      if j == i {
        ServeKeepsServed(sys, o, i, r);
      } else {
        ServeKeepsOther(sys, o, i, r, j);
      }
    }
    forall k
      ensures Counted(after, k)
    {
      ServeKeepsCount(sys, o, i, r, k);
    }
    ServeKeepsAddresses(sys, o);
  }

  lemma ServeKeepsInv(sys: System, o: OpenOutcome)
    requires Inv(sys) && Enabled(sys, ServeNext(o))
    ensures Inv(Apply(sys, ServeNext(o)))
  {
    match Parse(sys.requests[0].bytes)
    case None =>
      ServeKeepsAddresses(sys, o);
      UnnoticedKeepsInv(sys, Apply(sys, ServeNext(o)));
    case Some(r) =>
      ServeRequestKeepsInv(sys, o, sys.requests[0].sender, r);
  }

  // ---------- All steps, all runs ----------

  lemma StepKeepsInv(sys: System, a: Action)
    requires Inv(sys) && Enabled(sys, a)
    ensures Inv(Apply(sys, a))
  {
    match a
    case StartOpen(i, sock) => OpenKeepsInv(sys, i, sock);
    case StartClose(i, j) => CloseKeepsInv(sys, i, j);
    case SendGarbage(sender, bytes) => GarbageKeepsInv(sys, sender, bytes);
    case ServeNext(o) => ServeKeepsInv(sys, o);
    case SendNext => SendKeepsInv(sys);
    case Receive(i) => ReceiveKeepsInv(sys, i);
  }

  lemma {:induction false} RunKeepsInv(sys: System, run: seq<Action>)
    requires Inv(sys) && Possible(sys, run)
    ensures Inv(Execute(sys, run))
    decreases |run|
  {
    if run != [] {
      StepKeepsInv(sys, run[0]);
      RunKeepsInv(Apply(sys, run[0]), run[1..]);
    }
  }

  lemma {:induction false} SumOfZeros(xs: seq<nat>)
    requires forall i :: 0 <= i < |xs| ==> xs[i] == 0
    ensures Sum(xs) == 0
  {
    if xs != [] {
      SumOfZeros(xs[1..]);
    }
  }

  lemma InitInv(sockets: seq<nat>)
    requires forall i :: 0 <= i < |sockets| ==> sockets[i] != 0
    ensures Inv(Init(sockets))
  {
    var sys := Init(sockets);
    forall k
      ensures Counted(sys, k)
    {
      SumOfZeros(Shares(sys, k));
    }
  }

  /** In every state that any run of any number of clients reaches, the invariant holds. */
  lemma ReachableInv(sockets: seq<nat>, run: seq<Action>)
    requires forall i :: 0 <= i < |sockets| ==> sockets[i] != 0
    requires Possible(Init(sockets), run)
    ensures Inv(Execute(Init(sockets), run))
  {
    InitInv(sockets);
    RunKeepsInv(Init(sockets), run);
  }
}
