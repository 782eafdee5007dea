/** Which guarantees of the sharing protocol fail as soon as one client's socket to the
    daemon is descriptor 0, and that they hold otherwise. */
module SharingLimits {
  import opened Wire
  import opened SocketTable
  import opened Sharing
  import opened SharingTheorems

  // ---------- Whole calls ----------

  lemma ReachableStep(sockets: seq<nat>, sys: System, a: Action)
    requires Reachable(sockets, sys) && Enabled(sys, a)
    ensures Reachable(sockets, Apply(sys, a))
  {
    var next, run := Apply(sys, a), [a];
    assert run[1..] == [] && Possible(next, []) && Execute(next, []) == next;
    ReachableRun(sockets, sys, run);
  }

  /** Two states are the same if they have the same parts, seen apart for client `i`. */
  lemma SameState(a: System, b: System, i: nat)
    requires a.table == b.table && a.outbox == b.outbox && a.requests == b.requests
    requires |a.clients| == |b.clients| && i < |a.clients|
    requires forall n :: 0 <= n < |a.clients| && n != i ==> a.clients[n] == b.clients[n]
    requires var c, d := a.clients[i], b.clients[i];
      && c.daemonSocket == d.daemonSocket && c.pc == d.pc && c.held == d.held
      && c.inbox == d.inbox && c.misread == d.misread && c.result == d.result
    ensures a == b
  {
    assert a.clients == b.clients;
  }

  /** The state after all messages to client `i` have been sent. */
  function Delivered(sys: System, i: nat, replies: seq<Reply>): System
    requires i < |sys.clients|
  {
    var c := sys.clients[i];
    sys.(outbox := [], clients := sys.clients[i := c.(inbox := c.inbox + replies)])
  }

  lemma {:induction false} AllAreSent(sockets: seq<nat>, sys: System, i: nat, replies: seq<Reply>)
    requires Reachable(sockets, sys) && i < |sys.clients| && sys.outbox == Packets(i, replies)
    ensures Reachable(sockets, Delivered(sys, i, replies))
    decreases |replies|
  {
    if replies == [] {
      SameState(Delivered(sys, i, replies), sys, i);
    } else {
      var next := Apply(sys, SendNext);
      ReachableStep(sockets, sys, SendNext);
      assert next.outbox == Packets(i, replies[1..]);
      AllAreSent(sockets, next, i, replies[1..]);
      SameState(Delivered(next, i, replies[1..]), Delivered(sys, i, replies), i);
    }
  }

  /** Client `i` has become `c`, its request has been served, and all replies have been sent. */
  function Called(sys: System, i: nat, c: Client, r: Request, o: OpenOutcome): System
    requires i < |sys.clients|
  {
    var served := Serve(sys.table, r, o);
    sys.(table := served.sockets, clients := sys.clients[i := c.(inbox := c.inbox + served.replies)])
  }

  lemma RequestIsServed(sys: System, i: nat, c: Client, r: Request, o: OpenOutcome)
    requires sys.outbox == [] && sys.requests == [] && i < |sys.clients| && Fresh(sys.table, o)
    ensures var sent, served := SendRequest(sys, i, c, r), Serve(sys.table, r, o);
      && Enabled(sent, ServeNext(o))
      && Apply(sent, ServeNext(o)) ==
         System(served.sockets, Packets(i, served.replies), [], sys.clients[i := c])
  {
    ParseMarshalled(r, []);
    assert MarshalRequest(r) + [] == MarshalRequest(r);
    assert SendRequest(sys, i, c, r).requests == [Datagram(i, MarshalRequest(r))];
  }

  lemma CallIsServed(sockets: seq<nat>, sys: System, a: Action, i: nat, c: Client, r: Request, o: OpenOutcome)
    requires Reachable(sockets, sys) && sys.outbox == [] && sys.requests == []
    requires i < |sys.clients| && Enabled(sys, a) && Apply(sys, a) == SendRequest(sys, i, c, r)
    requires Fresh(sys.table, o)
    ensures Reachable(sockets, Called(sys, i, c, r, o))
  {
    var sent := SendRequest(sys, i, c, r);
    ReachableStep(sockets, sys, a);
    RequestIsServed(sys, i, c, r, o);
    ReachableStep(sockets, sent, ServeNext(o));
    var next, replies := Apply(sent, ServeNext(o)), Serve(sys.table, r, o).replies;
    AllAreSent(sockets, next, i, replies);
    SameState(Delivered(next, i, replies), Called(sys, i, c, r, o), i);
  }

  lemma OpenIsServed(sockets: seq<nat>, sys: System, i: nat, sock: ClientSocket, o: OpenOutcome)
    requires Reachable(sockets, sys) && sys.outbox == [] && sys.requests == []
    requires i < |sys.clients| && sys.clients[i].pc == Idle && Fresh(sys.table, o)
    ensures Reachable(sockets, Called(sys, i, sys.clients[i].(pc := AwaitCode(Open, sock)), Request(Open, sock.key), o))
  {
    var c := sys.clients[i].(pc := AwaitCode(Open, sock));
    CallIsServed(sockets, sys, StartOpen(i, sock), i, c, Request(Open, sock.key), o);
  }

  /** Client `i` closes the one socket that it holds. */
  lemma CloseIsServed(sockets: seq<nat>, sys: System, i: nat, h: ClientSocket)
    requires Reachable(sockets, sys) && sys.outbox == [] && sys.requests == []
    requires i < |sys.clients| && sys.clients[i].pc == Idle && sys.clients[i].held == [h]
    ensures var c := sys.clients[i].(pc := AwaitCode(Close, h), held := []);
      Reachable(sockets, Called(sys, i, c, Request(Close, h.key), SocketFails))
  {
    var c := sys.clients[i].(pc := AwaitCode(Close, h), held := []);
    assert Without(sys.clients[i].held, 0) == [];
    CallIsServed(sockets, sys, StartClose(i, 0), i, c, Request(Close, h.key), SocketFails);
  }

  // ---------- A client with descriptor 0, on its own ----------

  const K := Key(1, 0x7E0, 0x7E8)
  const SOCK := ClientSocket(K, -1)

  /** Nobody but clients `i` and `j` has done anything, and nothing is on the way. */
  function Pair(sockets: seq<nat>, t: Table, i: nat, c: Client, j: nat, d: Client): System
    requires i < |sockets| && j < |sockets|
  {
    System(t, [], [], Init(sockets).clients[j := d][i := c])
  }

  /** Nobody but client `i` has. */
  function Alone(sockets: seq<nat>, t: Table, i: nat, c: Client): System
    requires i < |sockets|
  {
    System(t, [], [], Init(sockets).clients[i := c])
  }

  ghost predicate Zero(sockets: seq<nat>, i: nat) {
    i < |sockets| && sockets[i] == 0
  }

  lemma ReachableInit(sockets: seq<nat>)
    ensures Reachable(sockets, Init(sockets))
  {
    assert Possible(Init(sockets), []) && Execute(Init(sockets), []) == Init(sockets);
  }

  /** The client has been sent its descriptor, and will not read it. */
  function Opening(sockets: seq<nat>, i: nat): System
    requires i < |sockets|
  {
    var inbox := [Code(Success), Descriptor(5)];
    Alone(sockets, [Entry(K, 5, 1)], i, Client(sockets[i], AwaitCode(Open, SOCK), [], inbox, false, 0))
  }

  lemma ReachOpening(sockets: seq<nat>, i: nat)
    requires i < |sockets|
    ensures Reachable(sockets, Opening(sockets, i))
  {
    ReachableInit(sockets);
    OpenIsServed(sockets, Init(sockets), i, SOCK, Opens(5));
    var c := Init(sockets).clients[i].(pc := AwaitCode(Open, SOCK));
    SameState(Called(Init(sockets), i, c, Request(Open, K), Opens(5)), Opening(sockets, i), i);
  }

  function Opened(sockets: seq<nat>, i: nat): System
    requires i < |sockets|
  {
    Alone(sockets, [Entry(K, 5, 1)], i, Client(0, Idle, [SOCK], [Descriptor(5)], false, 0))
  }

  lemma ReachOpened(sockets: seq<nat>, i: nat)
    requires Zero(sockets, i)
    ensures Reachable(sockets, Opened(sockets, i))
  {
    ReachOpening(sockets, i);
    ReachableStep(sockets, Opening(sockets, i), Receive(i));
    SameState(Apply(Opening(sockets, i), Receive(i)), Opened(sockets, i), i);
  }

  /** Closing, the client is about to take the descriptor for the response. */
  function Closing(sockets: seq<nat>, i: nat): System
    requires i < |sockets|
  {
    Alone(sockets, [], i, Client(0, AwaitCode(Close, SOCK), [], [Descriptor(5), Code(Success)], false, 0))
  }

  lemma ReachClosing(sockets: seq<nat>, i: nat)
    requires Zero(sockets, i)
    ensures Reachable(sockets, Closing(sockets, i))
  {
    var sys := Opened(sockets, i);
    ReachOpened(sockets, i);
    CloseIsServed(sockets, sys, i, SOCK);
    var c := sys.clients[i].(pc := AwaitCode(Close, SOCK), held := []);
    SameState(Called(sys, i, c, Request(Close, K), SocketFails), Closing(sockets, i), i);
  }

  /** The response to the close is left. */
  function Misread(sockets: seq<nat>, i: nat): System
    requires i < |sockets|
  {
    Alone(sockets, [], i, Client(0, Idle, [], [Code(Success)], true, -1))
  }

  lemma ReachMisread(sockets: seq<nat>, i: nat)
    requires Zero(sockets, i)
    ensures Reachable(sockets, Misread(sockets, i))
  {
    ReachClosing(sockets, i);
    ReachableStep(sockets, Closing(sockets, i), Receive(i));
    SameState(Apply(Closing(sockets, i), Receive(i)), Misread(sockets, i), i);
  }

  /** The client takes itself to hold a socket that could not be opened. */
  function Deluded(i: nat): Client {
    Client(0, Idle, [SOCK], [Code(OpenSocketError)], true, 0)
  }

  lemma ReachDeluded(sockets: seq<nat>, i: nat)
    requires Zero(sockets, i)
    ensures Reachable(sockets, Alone(sockets, [], i, Deluded(i)))
  {
    var sys := Misread(sockets, i);
    ReachMisread(sockets, i);
    OpenIsServed(sockets, sys, i, SOCK, SocketFails);
    var next := Called(sys, i, sys.clients[i].(pc := AwaitCode(Open, SOCK)), Request(Open, K), SocketFails);
    assert next.clients[i].inbox == [Code(Success), Code(OpenSocketError)];
    ReachableStep(sockets, next, Receive(i));
    SameState(Apply(next, Receive(i)), Alone(sockets, [], i, Deluded(i)), i);
  }

  // ---------- What it does to another client ----------

  /** Another client has been granted the same socket, properly. */
  function BothOpen(sockets: seq<nat>, i: nat, j: nat): System
    requires i < |sockets| && j < |sockets|
  {
    var d := Client(sockets[j], AwaitCode(Open, SOCK), [], [Code(Success), Descriptor(5)], false, 0);
    Pair(sockets, [Entry(K, 5, 1)], i, Deluded(i), j, d)
  }

  lemma ReachBothOpen(sockets: seq<nat>, i: nat, j: nat)
    requires Zero(sockets, i) && j < |sockets| && j != i
    ensures Reachable(sockets, BothOpen(sockets, i, j))
  {
    var sys := Alone(sockets, [], i, Deluded(i));
    ReachDeluded(sockets, i);
    OpenIsServed(sockets, sys, j, SOCK, Opens(5));
    var d := sys.clients[j].(pc := AwaitCode(Open, SOCK));
    SameState(Called(sys, j, d, Request(Open, K), Opens(5)), BothOpen(sockets, i, j), j);
  }

  /** Closing what it does not hold, the client has had the socket torn down. */
  function TornDown(sockets: seq<nat>, i: nat, j: nat, d: Client): System
    requires i < |sockets| && j < |sockets|
  {
    var inbox := [Code(OpenSocketError), Code(Success)];
    Pair(sockets, [], i, Client(0, AwaitCode(Close, SOCK), [], inbox, true, 0), j, d)
  }

  lemma ReachTornDown(sockets: seq<nat>, i: nat, j: nat)
    requires Zero(sockets, i) && j < |sockets| && j != i
    ensures var d := Client(sockets[j], AwaitCode(Open, SOCK), [], [Code(Success), Descriptor(5)], false, 0);
      Reachable(sockets, TornDown(sockets, i, j, d))
  {
    var sys := BothOpen(sockets, i, j);
    ReachBothOpen(sockets, i, j);
    CloseIsServed(sockets, sys, i, SOCK);
    var c := sys.clients[i].(pc := AwaitCode(Close, SOCK), held := []);
    SameState(Called(sys, i, c, Request(Close, K), SocketFails), TornDown(sockets, i, j, sys.clients[j]), i);
  }

  /** The other client has read its replies, and holds a socket that is not listed. */
  lemma ReachHeld(sockets: seq<nat>, i: nat, j: nat)
    requires Zero(sockets, i) && j < |sockets| && sockets[j] != 0
    ensures Reachable(sockets, TornDown(sockets, i, j, Client(sockets[j], Idle, [ClientSocket(K, 5)], [], false, 0)))
  {
    var d0 := Client(sockets[j], AwaitCode(Open, SOCK), [], [Code(Success), Descriptor(5)], false, 0);
    var d1 := d0.(pc := AwaitDescriptor(SOCK), inbox := [Descriptor(5)]);
    var d2 := Client(sockets[j], Idle, [ClientSocket(K, 5)], [], false, 0);
    ReachTornDown(sockets, i, j);
    ReachableStep(sockets, TornDown(sockets, i, j, d0), Receive(j));
    SameState(Apply(TornDown(sockets, i, j, d0), Receive(j)), TornDown(sockets, i, j, d1), j);
    ReachableStep(sockets, TornDown(sockets, i, j, d1), Receive(j));
    SameState(Apply(TornDown(sockets, i, j, d1), Receive(j)), TornDown(sockets, i, j, d2), j);
  }

  /** When it closes that socket, it is told that there is none. */
  lemma ReachRefused(sockets: seq<nat>, i: nat, j: nat)
    requires Zero(sockets, i) && j < |sockets| && sockets[j] != 0
    ensures var d := Client(sockets[j], AwaitCode(Close, ClientSocket(K, 5)), [], [Code(NoSuchSocket)], false, 0);
      Reachable(sockets, TornDown(sockets, i, j, d))
  {
    var h := ClientSocket(K, 5);
    var d := Client(sockets[j], Idle, [h], [], false, 0);
    var sys := TornDown(sockets, i, j, d);
    ReachHeld(sockets, i, j);
    CloseIsServed(sockets, sys, j, h);
    var e := Client(sockets[j], AwaitCode(Close, h), [], [Code(NoSuchSocket)], false, 0);
    var refused := Called(sys, j, d.(pc := AwaitCode(Close, h), held := []), Request(Close, K), SocketFails);
    SameState(refused, TornDown(sockets, i, j, e), j);
  }

  // ---------- What it leaves open ----------

  /** The client has opened a socket twice and believes in the first time only. */
  lemma ReachOverOpened(sockets: seq<nat>, i: nat)
    requires Zero(sockets, i)
    ensures var c := Client(0, Idle, [SOCK], [Code(Success), Descriptor(5)], true, -1);
      Reachable(sockets, Alone(sockets, [Entry(K, 5, 2)], i, c))
  {
    var sys := Opened(sockets, i);
    ReachOpened(sockets, i);
    OpenIsServed(sockets, sys, i, SOCK, SocketFails);
    var next := Called(sys, i, sys.clients[i].(pc := AwaitCode(Open, SOCK)), Request(Open, K), SocketFails);
    assert next.clients[i].inbox == [Descriptor(5), Code(Success), Descriptor(5)];
    ReachableStep(sockets, next, Receive(i));
    var c := Client(0, Idle, [SOCK], [Code(Success), Descriptor(5)], true, -1);
    SameState(Apply(next, Receive(i)), Alone(sockets, [Entry(K, 5, 2)], i, c), i);
  }

  /** It has given back all that it holds, and the daemon has seen that. */
  lemma ReachLeak(sockets: seq<nat>, i: nat)
    requires Zero(sockets, i)
    ensures var c := Client(0, Idle, [], [Descriptor(5), Code(Success)], true, 0);
      Reachable(sockets, Alone(sockets, [Entry(K, 5, 1)], i, c))
  {
    var b := Client(0, Idle, [SOCK], [Code(Success), Descriptor(5)], true, -1);
    var sys := Alone(sockets, [Entry(K, 5, 2)], i, b);
    ReachOverOpened(sockets, i);
    CloseIsServed(sockets, sys, i, SOCK);
    var next := Called(sys, i, b.(pc := AwaitCode(Close, SOCK), held := []), Request(Close, K), SocketFails);
    assert next.clients[i].inbox == [Code(Success), Descriptor(5), Code(Success)];
    ReachableStep(sockets, next, Receive(i));
    var c := Client(0, Idle, [], [Descriptor(5), Code(Success)], true, 0);
    SameState(Apply(next, Receive(i)), Alone(sockets, [Entry(K, 5, 1)], i, c), i);
  }

  // ---------- The runs ----------

  /** A client whose socket is descriptor 0 opens a socket and closes it. The descriptor stays
      in its queue and is taken for the response to the second call. */
  lemma ZeroSocketMisreads(sockets: seq<nat>, i: nat) returns (run: seq<Action>)
    requires Zero(sockets, i)
    ensures Possible(Init(sockets), run)
    ensures var sys := Execute(Init(sockets), run); i < |sys.clients| && sys.clients[i].misread
  {
    ReachMisread(sockets, i);
    run :| Possible(Init(sockets), run) && Execute(Init(sockets), run) == Misread(sockets, i);
  }

  /** Beside it, any other client can come to hold a socket that the daemon has closed. The
      first takes an old response for that to an open that fails, and closes what it does
      not hold. */
  lemma HeldSocketIsTornDown(sockets: seq<nat>, i: nat, j: nat) returns (run: seq<Action>)
    requires Zero(sockets, i) && j < |sockets| && sockets[j] != 0
    ensures Possible(Init(sockets), run)
    ensures var sys := Execute(Init(sockets), run);
      sys.table == [] && j < |sys.clients| && sys.clients[j].held != [] && !sys.clients[j].misread
  {
    var d := Client(sockets[j], Idle, [ClientSocket(K, 5)], [], false, 0);
    ReachHeld(sockets, i, j);
    run :| Possible(Init(sockets), run) && Execute(Init(sockets), run) == TornDown(sockets, i, j, d);
  }

  // ---------- Exactly when the guarantees hold ----------

  /** A client stays in step with the daemon in every run, whatever the others are, exactly
      if its own socket to the daemon is not descriptor 0. */
  lemma InStepIff(sockets: seq<nat>, i: nat)
    requires i < |sockets|
    ensures sockets[i] != 0 <==>
            forall sys :: Reachable(sockets, sys) && i < |sys.clients| ==> !sys.clients[i].misread
  {
    if sockets[i] != 0 {
      forall sys | Reachable(sockets, sys) && i < |sys.clients|
        ensures !sys.clients[i].misread
      {
        ReachableKeepsTrack(sockets, sys, i);
      }
    } else {
      ReachMisread(sockets, i);
      assert Misread(sockets, i).clients[i].misread;
    }
  }

  /** No message has been taken for one of another kind. */
  predicate NothingMisread(sys: System) {
    forall i :: 0 <= i < |sys.clients| ==> !sys.clients[i].misread
  }

  /** Clients and daemon stay in step in every run exactly if no client's socket to the
      daemon is descriptor 0. */
  lemma InStepIffNonZero(sockets: seq<nat>)
    ensures NonZero(sockets) <==> forall sys :: Reachable(sockets, sys) ==> NothingMisread(sys)
  {
    if NonZero(sockets) {
      forall sys | Reachable(sockets, sys)
        ensures NothingMisread(sys)
      {
        forall i | 0 <= i < |sys.clients|
          ensures !sys.clients[i].misread
        {
          ReachableKeepsTrack(sockets, sys, i);
        }
      }
    } else {
      var i :| 0 <= i < |sockets| && sockets[i] == 0;
      InStepIff(sockets, i);
    }
  }

  /** Everything that client `j` holds is listed under the descriptor it received. */
  predicate HeldAreListed(sys: System, j: nat) {
    j < |sys.clients| && forall h :: h in sys.clients[j].held ==> Listed(sys.table, h.key, h.s)
  }

  /** The daemon keeps open what a client holds, in every run, exactly if no client, be it
      that one or another, has descriptor 0. */
  lemma HeldStayListedIff(sockets: seq<nat>, j: nat)
    requires j < |sockets|
    ensures NonZero(sockets) <==> forall sys :: Reachable(sockets, sys) ==> HeldAreListed(sys, j)
  {
    if NonZero(sockets) {
      forall sys | Reachable(sockets, sys)
        ensures HeldAreListed(sys, j)
      {
        ReachableKeepsTrack(sockets, sys, j);
        ReachableKeepsInv(sockets, sys);
        assert ClientAt(sys, j);
      }
    } else if sockets[j] == 0 {
      ReachOpened(sockets, j);
      assert SOCK in Opened(sockets, j).clients[j].held && !HeldAreListed(Opened(sockets, j), j);
    } else {
      var i :| 0 <= i < |sockets| && sockets[i] == 0;
      var d := Client(sockets[j], Idle, [ClientSocket(K, 5)], [], false, 0);
      ReachHeld(sockets, i, j);
      var sys := TornDown(sockets, i, j, d);
      assert ClientSocket(K, 5) in sys.clients[j].held && !HeldAreListed(sys, j);
    }
  }

  /** A client's close is granted, in every run, exactly if no client has descriptor 0. */
  lemma CloseIsGrantedIff(sockets: seq<nat>, j: nat)
    requires j < |sockets|
    ensures NonZero(sockets) <==> forall sys :: Reachable(sockets, sys) ==> CloseIsGranted(sys, j)
  {
    if NonZero(sockets) {
      forall sys | Reachable(sockets, sys)
        ensures CloseIsGranted(sys, j)
      {
        CloseSucceeds(sockets, sys, j);
      }
    } else if sockets[j] == 0 {
      ReachClosing(sockets, j);
      assert !CloseIsGranted(Closing(sockets, j), j);
    } else {
      var i :| 0 <= i < |sockets| && sockets[i] == 0;
      var d := Client(sockets[j], AwaitCode(Close, ClientSocket(K, 5)), [], [Code(NoSuchSocket)], false, 0);
      ReachRefused(sockets, i, j);
      assert !CloseIsGranted(TornDown(sockets, i, j, d), j);
    }
  }

  /** A client that opens a socket sees what it should, in every run, exactly if its own
      socket is not descriptor 0. */
  lemma OpenIsAnsweredIff(sockets: seq<nat>, j: nat)
    requires j < |sockets|
    ensures sockets[j] != 0 <==> forall sys :: Reachable(sockets, sys) ==> OpenIsAnswered(sys, j)
  {
    if sockets[j] != 0 {
      forall sys | Reachable(sockets, sys)
        ensures OpenIsAnswered(sys, j)
      {
        OpenSeesItsReplies(sockets, sys, j);
      }
    } else {
      ReachOpening(sockets, j);
      assert !OpenIsAnswered(Opening(sockets, j), j);
    }
  }

  /** And it is granted a listed descriptor exactly if no client's is. */
  lemma GrantIsListedIff(sockets: seq<nat>, j: nat)
    requires j < |sockets| && sockets[j] != 0
    ensures NonZero(sockets) <==> forall sys :: Reachable(sockets, sys) ==> GrantIsListed(sys, j)
  {
    if NonZero(sockets) {
      forall sys | Reachable(sockets, sys)
        ensures GrantIsListed(sys, j)
      {
        ReachableKeepsTrack(sockets, sys, j);
        OpenSeesItsReplies(sockets, sys, j);
      }
    } else {
      var i :| 0 <= i < |sockets| && sockets[i] == 0;
      var d := Client(sockets[j], AwaitCode(Open, SOCK), [], [Code(Success), Descriptor(5)], false, 0);
      ReachTornDown(sockets, i, j);
      var sys := TornDown(sockets, i, j, d);
      assert Stream(sys, j) == d.inbox;
      assert !GrantIsListed(sys, j);
    }
  }

  ghost predicate AllCounted(sys: System) {
    forall k :: Counted(sys, k)
  }

  /** The daemon counts the references to every key correctly, in every run, exactly if no
      client has descriptor 0. */
  lemma ReferencesAreCountedIff(sockets: seq<nat>)
    ensures NonZero(sockets) <==> forall sys :: Reachable(sockets, sys) ==> AllCounted(sys)
  {
    if NonZero(sockets) {
      forall sys | Reachable(sockets, sys)
        ensures AllCounted(sys)
      {
        ReachableKeepsInv(sockets, sys);
      }
    } else {
      var i :| 0 <= i < |sockets| && sockets[i] == 0;
      var sys := Alone(sockets, [], i, Deluded(i));
      ReachDeluded(sockets, i);
      assert HeldCount([SOCK], K) == 1 && Shares(sys, K)[i] >= 1;
      SumBounds(Shares(sys, K), i);
      assert !Counted(sys, K);
    }
  }

  /** All clients are idle and hold nothing. */
  predicate AllReturned(sys: System) {
    forall i :: 0 <= i < |sys.clients| ==> sys.clients[i].pc == Idle && sys.clients[i].held == []
  }

  /** The daemon is left with nothing open, in every run after which everything has been
      given back, exactly if no client has descriptor 0. */
  lemma NothingLeftOpenIff(sockets: seq<nat>)
    ensures NonZero(sockets) <==>
            forall sys :: Reachable(sockets, sys) && AllReturned(sys) && sys.requests == [] ==> sys.table == []
  {
    if NonZero(sockets) {
      forall sys | Reachable(sockets, sys) && AllReturned(sys)
        ensures sys.table == []
      {
        NothingLeftOpen(sockets, sys);
      }
    } else {
      var i :| 0 <= i < |sockets| && sockets[i] == 0;
      ReachLeak(sockets, i);
      var c := Client(0, Idle, [], [Descriptor(5), Code(Success)], true, 0);
      var sys := Alone(sockets, [Entry(K, 5, 1)], i, c);
      assert AllReturned(sys);
    }
  }
}
