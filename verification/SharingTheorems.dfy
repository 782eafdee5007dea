/** What the sharing protocol guarantees to its clients, in every run. */
module SharingTheorems {
  import opened Wire
  import opened SocketTable
  import opened Sharing
  import opened SharingInvariant
  import opened SharingClients

  /** `sys` is a state that clients with these sockets to the daemon can get to. */
  ghost predicate Reachable(sockets: seq<nat>, sys: System) {
    exists run :: Possible(Init(sockets), run) && Execute(Init(sockets), run) == sys
  }

  /** No client's socket to the daemon is descriptor 0. */
  predicate NonZero(sockets: seq<nat>) {
    forall i :: 0 <= i < |sockets| ==> sockets[i] != 0
  }

  lemma ReachableKeepsInv(sockets: seq<nat>, sys: System)
    requires NonZero(sockets) && Reachable(sockets, sys)
    ensures Inv(sys)
  {
    var run :| Possible(Init(sockets), run) && Execute(Init(sockets), run) == sys;
    ReachableInv(sockets, run);
  }

  lemma ReachableKeepsTrack(sockets: seq<nat>, sys: System, i: nat)
    requires Reachable(sockets, sys) && (i < |sockets| || i < |sys.clients|)
    ensures |sys.clients| == |sockets| && sys.clients[i].daemonSocket == sockets[i] && OnTrackAt(sys, i)
  {
    var run :| Possible(Init(sockets), run) && Execute(Init(sockets), run) == sys;
    RunKeepsSockets(Init(sockets), run, sockets);
    ReachableOnTrack(sockets, run, i);
  }

  lemma Before(sys: System, a: Action, run: seq<Action>) returns (longer: seq<Action>)
    requires Enabled(sys, a) && Possible(Apply(sys, a), run)
    ensures Possible(sys, longer) && Execute(sys, longer) == Execute(Apply(sys, a), run)
    ensures longer == [a] + run
  {
    longer := [a] + run;
    assert longer[1..] == run;
  }

  lemma {:induction false} RunsConcatenate(sys: System, run: seq<Action>, more: seq<Action>)
    requires Possible(sys, run) && Possible(Execute(sys, run), more)
    ensures Possible(sys, run + more) && Execute(sys, run + more) == Execute(Execute(sys, run), more)
    decreases |run|
  {
    if run == [] {
      assert run + more == more;
    } else {
      RunsConcatenate(Apply(sys, run[0]), run[1..], more);
      var longer := Before(sys, run[0], run[1..] + more);
      assert longer == run + more;
    }
  }

  lemma ReachableRun(sockets: seq<nat>, sys: System, more: seq<Action>)
    requires Reachable(sockets, sys) && Possible(sys, more)
    ensures Reachable(sockets, Execute(sys, more))
  {
    var run :| Possible(Init(sockets), run) && Execute(Init(sockets), run) == sys;
    RunsConcatenate(Init(sockets), run, more);
  }

  // ---------- Safety ----------

  /** The daemon's count of each key is the number of references that are held, granted
      and not yet read, or given back and not yet seen. */
  lemma ReferencesAreCounted(sockets: seq<nat>, sys: System, k: Key)
    requires NonZero(sockets) && Reachable(sockets, sys)
    ensures References(sys.table, k) == Sum(Shares(sys, k)) + PendingCloses(sys.requests, k)
  {
    ReachableKeepsInv(sockets, sys);
    assert Counted(sys, k);
  }

  /** A socket is listed, under the descriptor its holder received, as long as anyone
      holds it; so all holders of a key share one descriptor. */
  lemma HeldSocketsStayOpen(sockets: seq<nat>, sys: System, i: nat, j: nat)
    requires NonZero(sockets) && Reachable(sockets, sys)
    requires i < |sys.clients| && j < |sys.clients[i].held|
    ensures var h := sys.clients[i].held[j];
      Listed(sys.table, h.key, h.s) && References(sys.table, h.key) >= HeldCount(sys.clients[i].held, h.key) >= 1
  {
    ReachableKeepsInv(sockets, sys);
    assert ClientAt(sys, i);
    var h := sys.clients[i].held[j];
    assert Counted(sys, h.key);
    ShareIsCounted(sys, i, h.key);
    HeldCounts(sys.clients[i].held, j);
  }

  /** The next message to client `i`, if it has begun to close a socket, is the last and a code. */
  predicate CloseIsAnswered(sys: System, i: nat) {
    Enabled(sys, Receive(i)) && sys.clients[i].pc.AwaitCode? && sys.clients[i].pc.op == Close ==>
      |Stream(sys, i)| == 1 && sys.clients[i].inbox[0].Code?
  }

  /** It is Success, and the call returns 0. */
  predicate CloseIsGranted(sys: System, i: nat) {
    Enabled(sys, Receive(i)) && sys.clients[i].pc.AwaitCode? && sys.clients[i].pc.op == Close ==>
      sys.clients[i].inbox == [Code(Success)] && Apply(sys, Receive(i)).clients[i].result == 0
  }

  /** A client whose socket is not descriptor 0 is told of its close by one code; it is
      always Success if no client's socket is descriptor 0. */
  lemma CloseSucceeds(sockets: seq<nat>, sys: System, i: nat)
    requires Reachable(sockets, sys) && i < |sockets| && sockets[i] != 0
    ensures CloseIsAnswered(sys, i)
    ensures NonZero(sockets) ==> CloseIsGranted(sys, i)
  {
    ReachableKeepsTrack(sockets, sys, i);
    if NonZero(sockets) {
      ReachableKeepsInv(sockets, sys);
      assert ClientAt(sys, i);
    }
  }

  /** Client `i`, if it has begun to open a socket, is about to read one error, or Success,
      or the one descriptor that follows it; and it does with that what it should. */
  predicate OpenIsAnswered(sys: System, i: nat) {
    Enabled(sys, Receive(i)) && (sys.clients[i].pc.AwaitDescriptor? || sys.clients[i].pc.op == Open) ==>
      var c, d, stream := sys.clients[i], Apply(sys, Receive(i)).clients[i], Stream(sys, i);
      || (c.pc.AwaitCode? && stream == [Code(OpenSocketError)]
          && d.pc == Idle && d.result == -1 && d.held == c.held)
      || (c.pc.AwaitCode? && c.inbox[0] == Code(Success) && |stream| == 2 && stream[1].Descriptor?
          && d.pc == AwaitDescriptor(c.pc.sock) && d.held == c.held)
      || (c.pc.AwaitDescriptor? && |stream| == 1 && stream[0].Descriptor?
          && d.pc == Idle && d.result == 0 && d.held == c.held + [c.pc.sock.(s := stream[0].s)])
  }

  /** A descriptor that client `i` is about to read is the one listed for the key it asked for. */
  predicate GrantIsListed(sys: System, i: nat) {
    && i < |sys.clients|
    && var c, stream := sys.clients[i], Stream(sys, i);
      (c.pc.AwaitDescriptor? || (c.pc.AwaitCode? && c.pc.op == Open))
      && stream != [] && stream[|stream| - 1].Descriptor? ==>
        Listed(sys.table, c.pc.sock.key, stream[|stream| - 1].s)
  }

  /** A client whose socket is not descriptor 0, opening one, sees an error, or Success and
      then one descriptor; it is the listed one if no client's socket is descriptor 0. */
  lemma OpenSeesItsReplies(sockets: seq<nat>, sys: System, i: nat)
    requires Reachable(sockets, sys) && i < |sockets| && sockets[i] != 0
    ensures OpenIsAnswered(sys, i)
    ensures NonZero(sockets) ==> GrantIsListed(sys, i)
  {
    ReachableKeepsTrack(sockets, sys, i);
    if sys.clients[i].inbox != [] {
      assert Stream(sys, i)[0] == sys.clients[i].inbox[0];
    }
    if NonZero(sockets) {
      ReachableKeepsInv(sockets, sys);
      assert ClientAt(sys, i);
    }
  }

  /** When everybody has returned everything, the daemon has nothing open. */
  lemma NothingLeftOpen(sockets: seq<nat>, sys: System)
    requires NonZero(sockets) && Reachable(sockets, sys)
    requires forall i :: 0 <= i < |sys.clients| ==> sys.clients[i].pc == Idle && sys.clients[i].held == []
    ensures sys.table == []
  {
    ReachableKeepsInv(sockets, sys);
    if sys.table != [] {
      var k := sys.table[0].key;
      assert Counted(sys, k);
      SumOfZeros(Shares(sys, k));
      LookupUnique(sys.table, 0);
      var n := PendingClose(sys.requests, k);
      var i := sys.requests[n].sender;
      assert ClientAt(sys, i);
      InFlightMember(sys.requests, n);
    }
  }

  lemma {:induction false} PendingClose(ds: seq<Datagram>, k: Key) returns (n: nat)
    requires PendingCloses(ds, k) > 0
    ensures n < |ds| && Parse(ds[n].bytes) == Some(Request(Close, k))
  {
    if Parse(ds[0].bytes) == Some(Request(Close, k)) {
      n := 0;
    } else {
      var m := PendingClose(ds[1..], k);
      n := m + 1;
    }
  }

  lemma {:induction false} InFlightMember(ds: seq<Datagram>, n: nat)
    requires n < |ds| && Parse(ds[n].bytes).Some?
    ensures InFlight(ds, ds[n].sender) != []
  {
    if n > 0 {
      InFlightMember(ds[1..], n - 1);
    }
  }

  // ---------- Progress ----------

  /** The steps that finish what has been begun. */
  predicate Internal(a: Action) {
    a.ServeNext? || a.SendNext? || a.Receive?
  }

  predicate AllInternal(run: seq<Action>) {
    forall n :: 0 <= n < |run| ==> Internal(run[n])
  }

  function Inboxes(clients: seq<Client>): (xs: seq<nat>)
    ensures |xs| == |clients|
  {
    seq(|clients|, i requires 0 <= i < |clients| => |clients[i].inbox|)
  }

  /** A bound on the internal steps that are left to do. */
  function Work(sys: System): nat {
    5 * |sys.requests| + 2 * |sys.outbox| + Sum(Inboxes(sys.clients))
  }

  lemma InternalStepsFinish(sys: System, a: Action)
    requires Enabled(sys, a) && Internal(a)
    ensures Work(Apply(sys, a)) < Work(sys)
  {
    var after, xs := Apply(sys, a), Inboxes(sys.clients);
    match a
    case ServeNext(o) =>
    case SendNext =>
      var i := sys.outbox[0].addressee;
      if i < |sys.clients| {
        assert Inboxes(after.clients) == xs[i := xs[i] + 1];
        SumUpdate(xs, i, xs[i] + 1);
      }
    case Receive(i) =>
      assert Inboxes(after.clients) == xs[i := xs[i] - 1];
      SumUpdate(xs, i, xs[i] - 1);
    case StartOpen(_, _) =>
    case StartClose(_, _) =>
    case SendGarbage(_, _) =>
  }

  lemma {:induction false} InternalRunsAreBounded(sys: System, run: seq<Action>)
    requires Possible(sys, run) && AllInternal(run)
    ensures |run| <= Work(sys)
    decreases |run|
  {
    if run != [] {
      InternalStepsFinish(sys, run[0]);
      InternalRunsAreBounded(Apply(sys, run[0]), run[1..]);
    }
  }

  lemma WaitingCanMove(sys: System, i: nat, o: OpenOutcome)
    requires i < |sys.clients| && OnTrackAt(sys, i) && Fresh(sys.table, o)
    requires sys.clients[i].pc != Idle
    ensures Enabled(sys, SendNext) || Enabled(sys, Receive(i)) || Enabled(sys, ServeNext(o))
  {
    if sys.outbox == [] {
      assert Stream(sys, i) == sys.clients[i].inbox;
    }
  }

  /** No call is left hanging, not even of a client whose socket is descriptor 0: as long as
      a client waits an internal step can be taken, whatever the kernel answers, and
      internal steps cannot go on for ever. */
  lemma NoCallHangs(sockets: seq<nat>, sys: System, i: nat, o: OpenOutcome)
    requires Reachable(sockets, sys) && Fresh(sys.table, o)
    requires i < |sys.clients| && sys.clients[i].pc != Idle
    ensures Enabled(sys, SendNext) || Enabled(sys, Receive(i)) || Enabled(sys, ServeNext(o))
    ensures forall run :: Possible(sys, run) && AllInternal(run) ==> |run| <= Work(sys)
  {
    ReachableKeepsTrack(sockets, sys, i);
    WaitingCanMove(sys, i, o);
    forall run | Possible(sys, run) && AllInternal(run)
      ensures |run| <= Work(sys)
    {
      InternalRunsAreBounded(sys, run);
    }
  }

  /** No step is left that would finish something. */
  ghost predicate AtRest(sys: System) {
    forall a :: Internal(a) ==> !Enabled(sys, a)
  }

  /** No client waits, and nothing is on the way but what clients with descriptor 0 have not read. */
  predicate AllIdle(sys: System) {
    && (forall i :: 0 <= i < |sys.clients| ==>
          sys.clients[i].pc == Idle && (sys.clients[i].daemonSocket != 0 ==> sys.clients[i].inbox == []))
    && sys.requests == [] && sys.outbox == []
  }

  /** Internal steps, taken as long as there are any, lead to a state of rest. */
  lemma {:induction false} RunToRest(sys: System) returns (run: seq<Action>)
    ensures Possible(sys, run) && AllInternal(run) && AtRest(Execute(sys, run))
    decreases Work(sys)
  {
    if AtRest(sys) {
      run := [];
    } else {
      var a :| Internal(a) && Enabled(sys, a);
      InternalStepsFinish(sys, a);
      var rest := RunToRest(Apply(sys, a));
      run := Before(sys, a, rest);
    }
  }

  lemma RestIsIdle(sys: System)
    requires AtRest(sys) && forall i :: 0 <= i < |sys.clients| ==> OnTrackAt(sys, i)
    ensures AllIdle(sys)
  {
    assert !Enabled(sys, SendNext) && !Enabled(sys, ServeNext(SocketFails));
    forall i | 0 <= i < |sys.clients|
      ensures sys.clients[i].pc == Idle && (sys.clients[i].daemonSocket != 0 ==> sys.clients[i].inbox == [])
    {
      assert OnTrackAt(sys, i) && !Enabled(sys, Receive(i));
      if sys.clients[i].pc != Idle {
        WaitingCanMove(sys, i, SocketFails);
      }
    }
  }

  /** Every call returns: from any reachable state internal steps lead to one in which none
      is left, and in every reachable state in which none is left all clients are idle. */
  lemma CallsReturn(sockets: seq<nat>, sys: System) returns (run: seq<Action>)
    requires Reachable(sockets, sys)
    ensures Possible(sys, run) && AllInternal(run) && AtRest(Execute(sys, run))
    ensures forall rest :: Reachable(sockets, rest) && AtRest(rest) ==> AllIdle(rest)
    ensures AllIdle(Execute(sys, run))
  {
    run := RunToRest(sys);
    ReachableRun(sockets, sys, run);
    forall rest | Reachable(sockets, rest) && AtRest(rest)
      ensures AllIdle(rest)
    {
      forall i | 0 <= i < |rest.clients|
        ensures OnTrackAt(rest, i)
      {
        ReachableKeepsTrack(sockets, rest, i);
      }
      RestIsIdle(rest);
    }
  }
}
