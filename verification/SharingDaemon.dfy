/** The daemon of the sharing protocol is the linked list: what it has open after a run. */
module SharingDaemon {
  import opened Wire
  import opened SocketTable
  import opened Sharing
  import opened SharingTheorems
  import opened SocketList
  import opened History

  /** The messages that the daemon serves in the course of a run. */
  function MessagesServed(sys: System, run: seq<Action>): seq<Message>
    requires Possible(sys, run)
    decreases |run|
  {
    if run == [] then []
    else
      (if run[0].ServeNext? then [Message(sys.requests[0].sender, sys.requests[0].bytes, run[0].outcome)] else [])
      + MessagesServed(Apply(sys, run[0]), run[1..])
  }

  lemma {:induction false} TableIsHistory(sys: System, run: seq<Action>)
    requires Possible(sys, run)
    ensures FreshRun(sys.table, MessagesServed(sys, run))
    ensures Execute(sys, run).table == After(sys.table, MessagesServed(sys, run))
    decreases |run|
  {
    if run != [] {
      var next, ms := Apply(sys, run[0]), MessagesServed(sys, run);
      TableIsHistory(next, run[1..]);
      if run[0].ServeNext? {
        assert ms[1..] == MessagesServed(next, run[1..]);
      } else {
        assert ms == MessagesServed(next, run[1..]) && next.table == sys.table;
      }
    }
  }

  /** The descriptor of the socket is open, and bound to the key of the socket. */
  predicate IsOpen(h: ClientSocket, open: map<nat, Option<Key>>) {
    h.s >= 0 && h.s in open && open[h.s] == Some(h.key)
  }

  lemma OpenIffListed(t: Table, open: map<nat, Option<Key>>, h: ClientSocket)
    requires WellFormed(t) && Owns(t, open)
    ensures IsOpen(h, open) <==> Listed(t, h.key, h.s)
  {
    if IsOpen(h, open) {
      assert HasSocket(t, h.s);
      var n :| 0 <= n < |t| && t[n].s == h.s;
      LookupUnique(t, n);
    }
  }

  lemma HeldDescriptorsAreOpen(sockets: seq<nat>, run: seq<Action>, open: map<nat, Option<Key>>, i: nat, j: nat)
    requires NonZero(sockets) && Possible(Init(sockets), run)
    requires var sys := Execute(Init(sockets), run);
      Owns(sys.table, open) && i < |sys.clients| && j < |sys.clients[i].held|
    ensures IsOpen(Execute(Init(sockets), run).clients[i].held[j], open)
  {
    var sys := Execute(Init(sockets), run);
    ReachableKeepsInv(sockets, sys);
    HeldSocketsStayOpen(sockets, sys, i, j);
    OpenIffListed(sys.table, open, sys.clients[i].held[j]);
  }

  /** The daemon's receive loop over what it is sent in a run of the protocol: it ends with
      the list of the run. Exactly the sockets that are listed are open and bound to their
      keys; so whatever a client holds is, if no client's socket is descriptor 0. */
  method ServeRun(daemon: Daemon, sockets: seq<nat>, run: seq<Action>)
    requires daemon.Valid() && daemon.table == [] && Possible(Init(sockets), run)
    modifies daemon, daemon.Footprint(), daemon.kernel
    ensures daemon.Valid() && daemon.table == Execute(Init(sockets), run).table
    ensures forall h :: IsOpen(h, daemon.kernel.open) <==> Listed(daemon.table, h.key, h.s)
    ensures var clients := Execute(Init(sockets), run).clients;
      NonZero(sockets) ==>
        forall i, j :: 0 <= i < |clients| && 0 <= j < |clients[i].held| ==>
          IsOpen(clients[i].held[j], daemon.kernel.open)
  {
    TableIsHistory(Init(sockets), run);
    var _ := ReceiveLoop(daemon, MessagesServed(Init(sockets), run));
    forall h
      ensures IsOpen(h, daemon.kernel.open) <==> Listed(daemon.table, h.key, h.s)
    {
      OpenIffListed(daemon.table, daemon.kernel.open, h);
    }
    if NonZero(sockets) {
      ghost var clients := Execute(Init(sockets), run).clients;
      forall i, j | 0 <= i < |clients| && 0 <= j < |clients[i].held|
        ensures IsOpen(clients[i].held[j], daemon.kernel.open)
      {
        HeldDescriptorsAreOpen(sockets, run, daemon.kernel.open, i, j);
      }
    }
  }
}
