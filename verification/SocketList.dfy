/** The daemon: a doubly linked list of reference-counted connections, updated in
    place, and the kernel's table of the descriptors that the daemon has open. */
module SocketList {
  import opened Wire
  import opened SocketTable

  class Connection {
    var ifindex: bv32
    var tid: bv32
    var rid: bv32
    var s: nat
    var refcount: int
    var prev: Connection?
    var next: Connection?

    constructor (k: Key, s: nat, next: Connection?)
      ensures Entry() == SocketTable.Entry(k, s, 1)
      ensures this.prev == null && this.next == next
    {
      this.s, this.tid, this.rid, this.ifindex := s, k.tid, k.rid, k.ifindex;
      refcount := 1;
      prev, this.next := null, next;
    }

    function Entry(): SocketTable.Entry
      reads this
    {
      SocketTable.Entry(Key(ifindex, tid, rid), s, refcount)
    }
  }

  /** The calls of the daemon that open, bind and close ISO-TP sockets. */
  class Kernel {
    /** The open descriptors, each with the address it is bound to. */
    var open: map<nat, Option<Key>>

    constructor ()
      ensures open == map[]
    {
      open := map[];
    }

    method Socket(o: OpenOutcome) returns (s: int)
      requires !o.SocketFails? ==> o.s !in open
      modifies `open
      ensures o.SocketFails? ==> s < 0 && open == old(open)
      ensures !o.SocketFails? ==> s == o.s && open == old(open)[o.s := None]
    {
      if o.SocketFails? {
        s := -1;
      } else {
        s := o.s;
        open := open[o.s := None];
      }
    }

    /** An address may be bound once only: binding it again is the caller's fault. */
    method Bind(s: nat, k: Key, o: OpenOutcome) returns (r: int)
      requires s in open && open[s] == None
      requires forall d :: d in open ==> open[d] != Some(k)
      modifies `open
      ensures r == if o.BindFails? then -1 else 0
      ensures open == if o.BindFails? then old(open) else old(open)[s := Some(k)]
    {
      if o.BindFails? {
        r := -1;
      } else {
        r := 0;
        open := open[s := Some(k)];
      }
    }

    /** Only an open descriptor may be closed. */
    method Close(s: nat)
      requires s in open
      modifies `open
      ensures open == old(open) - {s}
    {
      open := open - {s};
    }
  }

  function At(nodes: seq<Connection>, i: int): Connection? {
    if 0 <= i < |nodes| then nodes[i] else null
  }

  /** `next` leads from `head` through `nodes`, and `prev` leads back. */
  ghost predicate Chain(head: Connection?, nodes: seq<Connection>)
    reads nodes
  {
    && head == At(nodes, 0)
    && (forall i {:trigger nodes[i].next} :: 0 <= i < |nodes| ==> nodes[i].next == At(nodes, i + 1))
    && (forall i {:trigger nodes[i].prev} :: 0 <= i < |nodes| ==> nodes[i].prev == At(nodes, i - 1))
    && (forall i, j :: 0 <= i < j < |nodes| ==> nodes[i] != nodes[j])
  }

  /** The connections `nodes` hold the entries of `t`. */
  ghost predicate Holds(nodes: seq<Connection>, t: Table)
    reads nodes
  {
    |nodes| == |t| && forall i :: 0 <= i < |nodes| ==> nodes[i].Entry() == t[i]
  }

  /** `nodes` is linked as a chain that passes over position `i`. */
  ghost predicate Bridged(head: Connection?, nodes: seq<Connection>, i: nat)
    reads nodes
  {
    && i < |nodes|
    && head == At(nodes, if i == 0 then 1 else 0)
    && (forall j {:trigger nodes[j].next} ::
          0 <= j < |nodes| && j != i ==> nodes[j].next == At(nodes, if j + 1 == i then j + 2 else j + 1))
    && (forall j {:trigger nodes[j].prev} ::
          0 <= j < |nodes| && j != i ==> nodes[j].prev == At(nodes, if j - 1 == i then j - 2 else j - 1))
    && (forall j, k :: 0 <= j < k < |nodes| ==> nodes[j] != nodes[k])
  }

  lemma BridgedIsChain(head: Connection?, nodes: seq<Connection>, i: nat)
    requires Bridged(head, nodes, i)
    ensures Chain(head, Without(nodes, i))
  {
  }

  lemma HoldsWithout(nodes: seq<Connection>, t: Table, i: nat)
    requires |nodes| == |t| && i < |t|
    requires forall j :: 0 <= j < |nodes| && j != i ==> nodes[j].Entry() == t[j]
    ensures Holds(Without(nodes, i), Without(t, i))
  {
  }

  predicate HasSocket(t: Table, s: nat) {
    exists i :: 0 <= i < |t| && t[i].s == s
  }

  /** The open descriptors are exactly those of the list, each bound to its key. */
  ghost predicate Owns(t: Table, open: map<nat, Option<Key>>) {
    && (forall i :: 0 <= i < |t| ==> t[i].s in open && open[t[i].s] == Some(t[i].key))
    && (forall s :: s in open ==> HasSocket(t, s))
  }

  lemma IndexOfIs(t: Table, k: Key, i: nat)
    requires i <= |t| && (i < |t| ==> t[i].key == k)
    requires forall j :: 0 <= j < i ==> t[j].key != k
    ensures IndexOf(t, k) == i
  {
  }

  lemma OwnsNoOther(t: Table, open: map<nat, Option<Key>>, k: Key, o: OpenOutcome)
    requires Owns(t, open) && Lookup(t, k) == None && Fresh(t, o)
    ensures !o.SocketFails? ==> o.s !in open
    ensures forall d :: d in open ==> open[d] != Some(k)
  {
    LookupAbsent(t, k);
  }

  lemma OwnsPushed(t: Table, open: map<nat, Option<Key>>, k: Key, s: nat)
    requires Owns(t, open) && s !in open
    ensures Owns(Push(t, k, s), open[s := Some(k)])
  {
    var u, after := Push(t, k, s), open[s := Some(k)];
    forall d | d in after
      ensures HasSocket(u, d)
    {
      if d == s {
        assert u[0].s == d;
      } else {
        var i :| 0 <= i < |t| && t[i].s == d;
        assert u[i + 1].s == d;
      }
    }
  }

  lemma OwnsAdjusted(t: Table, open: map<nat, Option<Key>>, i: nat, delta: int)
    requires Owns(t, open) && i < |t|
    ensures Owns(Adjust(t, i, delta), open)
  {
    var u := Adjust(t, i, delta);
    forall d | d in open
      ensures HasSocket(u, d)
    {
      var j :| 0 <= j < |t| && t[j].s == d;
      assert u[j].s == d;
    }
  }

  lemma OwnsUnlinked(t: Table, open: map<nat, Option<Key>>, i: nat)
    requires WellFormed(t) && Owns(t, open) && i < |t|
    ensures Owns(Without(t, i), open - {t[i].s})
  {
    var u, after := Without(t, i), open - {t[i].s};
    forall d | d in after
      ensures HasSocket(u, d)
    {
      var j :| 0 <= j < |t| && t[j].s == d;
      assert j != i;
      assert u[if j < i then j else j - 1].s == d;
    }
    forall n | 0 <= n < |u|
      ensures u[n].s in after && after[u[n].s] == Some(u[n].key)
    {
      var j := if n < i then n else n + 1;
      assert t[j].s != t[i].s;
    }
  }

  /** The descriptors open after a request has been served. */
  function Descriptors(t: Table, open: map<nat, Option<Key>>, r: Request, o: OpenOutcome): map<nat, Option<Key>> {
    var i := IndexOf(t, r.key);
    if i == |t| then
      if r.op == Open && o.Opens? then open[o.s := Some(r.key)] else open
    else if r.op == Close && t[i].refcount == 1 then
      open - {t[i].s}
    else
      open
  }

  lemma OpenOwns(t: Table, open: map<nat, Option<Key>>, k: Key, o: OpenOutcome)
    requires Owns(t, open) && Fresh(t, o)
    ensures Owns(Serve(t, Request(Open, k), o).sockets, Descriptors(t, open, Request(Open, k), o))
  {
    var i := IndexOf(t, k);
    if i < |t| {
      OwnsAdjusted(t, open, i, 1);
    } else if o.Opens? {
      OwnsNoOther(t, open, k, o);
      OwnsPushed(t, open, k, o.s);
    }
  }

  lemma CloseOwns(t: Table, open: map<nat, Option<Key>>, k: Key, o: OpenOutcome)
    requires WellFormed(t) && Owns(t, open)
    ensures Owns(Serve(t, Request(Close, k), o).sockets, Descriptors(t, open, Request(Close, k), o))
  {
    var i := IndexOf(t, k);
    if i < |t| {
      if t[i].refcount == 1 {
        OwnsUnlinked(t, open, i);
      } else {
        OwnsAdjusted(t, open, i, -1);
      }
    }
  }

  /** Serving a request keeps list and descriptors in agreement. */
  lemma ServeOwns(t: Table, open: map<nat, Option<Key>>, r: Request, o: OpenOutcome)
    requires WellFormed(t) && Owns(t, open) && Fresh(t, o)
    ensures WellFormed(Serve(t, r, o).sockets)
    ensures Owns(Serve(t, r, o).sockets, Descriptors(t, open, r, o))
  {
    ServeWellFormed(t, r, o);
    match r.op
    case Open => OpenOwns(t, open, r.key, o);
    case Close => CloseOwns(t, open, r.key, o);
  }

  class Daemon {
    var obdiiSockets: Connection?
    const kernel: Kernel
    /** The connections in the order in which `next` leads through them. */
    ghost var nodes: seq<Connection>
    /** What they hold. */
    ghost var table: Table

    /** The connections of the list, as a set. */
    ghost function Footprint(): set<Connection>
      reads this
    {
      set n | n in nodes
    }

    ghost predicate Linked()
      reads this, nodes
    {
      Chain(obdiiSockets, nodes) && Holds(nodes, table)
    }

    ghost predicate Valid()
      reads this, nodes, kernel
    {
      && Linked()
      && WellFormed(table)
      && Owns(table, kernel.open)
    }

    constructor ()
      ensures Valid() && fresh(kernel) && table == [] && nodes == []
    {
      obdiiSockets := null;
      kernel := new Kernel();
      nodes, table := [], [];
    }

    /** Walks the list and stops at the only connection for `k`, if there is one. */
    method MatchingParams(k: Key) returns (found: Connection?, ghost i: nat)
      requires Linked()
      ensures i == IndexOf(table, k) && found == At(nodes, IndexOf(table, k))
    {
      i := 0;
      found := obdiiSockets;
      while found != null
        invariant i <= |nodes| && found == At(nodes, i)
        invariant forall j :: 0 <= j < i ==> table[j].key != k
        decreases |nodes| - i
      {
        assert nodes[i].Entry() == table[i];
        if found.tid == k.tid && found.rid == k.rid && found.ifindex == k.ifindex {
          break;
        }
        found := found.next;
        i := i + 1;
      }
      IndexOfIs(table, k, i);
    }

    /** Puts a new connection at the head of the list. */
    method PushConnection(k: Key, s: nat) returns (conn: Connection)
      requires Linked()
      modifies `obdiiSockets, `nodes, `table, Footprint()
      ensures Linked()
      ensures fresh(conn) && nodes == [conn] + old(nodes)
      ensures table == Push(old(table), k, s)
    {
      conn := new Connection(k, s, obdiiSockets);
      if obdiiSockets != null {
        obdiiSockets.prev := conn;
      }
      obdiiSockets := conn;
      nodes, table := [conn] + nodes, Push(table, k, s);
    }

    method AdjustReferences(conn: Connection, ghost i: nat, delta: int)
      requires Linked()
      requires i < |nodes| && conn == nodes[i]
      modifies `table, Footprint()
      ensures Linked()
      ensures table == Adjust(old(table), i, delta)
    {
      assert conn.Entry() == table[i];
      conn.refcount := conn.refcount + delta;
      table := Adjust(table, i, delta);
    }

    /** Makes the neighbours of `conn` point past it. */
    method Bypass(conn: Connection, ghost i: nat)
      requires Chain(obdiiSockets, nodes)
      requires i < |nodes| && conn == nodes[i]
      modifies `obdiiSockets, Footprint()
      ensures Bridged(obdiiSockets, nodes, i)
      ensures forall n :: n in nodes ==> n.Entry() == old(n.Entry())
    {
      var prev, next := conn.prev, conn.next;
      assert prev == At(nodes, i - 1) && next == At(nodes, i + 1);
      if prev != null {
        prev.next := next;
      } else {
        obdiiSockets := next;
      }
      if next != null {
        next.prev := prev;
      }
    }

    /** Takes the connection at position `i` out of the list. */
    method UnlinkConnection(conn: Connection, ghost i: nat)
      requires Linked()
      requires i < |nodes| && conn == nodes[i]
      modifies `obdiiSockets, `nodes, `table, Footprint()
      ensures Linked()
      ensures nodes == Without(old(nodes), i) && table == Without(old(table), i)
    {
      Bypass(conn, i);
      BridgedIsChain(obdiiSockets, nodes, i);
      HoldsWithout(nodes, table, i);
      nodes, table := Without(nodes, i), Without(table, i);
    }

    /** Opens, binds and lists a new socket, or leaves everything as it was. */
    method OpenSocketConnection(k: Key, o: OpenOutcome) returns (conn: Connection?)
      requires Linked()
      requires !o.SocketFails? ==> o.s !in kernel.open
      requires forall d :: d in kernel.open ==> kernel.open[d] != Some(k)
      modifies `obdiiSockets, `nodes, `table, Footprint(), kernel`open
      ensures Linked()
      ensures conn != null <==> o.Opens?
      ensures conn != null ==> fresh(conn) && nodes == [conn] + old(nodes) && table == Push(old(table), k, o.s)
      ensures conn == null ==> nodes == old(nodes) && table == old(table)
      ensures kernel.open == if conn != null then old(kernel.open)[o.s := Some(k)] else old(kernel.open)
    {
      var s := kernel.Socket(o);
      if s < 0 {
        return null;
      }
      var bound := kernel.Bind(s, k, o);
      if bound < 0 {
        kernel.Close(s);
        return null;
      }
      if o.OutOfMemory? {
        kernel.Close(s);
        return null;
      }
      conn := PushConnection(k, s);
    }

    /** Drops a reference; the last one closes the socket and unlinks the connection. */
    method CloseSocketConnection(conn: Connection?, ghost i: nat)
      requires Linked()
      requires conn == At(nodes, i)
      requires conn != null ==> conn.s in kernel.open
      modifies `obdiiSockets, `nodes, `table, Footprint(), kernel`open
      ensures Linked()
      ensures conn == null ==> nodes == old(nodes) && table == old(table) && kernel.open == old(kernel.open)
      ensures conn != null && old(table)[i].refcount != 1 ==>
                && nodes == old(nodes) && table == Adjust(old(table), i, -1)
                && kernel.open == old(kernel.open)
      ensures conn != null && old(table)[i].refcount == 1 ==>
                && nodes == Without(old(nodes), i) && table == Without(old(table), i)
                && kernel.open == old(kernel.open) - {old(table)[i].s}
    {
      if conn == null {
        return;
      }
      AdjustReferences(conn, i, -1);
      assert conn.Entry() == table[i];
      if conn.refcount == 0 {
        kernel.Close(conn.s);
        UnlinkConnection(conn, i);
        assert table == Without(old(table), i);
      }
    }

    /** Gives the client a reference to the socket for `k`, which may have to be opened. */
    method ServeOpen(k: Key, found: Connection?, ghost i: nat, o: OpenOutcome) returns (replies: seq<Reply>)
      requires Linked()
      requires i == IndexOf(table, k) && found == At(nodes, i)
      requires found == null ==> (!o.SocketFails? ==> o.s !in kernel.open)
      requires found == null ==> forall d :: d in kernel.open ==> kernel.open[d] != Some(k)
      modifies `obdiiSockets, `nodes, `table, Footprint(), kernel`open
      ensures Linked()
      ensures fresh(Footprint() - old(Footprint()))
      ensures table == Serve(old(table), Request(Open, k), o).sockets
      ensures replies == Serve(old(table), Request(Open, k), o).replies
      ensures kernel.open == Descriptors(old(table), old(kernel.open), Request(Open, k), o)
    {
      var conn := found;
      if conn != null {
        AdjustReferences(conn, i, 1);
        assert conn.Entry() == table[i];
      } else {
        conn := OpenSocketConnection(k, o);
        if conn == null {
          return [Code(OpenSocketError)];
        }
        assert conn.Entry() == table[0];
      }
      replies := [Code(Success), Descriptor(conn.s)];
    }

    /** Takes a reference to the socket for `k` back. */
    method ServeClose(k: Key, found: Connection?, ghost i: nat, ghost o: OpenOutcome) returns (replies: seq<Reply>)
      requires Linked()
      requires i == IndexOf(table, k) && found == At(nodes, i)
      requires found != null ==> found.s in kernel.open
      modifies `obdiiSockets, `nodes, `table, Footprint(), kernel`open
      ensures Linked()
      ensures Footprint() <= old(Footprint())
      ensures table == Serve(old(table), Request(Close, k), o).sockets
      ensures replies == Serve(old(table), Request(Close, k), o).replies
      ensures kernel.open == Descriptors(old(table), old(kernel.open), Request(Close, k), o)
    {
      if found != null {
        assert found.Entry() == table[i];
        CloseSocketConnection(found, i);
        replies := [Code(Success)];
      } else {
        replies := [Code(NoSuchSocket)];
      }
    }

    /** Searches for the socket for `k`, and opens or closes it. */
    method ServeRequest(k: Key, shouldOpen: bool, o: OpenOutcome) returns (replies: seq<Reply>)
      requires Valid() && Fresh(table, o)
      modifies `obdiiSockets, `nodes, `table, Footprint(), kernel`open
      ensures Valid() && fresh(Footprint() - old(Footprint()))
      ensures table == Serve(old(table), Request(if shouldOpen then Open else Close, k), o).sockets
      ensures replies == Serve(old(table), Request(if shouldOpen then Open else Close, k), o).replies
    {
      var found, i := MatchingParams(k);
      if shouldOpen {
        ServeOwns(table, kernel.open, Request(Open, k), o);
        if found == null {
          OwnsNoOther(table, kernel.open, k, o);
        }
        replies := ServeOpen(k, found, i, o);
      } else {
        ServeOwns(table, kernel.open, Request(Close, k), o);
        assert found != null ==> found.Entry() == table[i];
        replies := ServeClose(k, found, i, o);
      }
    }

    /** Opens or closes the socket that `payload` names; answers with the messages sent. */
    method HandleSocketRequest(payload: seq<bv8>, shouldOpen: bool, o: OpenOutcome) returns (replies: seq<Reply>)
      requires Valid() && Fresh(table, o)
      modifies `obdiiSockets, `nodes, `table, Footprint(), kernel`open
      ensures Valid() && fresh(Footprint() - old(Footprint()))
      ensures match UnmarshalKey(payload)
        case None => table == old(table) && replies == []
        case Some(k) =>
          var served := Serve(old(table), Request(if shouldOpen then Open else Close, k), o);
          table == served.sockets && replies == served.replies
    {
      if |payload| < 12 {
        return [];
      }
      var ifindex := AsUint32(payload[0], payload[1], payload[2], payload[3]);
      var tid := AsUint32(payload[4], payload[5], payload[6], payload[7]);
      var rid := AsUint32(payload[8], payload[9], payload[10], payload[11]);
      replies := ServeRequest(Key(ifindex, tid, rid), shouldOpen, o);
    }

    /** The request dispatcher: handles one datagram. */
    method HandleMessage(request: seq<bv8>, o: OpenOutcome) returns (replies: seq<Reply>)
      requires Valid() && Fresh(table, o)
      modifies `obdiiSockets, `nodes, `table, Footprint(), kernel`open
      ensures Valid() && fresh(Footprint() - old(Footprint()))
      ensures table == Handle(old(table), request, o).sockets
      ensures replies == Handle(old(table), request, o).replies
    {
      replies := [];
      if |request| < REQUEST_HEADER_SIZE {
        return;
      }
      var apiVersion := AsUint16(request[0], request[1]);
      var requestType := AsUint16(request[2], request[3]);
      if apiVersion == 1 {
        var payload := request[REQUEST_HEADER_SIZE..];
        if requestType == TypeCode(Open) {
          replies := HandleSocketRequest(payload, true, o);
        } else if requestType == TypeCode(Close) {
          replies := HandleSocketRequest(payload, false, o);
        }
      }
    }
  }

  /** `prev` and `next` are inverses of each other all along the list; the list has one
      end in each direction, and no connection is met twice on the way. */
  lemma LinksAreInverse(daemon: Daemon)
    requires daemon.Valid()
    ensures daemon.obdiiSockets != null ==> daemon.obdiiSockets.prev == null
    ensures forall n :: n in daemon.nodes ==>
              && (n.next != null ==> n.next in daemon.nodes && n.next.prev == n)
              && (n.prev != null ==> n.prev in daemon.nodes && n.prev.next == n)
              && (n.next == null <==> n == daemon.nodes[|daemon.nodes| - 1])
              && (n.prev == null <==> n == daemon.obdiiSockets)
  {
  }
}
