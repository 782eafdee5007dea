/** The daemon's sockets as values: the list in its order, and the map from keys
    to reference-counted sockets that the list stands for. */
module SocketTable {
  import opened Wire

  /** A connection of the list: its key, its descriptor and how often it is open. */
  datatype Entry = Entry(key: Key, s: nat, refcount: int)

  /** The connections in list order, head first. */
  type Table = seq<Entry>

  /** What the kernel and the allocator answer while a socket is being opened. */
  datatype OpenOutcome = SocketFails | BindFails(s: nat) | OutOfMemory(s: nat) | Opens(s: nat)

  datatype ResponseCode = Success | NoSuchSocket | OpenSocketError

  /** What the daemon sends: a response code, or a message that carries a descriptor. */
  datatype Reply = Code(code: ResponseCode) | Descriptor(s: nat)

  datatype Served<T> = Served(sockets: T, replies: seq<Reply>)

  // ---------- The list ----------

  /** The position of the first entry for `k`, or the length of the list. */
  function IndexOf(t: Table, k: Key): (i: nat)
    ensures i <= |t|
    ensures i < |t| ==> t[i].key == k
    ensures forall j :: 0 <= j < i ==> t[j].key != k
  {
    if t == [] || t[0].key == k then 0 else 1 + IndexOf(t[1..], k)
  }

  function Push(t: Table, k: Key, s: nat): Table {
    [Entry(k, s, 1)] + t
  }

  function Adjust(t: Table, i: nat, delta: int): Table
    requires i < |t|
  {
    t[i := t[i].(refcount := t[i].refcount + delta)]
  }

  /** `s` without the element at position `i`. */
  function Without<T>(s: seq<T>, i: nat): (r: seq<T>)
    requires i < |s|
    ensures |r| == |s| - 1
    ensures forall j :: 0 <= j < |r| ==> r[j] == s[if j < i then j else j + 1]
  {
    s[..i] + s[i + 1..]
  }

  /** Drops one reference to the socket at position `i`. */
  function Release(t: Table, i: nat): Table
    requires i < |t|
  {
    if t[i].refcount == 1 then Without(t, i) else Adjust(t, i, -1)
  }

  /** How the daemon serves a request; `o` is used only if a socket must be opened. */
  function Serve(t: Table, r: Request, o: OpenOutcome): Served<Table> {
    var i := IndexOf(t, r.key);
    match r.op
    case Open =>
      if i < |t| then
        Served(Adjust(t, i, 1), [Code(Success), Descriptor(t[i].s)])
      else if o.Opens? then
        Served(Push(t, r.key, o.s), [Code(Success), Descriptor(o.s)])
      else
        Served(t, [Code(OpenSocketError)])
    case Close =>
      if i < |t| then
        Served(Release(t, i), [Code(Success)])
      else
        Served(t, [Code(NoSuchSocket)])
  }

  /** How the daemon handles a datagram: what is not a request is ignored. */
  function Handle(t: Table, b: seq<bv8>, o: OpenOutcome): Served<Table> {
    match Parse(b)
    case None => Served(t, [])
    case Some(r) => Serve(t, r, o)
  }

  /** One entry per key, one key per descriptor, and no entry that nobody holds. */
  ghost predicate WellFormed(t: Table) {
    && (forall i, j :: 0 <= i < j < |t| ==> t[i].key != t[j].key)
    && (forall i, j :: 0 <= i < j < |t| ==> t[i].s != t[j].s)
    && (forall i :: 0 <= i < |t| ==> t[i].refcount >= 1)
  }

  /** The kernel hands out a descriptor that is not open already. */
  predicate Fresh(t: Table, o: OpenOutcome) {
    o.SocketFails? || forall i :: 0 <= i < |t| ==> t[i].s != o.s
  }

  // ---------- The map the list stands for ----------

  datatype Shared = Shared(s: nat, refcount: int)

  function Lookup(t: Table, k: Key): Option<Shared> {
    var i := IndexOf(t, k);
    if i < |t| then Some(Shared(t[i].s, t[i].refcount)) else None
  }

  /** The number of times `k` is open. */
  function References(t: Table, k: Key): int {
    match Lookup(t, k)
    case None => 0
    case Some(e) => e.refcount
  }

  function Keys(t: Table): set<Key> {
    set e | e in t :: e.key
  }

  function View(t: Table): map<Key, Shared> {
    map k | k in Keys(t) && Lookup(t, k).Some? :: Lookup(t, k).value
  }

  lemma LookupUnique(t: Table, i: nat)
    requires WellFormed(t) && i < |t|
    ensures IndexOf(t, t[i].key) == i
    ensures Lookup(t, t[i].key) == Some(Shared(t[i].s, t[i].refcount))
  {
  }

  lemma LookupAbsent(t: Table, k: Key)
    ensures Lookup(t, k).Some? <==> exists i :: 0 <= i < |t| && t[i].key == k
  {
  }

  lemma ViewLookup(t: Table, k: Key)
    ensures k in View(t) <==> Lookup(t, k).Some?
    ensures k in View(t) ==> View(t)[k] == Lookup(t, k).value
  {
    if Lookup(t, k).Some? {
      assert t[IndexOf(t, k)] in t;
    }
  }

  lemma LookupPush(t: Table, k: Key, s: nat, other: Key)
    ensures Lookup(Push(t, k, s), other) == if other == k then Some(Shared(s, 1)) else Lookup(t, other)
  {
    assert Push(t, k, s)[1..] == t;
  }

  lemma LookupAdjust(t: Table, i: nat, delta: int, other: Key)
    requires WellFormed(t) && i < |t|
    ensures Lookup(Adjust(t, i, delta), other) ==
            if other == t[i].key then Some(Shared(t[i].s, t[i].refcount + delta)) else Lookup(t, other)
  {
    var u := Adjust(t, i, delta);
    assert forall j :: 0 <= j < |t| ==> u[j].key == t[j].key;
    assert IndexOf(u, other) == IndexOf(t, other);
    if other == t[i].key {
      LookupUnique(t, i);
    }
  }

  lemma WithoutWellFormed(t: Table, i: nat)
    requires WellFormed(t) && i < |t|
    ensures WellFormed(Without(t, i))
  {
  }

  lemma LookupWithout(t: Table, i: nat, other: Key)
    requires WellFormed(t) && i < |t|
    ensures Lookup(Without(t, i), other) == if other == t[i].key then None else Lookup(t, other)
  {
    WithoutWellFormed(t, i);
    var u, n := Without(t, i), IndexOf(t, other);
    if other == t[i].key {
    } else if n < |t| {
      var m := if n < i then n else n - 1;
      assert u[m] == t[n];
      LookupUnique(u, m);
    } else {
      assert forall j :: 0 <= j < |u| ==> u[j] in t;
    }
  }

  /** The same daemon over a map: the reference that `Serve` is compared with. */
  function ServeMap(m: map<Key, Shared>, r: Request, o: OpenOutcome): Served<map<Key, Shared>> {
    match r.op
    case Open =>
      if r.key in m then
        Served(m[r.key := Shared(m[r.key].s, m[r.key].refcount + 1)], [Code(Success), Descriptor(m[r.key].s)])
      else if o.Opens? then
        Served(m[r.key := Shared(o.s, 1)], [Code(Success), Descriptor(o.s)])
      else
        Served(m, [Code(OpenSocketError)])
    case Close =>
      if r.key !in m then
        Served(m, [Code(NoSuchSocket)])
      else if m[r.key].refcount > 1 then
        Served(m[r.key := Shared(m[r.key].s, m[r.key].refcount - 1)], [Code(Success)])
      else
        Served(m - {r.key}, [Code(Success)])
  }

  lemma ServeWellFormed(t: Table, r: Request, o: OpenOutcome)
    requires WellFormed(t) && Fresh(t, o)
    ensures WellFormed(Serve(t, r, o).sockets)
  {
    var i := IndexOf(t, r.key);
    if i < |t| && r.op == Close {
      WithoutWellFormed(t, i);
    }
  }

  /** What serving a request does to the entry of its key, and to no other. */
  lemma ServeLookup(t: Table, r: Request, o: OpenOutcome, k: Key)
    requires WellFormed(t)
    ensures Lookup(Serve(t, r, o).sockets, k) ==
            if k != r.key then
              Lookup(t, k)
            else match (r.op, Lookup(t, k))
              case (Open, Some(e)) => Some(Shared(e.s, e.refcount + 1))
              case (Open, None) => if o.Opens? then Some(Shared(o.s, 1)) else None
              case (Close, Some(e)) => if e.refcount == 1 then None else Some(Shared(e.s, e.refcount - 1))
              case (Close, None) => None
  {
    var i := IndexOf(t, r.key);
    if i < |t| {
      LookupAdjust(t, i, 1, k);
      LookupAdjust(t, i, -1, k);
      LookupWithout(t, i, k);
    } else if o.Opens? {
      LookupPush(t, r.key, o.s, k);
    }
  }

  function Find<V>(m: map<Key, V>, k: Key): Option<V> {
    if k in m then Some(m[k]) else None
  }

  lemma FindInView(t: Table, k: Key)
    ensures Find(View(t), k) == Lookup(t, k)
  {
    ViewLookup(t, k);
  }

  lemma SameFinds<V>(m: map<Key, V>, n: map<Key, V>)
    requires forall k :: Find(m, k) == Find(n, k)
    ensures m == n
  {
    forall k: Key
      ensures k in m <==> k in n
      ensures k in m ==> m[k] == n[k]
    {
      assert Find(m, k) == Find(n, k);
    }
  }

  lemma CountIsPositive(t: Table, k: Key)
    requires WellFormed(t) && Lookup(t, k).Some?
    ensures Lookup(t, k).value.refcount >= 1
  {
  }

  lemma ServeMapFinds(m: map<Key, Shared>, r: Request, o: OpenOutcome, k: Key)
    ensures Find(ServeMap(m, r, o).sockets, k) ==
            if k != r.key then
              Find(m, k)
            else match (r.op, Find(m, k))
              case (Open, Some(e)) => Some(Shared(e.s, e.refcount + 1))
              case (Open, None) => if o.Opens? then Some(Shared(o.s, 1)) else None
              case (Close, Some(e)) => if e.refcount > 1 then Some(Shared(e.s, e.refcount - 1)) else None
              case (Close, None) => None
  {
  }

  lemma ServeFinds(t: Table, r: Request, o: OpenOutcome, k: Key)
    requires WellFormed(t)
    ensures Lookup(Serve(t, r, o).sockets, k) == Find(ServeMap(View(t), r, o).sockets, k)
  {
    ServeLookup(t, r, o, k);
    ServeMapFinds(View(t), r, o, k);
    FindInView(t, k);
    if Lookup(t, k).Some? {
      CountIsPositive(t, k);
    }
  }

  lemma ServeReplies(t: Table, r: Request, o: OpenOutcome)
    ensures Serve(t, r, o).replies == ServeMap(View(t), r, o).replies
  {
    FindInView(t, r.key);
  }

  /** Refinement: on the map that the list stands for, serving a request has exactly
      the effect, and the replies, that `ServeMap` prescribes. */
  lemma ServeRefinesMap(t: Table, r: Request, o: OpenOutcome)
    requires WellFormed(t)
    ensures View(Serve(t, r, o).sockets) == ServeMap(View(t), r, o).sockets
    ensures Serve(t, r, o).replies == ServeMap(View(t), r, o).replies
  {
    ServeReplies(t, r, o);
    var u := Serve(t, r, o).sockets;
    forall k
      ensures Find(View(u), k) == Find(ServeMap(View(t), r, o).sockets, k)
    {
      FindInView(u, k);
      ServeFinds(t, r, o, k);
    }
    SameFinds(View(u), ServeMap(View(t), r, o).sockets);
  }

  // ---------- Counting ----------

  /** What a request adds to the references of `k`, given the replies to it. */
  function Change(r: Request, replies: seq<Reply>, k: Key): int {
    if r.key != k || replies == [] || replies[0] != Code(Success) then 0
    else if r.op == Open then 1
    else -1
  }

  lemma ServeReferences(t: Table, r: Request, o: OpenOutcome, k: Key)
    requires WellFormed(t)
    ensures References(Serve(t, r, o).sockets, k) == References(t, k) + Change(r, Serve(t, r, o).replies, k)
  {
    ServeLookup(t, r, o, k);
  }

  lemma ReferencesNatural(t: Table, k: Key)
    requires WellFormed(t)
    ensures References(t, k) >= 0
    ensures References(t, k) > 0 <==> Lookup(t, k).Some?
  {
  }
}
