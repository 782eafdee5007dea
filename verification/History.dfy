/** Whole runs of the daemon: what a sequence of datagrams leaves behind, which of
    them matter, and in which order. */
module History {
  import opened Wire
  import opened SocketTable
  import opened SocketList

  /** A datagram, its sender, and what opening a socket for it would come to. */
  datatype Message = Message(client: nat, bytes: seq<bv8>, outcome: OpenOutcome)

  /** The replies to `m`, and the list after it. */
  function Step(t: Table, m: Message): Served<Table> {
    Handle(t, m.bytes, m.outcome)
  }

  function After(t: Table, ms: seq<Message>): Table
    decreases |ms|
  {
    if ms == [] then t else After(Step(t, ms[0]).sockets, ms[1..])
  }

  /** The replies to each message of a run. */
  function Answers(t: Table, ms: seq<Message>): (a: seq<seq<Reply>>)
    ensures |a| == |ms|
    decreases |ms|
  {
    if ms == [] then [] else [Step(t, ms[0]).replies] + Answers(Step(t, ms[0]).sockets, ms[1..])
  }

  /** Whenever a socket may be opened, the kernel's descriptor is not in use. */
  ghost predicate FreshRun(t: Table, ms: seq<Message>)
    decreases |ms|
  {
    ms != [] ==> Fresh(t, ms[0].outcome) && FreshRun(Step(t, ms[0]).sockets, ms[1..])
  }

  lemma StepWellFormed(t: Table, m: Message)
    requires WellFormed(t) && Fresh(t, m.outcome)
    ensures WellFormed(Step(t, m).sockets)
  {
    if Parse(m.bytes).Some? {
      ServeWellFormed(t, Parse(m.bytes).value, m.outcome);
    }
  }

  // ---------- Opens and closes ----------

  /** The requests of `ms` for operation `op` on `k` that were answered Success. */
  function Granted(ms: seq<Message>, answers: seq<seq<Reply>>, op: Operation, k: Key): nat
    requires |answers| == |ms|
  {
    if ms == [] then 0
    else
      var granted := Parse(ms[0].bytes) == Some(Request(op, k)) && answers[0] != [] && answers[0][0] == Code(Success);
      (if granted then 1 else 0) + Granted(ms[1..], answers[1..], op, k)
  }

  /** The references to a key are the opens granted less the closes granted. */
  lemma {:induction false} ReferencesAreHistory(t: Table, ms: seq<Message>, k: Key)
    requires WellFormed(t) && FreshRun(t, ms)
    ensures WellFormed(After(t, ms))
    ensures var a := Answers(t, ms);
      References(After(t, ms), k) == References(t, k) + Granted(ms, a, Open, k) - Granted(ms, a, Close, k)
    decreases |ms|
  {
    if ms != [] {
      var m, next := ms[0], Step(t, ms[0]).sockets;
      StepWellFormed(t, m);
      ReferencesAreHistory(next, ms[1..], k);
      assert Answers(t, ms)[1..] == Answers(next, ms[1..]);
      if Parse(m.bytes).Some? {
        ServeReferences(t, Parse(m.bytes).value, m.outcome, k);
      }
    }
  }

  /** From the empty list: a key is listed exactly if more of its opens than of its
      closes were granted, and its count is the difference. */
  lemma ListedByHistory(ms: seq<Message>, k: Key)
    requires FreshRun([], ms)
    ensures var a := Answers([], ms);
      var balance := Granted(ms, a, Open, k) - Granted(ms, a, Close, k);
      && balance >= 0
      && (Lookup(After([], ms), k).Some? <==> balance > 0)
      && (Lookup(After([], ms), k).Some? ==> Lookup(After([], ms), k).value.refcount == balance)
  {
    ReferencesAreHistory([], ms, k);
    ReferencesNatural(After([], ms), k);
  }

  ghost predicate Balanced(ms: seq<Message>, answers: seq<seq<Reply>>)
    requires |answers| == |ms|
  {
    forall k :: Granted(ms, answers, Open, k) == Granted(ms, answers, Close, k)
  }

  lemma BalancedRunEndsEmpty(ms: seq<Message>)
    requires FreshRun([], ms) && Balanced(ms, Answers([], ms))
    ensures After([], ms) == []
  {
    var t := After([], ms);
    if t != [] {
      ReferencesAreHistory([], ms, t[0].key);
      LookupUnique(t, 0);
    }
  }

  /** After `n` messages of the run `ms` from `t0` the list is `t`, with `answers` given. */
  ghost predicate Reached(t0: Table, ms: seq<Message>, n: nat, t: Table, answers: seq<seq<Reply>>)
    requires n <= |ms|
  {
    && FreshRun(t, ms[n..])
    && After(t0, ms) == After(t, ms[n..])
    && Answers(t0, ms) == answers + Answers(t, ms[n..])
  }

  lemma ReachedStep(t0: Table, ms: seq<Message>, n: nat, t: Table, answers: seq<seq<Reply>>)
    requires n < |ms| && Reached(t0, ms, n, t, answers)
    ensures Fresh(t, ms[n].outcome)
    ensures var served := Step(t, ms[n]);
      Reached(t0, ms, n + 1, served.sockets, answers + [served.replies])
  {
    assert ms[n..][0] == ms[n] && ms[n..][1..] == ms[n + 1..];
    var served := Step(t, ms[n]);
    var rest := Answers(served.sockets, ms[n + 1..]);
    assert answers + ([served.replies] + rest) == (answers + [served.replies]) + rest;
  }

  /** A run balanced on every key leaves neither a connection nor an open descriptor. */
  lemma BalancedRunClosesAll(daemon: Daemon, ms: seq<Message>)
    requires FreshRun([], ms) && Balanced(ms, Answers([], ms))
    requires daemon.Valid() && daemon.table == After([], ms)
    ensures daemon.obdiiSockets == null && daemon.kernel.open == map[]
  {
    BalancedRunEndsEmpty(ms);
  }

  /** The receive loop over a finite run: the linked list ends as `After` says. */
  method ReceiveLoop(daemon: Daemon, ms: seq<Message>) returns (answers: seq<seq<Reply>>)
    requires daemon.Valid() && FreshRun(daemon.table, ms)
    modifies daemon, daemon.Footprint(), daemon.kernel
    ensures daemon.Valid()
    ensures daemon.table == After(old(daemon.table), ms)
    ensures answers == Answers(old(daemon.table), ms)
  {
    answers := [];
    assert ms[0..] == ms;
    for n := 0 to |ms|
      invariant daemon.Valid()
      invariant fresh(daemon.Footprint() - old(daemon.Footprint()))
      invariant Reached(old(daemon.table), ms, n, daemon.table, answers)
    {
      ReachedStep(old(daemon.table), ms, n, daemon.table, answers);
      var replies := daemon.HandleMessage(ms[n].bytes, ms[n].outcome);
      answers := answers + [replies];
    }
  }

  // ---------- Garbage ----------

  predicate IsRequest(m: Message) {
    Parse(m.bytes).Some?
  }

  /** A run without the messages that are no requests, and without the bytes that
      follow the sixteenth of the others. */
  function Essence(ms: seq<Message>): seq<Message> {
    if ms == [] then []
    else if !IsRequest(ms[0]) then Essence(ms[1..])
    else [Cut(ms[0])] + Essence(ms[1..])
  }

  function Cut(m: Message): Message {
    m.(bytes := if |m.bytes| < 16 then m.bytes else m.bytes[..16])
  }

  lemma CutIsSame(t: Table, m: Message)
    requires IsRequest(m)
    ensures Step(t, Cut(m)) == Step(t, m) && Step(t, m).replies != []
  {
    ParseExactly(m.bytes, Parse(m.bytes).value);
    ParseTruncated(m.bytes, 16);
  }

  /** The answers of a run that are not empty, each with its addressee, in order. */
  function Deliveries(ms: seq<Message>, answers: seq<seq<Reply>>): seq<(nat, seq<Reply>)>
    requires |answers| == |ms|
  {
    if ms == [] then []
    else (if answers[0] == [] then [] else [(ms[0].client, answers[0])]) + Deliveries(ms[1..], answers[1..])
  }

  /** All messages sent during a run, each with its addressee, in order. */
  function SentMessages(t: Table, ms: seq<Message>): seq<(nat, seq<Reply>)> {
    Deliveries(ms, Answers(t, ms))
  }

  lemma SentStep(t: Table, ms: seq<Message>)
    requires ms != []
    ensures var served := Step(t, ms[0]);
      SentMessages(t, ms) ==
      (if served.replies == [] then [] else [(ms[0].client, served.replies)]) + SentMessages(served.sockets, ms[1..])
  {
    assert Answers(t, ms)[1..] == Answers(Step(t, ms[0]).sockets, ms[1..]);
  }

  /** Garbage is a stutter: neither it nor trailing bytes affect the list or what anyone is sent. */
  lemma {:induction false} GarbageIsIgnored(t: Table, ms: seq<Message>)
    ensures After(t, Essence(ms)) == After(t, ms)
    ensures SentMessages(t, Essence(ms)) == SentMessages(t, ms)
    decreases |ms|
  {
    if ms != [] {
      var m := ms[0];
      GarbageIsIgnored(Step(t, m).sockets, ms[1..]);
      SentStep(t, ms);
      if IsRequest(m) {
        CutIsSame(t, m);
        assert Essence(ms)[1..] == Essence(ms[1..]);
        SentStep(t, Essence(ms));
      }
    }
  }

  /** The number of requests before message `n`: its position among the requests. */
  function Position(ms: seq<Message>, n: nat): nat
    requires n <= |ms|
  {
    if n == 0 then 0 else (if IsRequest(ms[0]) then 1 else 0) + Position(ms[1..], n - 1)
  }

  lemma {:induction false} PositionInEssence(ms: seq<Message>, n: nat)
    requires n < |ms| && IsRequest(ms[n])
    ensures Position(ms, n) < |Essence(ms)| && Essence(ms)[Position(ms, n)] == Cut(ms[n])
  {
    if n > 0 {
      PositionInEssence(ms[1..], n - 1);
    }
  }

  lemma {:induction false} OnlyRequestsAreAnswered(t: Table, ms: seq<Message>, n: nat)
    requires n < |ms|
    ensures Answers(t, ms)[n] != [] <==> IsRequest(ms[n])
    decreases |ms|
  {
    if n > 0 {
      OnlyRequestsAreAnswered(Step(t, ms[0]).sockets, ms[1..], n - 1);
    }
  }

  lemma {:induction false} AnswerInEssence(t: Table, ms: seq<Message>, n: nat)
    requires n < |ms| && IsRequest(ms[n]) && Position(ms, n) < |Essence(ms)|
    ensures Answers(t, Essence(ms))[Position(ms, n)] == Answers(t, ms)[n]
    decreases |ms|
  {
    if IsRequest(ms[0]) {
      CutIsSame(t, ms[0]);
      assert Essence(ms)[1..] == Essence(ms[1..]);
    }
    if n > 0 {
      AnswerInEssence(Step(t, ms[0]).sockets, ms[1..], n - 1);
    }
  }

  lemma StepAnswersRequests(t: Table, m: Message)
    ensures Step(t, m).replies != [] <==> IsRequest(m)
  {
  }

  /** The number of answers before answer `n` that are not empty. */
  function AnsweredBefore(answers: seq<seq<Reply>>, n: nat): nat
    requires n <= |answers|
  {
    if n == 0 then 0 else (if answers[0] == [] then 0 else 1) + AnsweredBefore(answers[1..], n - 1)
  }

  lemma {:induction false} AnswerIsDelivered(ms: seq<Message>, answers: seq<seq<Reply>>, n: nat)
    requires |answers| == |ms| && n < |ms| && answers[n] != []
    ensures var k := AnsweredBefore(answers, n);
      k < |Deliveries(ms, answers)| && Deliveries(ms, answers)[k] == (ms[n].client, answers[n])
  {
    if n > 0 {
      AnswerIsDelivered(ms[1..], answers[1..], n - 1);
    }
  }

  lemma {:induction false} PositionIsAnswered(t: Table, ms: seq<Message>, n: nat)
    requires n <= |ms|
    ensures Position(ms, n) == AnsweredBefore(Answers(t, ms), n)
    decreases |ms|
  {
    if n > 0 {
      StepAnswersRequests(t, ms[0]);
      assert Answers(t, ms)[1..] == Answers(Step(t, ms[0]).sockets, ms[1..]);
      PositionIsAnswered(Step(t, ms[0]).sockets, ms[1..], n - 1);
    }
  }

  /** Message by message: a request is sent, at its position, the answer that it gets in the
      run without garbage; anything else gets no answer. */
  lemma GarbageGetsNoAnswer(t: Table, ms: seq<Message>, n: nat)
    requires n < |ms|
    ensures Answers(t, ms)[n] != [] <==> IsRequest(ms[n])
    ensures IsRequest(ms[n]) ==>
              var k := Position(ms, n);
              && k < |Essence(ms)| && Essence(ms)[k].client == ms[n].client
              && Answers(t, Essence(ms))[k] == Answers(t, ms)[n]
              && k < |SentMessages(t, ms)| && SentMessages(t, ms)[k] == (ms[n].client, Answers(t, ms)[n])
  {
    OnlyRequestsAreAnswered(t, ms, n);
    if IsRequest(ms[n]) {
      PositionInEssence(ms, n);
      AnswerInEssence(t, ms, n);
      PositionIsAnswered(t, ms, n);
      AnswerIsDelivered(ms, Answers(t, ms), n);
    }
  }

  // ---------- Order ----------

  /** How often each listed key is open. */
  function Counts(t: Table): map<Key, int> {
    map k | k in View(t) :: View(t)[k].refcount
  }

  /** A request as the counts see it, and whether opening a socket for it would succeed. */
  datatype Input = Input(request: Option<Request>, opens: bool)

  datatype CountResult = CountResult(counts: map<Key, int>, code: Option<ResponseCode>)

  /** The new count of a key, `None` if it is not listed, and the code of the reply. */
  function CountOne(count: Option<int>, op: Operation, opens: bool): (Option<int>, ResponseCode) {
    match (op, count)
    case (Open, Some(n)) => (Some(n + 1), Success)
    case (Open, None) => if opens then (Some(1), Success) else (None, OpenSocketError)
    case (Close, Some(n)) => (if n > 1 then Some(n - 1) else None, Success)
    case (Close, None) => (None, NoSuchSocket)
  }

  function Put(m: map<Key, int>, k: Key, count: Option<int>): map<Key, int> {
    match count
    case None => m - {k}
    case Some(n) => m[k := n]
  }

  function Count(m: map<Key, int>, c: Input): CountResult {
    match c.request
    case None => CountResult(m, None)
    case Some(Request(op, k)) =>
      var (count, code) := CountOne(Find(m, k), op, c.opens);
      CountResult(Put(m, k, count), Some(code))
  }

  function CountAll(m: map<Key, int>, cs: seq<Input>): map<Key, int>
    decreases |cs|
  {
    if cs == [] then m else CountAll(Count(m, cs[0]).counts, cs[1..])
  }

  function CountCodes(m: map<Key, int>, cs: seq<Input>): (codes: seq<Option<ResponseCode>>)
    ensures |codes| == |cs|
    decreases |cs|
  {
    if cs == [] then [] else [Count(m, cs[0]).code] + CountCodes(Count(m, cs[0]).counts, cs[1..])
  }

  function InputOf(m: Message): Input {
    Input(Parse(m.bytes), m.outcome.Opens?)
  }

  function Inputs(ms: seq<Message>): (cs: seq<Input>)
    ensures |cs| == |ms|
  {
    seq(|ms|, i requires 0 <= i < |ms| => InputOf(ms[i]))
  }

  function CodeOf(replies: seq<Reply>): Option<ResponseCode> {
    if replies != [] && replies[0].Code? then Some(replies[0].code) else None
  }

  /** The response codes of a run, `None` where a message was ignored. */
  function Codes(t: Table, ms: seq<Message>): (codes: seq<Option<ResponseCode>>)
    ensures |codes| == |ms|
    decreases |ms|
  {
    if ms == [] then [] else [CodeOf(Step(t, ms[0]).replies)] + Codes(Step(t, ms[0]).sockets, ms[1..])
  }

  function CountOf(t: Table, k: Key): Option<int> {
    match Lookup(t, k)
    case None => None
    case Some(e) => Some(e.refcount)
  }

  lemma CountsLookup(t: Table, k: Key)
    ensures Find(Counts(t), k) == CountOf(t, k)
  {
    ViewLookup(t, k);
  }

  lemma ServeCount(t: Table, r: Request, o: OpenOutcome, k: Key)
    requires WellFormed(t)
    ensures CountOf(Serve(t, r, o).sockets, k) ==
            if k == r.key then CountOne(CountOf(t, r.key), r.op, o.Opens?).0 else CountOf(t, k)
  {
    ServeLookup(t, r, o, k);
  }

  lemma ServeCode(t: Table, r: Request, o: OpenOutcome)
    ensures CodeOf(Serve(t, r, o).replies) == Some(CountOne(CountOf(t, r.key), r.op, o.Opens?).1)
  {
  }

  lemma ServeFind(t: Table, r: Request, o: OpenOutcome, k: Key)
    requires WellFormed(t)
    ensures Find(Counts(Serve(t, r, o).sockets), k) == Find(Count(Counts(t), Input(Some(r), o.Opens?)).counts, k)
  {
    var u, c := Serve(t, r, o).sockets, Counts(t);
    CountsLookup(t, r.key);
    CountsLookup(t, k);
    CountsLookup(u, k);
    ServeCount(t, r, o, k);
    FindPut(c, r.key, CountOne(CountOf(t, r.key), r.op, o.Opens?).0, k);
  }

  lemma FindPut(m: map<Key, int>, key: Key, count: Option<int>, k: Key)
    ensures Find(Put(m, key, count), k) == if k == key then count else Find(m, k)
  {
  }

  lemma ServeCounts(t: Table, r: Request, o: OpenOutcome)
    requires WellFormed(t)
    ensures Counts(Serve(t, r, o).sockets) == Count(Counts(t), Input(Some(r), o.Opens?)).counts
    ensures CodeOf(Serve(t, r, o).replies) == Count(Counts(t), Input(Some(r), o.Opens?)).code
  {
    CountsLookup(t, r.key);
    ServeCode(t, r, o);
    forall k {
      ServeFind(t, r, o, k);
    }
    SameFinds(Counts(Serve(t, r, o).sockets), Count(Counts(t), Input(Some(r), o.Opens?)).counts);
  }

  /** Neither the order of the list nor the descriptors matter to the counts and codes. */
  lemma StepCounts(t: Table, m: Message)
    requires WellFormed(t)
    ensures Counts(Step(t, m).sockets) == Count(Counts(t), InputOf(m)).counts
    ensures CodeOf(Step(t, m).replies) == Count(Counts(t), InputOf(m)).code
  {
    if Parse(m.bytes).Some? {
      ServeCounts(t, Parse(m.bytes).value, m.outcome);
    }
  }

  lemma {:induction false} RunCounts(t: Table, ms: seq<Message>)
    requires WellFormed(t) && FreshRun(t, ms)
    ensures Counts(After(t, ms)) == CountAll(Counts(t), Inputs(ms))
    ensures Codes(t, ms) == CountCodes(Counts(t), Inputs(ms))
    decreases |ms|
  {
    if ms != [] {
      var next := Step(t, ms[0]).sockets;
      StepWellFormed(t, ms[0]);
      StepCounts(t, ms[0]);
      RunCounts(next, ms[1..]);
      assert Inputs(ms)[1..] == Inputs(ms[1..]);
    }
  }

  lemma CountsCommute(m: map<Key, int>, a: Input, b: Input)
    requires a.request.Some? && b.request.Some? && a.request.value.key != b.request.value.key
    ensures Count(Count(m, a).counts, b).counts == Count(Count(m, b).counts, a).counts
    ensures Count(Count(m, a).counts, b).code == Count(m, b).code
    ensures Count(Count(m, b).counts, a).code == Count(m, a).code
  {
  }

  lemma {:induction false} CountAppend(m: map<Key, int>, cs: seq<Input>, ds: seq<Input>)
    ensures CountAll(m, cs + ds) == CountAll(CountAll(m, cs), ds)
    ensures CountCodes(m, cs + ds) == CountCodes(m, cs) + CountCodes(CountAll(m, cs), ds)
    decreases |cs|
  {
    if cs == [] {
      assert cs + ds == ds;
    } else {
      assert (cs + ds)[1..] == cs[1..] + ds;
      CountAppend(Count(m, cs[0]).counts, cs[1..], ds);
    }
  }

  /** The sequence `s` with the entries at `n` and `n + 1` exchanged. */
  function Swapped<T>(s: seq<T>, n: nat): (r: seq<T>)
    requires n + 1 < |s|
    ensures |r| == |s|
  {
    s[n := s[n + 1]][n + 1 := s[n]]
  }

  lemma SwapInputs(m: map<Key, int>, cs: seq<Input>, n: nat)
    requires n + 1 < |cs| && cs[n].request.Some? && cs[n + 1].request.Some?
    requires cs[n].request.value.key != cs[n + 1].request.value.key
    ensures CountAll(m, Swapped(cs, n)) == CountAll(m, cs)
    ensures CountCodes(m, Swapped(cs, n)) == Swapped(CountCodes(m, cs), n)
  {
    var pre, a, b, post := cs[..n], cs[n], cs[n + 1], cs[n + 2..];
    assert cs == pre + ([a] + ([b] + post));
    assert Swapped(cs, n) == pre + ([b] + ([a] + post));
    var mid := CountAll(m, pre);
    CountAppend(m, pre, [a] + ([b] + post));
    CountAppend(m, pre, [b] + ([a] + post));
    CountsCommute(mid, a, b);
    CountPair(mid, a, b, post);
    CountPair(mid, b, a, post);
  }

  lemma CountPair(m: map<Key, int>, a: Input, b: Input, post: seq<Input>)
    ensures var m1 := Count(m, a).counts; var m2 := Count(m1, b).counts;
      && CountAll(m, [a] + ([b] + post)) == CountAll(m2, post)
      && CountCodes(m, [a] + ([b] + post)) == [Count(m, a).code] + ([Count(m1, b).code] + CountCodes(m2, post))
  {
    assert ([a] + ([b] + post))[1..] == [b] + post;
    assert ([b] + post)[1..] == post;
  }

  /** Commutation: exchanging two adjacent requests for different keys leaves every
      count and, request by request, every response code as it was. The descriptors
      that the kernel hands out may differ throughout; only whether each open would
      succeed is the same. */
  lemma AdjacentRequestsCommute(t: Table, ms: seq<Message>, ns: seq<Message>, n: nat)
    requires WellFormed(t) && FreshRun(t, ms) && FreshRun(t, ns)
    requires n + 1 < |ms| && IsRequest(ms[n]) && IsRequest(ms[n + 1])
    requires Parse(ms[n].bytes).value.key != Parse(ms[n + 1].bytes).value.key
    requires Inputs(ns) == Swapped(Inputs(ms), n)
    ensures Counts(After(t, ns)) == Counts(After(t, ms))
    ensures |ns| == |ms| && Codes(t, ns) == Swapped(Codes(t, ms), n)
  {
    RunCounts(t, ms);
    RunCounts(t, ns);
    SwapInputs(Counts(t), Inputs(ms), n);
  }
}
