/** Any number of processes that query one ECU over one shared socket. */
module QuerySystem {
  import opened Wire
  import SocketTable
  import opened Commands
  import opened Responses
  import opened Query

  /** A request that has been written: how many were written before it, and its command. */
  datatype Inquiry = Inquiry(number: nat, command: CommandId)

  /** A reply in the socket's queue, and the request that it answers. */
  datatype EcuReply = EcuReply(inquiry: Inquiry, datagram: seq<bv8>)

  /** Where a process stands in `OBDIIPerformQuery`. A query that ends without a reply ends
      with `None` (and the number it would have had, if the request was not written), and its
      process crashes if decoding the reply calls a null pointer. */
  datatype Pc =
    | Idle
    | Locking(command: CommandId)
    | Writing(command: CommandId)
    | Waiting(inquiry: Inquiry)
    | Unlocking(inquiry: Inquiry, got: Option<EcuReply>)
    | Crashed(inquiry: Inquiry)

  /** A query that has returned. */
  datatype Outcome = Outcome(inquiry: Inquiry, got: Option<EcuReply>)

  /** `written` and `read` count requests and datagrams; `pending` are the requests that the
      ECU has not dealt with, and `skipped` the numbers of those that it never answers;
      `abandoned` counts the queries that gave up after their request had been written. */
  datatype Queries = Queries(lock: Option<nat>, written: nat, pending: seq<Inquiry>, skipped: set<nat>,
                             queue: seq<EcuReply>, read: nat, abandoned: nat,
                             processes: seq<Pc>, returned: seq<Outcome>)

  datatype Action =
    | Begin(i: nat, command: CommandId)
    | Lock(i: nat)
    | LockFails(i: nat)
    | WriteFails(i: nat)
    | Write(i: nat)
    | EcuAnswers(datagram: seq<bv8>)
    | EcuSkips
    | GivesUp(i: nat)
    | Reads(i: nat)
    | Unlock(i: nat)

  predicate IsProcess(sys: Queries, i: nat) {
    i < |sys.processes|
  }

  predicate Enabled(sys: Queries, a: Action) {
    match a
    case Begin(i, _) => IsProcess(sys, i) && sys.processes[i] == Idle
    case Lock(i) => IsProcess(sys, i) && sys.processes[i].Locking? && sys.lock == None
    case LockFails(i) => IsProcess(sys, i) && sys.processes[i].Locking?
    case WriteFails(i) => IsProcess(sys, i) && sys.processes[i].Writing?
    case Write(i) => IsProcess(sys, i) && sys.processes[i].Writing?
    case EcuAnswers(_) => sys.pending != []
    case EcuSkips => sys.pending != []
    case GivesUp(i) => IsProcess(sys, i) && sys.processes[i].Waiting?
    case Reads(i) => IsProcess(sys, i) && sys.processes[i].Waiting? && sys.queue != []
    case Unlock(i) => IsProcess(sys, i) && sys.processes[i].Unlocking?
  }

  /** A query for the command succeeds if it reads the datagram. */
  predicate Accepts(k: CommandId, datagram: seq<bv8>) {
    Answer(TableCommand(k), datagram).success
  }

  function Move(sys: Queries, i: nat, pc: Pc): Queries
    requires IsProcess(sys, i)
  {
    sys.(processes := sys.processes[i := pc])
  }

  /** Gives the lock back and decodes what was read. */
  function Return(sys: Queries, i: nat): Queries
    requires IsProcess(sys, i) && sys.processes[i].Unlocking?
  {
    var Unlocking(inquiry, got) := sys.processes[i];
    var next := sys.(lock := if sys.lock == Some(i) then None else sys.lock);
    if TableCommand(inquiry.command).decoder == NoDecoder && got.Some? && Accepts(inquiry.command, got.value.datagram)
    then Move(next, i, Crashed(inquiry))
    else Move(next, i, Idle).(returned := sys.returned + [Outcome(inquiry, got)])
  }

  function Apply(sys: Queries, a: Action): Queries
    requires Enabled(sys, a)
  {
    match a
    case Begin(i, k) => Move(sys, i, Locking(k))
    case Lock(i) => Move(sys, i, Writing(sys.processes[i].command)).(lock := Some(i))
    // The result of locking is ignored: the query goes on without the lock.
    case LockFails(i) => Move(sys, i, Writing(sys.processes[i].command))
    case WriteFails(i) => Move(sys, i, Unlocking(Inquiry(sys.written, sys.processes[i].command), None))
    case Write(i) =>
      var inquiry := Inquiry(sys.written, sys.processes[i].command);
      Move(sys, i, Waiting(inquiry)).(written := sys.written + 1, pending := sys.pending + [inquiry])
    case EcuAnswers(d) =>
      sys.(pending := sys.pending[1..], queue := sys.queue + [EcuReply(sys.pending[0], d)])
    case EcuSkips =>
      sys.(pending := sys.pending[1..], skipped := sys.skipped + {sys.pending[0].number})
    // A timeout, a failed wait, or a failed read.
    case GivesUp(i) =>
      Move(sys, i, Unlocking(sys.processes[i].inquiry, None)).(abandoned := sys.abandoned + 1)
    case Reads(i) =>
      Move(sys, i, Unlocking(sys.processes[i].inquiry, Some(sys.queue[0])))
      .(queue := sys.queue[1..], read := sys.read + 1)
    case Unlock(i) => Return(sys, i)
  }

  /** `n` processes, a free lock, and nothing on the way. */
  function Init(n: nat): Queries {
    Queries(None, 0, [], {}, [], 0, 0, seq(n, _ => Idle), [])
  }

  predicate Possible(sys: Queries, run: seq<Action>)
    decreases |run|
  {
    run == [] || (Enabled(sys, run[0]) && Possible(Apply(sys, run[0]), run[1..]))
  }

  function Execute(sys: Queries, run: seq<Action>): Queries
    requires Possible(sys, run)
    decreases |run|
  {
    if run == [] then sys else Execute(Apply(sys, run[0]), run[1..])
  }

  /** The lock is granted to everyone who waits for it. */
  predicate LocksGranted(run: seq<Action>) {
    forall n :: 0 <= n < |run| ==> !run[n].LockFails?
  }

  // ---------- The order of replies ----------

  /** The numbers below `written` that are not skipped, in ascending order. */
  function Kept(written: nat, skipped: set<nat>): seq<nat> {
    if written == 0 then []
    else Kept(written - 1, skipped) + if written - 1 in skipped then [] else [written - 1]
  }

  /** Every number of the sequence is below `bound`, and below those that follow it. */
  predicate IncreasesBelow(ns: seq<nat>, bound: nat) {
    && (forall i, j :: 0 <= i < j < |ns| ==> ns[i] < ns[j])
    && (forall i :: 0 <= i < |ns| ==> ns[i] < bound)
  }

  lemma {:induction false} KeptAscends(written: nat, skipped: set<nat>)
    ensures IncreasesBelow(Kept(written, skipped), written)
    ensures forall n :: n in Kept(written, skipped) ==> n !in skipped
  {
    if written > 0 {
      KeptAscends(written - 1, skipped);
    }
  }

  lemma {:induction false} KeptBelow(written: nat, skipped: set<nat>, n: nat)
    requires n >= written
    ensures Kept(written, skipped + {n}) == Kept(written, skipped)
  {
    if written > 0 {
      KeptBelow(written - 1, skipped, n);
    }
  }

  /** Skipping one more number takes it out. */
  lemma {:induction false} KeptSkips(written: nat, skipped: set<nat>, i: nat)
    requires i < |Kept(written, skipped)|
    ensures Kept(written, skipped + {Kept(written, skipped)[i]}) == SocketTable.Without(Kept(written, skipped), i)
  {
    var ns := Kept(written - 1, skipped);
    KeptAscends(written - 1, skipped);
    if i < |ns| {
      KeptSkips(written - 1, skipped, i);
    } else {
      KeptBelow(written - 1, skipped, written - 1);
    }
  }

  /** The numbers of the requests whose replies are still to be read, oldest first. */
  function Numbers(sys: Queries): (ns: seq<nat>)
    ensures |ns| == |sys.queue| + |sys.pending|
  {
    seq(|sys.queue|, j requires 0 <= j < |sys.queue| => sys.queue[j].inquiry.number)
    + seq(|sys.pending|, j requires 0 <= j < |sys.pending| => sys.pending[j].number)
  }

  /** Replies come in the order of the requests: of those not skipped, the first `read`
      have been answered and read, and the others are on the way. */
  ghost predicate InOrder(sys: Queries) {
    && (forall n :: n in sys.skipped ==> n < sys.written)
    && sys.read + |Numbers(sys)| + |sys.skipped| == sys.written
    && sys.read <= |Kept(sys.written, sys.skipped)|
    && Kept(sys.written, sys.skipped)[sys.read..] == Numbers(sys)
  }

  lemma WriteKeepsOrder(sys: Queries, i: nat)
    requires InOrder(sys) && Enabled(sys, Write(i))
    ensures InOrder(Apply(sys, Write(i)))
  {
    var after := Apply(sys, Write(i));
    assert Numbers(after) == Numbers(sys) + [sys.written];
  }

  lemma AnswerKeepsOrder(sys: Queries, d: seq<bv8>)
    requires InOrder(sys) && Enabled(sys, EcuAnswers(d))
    ensures InOrder(Apply(sys, EcuAnswers(d)))
  {
    assert Numbers(Apply(sys, EcuAnswers(d))) == Numbers(sys);
  }

  lemma SkipKeepsOrder(sys: Queries)
    requires InOrder(sys) && Enabled(sys, EcuSkips)
    ensures InOrder(Apply(sys, EcuSkips))
  {
    var ns, i := Kept(sys.written, sys.skipped), sys.read + |sys.queue|;
    KeptAscends(sys.written, sys.skipped);
    assert ns[i] == ns[sys.read..][|sys.queue|] == sys.pending[0].number;
    KeptSkips(sys.written, sys.skipped, i);
    NumbersSkip(sys);
    WithoutTail(ns, sys.read, |sys.queue|);
  }

  lemma NumbersSkip(sys: Queries)
    requires Enabled(sys, EcuSkips)
    ensures Numbers(Apply(sys, EcuSkips)) == SocketTable.Without(Numbers(sys), |sys.queue|)
  {
  }

  lemma WithoutTail(ns: seq<nat>, read: nat, i: nat)
    requires read + i < |ns|
    ensures SocketTable.Without(ns, read + i)[read..] == SocketTable.Without(ns[read..], i)
  {
  }

  lemma ReadKeepsOrder(sys: Queries, i: nat)
    requires InOrder(sys) && Enabled(sys, Reads(i))
    ensures InOrder(Apply(sys, Reads(i)))
  {
    assert Numbers(Apply(sys, Reads(i))) == Numbers(sys)[1..];
  }

  lemma StepKeepsOrder(sys: Queries, a: Action)
    requires InOrder(sys) && Enabled(sys, a)
    ensures InOrder(Apply(sys, a))
  {
    match a
    case Write(i) => WriteKeepsOrder(sys, i);
    case EcuAnswers(d) => AnswerKeepsOrder(sys, d);
    case EcuSkips => SkipKeepsOrder(sys);
    case Reads(i) => ReadKeepsOrder(sys, i);
    case _ => assert Numbers(Apply(sys, a)) == Numbers(sys);
  }

  lemma {:induction false} RunKeepsOrder(sys: Queries, run: seq<Action>)
    requires InOrder(sys) && Possible(sys, run)
    ensures InOrder(Execute(sys, run))
    decreases |run|
  {
    if run != [] {
      StepKeepsOrder(sys, run[0]);
      RunKeepsOrder(Apply(sys, run[0]), run[1..]);
    }
  }

  /** In every run, whoever reads next reads the reply to the request that is number `read`
      among those not skipped. */
  lemma RunIsInOrder(n: nat, run: seq<Action>)
    requires Possible(Init(n), run)
    ensures InOrder(Execute(Init(n), run))
  {
    RunKeepsOrder(Init(n), run);
  }

  // ---------- Exclusion ----------

  /** The process is between locking and unlocking. */
  predicate Critical(pc: Pc) {
    pc.Writing? || pc.Waiting? || pc.Unlocking?
  }

  /** The requests under way that were not abandoned. */
  function UnderWay(sys: Queries): nat {
    if sys.lock.Some? && sys.lock.value < |sys.processes| && sys.processes[sys.lock.value].Waiting? then 1 else 0
  }

  ghost predicate Exclusive(sys: Queries) {
    && (forall i :: 0 <= i < |sys.processes| ==> (Critical(sys.processes[i]) <==> sys.lock == Some(i)))
    && sys.written == sys.read + sys.abandoned + UnderWay(sys)
    && (forall i :: 0 <= i < |sys.processes| && sys.processes[i].Waiting? ==>
          sys.processes[i].inquiry.number == sys.written - 1)
  }

  lemma StepKeepsExclusive(sys: Queries, a: Action)
    requires Exclusive(sys) && Enabled(sys, a) && !a.LockFails?
    ensures Exclusive(Apply(sys, a))
  {
  }

  lemma {:induction false} RunKeepsExclusive(sys: Queries, run: seq<Action>)
    requires Exclusive(sys) && Possible(sys, run) && LocksGranted(run)
    ensures Exclusive(Execute(sys, run))
    decreases |run|
  {
    if run != [] {
      StepKeepsExclusive(sys, run[0]);
      RunKeepsExclusive(Apply(sys, run[0]), run[1..]);
    }
  }

  lemma RunIsExclusive(n: nat, run: seq<Action>)
    requires Possible(Init(n), run) && LocksGranted(run)
    ensures Exclusive(Execute(Init(n), run))
  {
    RunKeepsExclusive(Init(n), run);
  }

  lemma StepKeepsProcesses(sys: Queries, a: Action)
    requires Enabled(sys, a)
    ensures |Apply(sys, a).processes| == |sys.processes|
  {
  }

  lemma {:induction false} RunKeepsProcesses(sys: Queries, run: seq<Action>)
    requires Possible(sys, run)
    ensures |Execute(sys, run).processes| == |sys.processes|
    decreases |run|
  {
    if run != [] {
      StepKeepsProcesses(sys, run[0]);
      RunKeepsProcesses(Apply(sys, run[0]), run[1..]);
    }
  }

  /** The run of `n` processes ends with `i` and `j` between locking and unlocking. */
  predicate BothCritical(n: nat, run: seq<Action>, i: nat, j: nat) {
    && Possible(Init(n), run)
    && var sys := Execute(Init(n), run);
      IsProcess(sys, i) && IsProcess(sys, j) && Critical(sys.processes[i]) && Critical(sys.processes[j])
  }

  /** If locks are granted, at most one process is between locking and unlocking. */
  lemma AtMostOneCritical(n: nat, run: seq<Action>, i: nat, j: nat)
    requires BothCritical(n, run, i, j) && LocksGranted(run)
    ensures i == j
  {
    RunIsExclusive(n, run);
  }

  /** Without that, any two processes can write at the same time, since the result of
      locking is not looked at. */
  lemma FailedLockIsIgnored(n: nat, i: nat, j: nat, k: CommandId) returns (run: seq<Action>)
    requires i < n && j < n && i != j
    ensures BothCritical(n, run, i, j)
    ensures var ps := Execute(Init(n), run).processes; ps[i] == Writing(k) && ps[j] == Writing(k)
  {
    var s0 := Init(n);
    var s1 := Apply(s0, Begin(i, k));
    var s2 := Apply(s1, Begin(j, k));
    var s3 := Apply(s2, Lock(i));
    run := Before(s3, LockFails(j), []);
    run := Before(s2, Lock(i), run);
    run := Before(s1, Begin(j, k), run);
    run := Before(s0, Begin(i, k), run);
  }

  /** Mutual exclusion holds in all runs exactly if there is at most one process, or no
      attempt to lock fails. */
  lemma ExclusionIff(n: nat, mayFail: bool)
    ensures (forall run, i, j :: BothCritical(n, run, i, j) && (mayFail || LocksGranted(run)) ==> i == j) <==>
            n < 2 || !mayFail
  {
    if n < 2 || !mayFail {
      forall run, i, j | BothCritical(n, run, i, j) && (mayFail || LocksGranted(run))
        ensures i == j
      {
        RunKeepsProcesses(Init(n), run);
        if !mayFail {
          AtMostOneCritical(n, run, i, j);
        }
      }
    } else {
      var run := FailedLockIsIgnored(n, 0, 1, 0);
      assert BothCritical(n, run, 0, 1);
    }
  }

  // ---------- Whose reply is read ----------

  /** The last request is the last of those not skipped, or is itself skipped. */
  lemma LastKept(written: nat, skipped: set<nat>, i: nat)
    requires written > 0 && i < |Kept(written, skipped)|
    ensures Kept(written, skipped)[i] == written - 1 <==>
            written - 1 !in skipped && i == |Kept(written, skipped)| - 1
  {
    KeptAscends(written, skipped);
    var ns := Kept(written, skipped);
    if written - 1 !in skipped {
      assert ns[|ns| - 1] == written - 1;
    }
  }

  /** A query reads the reply to its own request exactly if as many requests have been
      skipped as abandoned, its own not among them; otherwise it reads an older reply. */
  lemma OwnReplyIff(n: nat, run: seq<Action>, i: nat)
    requires Possible(Init(n), run) && LocksGranted(run)
    requires Enabled(Execute(Init(n), run), Reads(i))
    ensures var sys := Execute(Init(n), run);
      var own, next := sys.processes[i].inquiry.number, sys.queue[0].inquiry.number;
      && next <= own
      && (next == own <==> sys.abandoned == |sys.skipped| && own !in sys.skipped)
  {
    RunIsExclusive(n, run);
    RunIsInOrder(n, run);
    var sys := Execute(Init(n), run);
    OwnReply(sys, i);
  }

  lemma OwnReply(sys: Queries, i: nat)
    requires InOrder(sys) && Exclusive(sys) && Enabled(sys, Reads(i))
    ensures var own, next := sys.processes[i].inquiry.number, sys.queue[0].inquiry.number;
      && next <= own
      && (next == own <==> sys.abandoned == |sys.skipped| && own !in sys.skipped)
  {
    assert Critical(sys.processes[i]);
    var ns := Kept(sys.written, sys.skipped);
    assert ns[sys.read] == ns[sys.read..][0] == Numbers(sys)[0] == sys.queue[0].inquiry.number;
    KeptAscends(sys.written, sys.skipped);
    LastKept(sys.written, sys.skipped, sys.read);
  }

  /** Whenever the lock is free, as many replies are on the way as queries were abandoned,
      less those that the ECU never answers. */
  lemma BacklogIsAbandoned(n: nat, run: seq<Action>)
    requires Possible(Init(n), run) && LocksGranted(run)
    ensures var sys := Execute(Init(n), run);
      sys.lock == None ==> |sys.queue| + |sys.pending| == sys.abandoned - |sys.skipped|
  {
    RunIsExclusive(n, run);
    RunIsInOrder(n, run);
  }

  /** No step of the run is a failure. */
  predicate Flawless(run: seq<Action>) {
    forall n :: 0 <= n < |run| ==> !run[n].LockFails? && !run[n].WriteFails? && !run[n].GivesUp?
  }

  predicate Own(inquiry: Inquiry, got: Option<EcuReply>) {
    got.Some? && got.value.inquiry.number == inquiry.number
  }

  /** Nobody has given up, and every reply that was read was the reader's own. */
  ghost predicate AllOwn(sys: Queries) {
    && sys.abandoned == 0
    && (forall i :: 0 <= i < |sys.processes| && sys.processes[i].Unlocking? ==>
          Own(sys.processes[i].inquiry, sys.processes[i].got))
    && (forall n :: 0 <= n < |sys.returned| ==> Own(sys.returned[n].inquiry, sys.returned[n].got))
  }

  lemma {:induction false} FlawlessRunKeepsOwn(sys: Queries, run: seq<Action>)
    requires InOrder(sys) && Exclusive(sys) && AllOwn(sys) && Possible(sys, run) && Flawless(run)
    ensures AllOwn(Execute(sys, run))
    decreases |run|
  {
    if run != [] {
      StepKeepsOrder(sys, run[0]);
      StepKeepsExclusive(sys, run[0]);
      StepKeepsOwn(sys, run[0]);
      FlawlessRunKeepsOwn(Apply(sys, run[0]), run[1..]);
    }
  }

  lemma StepKeepsOwn(sys: Queries, a: Action)
    requires InOrder(sys) && Exclusive(sys) && AllOwn(sys) && Enabled(sys, a)
    requires !a.LockFails? && !a.WriteFails? && !a.GivesUp?
    ensures AllOwn(Apply(sys, a))
  {
    if a.Reads? {
      OwnReply(sys, a.i);
      assert Critical(sys.processes[a.i]);
      assert sys.skipped == {};
    }
  }

  /** If nothing fails, every query that returns has read the reply to its own request,
      and nothing is on the way when the lock is free. */
  lemma FlawlessRunsAnswerEveryQuery(n: nat, run: seq<Action>)
    requires Possible(Init(n), run) && Flawless(run)
    ensures var sys := Execute(Init(n), run);
      && (forall m :: 0 <= m < |sys.returned| ==> Own(sys.returned[m].inquiry, sys.returned[m].got))
      && (sys.lock == None ==> sys.queue == [] && sys.pending == [])
  {
    FlawlessRunKeepsOwn(Init(n), run);
    BacklogIsAbandoned(n, run);
  }

  // ---------- What success means ----------

  /** A query that reports success has decoded a reply to its mode, and in modes 1 and 9
      to its PID, even if the reply was not to its own request. */
  lemma SuccessIsForTheCommand(k: CommandId, datagram: seq<bv8>)
    requires Accepts(k, datagram)
    ensures var c := TableCommand(k);
      && |datagram| > 0 && datagram[0] as int == c.mode + 0x40
      && (c.mode == 0x01 || c.mode == 0x09 ==> |datagram| > 1 && datagram[1] as int == c.pid)
  {
    var c := TableCommand(k);
    SuccessMatchesCommand(c, Accept(c, datagram).value);
  }

  /** Validation tells all commands apart: a reply that one of them accepts is accepted by
      no other. */
  lemma AcceptedByOne(k: CommandId, l: CommandId, datagram: seq<bv8>)
    requires Accepts(k, datagram)
    ensures Accepts(l, datagram) <==> k == l
  {
    SuccessIsForTheCommand(k, datagram);
    if Accepts(l, datagram) {
      SuccessIsForTheCommand(l, datagram);
    }
  }

  /** Any query that reads a reply, stale or not, and succeeds. */
  lemma SuccessfulQueriesMatch(o: Outcome)
    requires o.got.Some? && Accepts(o.inquiry.command, o.got.value.datagram)
    ensures var c, d := TableCommand(o.inquiry.command), o.got.value.datagram;
      && |d| > 0 && d[0] as int == c.mode + 0x40
      && (c.mode == 0x01 || c.mode == 0x09 ==> |d| > 1 && d[1] as int == c.pid)
  {
    SuccessIsForTheCommand(o.inquiry.command, o.got.value.datagram);
  }

  /** Whatever the ECU answers is a valid reply to the request that it answers. */
  predicate Honest(sys: Queries, run: seq<Action>)
    requires Possible(sys, run)
    decreases |run|
  {
    run == []
    || ((run[0].EcuAnswers? ==> Accepts(sys.pending[0].command, run[0].datagram))
        && Honest(Apply(sys, run[0]), run[1..]))
  }

  lemma Before(sys: Queries, a: Action, run: seq<Action>) returns (longer: seq<Action>)
    requires Enabled(sys, a) && Possible(Apply(sys, a), run)
    ensures Possible(sys, longer) && Execute(sys, longer) == Execute(Apply(sys, a), run)
    ensures longer == [a] + run
    ensures Honest(Apply(sys, a), run) && (a.EcuAnswers? ==> Accepts(sys.pending[0].command, a.datagram)) ==>
              Honest(sys, longer)
  {
    longer := [a] + run;
    assert longer[1..] == run;
  }

  predicate IsValid(reply: EcuReply) {
    Accepts(reply.inquiry.command, reply.datagram)
  }

  ghost predicate RepliesAreValid(sys: Queries) {
    && (forall j :: 0 <= j < |sys.queue| ==> IsValid(sys.queue[j]))
    && (forall i :: 0 <= i < |sys.processes| && sys.processes[i].Unlocking? && sys.processes[i].got.Some? ==>
          IsValid(sys.processes[i].got.value))
    && (forall m :: 0 <= m < |sys.returned| && sys.returned[m].got.Some? ==> IsValid(sys.returned[m].got.value))
  }

  lemma StepKeepsValidity(sys: Queries, a: Action)
    requires RepliesAreValid(sys) && Enabled(sys, a)
    requires a.EcuAnswers? ==> Accepts(sys.pending[0].command, a.datagram)
    ensures RepliesAreValid(Apply(sys, a))
  {
  }

  lemma {:induction false} HonestRunKeepsValidity(sys: Queries, run: seq<Action>)
    requires RepliesAreValid(sys) && Possible(sys, run) && Honest(sys, run)
    ensures RepliesAreValid(Execute(sys, run))
    decreases |run|
  {
    if run != [] {
      StepKeepsValidity(sys, run[0]);
      HonestRunKeepsValidity(Apply(sys, run[0]), run[1..]);
    }
  }

  /** A query that read a reply succeeds exactly if the reply is to its own command. */
  predicate SucceedsIffSame(o: Outcome) {
    o.got.Some? ==>
      (Accepts(o.inquiry.command, o.got.value.datagram) <==> o.got.value.inquiry.command == o.inquiry.command)
  }

  /** If every reply is valid for the request that it answers, a query that read a reply
      succeeds exactly if that reply answers a request for the same command. */
  lemma SuccessIffSameCommand(n: nat, run: seq<Action>)
    requires Possible(Init(n), run) && Honest(Init(n), run)
    ensures forall o :: o in Execute(Init(n), run).returned ==> SucceedsIffSame(o)
  {
    HonestRunKeepsValidity(Init(n), run);
    forall o | o in Execute(Init(n), run).returned && o.got.Some?
      ensures SucceedsIffSame(o)
    {
      AcceptedByOne(o.got.value.inquiry.command, o.inquiry.command, o.got.value.datagram);
    }
  }

  /** A query for the vehicle speed, and a reply that it accepts. */
  lemma SpeedReply() returns (k: CommandId, d: seq<bv8>)
    ensures Accepts(k, d)
  {
    k, d := 0x0D, [0x41, 0x0D, 0x50];
    assert TableCommand(k) == MODE1_00[0x0D];
  }

  /** A query whose request has been answered after it gave up. */
  function AfterTimeout(k: CommandId, d: seq<bv8>): Queries {
    Queries(None, 1, [], {}, [EcuReply(Inquiry(0, k), d)], 0, 1, [Idle, Idle], [Outcome(Inquiry(0, k), None)])
  }

  /** A query that is about to give up. */
  function BeforeTimeout(k: CommandId): Queries {
    Queries(Some(0), 1, [Inquiry(0, k)], {}, [], 0, 0, [Waiting(Inquiry(0, k)), Idle], [])
  }

  lemma StartsFirst(k: CommandId, rest: seq<Action>) returns (run: seq<Action>)
    requires Possible(BeforeTimeout(k), rest)
    ensures Possible(Init(2), run) && Execute(Init(2), run) == Execute(BeforeTimeout(k), rest)
    ensures LocksGranted(rest) ==> LocksGranted(run)
    ensures Honest(BeforeTimeout(k), rest) ==> Honest(Init(2), run)
  {
    var s0 := Init(2);
    var s1 := Apply(s0, Begin(0, k));
    var s2 := Apply(s1, Lock(0));
    assert Apply(s2, Write(0)) == BeforeTimeout(k);
    run := Before(s2, Write(0), rest);
    run := Before(s1, Lock(0), run);
    run := Before(s0, Begin(0, k), run);
  }

  lemma TimesOutFirst(k: CommandId, d: seq<bv8>, rest: seq<Action>) returns (run: seq<Action>)
    requires Possible(AfterTimeout(k, d), rest)
    ensures Possible(Init(2), run) && Execute(Init(2), run) == Execute(AfterTimeout(k, d), rest)
    ensures LocksGranted(rest) ==> LocksGranted(run)
    ensures Accepts(k, d) && Honest(AfterTimeout(k, d), rest) ==> Honest(Init(2), run)
  {
    var s0 := BeforeTimeout(k);
    var s1 := Apply(s0, GivesUp(0));
    var s2 := Apply(s1, Unlock(0));
    assert Apply(s2, EcuAnswers(d)) == AfterTimeout(k, d);
    run := Before(s2, EcuAnswers(d), rest);
    run := Before(s1, Unlock(0), run);
    run := Before(s0, GivesUp(0), run);
    run := StartsFirst(k, run);
  }

  lemma ReadsStale(k: CommandId, d: seq<bv8>, l: CommandId) returns (run: seq<Action>)
    ensures Possible(AfterTimeout(k, d), run) && LocksGranted(run) && Honest(AfterTimeout(k, d), run)
    ensures var sys := Execute(AfterTimeout(k, d), run);
      |sys.processes| == 2 && sys.processes[1] == Unlocking(Inquiry(1, l), Some(EcuReply(Inquiry(0, k), d)))
  {
    var s0 := AfterTimeout(k, d);
    var s1 := Apply(s0, Begin(1, l));
    var s2 := Apply(s1, Lock(1));
    var s3 := Apply(s2, Write(1));
    var s4 := Apply(s3, Reads(1));
    run := Before(s3, Reads(1), []);
    run := Before(s2, Write(1), run);
    run := Before(s1, Lock(1), run);
    run := Before(s0, Begin(1, l), run);
  }

  /** A query that follows one that timed out can read the late reply to it, with all locks
      granted; it succeeds with that reply exactly if both are for the same command. */
  lemma StaleReplySucceeds(k: CommandId, d: seq<bv8>, l: CommandId) returns (run: seq<Action>)
    requires Accepts(k, d)
    ensures Possible(Init(2), run) && LocksGranted(run) && Honest(Init(2), run)
    ensures var sys := Execute(Init(2), run);
      |sys.processes| == 2 && sys.processes[1] == Unlocking(Inquiry(1, l), Some(EcuReply(Inquiry(0, k), d)))
    ensures Accepts(l, d) <==> k == l
  {
    run := ReadsStale(k, d, l);
    run := TimesOutFirst(k, d, run);
    AcceptedByOne(k, l, d);
  }

  // ---------- The steps of one query ----------

  /** The process that takes the step, if it is not the ECU's. */
  function Actor(a: Action): Option<nat> {
    if a.EcuAnswers? || a.EcuSkips? then None else Some(a.i)
  }

  predicate NoStepOf(run: seq<Action>, i: nat) {
    forall n :: 0 <= n < |run| ==> Actor(run[n]) != Some(i)
  }

  function Datagrams(queue: seq<EcuReply>): (ds: seq<seq<bv8>>)
    ensures |ds| == |queue|
  {
    seq(|queue|, j requires 0 <= j < |queue| => queue[j].datagram)
  }

  /** The datagrams that arrive in the course of a run. */
  function Arriving(run: seq<Action>): seq<seq<bv8>> {
    if run == [] then []
    else (if run[0].EcuAnswers? then [run[0].datagram] else []) + Arriving(run[1..])
  }

  lemma OthersDoNotRead(sys: Queries, i: nat, a: Action)
    requires Exclusive(sys) && IsProcess(sys, i) && sys.processes[i].Waiting?
    requires Enabled(sys, a) && Actor(a) != Some(i)
    ensures var after := Apply(sys, a);
      && IsProcess(after, i) && after.processes[i] == sys.processes[i]
      && Datagrams(after.queue) == Datagrams(sys.queue) + if a.EcuAnswers? then [a.datagram] else []
  {
    assert Critical(sys.processes[i]);
    assert a.Reads? ==> Critical(sys.processes[a.i]);
  }

  /** As long as a process waits, the others, which do not have the lock, read nothing. */
  lemma {:induction false} OnlyArrivals(sys: Queries, i: nat, run: seq<Action>)
    requires Exclusive(sys) && IsProcess(sys, i) && sys.processes[i].Waiting?
    requires Possible(sys, run) && LocksGranted(run) && NoStepOf(run, i)
    ensures var after := Execute(sys, run);
      && IsProcess(after, i) && after.processes[i] == sys.processes[i]
      && Datagrams(after.queue) == Datagrams(sys.queue) + Arriving(run)
    decreases |run|
  {
    if run != [] {
      StepKeepsExclusive(sys, run[0]);
      OthersDoNotRead(sys, i, run[0]);
      OnlyArrivals(Apply(sys, run[0]), i, run[1..]);
      ArrivingStep(Datagrams(sys.queue), run);
    }
  }

  lemma ArrivingStep(ds: seq<seq<bv8>>, run: seq<Action>)
    requires run != []
    ensures ds + Arriving(run) == (ds + if run[0].EcuAnswers? then [run[0].datagram] else []) + Arriving(run[1..])
  {
  }

  /** What a query that ends with `got` makes of it. */
  function ResponseTo(k: CommandId, got: Option<EcuReply>): Decoded {
    if got.None? then FAILED else Answer(TableCommand(k), got.value.datagram)
  }

  /** Process `i` is about to end the query `inquiry` as `Ask` says: it will crash if and
      only if `Ask` does, and otherwise return the response. */
  predicate EndsAs(sys: Queries, i: nat, inquiry: Inquiry, queue: seq<seq<bv8>>, ev: LinkEvent) {
    && Enabled(sys, Unlock(i))
    && var c, next, n := TableCommand(inquiry.command), Apply(sys, Unlock(i)), |sys.returned|;
      && sys.processes[i].inquiry == inquiry
      && Queried(Datagrams(sys.queue), ResponseTo(inquiry.command, sys.processes[i].got)) == Ask(queue, c, ev)
      && if AskCrashes(queue, c, ev) then
           next.processes[i] == Crashed(inquiry) && next.returned == sys.returned
         else
           && next.processes[i] == Idle
           && |next.returned| == n + 1 && next.returned[..n] == sys.returned
           && next.returned[n].inquiry == inquiry
           && ResponseTo(inquiry.command, next.returned[n].got) == Ask(queue, c, ev).response
  }

  lemma EndsAsAsk(sys: Queries, i: nat, inquiry: Inquiry, queue: seq<seq<bv8>>, ev: LinkEvent)
    requires IsProcess(sys, i) && sys.processes[i].Unlocking? && sys.processes[i].inquiry == inquiry
    requires Queried(Datagrams(sys.queue), ResponseTo(inquiry.command, sys.processes[i].got)) ==
             Ask(queue, TableCommand(inquiry.command), ev)
    ensures EndsAs(sys, i, inquiry, queue, ev)
  {
  }

  /** The steps of a process, with any steps of the ECU and of others in between, leave the
      queue and return the response that one undisturbed query does. */
  lemma StepsAreAsk(sys: Queries, i: nat, run: seq<Action>, selectFails: bool, readFails: bool)
    requires Exclusive(sys) && Enabled(sys, Write(i))
    requires Possible(Apply(sys, Write(i)), run) && LocksGranted(run) && NoStepOf(run, i)
    ensures var waited := Execute(Apply(sys, Write(i)), run);
      var end := if waited.queue == [] || selectFails || readFails then GivesUp(i) else Reads(i);
      && Enabled(waited, end)
      && EndsAs(Apply(waited, end), i, Inquiry(sys.written, sys.processes[i].command),
                Datagrams(sys.queue), Waits(Arriving(run), selectFails, readFails))
  {
    var started, inquiry := Apply(sys, Write(i)), Inquiry(sys.written, sys.processes[i].command);
    StepKeepsExclusive(sys, Write(i));
    OnlyArrivals(started, i, run);
    var waited := Execute(started, run);
    var ev := Waits(Arriving(run), selectFails, readFails);
    if waited.queue == [] || selectFails || readFails {
      EndsAsAsk(Apply(waited, GivesUp(i)), i, inquiry, Datagrams(sys.queue), ev);
    } else {
      assert Datagrams(waited.queue[1..]) == Datagrams(waited.queue)[1..];
      EndsAsAsk(Apply(waited, Reads(i)), i, inquiry, Datagrams(sys.queue), ev);
    }
  }

  lemma FailedWriteIsAsk(sys: Queries, i: nat)
    requires Enabled(sys, Action.WriteFails(i))
    ensures var after := Apply(sys, Action.WriteFails(i));
      EndsAs(after, i, Inquiry(sys.written, sys.processes[i].command), Datagrams(sys.queue), LinkEvent.WriteFails)
  {
    var inquiry := Inquiry(sys.written, sys.processes[i].command);
    EndsAsAsk(Apply(sys, Action.WriteFails(i)), i, inquiry, Datagrams(sys.queue), LinkEvent.WriteFails);
  }

  // ---------- No query is lost ----------

  /** The processes that are in a query, or have crashed in one. */
  function Busy(processes: seq<Pc>): nat {
    if processes == [] then 0 else (if processes[0] == Idle then 0 else 1) + Busy(processes[1..])
  }

  /** The queries that are begun in a run. */
  function Begun(run: seq<Action>): nat {
    if run == [] then 0 else (if run[0].Begin? then 1 else 0) + Begun(run[1..])
  }

  lemma {:induction false} BusyUpdate(processes: seq<Pc>, i: nat, pc: Pc)
    requires i < |processes|
    ensures Busy(processes[i := pc]) ==
            Busy(processes) - (if processes[i] == Idle then 0 else 1) + (if pc == Idle then 0 else 1)
  {
    if i == 0 {
      assert processes[i := pc][1..] == processes[1..];
    } else {
      assert processes[i := pc][1..] == processes[1..][i - 1 := pc];
      BusyUpdate(processes[1..], i - 1, pc);
    }
  }

  /** Steps keep the number of queries, but for the one that begins. */
  lemma StepCountsQueries(sys: Queries, a: Action)
    requires Enabled(sys, a)
    ensures var after := Apply(sys, a);
      |after.returned| + Busy(after.processes) ==
      |sys.returned| + Busy(sys.processes) + if a.Begin? then 1 else 0
  {
    var after := Apply(sys, a);
    if Actor(a).Some? {
      BusyUpdate(sys.processes, a.i, after.processes[a.i]);
    }
  }

  lemma {:induction false} RunCountsQueries(sys: Queries, run: seq<Action>)
    requires Possible(sys, run)
    ensures var after := Execute(sys, run);
      |after.returned| + Busy(after.processes) == |sys.returned| + Busy(sys.processes) + Begun(run)
    decreases |run|
  {
    if run != [] {
      StepCountsQueries(sys, run[0]);
      RunCountsQueries(Apply(sys, run[0]), run[1..]);
    }
  }

  lemma {:induction false} NobodyIsBusy(n: nat)
    ensures Busy(seq(n, _ => Idle)) == 0
  {
    if n > 0 {
      assert seq(n, _ => Idle)[1..] == seq(n - 1, _ => Idle);
      NobodyIsBusy(n - 1);
    }
  }

  /** In every run, each query that was begun has returned, is under way, or has crashed. */
  lemma EveryQueryReturns(n: nat, run: seq<Action>)
    requires Possible(Init(n), run)
    ensures var sys := Execute(Init(n), run); Begun(run) == |sys.returned| + Busy(sys.processes)
  {
    RunCountsQueries(Init(n), run);
    NobodyIsBusy(n);
  }
}
