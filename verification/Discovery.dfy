/** Discovery of the supported commands: a chain of queries, and the list that is
    built from the bits they return. */
module Discovery {
  import opened Bits
  import opened Commands
  import opened Query

  /** The mode 1 PIDs 0x41 to 0x4E: bits 31 to 18. */
  const MODE1_41_MASK: bv32 := 0xFFFC0000

  /** The mode 9 PIDs 1 to 3: bits 31 to 29. */
  const MODE9_MASK: bv32 := 0xE0000000

  // ---------- The chain of queries ----------

  /** What happens on the link during each of the queries that may be made. */
  datatype Script = Script(e01: LinkEvent, e21: LinkEvent, e41: LinkEvent, e09: LinkEvent)

  datatype Discovered = Discovered(queue: seq<seq<bv8>>, words: PidWords)

  function DiscoverMode9(queue: seq<seq<bv8>>, w01: bv32, w21: bv32, w41: bv32, ev: LinkEvent): Discovered {
    var q := Ask(queue, Mode9Command(0x00), ev);
    Discovered(q.queue, PidWords(w01, w21, w41, 0, q.response.bitfield & MODE9_MASK))
  }

  /** From the query for PIDs 41 to 60 on. */
  function Discover41(queue: seq<seq<bv8>>, w01: bv32, w21: bv32, script: Script): Discovered {
    var q := Ask(queue, Mode1Command(0x40), script.e41);
    DiscoverMode9(q.queue, w01, w21, q.response.bitfield & MODE1_41_MASK, script.e09)
  }

  /** From the query for PIDs 21 to 40 on. */
  function Discover21(queue: seq<seq<bv8>>, w01: bv32, script: Script): Discovered {
    var q := Ask(queue, Mode1Command(0x20), script.e21);
    var w21 := q.response.bitfield;
    if w21 & 0x01 == 0 then DiscoverMode9(q.queue, w01, w21, 0, script.e09)
    else Discover41(q.queue, w01, w21, script)
  }

  /** The words that the queries come to; a query that fails returns zero. */
  function Discover(queue: seq<seq<bv8>>, script: Script): Discovered {
    var q := Ask(queue, Mode1Command(0x00), script.e01);
    var w01 := q.response.bitfield;
    if w01 & 0x01 == 0 then DiscoverMode9(q.queue, w01, 0, 0, script.e09)
    else Discover21(q.queue, w01, script)
  }

  /** No bit of `w` below position `lo` is set. */
  ghost predicate NoneBelow(w: bv32, lo: nat)
    requires lo <= 32
  {
    forall n :: 0 <= n < lo ==> !Bit(w, n)
  }

  /** A group of PIDs is filled in only if the group before it says that it is there,
      and only the bits of PIDs 1 to 0x4E of mode 1 and 1 to 3 of mode 9 can be set. */
  ghost predicate Chained(words: PidWords) {
    && (words.w21 != 0 ==> Bit(words.w01, 0))
    && (words.w41 != 0 ==> Bit(words.w21, 0))
    && words.w61 == 0
    && NoneBelow(words.w41, 18)
    && NoneBelow(words.w09, 29)
  }

  lemma Mode1Masked(w: bv32, n: nat)
    requires n < 32
    ensures Bit(w & MODE1_41_MASK, n) <==> Bit(w, n) && n >= 18
  {
  }

  lemma Mode9Masked(w: bv32, n: nat)
    requires n < 32
    ensures Bit(w & MODE9_MASK, n) <==> Bit(w, n) && n >= 29
  {
  }

  lemma MaskedWord(w: bv32)
    ensures NoneBelow(w & MODE1_41_MASK, 18) && NoneBelow(w & MODE9_MASK, 29)
  {
    var a, b := w & MODE1_41_MASK, w & MODE9_MASK;
    forall n | 0 <= n < 32
      ensures n < 18 ==> !Bit(a, n)
      ensures n < 29 ==> !Bit(b, n)
    {
      Mode1Masked(w, n);
      Mode9Masked(w, n);
    }
  }

  lemma ZeroWord()
    ensures NoneBelow(0, 18)
  {
    assert (0 as bv32) & MODE1_41_MASK == 0;
    MaskedWord(0);
  }

  lemma WordsChained(w01: bv32, w21: bv32, w41: bv32, raw: bv32)
    requires w21 != 0 ==> Bit(w01, 0)
    requires w41 != 0 ==> Bit(w21, 0)
    requires NoneBelow(w41, 18)
    ensures Chained(PidWords(w01, w21, w41, 0, raw & MODE9_MASK))
  {
    MaskedWord(raw);
  }

  lemma MaskedWordsChained(w01: bv32, w21: bv32, raw41: bv32, raw09: bv32)
    requires Bit(w01, 0) && Bit(w21, 0)
    ensures Chained(PidWords(w01, w21, raw41 & MODE1_41_MASK, 0, raw09 & MODE9_MASK))
  {
    MaskedWord(raw41);
    WordsChained(w01, w21, raw41 & MODE1_41_MASK, raw09);
  }

  lemma Mode9Chained(queue: seq<seq<bv8>>, w01: bv32, w21: bv32, ev: LinkEvent)
    requires w21 != 0 ==> Bit(w01, 0)
    ensures Chained(DiscoverMode9(queue, w01, w21, 0, ev).words)
  {
    ZeroWord();
    WordsChained(w01, w21, 0, Ask(queue, Mode9Command(0x00), ev).response.bitfield);
  }

  lemma Chained41(queue: seq<seq<bv8>>, w01: bv32, w21: bv32, script: Script)
    requires Bit(w01, 0) && Bit(w21, 0)
    ensures Chained(Discover41(queue, w01, w21, script).words)
  {
    var q := Ask(queue, Mode1Command(0x40), script.e41);
    MaskedWordsChained(w01, w21, q.response.bitfield, Ask(q.queue, Mode9Command(0x00), script.e09).response.bitfield);
  }

  lemma Chained21(queue: seq<seq<bv8>>, w01: bv32, script: Script)
    requires Bit(w01, 0)
    ensures Chained(Discover21(queue, w01, script).words)
  {
    var q := Ask(queue, Mode1Command(0x20), script.e21);
    var w21 := q.response.bitfield;
    EndBits(w21);
    if w21 & 0x01 == 0 {
      Mode9Chained(q.queue, w01, w21, script.e09);
    } else {
      Chained41(q.queue, w01, w21, script);
    }
  }

  /** Whatever the ECU replies or fails to reply, the words are chained. */
  lemma DiscoverChained(queue: seq<seq<bv8>>, script: Script)
    ensures Chained(Discover(queue, script).words)
  {
    var q := Ask(queue, Mode1Command(0x00), script.e01);
    var w01 := q.response.bitfield;
    EndBits(w01);
    if w01 & 0x01 == 0 {
      Mode9Chained(q.queue, w01, 0, script.e09);
    } else {
      Chained21(q.queue, w01, script);
    }
  }

  // ---------- The list of commands ----------

  ghost predicate HaveBits(table: seq<Command>) {
    forall i :: 0 <= i < |table| ==> HasBit(table[i])
  }

  /** The supported ones among the first `n` commands of a table, in order. */
  function Supported(words: PidWords, table: seq<Command>, n: nat): (cs: seq<Command>)
    requires n <= |table| && HaveBits(table)
    ensures |cs| <= n
  {
    if n == 0 then []
    else Supported(words, table, n - 1) + if Supports(words, table[n - 1]) then [table[n - 1]] else []
  }

  lemma {:induction false} SupportedGrows(words: PidWords, table: seq<Command>, n: nat, m: nat)
    requires n <= m <= |table| && HaveBits(table)
    ensures Supported(words, table, n) <= Supported(words, table, m)
    decreases m
  {
    if n < m {
      SupportedGrows(words, table, n, m - 1);
    }
  }

  /** The supported ones of two tables, with the trouble codes between them. */
  function ListOf(words: PidWords, mode1: seq<Command>, mode9: seq<Command>): seq<Command>
    requires HaveBits(mode1) && HaveBits(mode9)
  {
    Supported(words, mode1, |mode1|) + [MODE3_COMMAND] + Supported(words, mode9, |mode9|)
  }

  /** The commands that a set lists: mode 1, the trouble codes, mode 9. */
  function CommandList(words: PidWords): seq<Command> {
    TablesByPid();
    ListOf(words, MODE1_COMMANDS, MODE9_COMMANDS)
  }

  /** The size of the array that is allocated: the bits set, and three more. */
  function Allocated(words: PidWords): nat {
    |SetBits(words.w01)| + |SetBits(words.w21)| + |SetBits(words.w41)| + |SetBits(words.w61)| + |SetBits(words.w09)| + 3
  }

  // ---------- Counting the list ----------

  function One(b: bool): nat {
    if b then 1 else 0
  }

  lemma {:induction false} OnesAbove(w: bv32, lo: nat)
    requires lo <= 32 && NoneBelow(w, lo)
    ensures OnesFrom(w, lo) == OnesFrom(w, 0)
  {
    if lo > 0 {
      OnesFromStep(w, lo - 1);
      OnesAbove(w, lo - 1);
    }
  }

  /** How many mode 1 commands with PIDs up to `p` are supported, counted in bits. */
  function Mode1Bits(words: PidWords, p: nat): nat
    requires p <= 0x4E
  {
    1 + OnesFrom(words.w01, if p <= 0x20 then 0x20 - p else 0)
    + (if p <= 0x20 then 0 else OnesFrom(words.w21, if p <= 0x40 then 0x40 - p else 0))
    + (if p <= 0x40 then 0 else OnesFrom(words.w41, 0x60 - p))
  }

  lemma Mode1BitsStep01(words: PidWords, c: Command)
    requires c.mode == 0x01 && 0x00 < c.pid <= 0x20
    ensures Mode1Bits(words, c.pid) == Mode1Bits(words, c.pid - 1) + One(Supports(words, c))
  {
    OnesFromStep(words.w01, 0x20 - c.pid);
  }

  lemma Mode1BitsStep21(words: PidWords, c: Command)
    requires c.mode == 0x01 && 0x20 < c.pid <= 0x40
    ensures Mode1Bits(words, c.pid) == Mode1Bits(words, c.pid - 1) + One(Supports(words, c))
  {
    OnesFromStep(words.w21, 0x40 - c.pid);
    OnesFromStep(words.w21, 0x20);
  }

  lemma Mode1BitsStep41(words: PidWords, c: Command)
    requires c.mode == 0x01 && 0x40 < c.pid <= 0x4E
    ensures Mode1Bits(words, c.pid) == Mode1Bits(words, c.pid - 1) + One(Supports(words, c))
  {
    OnesFromStep(words.w41, 0x60 - c.pid);
    OnesFromStep(words.w41, 0x20);
  }

  lemma Mode1BitsStep(words: PidWords, c: Command)
    requires c.mode == 0x01 && 0 < c.pid <= 0x4E
    ensures Mode1Bits(words, c.pid) == Mode1Bits(words, c.pid - 1) + One(Supports(words, c))
  {
    if c.pid <= 0x20 {
      Mode1BitsStep01(words, c);
    } else if c.pid <= 0x40 {
      Mode1BitsStep21(words, c);
    } else {
      Mode1BitsStep41(words, c);
    }
  }

  lemma {:induction false} Mode1Count(words: PidWords, table: seq<Command>, p: nat)
    requires p <= 0x4E < |table| && IsTable(table, 0x01, 0) && HaveBits(table)
    ensures |Supported(words, table, p + 1)| == Mode1Bits(words, p)
  {
    if p == 0 {
      OnesFromStep(words.w01, 0x20);
      assert Supported(words, table, 0) == [];
    } else {
      Mode1Count(words, table, p - 1);
      Mode1BitsStep(words, table[p]);
    }
  }

  lemma Mode9Count(words: PidWords, table: seq<Command>)
    requires |table| == 3 && IsTable(table, 0x09, 0) && HaveBits(table)
    ensures |Supported(words, table, 3)| == 1 + OnesFrom(words.w09, 30)
  {
    OnesFromStep(words.w09, 30);
    OnesFromStep(words.w09, 31);
    OnesFromStep(words.w09, 32);
    assert Supports(words, table[1]) <==> Bit(words.w09, 31);
    assert Supports(words, table[2]) <==> Bit(words.w09, 30);
    assert Supported(words, table, 0) == [];
    assert |Supported(words, table, 1)| == 1;
    assert |Supported(words, table, 2)| == 1 + One(Bit(words.w09, 31));
  }

  lemma TablesHaveBits()
    ensures |MODE1_COMMANDS| == 79 && HaveBits(MODE1_COMMANDS)
    ensures |MODE9_COMMANDS| == 3 && HaveBits(MODE9_COMMANDS)
  {
    TablesByPid();
  }

  lemma ListOfCount(words: PidWords, mode1: seq<Command>, mode9: seq<Command>)
    requires Chained(words)
    requires |mode1| == 79 && IsTable(mode1, 0x01, 0) && HaveBits(mode1)
    requires |mode9| == 3 && IsTable(mode9, 0x09, 0) && HaveBits(mode9)
    ensures |ListOf(words, mode1, mode9)| == Allocated(words) - One(Bit(words.w09, 29))
  {
    Mode1Count(words, mode1, 0x4E);
    Mode9Count(words, mode9);
    OnesFromZero(words.w01);
    OnesFromZero(words.w21);
    OnesAbove(words.w41, 18);
    OnesFromZero(words.w41);
    OnesAbove(words.w09, 29);
    OnesFromStep(words.w09, 29);
    OnesFromZero(words.w09);
    ZeroHasNoBits();
  }

  /** The list fills the array exactly, unless the ECU supports mode 9 PID 3, which is
      counted but has no command: then the last element is never written. */
  lemma ListFillsArray(words: PidWords)
    requires Chained(words)
    ensures |CommandList(words)| == Allocated(words) - One(Bit(words.w09, 29))
  {
    TablesByPid();
    TablesHaveBits();
    ListOfCount(words, MODE1_COMMANDS, MODE9_COMMANDS);
  }

  // ---------- What the list holds ----------

  /** The order of the list: by mode, then by PID. */
  predicate Precedes(a: Command, b: Command) {
    a.mode < b.mode || (a.mode == b.mode && a.pid < b.pid)
  }

  ghost predicate Ascending(cs: seq<Command>) {
    forall i, j :: 0 <= i < j < |cs| ==> Precedes(cs[i], cs[j])
  }

  lemma {:induction false} SupportedAscending(words: PidWords, table: seq<Command>, mode: int, n: nat)
    requires IsTable(table, mode, 0) && HaveBits(table) && n <= |table|
    ensures Ascending(Supported(words, table, n))
    ensures forall c :: c in Supported(words, table, n) ==> c.mode == mode && c.pid < n
  {
    if n > 0 {
      SupportedAscending(words, table, mode, n - 1);
    }
  }

  lemma AscendingAppend(cs: seq<Command>, ds: seq<Command>)
    requires Ascending(cs) && Ascending(ds)
    requires forall c, d :: c in cs && d in ds ==> Precedes(c, d)
    ensures Ascending(cs + ds)
  {
    forall i, j | 0 <= i < j < |cs + ds|
      ensures Precedes((cs + ds)[i], (cs + ds)[j])
    {
      if i < |cs| <= j {
        assert cs[i] in cs && ds[j - |cs|] in ds;
      }
    }
  }

  lemma ListOfAscending(words: PidWords, mode1: seq<Command>, mode9: seq<Command>)
    requires IsTable(mode1, 0x01, 0) && HaveBits(mode1) && IsTable(mode9, 0x09, 0) && HaveBits(mode9)
    ensures Ascending(ListOf(words, mode1, mode9))
  {
    SupportedAscending(words, mode1, 0x01, |mode1|);
    SupportedAscending(words, mode9, 0x09, |mode9|);
    var first, last := Supported(words, mode1, |mode1|), Supported(words, mode9, |mode9|);
    AscendingAppend(first, [MODE3_COMMAND]);
    AscendingAppend(first + [MODE3_COMMAND], last);
  }

  /** The list is in strict order of mode and PID; so nothing is in it twice. */
  lemma ListAscending(words: PidWords)
    ensures Ascending(CommandList(words))
  {
    TablesByPid();
    TablesHaveBits();
    ListOfAscending(words, MODE1_COMMANDS, MODE9_COMMANDS);
  }

  lemma {:induction false} SupportedMembers(words: PidWords, table: seq<Command>, mode: int, n: nat, i: nat)
    requires IsTable(table, mode, 0) && HaveBits(table) && n <= |table| && i < |table|
    ensures table[i] in Supported(words, table, n) <==> i < n && Supports(words, table[i])
  {
    if n > 0 {
      SupportedMembers(words, table, mode, n - 1, i);
      AppendedMember(Supported(words, table, n - 1), table[n - 1], Supports(words, table[n - 1]), table[i]);
      if i != n - 1 {
        assert table[n - 1].pid == n - 1 && table[i].pid == i;
      }
    }
  }

  lemma AppendedMember(cs: seq<Command>, c: Command, append: bool, d: Command)
    ensures d in cs + (if append then [c] else []) <==> d in cs || (append && d == c)
  {
  }

  lemma ListOfAgrees(words: PidWords, mode1: seq<Command>, mode9: seq<Command>, pid: nat)
    requires IsTable(mode1, 0x01, 0) && HaveBits(mode1) && IsTable(mode9, 0x09, 0) && HaveBits(mode9)
    ensures pid < |mode1| ==> (mode1[pid] in ListOf(words, mode1, mode9) <==> Supports(words, mode1[pid]))
    ensures pid < |mode9| ==> (mode9[pid] in ListOf(words, mode1, mode9) <==> Supports(words, mode9[pid]))
  {
    SupportedAscending(words, mode1, 0x01, |mode1|);
    SupportedAscending(words, mode9, 0x09, |mode9|);
    if pid < |mode1| {
      SupportedMembers(words, mode1, 0x01, |mode1|, pid);
    }
    if pid < |mode9| {
      SupportedMembers(words, mode9, 0x09, |mode9|, pid);
    }
  }

  /** The index agrees with the list: a command of the tables is listed exactly if the
      membership test says so. */
  lemma ListAgreesWithMembership(words: PidWords, pid: nat)
    ensures pid < 79 ==> (Mode1Command(pid) in CommandList(words) <==> Supports(words, Mode1Command(pid)))
    ensures pid < 3 ==> (Mode9Command(pid) in CommandList(words) <==> Supports(words, Mode9Command(pid)))
  {
    TablesByPid();
    TablesHaveBits();
    ListOfAgrees(words, MODE1_COMMANDS, MODE9_COMMANDS, pid);
  }

  /** The one exception: the trouble codes are always listed, and never a member. */
  lemma TroubleCodesAreTheException(words: PidWords)
    ensures MODE3_COMMAND in CommandList(words) && !Supports(words, MODE3_COMMAND)
  {
  }

  lemma SetBitIsKnown(words: PidWords, c: Command)
    requires Chained(words) && c.mode == 0x01 && 0 < c.pid <= 0x80 && Supports(words, c)
    ensures c.pid <= 0x4E
  {
  }

  lemma OnePerPid(table: seq<Command>, pid: int)
    requires IsTable(table, 0x01, 0)
    ensures forall i :: 0 <= i < |table| ==> (table[i].pid == pid <==> i == pid)
  {
  }

  /** Every mode 1 bit that is set, of any of the four words, names exactly one command
      of the table; `c` has the PID of the bit. */
  lemma BitNamesOneCommand(words: PidWords, c: Command)
    requires Chained(words) && c.mode == 0x01 && 0 < c.pid <= 0x80 && Supports(words, c)
    ensures c.pid < |MODE1_COMMANDS|
    ensures forall i :: 0 <= i < |MODE1_COMMANDS| ==> (MODE1_COMMANDS[i].pid == c.pid <==> i == c.pid)
  {
    SetBitIsKnown(words, c);
    TablesByPid();
    OnePerPid(MODE1_COMMANDS, c.pid);
  }

  // ---------- Building the list in place ----------

  /** A command set: the words, and the array of commands unless it could not be allocated. */
  datatype CommandSet = CommandSet(words: PidWords, numCommands: nat, commands: array?<Command>)

  /** Writes the supported commands of a table from `next` on; `end` is where they end. */
  method AppendSupported(words: PidWords, table: seq<Command>, commands: array<Command>, next: nat) returns (end: nat)
    requires HaveBits(table) && next + |Supported(words, table, |table|)| <= commands.Length
    modifies commands
    ensures end == next + |Supported(words, table, |table|)|
    ensures commands[..end] == old(commands[..next]) + Supported(words, table, |table|)
  {
    end := next;
    for pid := 0 to |table|
      invariant next <= end == next + |Supported(words, table, pid)| <= commands.Length
      invariant commands[..end] == old(commands[..next]) + Supported(words, table, pid)
    {
      SupportedGrows(words, table, pid + 1, |table|);
      if Supports(words, table[pid]) {
        commands[end] := table[pid];
        end := end + 1;
      }
    }
  }

  /** Fills in mode 1, the trouble codes and mode 9, one after the other. */
  method FillCommands(words: PidWords, mode1: seq<Command>, mode9: seq<Command>, commands: array<Command>)
    requires HaveBits(mode1) && HaveBits(mode9) && |ListOf(words, mode1, mode9)| <= commands.Length
    modifies commands
    ensures commands[..|ListOf(words, mode1, mode9)|] == ListOf(words, mode1, mode9)
  {
    var next := AppendSupported(words, mode1, commands, 0);
    commands[next] := MODE3_COMMAND;
    next := next + 1;
    assert commands[..next] == Supported(words, mode1, |mode1|) + [MODE3_COMMAND];
    next := AppendSupported(words, mode9, commands, next);
  }

  method CountCommands(words: PidWords) returns (numCommands: nat)
    ensures numCommands == Allocated(words)
  {
    var n01 := BitsSet(words.w01);
    var n21 := BitsSet(words.w21);
    var n41 := BitsSet(words.w41);
    var n61 := BitsSet(words.w61);
    var n09 := BitsSet(words.w09);
    numCommands := n01 + n21 + n41 + n61 + n09;
    numCommands := numCommands + 2;
    numCommands := numCommands + 1;
  }

  /** The bitfield of the response to `c`, or zero. */
  method QueryWord(socket: Socket?, c: Command, ev: LinkEvent) returns (w: bv32)
    requires Decodable(c) && c.decoder != NoDecoder
    modifies socket
    ensures socket == null ==> w == 0
    ensures socket != null ==>
              && w == Ask(old(socket.received), c, ev).response.bitfield
              && socket.received == Ask(old(socket.received), c, ev).queue
  {
    var response, _ := PerformQuery(socket, c, ev);
    w := response.bitfieldValue;
  }

  /** The label `mode9`: the last query. */
  method QueryMode9(socket: Socket?, w01: bv32, w21: bv32, w41: bv32, script: Script) returns (words: PidWords)
    modifies socket
    ensures socket == null ==> words == PidWords(w01, w21, w41, 0, 0)
    ensures socket != null ==>
              Discovered(socket.received, words) == DiscoverMode9(old(socket.received), w01, w21, w41, script.e09)
  {
    var w := QueryWord(socket, Mode9Command(0x00), script.e09);
    assert (0 as bv32) & MODE9_MASK == 0;
    words := PidWords(w01, w21, w41, 0, w & MODE9_MASK);
  }

  /** The mode 1 queries from PIDs 21 to 40 on, once PID 0x20 is known to be supported. */
  method QueryFrom21(socket: Socket, w01: bv32, script: Script) returns (words: PidWords)
    modifies socket
    ensures Discovered(socket.received, words) == Discover21(old(socket.received), w01, script)
  {
    var w21 := QueryWord(socket, Mode1Command(0x20), script.e21);
    var w41 := 0;
    if w21 & 0x01 != 0 {
      w41 := QueryWord(socket, Mode1Command(0x40), script.e41);
      w41 := w41 & MODE1_41_MASK;
    }
    words := QueryMode9(socket, w01, w21, w41, script);
  }

  /** The queries, in the order in which the source makes them. Without a socket the first
      one returns zero, so that the chain is not entered. */
  method QueryWords(socket: Socket?, script: Script) returns (words: PidWords)
    modifies socket
    ensures socket == null ==> words == PidWords(0, 0, 0, 0, 0)
    ensures socket != null ==> Discovered(socket.received, words) == Discover(old(socket.received), script)
  {
    var w01 := QueryWord(socket, Mode1Command(0x00), script.e01);
    if w01 & 0x01 != 0 && socket != null {
      words := QueryFrom21(socket, w01, script);
    } else {
      words := QueryMode9(socket, w01, 0, 0, script);
    }
  }

  lemma ResultChained(words: PidWords, queue: seq<seq<bv8>>, script: Script)
    requires words == PidWords(0, 0, 0, 0, 0) || words == Discover(queue, script).words
    ensures Chained(words)
  {
    if words == PidWords(0, 0, 0, 0, 0) {
      ZeroWord();
      assert (0 as bv32) & MODE9_MASK == 0;
      WordsChained(0, 0, 0, 0);
    } else {
      DiscoverChained(queue, script);
    }
  }

  /** Queries the ECU and builds the set. No write leaves the array; what is written is
      the list of supported commands; and the array is filled exactly unless mode 9
      PID 3 is reported, when its last element is left as it was allocated. */
  method GetSupportedCommands(socket: Socket?, script: Script, memory: bool) returns (cs: CommandSet, ghost filled: nat)
    modifies socket
    ensures Chained(cs.words)
    ensures socket == null ==> cs.words == PidWords(0, 0, 0, 0, 0)
    ensures socket != null ==> Discovered(socket.received, cs.words) == Discover(old(socket.received), script)
    ensures !memory ==> cs.commands == null && cs.numCommands == 0
    ensures memory ==>
              && cs.commands != null && fresh(cs.commands)
              && cs.commands.Length == cs.numCommands == Allocated(cs.words)
              && filled == cs.numCommands - One(Bit(cs.words.w09, 29))
              && cs.commands[..filled] == CommandList(cs.words)
  {
    TablesHaveBits();
    ghost var queue := if socket == null then [] else socket.received;
    var words := QueryWords(socket, script);
    ResultChained(words, queue, script);
    var numCommands := CountCommands(words);
    ListFillsArray(words);
    filled := |CommandList(words)|;
    if !memory {
      return CommandSet(words, 0, null), filled;
    }
    var commands := new Command[numCommands];
    FillCommands(words, MODE1_COMMANDS, MODE9_COMMANDS, commands);
    cs := CommandSet(words, numCommands, commands);
  }
}
