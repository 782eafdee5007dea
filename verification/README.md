# Verification model of obdii

A Dafny model of obdii, a C library that reads diagnostic data from a vehicle over a CAN
ISO-TP socket, and of `obdiid`, the daemon that opens such sockets once and shares them
between processes. The model covers three things:

* **Sharing of sockets.** The daemon keeps a doubly linked list of reference-counted
  connections and serves open and close requests that arrive as datagrams. Clients marshal
  the requests and wait for a response code and a descriptor.
* **Discovery of supported commands.** A chain of queries fills four bit words; their bits
  are counted to size an array, and separate scans over the command tables fill it.
* **Queries.** A process locks the shared socket, writes a request, waits, reads, unlocks,
  validates the reply and decodes it.

`dafny verify dfyconfig.toml` checks the whole project.

## Files

| file | contents |
|---|---|
| `Wire.dfy` | requests as bytes: packing, parsing, round trips |
| `SocketTable.dfy` | the daemon's sockets as values, and the map they stand for |
| `SocketList.dfy` | the linked list, the kernel's descriptors and the request handlers, in place |
| `History.dfy` | whole runs of the daemon: history, garbage, order of requests |
| `Sharing.dfy` | clients, queues and daemon as one system of steps |
| `SharingClients.dfy` | what holds of one client, whatever the others are |
| `SharingInvariant.dfy`, `SharingTheorems.dfy` | the invariant of the whole protocol, its guarantees and progress |
| `SharingLimits.dfy` | what one client with descriptor 0 breaks, and exactly when each guarantee holds |
| `SharingDaemon.dfy` | the linked list at the end of a run of the protocol |
| `Bits.dfy` | bits of a word and the loop that counts them |
| `Commands.dfy` | the command tables, membership, validation of replies |
| `TroubleCodes.dfy`, `Responses.dfy` | decoding of trouble codes and bitfields |
| `Query.dfy` | one query, in place |
| `Discovery.dfy`, `Membership.dfy` | discovery, the list it builds, and membership read off the wire |
| `QuerySystem.dfy` | any number of processes that query over one socket |

## How the layers fit

`SocketList.Daemon` updates nodes and pointers in place. Its methods are proved against
`SocketTable.Serve`, which works on the list as a value; `Serve` is proved to have exactly
the effect of `ServeMap` on the map from keys to reference counts; and `History` and
`Sharing` reason about runs of `Serve`. In `Sharing` every client call, every datagram the
daemon serves, every message it sends and every message a client reads is a step of its
own, and a run is any sequence of steps that are possible. Requests travel as the sixteen
bytes of `Wire.Marshal`, mixed with arbitrary garbage. `SharingDaemon` feeds the linked list
with the datagrams of such a run and shows that it ends as the run says.

What the kernel and the allocator answer is a parameter of each step (`OpenOutcome`,
`LinkEvent`); a descriptor that `socket` returns is one that is not open. A descriptor that
travels to a client is identified with the daemon's own, since passing it duplicates it. A message counts as sent when the
daemon calls `sendto` or `sendmsg`; in `Sharing` the queues lose nothing. In `QuerySystem`
the ECU takes the requests in their order and answers each once or not at all.

`Query.PerformQuery` is one undisturbed query in place, proved against `Query.Ask`;
`QuerySystem` splits the same query into steps of many processes, and `QuerySystem.StepsAreAsk`
shows that a process whose steps are mixed with those of others ends as `Ask` says.

## Where the code does not do what it is meant to

* `receiveFD` returns at once, without reading, if its socket is descriptor 0. A client
  whose socket to the daemon is descriptor 0 therefore takes the descriptor message for
  the response to its next call; it misreads so in some run exactly if its own socket is
  descriptor 0 (`SharingLimits.InStepIff`). It harms others too: taking an old Success for
  the response to an open that fails, it closes what it does not hold, and so can make the
  daemon close a socket that another client holds
  (`SharingLimits.HeldSocketIsTornDown`). That held sockets stay open, that closes
  succeed, that the descriptor granted is a listed one, that references are counted and
  that nothing is left open in the end: each holds in all runs exactly if no client at all
  has descriptor 0 (the lemmas of `SharingLimits` whose names end in `Iff`). That every call
  returns needs no condition.
* `numCommands` is documented as the number of commands in the set, but the mask of mode 9
  keeps PID 3, for which there is no command. The last element of the array is then never
  written. `Membership.ArrayIsFilledIff` says exactly when that happens, and
  `Membership.LastElementCanStayUnwritten` gives a reply for which it does.
* A query that gives up leaves its reply behind, if there is to be one. With all locks granted,
  a later query reads its own reply exactly if the ECU has skipped as many requests as queries were abandoned,
  and not its own; otherwise it reads an older one (`QuerySystem.OwnReplyIff`). Validation
  refuses an older reply exactly if it is to another command
  (`QuerySystem.SuccessIffSameCommand`, `QuerySystem.StaleReplySucceeds`).
* The result of `flock` is not looked at. Any two processes can then write at the same time
  (`QuerySystem.FailedLockIsIgnored`), and `QuerySystem.ExclusionIff` says exactly when at
  most one process is between locking and unlocking.
* The VIN message count command has no decoder. Decoding a valid reply to it calls a null
  pointer, after the lock has been given back (`Query.PerformQuery`); no other predefined
  command does so (`Responses.OnlyTheCountCrashes`).

## Model

| member | source | states |
|---|---|---|
| Wire.Pack | src/OBDIICommunication.c:20-27 | copying at the cursor leaves the rest of the buffer alone and advances the cursor by the length |
| Wire.BuildRequest | src/OBDIICommunication.c:97-109 | the five calls of `pack` fill exactly the sixteen bytes of the request |
| Wire.MarshalRoundTrip | src/OBDIIDaemon.c:193-196 | for all versions, types and parameters, the daemon reassembles the values that were packed |
| Wire.MarshalInjective | src/OBDIICommunication.c:101-109 | different requests never have the same encoding |
| Wire.ParseExactly | src/OBDIIDaemon.c:228-256 | a datagram is accepted as a request if and only if it begins with that request's sixteen bytes |
| Wire.WireFormat | src/OBDIIDaemon.c:228-256 | the format in numbers: a datagram is the request if and only if it has sixteen bytes or more, version 1, type 0 to open and 1 to close, and the digits of index, transfer ID and receive ID to base 256, lowest first |
| Wire.IntegerFormat | src/OBDIIDaemon.c:193-196 | the value that the daemon reads from four bytes counts byte n as 256 to the power of n |
| Wire.ReceiveBufferSuffices | src/OBDIIDaemon.c:265-297 | cutting a datagram to the receive buffer never changes what it asks for |
| SocketTable.LookupUnique | src/OBDIIDaemon.c:54-65 | with distinct keys the search finds each entry, and only it |
| SocketTable.ServeWellFormed | src/OBDIIDaemon.c:182-225 | every request keeps keys distinct, descriptors distinct and every count at least 1 |
| SocketTable.ServeLookup | src/OBDIIDaemon.c:182-225 | what a request does to the entry of its own key, and that it leaves every other key alone |
| SocketTable.ServeRefinesMap | src/OBDIIDaemon.c:182-225 | effect and replies are those of a map from keys to descriptor and count, wherever the entry is in the list |
| SocketTable.ServeReferences | src/OBDIIDaemon.c:202-224 | the count of a key changes by one exactly when a request for it is answered Success |
| SocketList.Kernel.Bind | src/OBDIIDaemon.c:84-87 | may be called only for an address that nothing is bound to |
| SocketList.Kernel.Close | src/OBDIIDaemon.c:124 | may be called only for a descriptor that is open |
| SocketList.Daemon.MatchingParams | src/OBDIIDaemon.c:54-65 | the walk ends and returns the connection at the first position with the key, or null |
| SocketList.Daemon.PushConnection | src/OBDIIDaemon.c:89-104 | a new connection becomes the head, the links stay inverse, the list is extended by it alone |
| SocketList.Daemon.AdjustReferences | src/OBDIIDaemon.c:118 | one count changes and nothing else does |
| SocketList.Daemon.Bypass | src/OBDIIDaemon.c:126-137 | unlinking at any position joins the neighbours, and only their links and the head change |
| SocketList.BridgedIsChain | src/OBDIIDaemon.c:126-137 | once the neighbours are joined, the remaining connections form a doubly linked list |
| SocketList.Daemon.UnlinkConnection | src/OBDIIDaemon.c:126-139 | the list without that one connection, in the same order |
| SocketList.Daemon.OpenSocketConnection | src/OBDIIDaemon.c:67-110 | for every outcome of socket, bind and malloc: one more bound descriptor and one more entry, or no change in either |
| SocketList.Daemon.CloseSocketConnection | src/OBDIIDaemon.c:112-141 | the last reference closes the descriptor and unlinks the entry; any other only decrements; null is ignored |
| SocketList.Daemon.ServeOpen | src/OBDIIDaemon.c:202-216 | an open takes a reference to the listed socket or to a new one and answers Success and its descriptor, or one error code |
| SocketList.Daemon.ServeClose | src/OBDIIDaemon.c:217-223 | a close gives a reference back and answers Success, or NoSuchSocket |
| SocketList.Daemon.ServeRequest | src/OBDIIDaemon.c:200-224 | searching and then opening or closing keeps list and descriptors in agreement and gives the replies of the request |
| SocketList.Daemon.HandleSocketRequest | src/OBDIIDaemon.c:182-225 | list, descriptors and replies after any payload, short ones included |
| SocketList.Daemon.HandleMessage | src/OBDIIDaemon.c:228-256 | after any datagram the pointer structure is the list that `Handle` prescribes and the open descriptors are exactly those in it |
| SocketList.ServeOwns | src/OBDIIDaemon.c:67-141 | no path leaks a descriptor: those open and those listed stay the same, each bound to its key |
| SocketList.LinksAreInverse | src/OBDIIDaemon.c:48-52 | `prev` and `next` are inverse, the list has one head and one last connection |
| History.ReferencesAreHistory | src/OBDIIDaemon.c:182-256 | after any run from any list, the count of a key is its old count plus opens granted less closes granted |
| History.ListedByHistory | src/OBDIIDaemon.c:182-256 | from the empty list: a key is listed if and only if that difference is positive, and its count is the difference |
| History.BalancedRunEndsEmpty | src/OBDIIDaemon.c:182-256 | a run balanced on every key ends with the empty list |
| History.BalancedRunClosesAll | src/OBDIIDaemon.c:112-141 | and then the daemon has no connection and no open descriptor |
| History.ReceiveLoop | src/OBDIIDaemon.c:294-309 | handling the datagrams of a finite run one by one reaches the list and gives the answers of the run |
| History.GarbageIsIgnored | src/OBDIIDaemon.c:228-256 | deleting what is no request, and every byte after the sixteenth, changes neither the list nor what anyone is sent |
| History.GarbageGetsNoAnswer | src/OBDIIDaemon.c:228-256 | message by message: a datagram is answered if and only if it is a request, and is sent, in its turn, the answer that it gets in the run without garbage |
| History.RunCounts | src/OBDIIDaemon.c:182-225 | counts and response codes of a run depend neither on list order nor on descriptor numbers |
| History.AdjacentRequestsCommute | src/OBDIIDaemon.c:97-102 | exchanging adjacent requests for different keys keeps all counts and each request's code |
| SharingInvariant.OpenKeepsInv | src/OBDIICommunication.c:92-114 | starting an open keeps the invariant of the protocol |
| SharingInvariant.CloseKeepsInv | src/OBDIICommunication.c:173-180 | starting a close of a held socket keeps it |
| SharingInvariant.ReceiveKeepsInv | src/OBDIICommunication.c:116-131 | reading a code or a descriptor keeps it |
| SharingInvariant.SendKeepsInv | src/OBDIIDaemon.c:153-180 | sending the messages of a reply one at a time keeps it |
| SharingInvariant.CloseFinds | src/OBDIIDaemon.c:217-220 | a close sent by a client finds its socket |
| SharingInvariant.SharedSurvives | src/OBDIIDaemon.c:118-140 | serving any request leaves every socket listed that some client holds or has been granted |
| SharingInvariant.ServeKeepsInv | src/OBDIIDaemon.c:182-225 | serving any datagram keeps the invariant, under every outcome of opening |
| SharingInvariant.ReachableInv | src/OBDIICommunication.c:92-134 | if no client's socket is descriptor 0, the invariant holds after every run of any number of clients |
| SharingClients.StepKeepsTrack | src/OBDIICommunication.c:67-134 | every step of anyone keeps a client whose own socket is not descriptor 0 in step, and leaves no other without something to wait for |
| SharingClients.ReachableOnTrack | src/OBDIICommunication.c:67-134 | so it is in every run, whatever the sockets of the other clients |
| SharingClients.CallResult | src/OBDIICommunication.c:116-133 | a call returns 0 on Success or on the descriptor it waits for and -1 on anything else; what is held grows by one if and only if an open returns 0 |
| SharingTheorems.ReferencesAreCounted | src/OBDIIDaemon.c:202-224 | if no client's socket is descriptor 0, the count of a key is in every reachable state what clients hold, plus grants not yet read, plus closes not yet served |
| SharingTheorems.HeldSocketsStayOpen | src/OBDIIDaemon.c:118-140 | if no client's socket is descriptor 0, a socket that a client holds is listed under the descriptor the client received, with at least as many references as the client holds |
| SharingTheorems.CloseSucceeds | src/OBDIICommunication.c:173-180 | a closer whose own socket is not descriptor 0 is answered by one code; if no client's is, by Success |
| SharingTheorems.OpenSeesItsReplies | src/OBDIICommunication.c:116-133 | an opener whose own socket is not descriptor 0 sees one error code, or Success and then one descriptor; if no client's is, the one listed for its key |
| SharingTheorems.NothingLeftOpen | src/OBDIIDaemon.c:112-141 | if no client's socket is descriptor 0: when all clients have given back everything, the daemon's list is empty |
| SharingTheorems.InternalRunsAreBounded | src/OBDIIDaemon.c:182-225 | finishing what has been begun takes a bounded number of steps |
| SharingTheorems.NoCallHangs | src/OBDIICommunication.c:111-133 | while a client waits, descriptor 0 or not, a step that serves, sends or reads is possible, and such steps come to an end |
| SharingTheorems.CallsReturn | src/OBDIICommunication.c:111-133 | from every reachable state, steps that serve, send and read lead to one where none is left; and wherever none is left, every client is idle, and only clients with descriptor 0 have messages to read |
| SharingLimits.ZeroSocketMisreads | src/OBDIICommunication.c:67-71 | a run in which a client with descriptor 0 takes a descriptor message for a response code |
| SharingLimits.HeldSocketIsTornDown | src/OBDIICommunication.c:67-71 | a run in which a client with descriptor 0 makes the daemon close a socket that another client, with any other descriptor, holds |
| SharingLimits.InStepIff | src/OBDIICommunication.c:67-131 | a client never misreads a message, in any run beside any others, if and only if its own socket to the daemon is not descriptor 0 |
| SharingLimits.InStepIffNonZero | src/OBDIICommunication.c:67-131 | nobody misreads, in any run, if and only if no client's socket to the daemon is descriptor 0 |
| SharingLimits.HeldStayListedIff | src/OBDIIDaemon.c:118-140 | what a given client holds stays listed, in all runs, if and only if no client's socket is descriptor 0 |
| SharingLimits.CloseIsGrantedIff | src/OBDIICommunication.c:173-180 | a given client's closes are answered Success, in all runs, if and only if no client's socket is descriptor 0 |
| SharingLimits.OpenIsAnsweredIff | src/OBDIICommunication.c:116-133 | a given client's opens see one error, or Success and one descriptor, in all runs, if and only if its own socket is not descriptor 0 |
| SharingLimits.GrantIsListedIff | src/OBDIICommunication.c:116-133 | the descriptor granted to a client whose own socket is not descriptor 0 is a listed one, in all runs, if and only if no client's socket is descriptor 0 |
| SharingLimits.ReferencesAreCountedIff | src/OBDIIDaemon.c:202-224 | the counts of all keys are right, in all runs, if and only if no client's socket is descriptor 0 |
| SharingLimits.NothingLeftOpenIff | src/OBDIIDaemon.c:112-141 | nothing is left open once everything has been given back and served, in all runs, if and only if no client's socket is descriptor 0 |
| SharingDaemon.TableIsHistory | src/OBDIIDaemon.c:294-309 | the list at the end of a run is what the receive loop makes of the messages served in it |
| SharingDaemon.HeldDescriptorsAreOpen | src/OBDIIDaemon.c:118-140 | if no client's socket is descriptor 0, a descriptor that a client holds is open in the daemon and bound to the key of its socket |
| SharingDaemon.ServeRun | src/OBDIIDaemon.c:294-309 | the linked list, fed what it is sent in a run, ends as the list of the run; the sockets open and bound are exactly those listed |
| Bits.BitIsMask | src/OBDII.c:18 | the test `word & (1 << n)` reads bit n |
| Bits.ClearsLowest | src/OBDIICommunication.c:193 | `word & (word - 1)` clears the lowest set bit and no other |
| Bits.BitsSet | src/OBDIICommunication.c:188-196 | the loop ends and returns the number of set bits of every word |
| Commands.TablesByPid | src/OBDII.c:277-367 | both tables are indexed by PID, every length is that of its PID, no decoder reads more than validation guarantees and none of mode 1 that does anything reads less, and exactly the bitfields are decoded as such |
| Commands.TableCommand | src/OBDII.c:369-459 | the 83 predefined commands in their order, each with its mode, PID, length and kind of decoder |
| Commands.SuccessfulFits | src/OBDII.c:39-64 | no decoder is handed a payload that is too short for the bytes it reads |
| TroubleCodes.EncodeTroubleCode | src/OBDII.c:121-142 | the two bytes of a code can be recovered from its characters |
| TroubleCodes.TroubleCodeOfEncoded | src/OBDII.c:121-142 | every well-formed code is decoded from some two bytes |
| TroubleCodes.CodesRoundTrip | src/OBDII.c:119-143 | every code has the form [PCBU][0-3][0-9A-F]{3} and a final NUL, and every data byte can be recovered |
| TroubleCodes.EncodeRoundTrip | src/OBDII.c:119-143 | every list of well-formed codes is the decoding of its bytes |
| TroubleCodes.CodesInjective | src/OBDII.c:119-143 | different data bytes decode to different codes |
| TroubleCodes.CodeCharacters | src/OBDII.c:121-142 | the characters of every code in numbers: P, C, B or U by the quarter of the first byte, a digit from 0 to 3, three hexadecimal digits, NUL |
| Responses.Response.DecodeTroubleCodes | src/OBDII.c:101-144 | the loop fills one row per code, in order; other lengths clear `success` and leave the rest |
| Responses.DecodeResponseForCommand | src/OBDII.c:246-260 | success means exactly the expected length, the mode plus 0x40 and, in modes 1 and 9, the PID; the response holds what the decoder makes of the payload, or only zeros; the call crashes exactly if the payload is valid and the decoder is null |
| Responses.TroubleCodesOfReply | src/OBDII.c:101-144 | exactly the even replies of two bytes or more succeed, with (len - 2) / 2 codes that determine the data |
| Responses.BitfieldRoundTrip | src/OBDII.c:66-69 | the data bytes can be recovered from a decoded bitfield of one, two or four bytes |
| Responses.SuccessMatchesCommand | src/OBDII.c:50-61 | a successful payload begins with the mode plus 0x40 and, in modes 1 and 9, the PID |
| Responses.SuccessOnBytes | src/OBDII.c:39-64 | in numbers: exactly which payloads succeed for each predefined command but the trouble codes, whatever their data bytes |
| Responses.BitfieldOnBytes | src/OBDII.c:66-69 | a four-byte bitfield is its data bytes to base 256, the first one highest |
| Responses.ShortBitfieldOnBytes | src/OBDII.c:171-178 | a bitfield of one or two bytes likewise; other commands have no bitfield, and only mode 3 has codes |
| Responses.OnlyTheCountCrashes | src/OBDII.c:246-260 | of the predefined commands only the VIN message count calls a null decoder, and exactly on its valid replies |
| Query.PerformQuery | src/OBDIICommunication.c:317-362 | on each path the lock is held for writing and reading and given back; a failed write, wait or read, or a timeout, returns zeros and takes nothing from the queue; otherwise the first datagram is taken and answered; a crash in a null decoder comes after the lock has been given back |
| Query.AcceptedBytes | src/OBDIICommunication.c:350-358 | responses of variable length are read whole up to 4095 bytes, others are cut to their length, and shorter datagrams are refused |
| Query.AnswerOnBytes | src/OBDIICommunication.c:350-361 | exactly which datagrams answer each command of modes 1 and 9 |
| Query.TroubleCodesOnBytes | src/OBDIICommunication.c:350-361 | exactly which datagrams answer the query for trouble codes, and which two bytes each code stands for |
| Discovery.DiscoverChained | src/OBDIICommunication.c:203-245 | whatever the replies: a group is nonzero only if the group before reports it, 61 to 80 stays zero, and masked bits are clear |
| Discovery.BitNamesOneCommand | src/OBDIICommunication.c:222-227 | every mode 1 bit that is set names exactly one entry of the table |
| Discovery.ListFillsArray | src/OBDIICommunication.c:242-280 | the list is as long as the array, less one exactly if the bit of mode 9 PID 3 is set |
| Discovery.ListAscending | src/OBDIICommunication.c:259-280 | the list is strictly ordered by mode and PID |
| Discovery.ListAgreesWithMembership | src/OBDII.c:5-37 | a command of either table is listed if and only if the membership test accepts it |
| Discovery.TroubleCodesAreTheException | src/OBDIICommunication.c:269-271 | the trouble code command is always listed and never a member |
| Discovery.AppendSupported | src/OBDIICommunication.c:259-267 | a scan writes the supported commands of a table behind what is written, inside the array |
| Discovery.GetSupportedCommands | src/OBDIICommunication.c:198-284 | words, size of the array and the commands written to it; no write leaves the array; without memory there is no array |
| Membership.WireBit | src/OBDII.c:66-69 | PID k of a group is bit 7 - (k - 1) % 8 of data byte (k - 1) / 8, across big-endian decoding |
| Membership.MembershipOnTheWire | src/OBDII.c:11-37 | after discovery the membership test, for every command whose PID has a bit, is that bit in the data bytes of the reply for its group, PID 0 and the masked PIDs included |
| Membership.DataOnBytes | src/OBDII.c:39-69 | the data bytes of a group's reply are bytes 2 to 5 of the first datagram that is read, exactly if it has six bytes and begins with the mode plus 0x40 and the PID |
| Membership.MembershipOnBytes | src/OBDIICommunication.c:203-245 | if one datagram, whatever it is, arrives during each query, the membership test is stated on the bytes of the four datagrams |
| Membership.ArrayIsFilledIff | src/OBDIICommunication.c:242-280 | every element of the array is written if and only if the reply to the mode 9 query does not report PID 3 |
| Membership.LastElementCanStayUnwritten | src/OBDIICommunication.c:242-257 | a reply for which the array is one longer than the list |
| QuerySystem.RunIsInOrder | src/OBDIICommunication.c:329-353 | in every run, even if locks fail, the n-th datagram read answers the n-th of the requests that the ECU does not skip |
| QuerySystem.AtMostOneCritical | src/OBDIICommunication.c:326-360 | if locks are granted, at most one process is between locking and unlocking |
| QuerySystem.FailedLockIsIgnored | src/OBDIICommunication.c:326-329 | for any two of any number of processes, a run with a failed lock in which both are about to write |
| QuerySystem.ExclusionIff | src/OBDIICommunication.c:326-360 | mutual exclusion holds in all runs if and only if there is at most one process or locking cannot fail |
| QuerySystem.OwnReplyIff | src/OBDIICommunication.c:329-353 | a query reads the reply to its own request if and only if as many requests were skipped as abandoned and its own was not; otherwise it reads an older one |
| QuerySystem.BacklogIsAbandoned | src/OBDIICommunication.c:344-348 | when the lock is free, as many replies are outstanding as queries were abandoned, less the requests skipped |
| QuerySystem.FlawlessRunsAnswerEveryQuery | src/OBDIICommunication.c:317-362 | if nothing fails every query that returns has read its own reply, and nothing is outstanding when the lock is free |
| QuerySystem.SuccessfulQueriesMatch | src/OBDII.c:39-64 | a query that succeeds with any reply, its own or not, decoded one with its own mode and, in modes 1 and 9, its own PID |
| QuerySystem.AcceptedByOne | src/OBDII.c:39-64 | a datagram that is a valid reply to one predefined command is valid for no other |
| QuerySystem.SuccessIffSameCommand | src/OBDII.c:39-64 | if every reply is valid for its request, a returned query that read a reply succeeds if and only if that reply answers a request for the same command |
| QuerySystem.StaleReplySucceeds | src/OBDIICommunication.c:344-361 | for any two commands, a run in which the second query reads the late reply to the first, and succeeds exactly if the commands are the same |
| QuerySystem.StepsAreAsk | src/OBDIICommunication.c:317-362 | with locks granted, a process's steps, however mixed with others' and however they fail, leave the queue of `Ask` and return one outcome, with its number, command and response, or crash if `Ask` does |
| QuerySystem.EveryQueryReturns | src/OBDIICommunication.c:317-362 | in every run the queries begun are those returned, those under way and those that crashed |

## Left out

- Logging, the hex dump, setting up the sockets, `if_nametoindex`, and the endless receive loop (a finite run of it is modelled).
- Sockets that a client opens for itself (`shared` zero): opening and closing them is one system call each.
- What the kernel does with sockets, `select`, CAN frames and `flock`: outcomes are parameters, and the queues are sequences. That the lock excludes other processes is an assumption of `QuerySystem`; Linux ties `flock` to the open file description, which passed descriptors share.
- Errors of `recv`, `recvmsg` and `send` on a client's socket to the daemon, lost replies, clients that end without closing, and restarts of the daemon: there is no recovery code for them.
- A client's copy of a descriptor: a shared close only sends a request, so all statements about descriptors are about the daemon's own.
- Requests from anyone but the modelled clients: of other datagrams to the daemon's public socket, `Sharing` admits only those that are no requests.
- Threads within a client, and copies of an `OBDIISocket`: a client makes one call at a time and closes each socket that it opened once.
- An ECU that answers requests out of their order, or one of them more than once.
- The values of the numeric decoders, the oxygen sensors and the VIN: each is a single expression.
- The union inside a response: each of its members is a field of its own.
- What becomes of a process that crashes: it takes no further step.
- Null pointers for a command, a payload or a command set, names and response types of commands, and freeing of responses and command sets.
- Big-endian hosts, and C's undefined shift into the sign bit: words are 32 bits, and `1 << 31` is the top bit. A plain `char` is signed.
- SocketList.Daemon.HandleMessage: does not model overflow of the `int` reference count, and a connection that was freed is only no longer in the list.
- Responses.DecodeResponseForCommand: says nothing of the numeric, sensor and string values, which are not modelled; of those decoders only success and the bytes they may read are.
- Responses.Response.DecodeTroubleCodes: does not model `malloc` returning null, which the source does not check.
- Discovery.ListAgreesWithMembership: says nothing of commands outside the tables, for which the source may shift by a negative amount.
