# F-Stack: models and proofs

F-Stack runs the FreeBSD network stack in user space over DPDK. This project models the parts of it that keep hard state,
in Dafny 4.11, and proves what they promise over whole runs. `dafny verify dfyconfig.toml` checks everything.

| files | what they model |
|---|---|
| `CalloutSpec.dfy`, `Callout.dfy` | The callout timing wheel. The specification is a plain map from callouts to expiry ticks; the class `CalloutCpu` is the wheel with its buckets, lagging scan counter, cursor, wrapping 32-bit ticks, free list of preallocated callouts, and handlers that make any finite script of calls while a bucket is being scanned. `CalloutCpu.Valid` says that the wheel's state is the map reached by the recorded history. |
| `NgGate.dfy` | The netgraph multiple-reader/single-writer gate of one node, with its input queue, queue mutex and worklist, as an interleaving of atomic steps of any number of senders, queue threads and flushers (the `#ifndef FSTACK` configuration). |
| `NgState.dfy`, `NgConnect.dfy`, `NgTeardown.dfy`, `NgGraph.dfy` | The netgraph node and hook graph in the synchronous configuration: peer links, reference counts, the staged connect with rollback, bypass, mkpeer and shutdown. `Graph.Valid` ties every reference count to list membership, peer link and outside holders. The node types' answers are parameters. |
| `NgNames.dfy`, `NgHash.dfy` | Node names and IDs, and the two growing hash tables that find nodes by them. |
| `Hexadecimal.dfy`, `Lcores.dfy`, `Toeplitz.dfy`, `Flow.dfy` | Which process owns which flow: lcore mask, queue assignment, Toeplitz hash, indirection table, and the check each process makes by itself. |
| `Dispatch.dfy` | ARP/NDP fan-out and dispatching over the rings between the processes of a port: a step system with arbitrary interleaving, and the class `Port` whose methods are runs of it. |
| `Sysinit.dfy` | The start-up scheduler with items that register more items while they run. |
| `Route.dfy` | The routing-message writer and reader. |
| `TxRing.dfy` | The transmit ring that frees an mbuf when its slot comes round again. |
| `Itimer.dfy` | Interval-timer arithmetic. |
| `Uio.dfy` | Scatter/gather copying. |
| `Common.dfy`, `Bits.dfy` | Sequences without repeats, wrap-around, powers of two, bitwise operations on naturals. |

Clocks, memory allocation, node types, the dispatcher, the card and the handlers' own code are parameters of the model: a
handler is a finite script of calls, an allocation is a yes or no, a callback is an answer.

Some promises do not hold as the code's comments and callers take them. The models keep the code as it is, show an input
that fails, and prove exactly when the promise is met.

- Look-up by name. ng_name_node accepts a name of 32 characters, files the node under all of them and keeps 31
  (`LongNamesAccepted`). Nothing is ever found under the full name, so such a name is never in use (`LongNameNotFound`,
  `NameNode`); the node is found under the name it keeps exactly when both names hash to one chain, or after a rehash
  (`FoundIff`). With the hash the code uses and a first table of 16 chains that is when the last character is a multiple
  of 16 (`LongFoundIff`), so a node given 32 times the letter n is lost (`LongNameLost`); and the name it keeps may read as an ID (`LongNameIsId`).
  For all other names look-up agrees with a linear search (`LookupAgrees`). The two callers that pass a user's name keep
  it below 32 characters, NGM_NAME at lib-bak/ff_ng_base.c:2592 and the socket's bind at
  freebsd/netgraph/ng_socket.c:753-759; node types that name themselves pass interface and device names or constants,
  and ng_name_node itself does not check.
- Hook names. ng_add_hook and ng_con_nodes accept a hook name of any length and keep 31 characters. A hook given 32 or
  more is found under the first 31 and never under the name given, so a second hook under that name is not refused for
  being there already; a shorter name is found whole (`ConNodes`, `Mkpeer`, `NewNames`). The messages that connect nodes
  cut their names below 32 characters first, at lib-bak/ff_ng_base.c:2555-2556 and 2572-2573.
- Interval timers. The expiries seen are those due after every call, exactly when no call passes two due times
  (`OnTimeIff`). A timer of one tick decremented by three at once misses two expiries and ends below zero (`LongStep`),
  where it never expires again (`NeverAgain`). Timers whose interval went through itimerfix, decremented by at most a tick
  at a time, never drift (`FixedNeverDrifts`), so a failing run needs an interval that bypassed itimerfix or a step longer
  than a tick.
- Routing messages. They come back as they were written exactly when no address has `sa_len` 0 (`RoundTrip`); an empty
  netmask does not (`EmptyNetmaskLost`). The sizing pass and the writing pass give the same length exactly when the long
  header form is not used (`SameLength`); for an interface's list in that form the first falls short (`LongFormIsLonger`).
- Flow ownership. At most one process claims a flow; one does exactly when the core of the queue that the card uses is
  enabled and not named again later in the port's list (`OwnerIff`, `QueueServed`). A list that names its only core twice
  leaves its first queue to nobody (`RepeatedCore`), and with it flows (`FlowToNobody`).

## Model

| member | source | states |
|---|---|---|
| CalloutSpec.AtMostOncePerTick | lib-bak/ff_kern_timeout.c:571-600 | whatever the handlers of one tick do, no callout runs twice in it, and only callouts that expired in the tick just ended run |
| CalloutSpec.FireShrinks | lib-bak/ff_kern_timeout.c:576-599 | a handler can only shrink the set of callouts due at the tick being scanned, which is why the scan ends |
| CalloutSpec.TickRunsWhatIsDue | lib-bak/ff_kern_timeout.c:557-609 | the tick after a waiting callout's expiry runs it exactly once; an earlier tick leaves it waiting with the same expiry |
| CalloutSpec.RunsOnceOnTime | lib-bak/ff_kern_timeout.c:303-331 | over every run of calls and ticks, a waiting callout that nobody else resets or stops runs exactly once, in the tick after its expiry, and not before |
| CalloutSpec.SetRunsOnce | lib-bak/ff_kern_timeout.c:627-772 | the same from the state just before a callout_reset or a timeout with any delay |
| CalloutSpec.HistoryRunsOnce | lib-bak/ff_kern_timeout.c:627-772 | in any history, a callout set with n ticks, by callout_reset or by timeout, and not touched since runs exactly once, in the clock call that moves the time on by max(n,1)+1, with the handler and argument it was set with |
| CalloutSpec.OffNeverRuns | lib-bak/ff_kern_timeout.c:557-609 | over every run a callout that is off the schedule does not run until a call or a handler sets it |
| CalloutSpec.HistoryStops | lib-bak/ff_kern_timeout.c:789-1007 | in any history, after a callout_stop, or an untimeout naming the work it holds, a callout does not run in any later event until someone sets it again |
| CalloutSpec.HandlerStops | lib-bak/ff_kern_timeout.c:465-469 | the same for a stop made by a handler: not in the rest of that tick, nor later |
| CalloutSpec.UntimeoutInTime | lib-bak/ff_kern_timeout.c:627-666 | a timeout followed in time by an untimeout with its handler, argument and handle does not run, before or after |
| CalloutSpec.FireBalanced | lib-bak/ff_kern_timeout.c:372-380 | running a handler, including one that cancels itself, keeps each preallocated callout in exactly one of free, pending, running |
| CalloutSpec.RunBalanced | lib-bak/ff_kern_timeout.c:627-666 | over every run each preallocated callout is free or pending, exactly one of the two, between calls; stale handles included |
| Callout.WheelSizeOf | lib-bak/ff_kern_timeout.c:243-244 | the wheel size is a power of two that divides the 32-bit tick space |
| Callout.MaskIsBucket | lib-bak/ff_kern_timeout.c:297-301 | masking the 32 bits of a tick picks the bucket of the unbounded tick, whatever multiple of 2^32 was lost |
| Callout.CalloutCpu.SkipBucket | lib-bak/ff_kern_timeout.c:317-323 | an empty bucket is passed without losing a callout |
| Callout.CursorInsert | lib-bak/ff_kern_timeout.c:366-369 | inserting at the head while a bucket is scanned keeps every callout due at the scanned tick at or after the cursor |
| Callout.CursorRemove | lib-bak/ff_kern_timeout.c:995-1003 | removing a callout, the cursor's own target included, keeps every callout due at the scanned tick at or after the cursor |
| Callout.CursorSkip | lib-bak/ff_kern_timeout.c:583-584 | stepping over a callout that is not due keeps the cursor invariant |
| Callout.CursorEnd | lib-bak/ff_kern_timeout.c:578-599 | when the scan leaves the bucket, nothing due at that tick is still pending |
| Callout.TickBehind | lib-bak/ff_kern_timeout.c:317-323 | the signed 32-bit difference tells whether the scan counter lags, for every backlog below 2^31 |
| Callout.Preallocate | lib-bak/ff_kern_timeout.c:287-294 | builds the free list of exactly the preallocated callouts, each once |
| Callout.CalloutCpu.constructor | lib-bak/ff_kern_timeout.c:224-295 | the empty wheel represents the empty schedule with all preallocated callouts free |
| Callout.CalloutCpu.CcAdd | lib-bak/ff_kern_timeout.c:350-370 | one more expiry in the map; lists, wrapped times and cursor stay consistent |
| Callout.CalloutCpu.Unlink | lib-bak/ff_kern_timeout.c:995-1003 | one expiry fewer in the map; the cursor is repaired |
| Callout.CalloutCpu.CcDel | lib-bak/ff_kern_timeout.c:372-380 | a preallocated callout returns to the free list and forgets its handler; others are untouched |
| Callout.CalloutCpu.Reset | lib-bak/ff_kern_timeout.c:690-772 | the map gets the new expiry now + max(n,1); the result tells whether the callout was pending |
| Callout.CalloutCpu.Stop | lib-bak/ff_kern_timeout.c:789-1007 | the map loses exactly the callout; a preallocated one is released; the result is that of the source (what it achieves: HistoryStops, HandlerStops) |
| Callout.CalloutCpu.Timeout | lib-bak/ff_kern_timeout.c:627-647 | takes the first free callout, which was not pending, and schedules it, or panics exactly when none is free |
| Callout.CalloutCpu.Untimeout | lib-bak/ff_kern_timeout.c:649-666 | takes the callout off the map exactly when handler and argument still match the handle |
| Callout.CalloutCpu.RunHandler | lib-bak/ff_kern_timeout.c:465-469 | any finite script of calls inside a handler has the effect the specification gives it, with the scan cursor kept |
| Callout.CalloutCpu.SoftclockCall | lib-bak/ff_kern_timeout.c:382-539 | one expired callout runs once, with the handler and argument it holds: exactly the specified firing, and the cursor still covers everything due |
| Callout.CalloutCpu.ScanBucket | lib-bak/ff_kern_timeout.c:576-599 | the scan of one bucket ends, and leaves nothing due at that tick, whatever the handlers insert, move or remove |
| Callout.CalloutCpu.Softclock | lib-bak/ff_kern_timeout.c:557-609 | catches up with the clock, running exactly what is due |
| Callout.CalloutCpu.CalloutTick | lib-bak/ff_kern_timeout.c:303-331 | skips empty buckets without losing a callout |
| Callout.CalloutCpu.Hardclock | lib-bak/ff_kern_timeout.c:1201-1212 | every clock call appends one tick to the history the wheel refines, across 32-bit wrap-around, and leaves the scan counter equal to the clock |
| Callout.CalloutCpu.Call | lib-bak/ff_kern_timeout.c:627-1007 | every call from outside appends itself to that history and leaves the clock alone |
| NgGate.StepEffect | lib-bak/ff_ng_base.c:1894-2204 | each atomic step moves mutex, flag word, queue and worklist only as its agent's own movement says |
| NgGate.RunInv | lib-bak/ff_ng_base.c:1950-2204 | every state of every interleaving satisfies the gate invariant |
| NgGate.WordTests | lib-bak/ff_ng_base.c:1894-1936 | testing bits of the flag word is testing its parts |
| NgGate.WordOps | lib-bak/ff_ng_base.c:2048-2094 | comparing and adding to the flag word is comparing and adjusting its parts |
| NgGate.GateSafety | lib-bak/ff_ng_base.c:1894-1936 | in every reachable interleaving the flag word encodes exactly the agents inside, a writer is alone, and a non-empty queue has OP_PENDING set (for the item as it was sent: AppliedAlone) |
| NgGate.ItemsConserved | lib-bak/ff_ng_base.c:2019-2044 | in every run each item, reader or writer as it was sent, is as often in an agent's hands, on the queue, applied or flushed as activations have brought it |
| NgGate.AppliedAsBrought | lib-bak/ff_ng_base.c:2023-2026 | an item that was only ever sent as a writer is applied as a writer, and one sent as a reader as a reader |
| NgGate.AppliedAlone | lib-bak/ff_ng_base.c:2023-2094 | while an item sent as a writer is applied nobody else is inside the gate; while one sent as a reader is applied no writer is |
| NgGate.NoLostWakeup | lib-bak/ff_ng_base.c:2019-2044 | in every reachable interleaving, if the queue's head could proceed then the node is on the worklist or an agent is committed to look again; the node is on the worklist or in one agent's hands, never twice |
| NgGate.CommittedDelivers | lib-bak/ff_ng_base.c:1950-2044 | what being committed means: left to itself, such an agent within 9 of its steps puts the node on the worklist, finds it in other hands there, or takes the head off |
| NgGate.FirstInFirstOut | lib-bak/ff_ng_base.c:1950-2013 | items leave the queue in the order they entered, at any two moments of any run |
| NgGate.NoOvertaking | lib-bak/ff_ng_base.c:2047-2094 | a fast-path sender enters only when everything queued before it has left |
| NgConnect.DestroyedTwice | lib-bak/ff_ng_base.c:1162-1184 | destroying a destroyed hook changes nothing |
| NgState.DestroyFacts | lib-bak/ff_ng_base.c:1162-1235 | how clearing the flag, the divorce from the peer and leaving the node compose |
| NgState.DestroyEffect | lib-bak/ff_ng_base.c:1162-1235 | hook by hook: the destroyed hook has no node and no peer and lives only while held; so has its peer, unless it stays attached because no message reached it; no other hook changes |
| NgState.UnrefHookOk | lib-bak/ff_ng_base.c:1050-1062 | dropping a reference keeps the invariants, and the last one frees the hook |
| NgState.UnrefNodeOk | lib-bak/ff_ng_base.c:797-825 | the same for a node |
| NgConnect.AbortFirst | lib-bak/ff_ng_base.c:1346-1386 | destroying the first hook of a half-made connection undoes it on both nodes |
| NgConnect.AbortSecond | lib-bak/ff_ng_base.c:1389-1476 | so does destroying the second |
| NgConnect.AbortedEnd | lib-bak/ff_ng_base.c:1483-1526 | once the two references of an aborted connect are dropped, the graph is exactly what it was |
| NgConnect.ConnectedEnd | lib-bak/ff_ng_base.c:1483-1526 | a connect that went through leaves two references on each hook and nothing else changed |
| NgConnect.NewNames | lib-bak/ff_ng_base.c:1097-1142 | after a connect both hooks answer to the names given, cut to 31 characters, and no longer name has come into use |
| NgTeardown.DrainStep | lib-bak/ff_ng_base.c:747-748 | one turn of the drain loop takes one hook of the node off, and changes only that hook and its peer |
| NgTeardown.DestroyWired | lib-bak/ff_ng_base.c:1162-1235 | destroying a hook keeps the rule that a valid hook on a live node has a peer |
| NgTeardown.ConnectWired | lib-bak/ff_ng_base.c:1483-1526 | so does connecting |
| NgTeardown.BypassWired | lib-bak/ff_ng_base.c:1242-1267 | so does bypassing |
| NgTeardown.LivePeer | lib-bak/ff_ng_base.c:1242-1267 | a valid hook of a live node has the peer that bypassing it needs |
| NgTeardown.NeighboursStayLinked | lib-bak/ff_ng_base.c:740-748 | a node that bypasses two of its hooks as it is closed leaves their peers linked to each other once it is drained, with their counts as they were |
| NgTeardown.SpliceSteps | lib-bak/ff_ng_base.c:1253-1257 | the four peer assignments, in their order, make the two former peers each other's |
| NgGraph.Graph.constructor | lib-bak/ff_ng_base.c:3158-3164 | the empty graph satisfies the invariants |
| NgGraph.Graph.UnrefHook | lib-bak/ff_ng_base.c:1050-1062 | one reference fewer; the last one frees the hook; invariants kept, valid hooks on live nodes keep a peer |
| NgGraph.Graph.UnrefNode | lib-bak/ff_ng_base.c:797-825 | one reference fewer; the last one frees the node; invariants kept, valid hooks on live nodes keep a peer |
| NgGraph.Graph.FindHook | lib-bak/ff_ng_base.c:1130-1142 | what the type's own search answers, or else a valid hook of that name exactly when the node has one |
| NgGraph.Graph.AddHook | lib-bak/ff_ng_base.c:1069-1120 | succeeds exactly when named, allocated, not refused and the name is free; a failure changes nothing, a success adds one hook with two references, named as given, or by the first 31 characters of a longer name; valid hooks on live nodes keep a peer |
| NgGraph.Graph.DestroyHook | lib-bak/ff_ng_base.c:1162-1235 | the exact graph afterwards: both ends come loose and leave their nodes, except a peer for whose message there is no item or whose node is shutting down; every count released; with an item, valid hooks on live nodes keep a peer |
| NgGraph.Graph.RmhookSelf | lib-bak/ff_ng_base.c:1626-1643 | the message to the peer, with the references its item holds, amounts to destroying the peer, or to nothing when there is no item or the node refuses |
| NgGraph.Graph.Part3 | lib-bak/ff_ng_base.c:1345-1386 | the first node accepts, or the connection is undone |
| NgGraph.Graph.Part2 | lib-bak/ff_ng_base.c:1388-1476 | the second half succeeds exactly when the name is free and nobody refuses; otherwise it is undone |
| NgGraph.Graph.ConNodes | lib-bak/ff_ng_base.c:1482-1526 | all or nothing, and exactly when: both hooks valid, mutually peered, two references each, or the graph as it was; afterwards each name of fewer than 32 characters is found on its node, so that it is in use; a longer one is found by its first 31 characters and not as a whole; valid hooks on live nodes keep a peer |
| NgGraph.Graph.Drain | lib-bak/ff_ng_base.c:747-748 | the loop ends; the node has no hooks; all its hooks and their peers are loose or gone; nothing else changed |
| NgGraph.Graph.Rmnode | lib-bak/ff_ng_base.c:717-791 | a second shutdown does nothing; the first lets the type close the node, drains it, and the node survives exactly while someone holds it; valid hooks on live nodes keep a peer |
| NgGraph.Graph.CloseMethod | lib-bak/ff_ng_base.c:742-744 | the close method does nothing or bypasses two hooks of the node being shut down; the exact hooks afterwards |
| NgGraph.Graph.Bypass | lib-bak/ff_ng_base.c:1241-1267 | on any node, one being shut down included: refused exactly when the hooks differ in node or are invalid; otherwise the two former peers are linked and both hooks are gone, counts kept; valid hooks on live nodes keep a peer |
| NgGraph.Graph.NewNode | lib-bak/ff_ng_base.c:644-697 | a node without hooks and with the creator's reference; the invariants are kept |
| NgGraph.Graph.Mkpeer | lib-bak/ff_ng_base.c:1545-1602 | succeeds exactly when nothing is refused, with both hooks connected and found under their names as after a connect; a failure leaves the hooks as they were and shuts the new node down; valid hooks on live nodes keep a peer |
| NgNames.CheckName | lib-bak/ff_ng_base.c:864-871 | the scan accepts exactly the strings of 1 to 32 characters without dot or colon |
| NgNames.DecodeIdIff | lib-bak/ff_ng_base.c:949-967 | a name reads as an ID exactly when it is a bracketed hexadecimal number, with or without 0x, between 0 and ULONG_MAX and not a multiple of 2^32; the ID is its low 32 bits |
| NgNames.LongNamesAccepted | lib-bak/ff_ng_base.c:864-898 | two different acceptable names of 32 characters of which a node keeps the same 31 |
| NgNames.LongNameIsId | lib-bak/ff_ng_base.c:864-898 | an acceptable name of 32 characters whose kept part reads as an ID exists, and no shorter name is like that |
| NgNames.DecodePrinted | lib-bak/ff_ng_base.c:949-967 | the printed form of every ID reads back as that ID |
| NgHash.HashSize | lib/ff_kern_subr.c:65-67 | the largest power of two not above the request |
| NgHash.Rehash | lib-bak/ff_ng_base.c:981-1038 | every node is in exactly the chain of its key again, in a table twice as big, or in the old one when there is no memory |
| NgHash.MaskIsChain | lib-bak/ff_ng_base.c:880 | masking a hash with the table size less one picks its chain |
| NgHash.SeenStep | lib-bak/ff_ng_base.c:677-686 | each taken ID tried is a new one, so the wrapping search cannot go on for ever |
| NgHash.NodeTable.FindId | lib-bak/ff_ng_base.c:830-841 | agrees with a linear search over the valid nodes |
| NgHash.NodeTable.NewId | lib-bak/ff_ng_base.c:677-686 | ends while fewer than 2^32-1 nodes are valid, with a non-zero ID that no valid node has |
| NgHash.NodeTable.MakeNode | lib-bak/ff_ng_base.c:675-692 | the new node is filed under such an ID; all tables stay exact |
| NgHash.NodeTable.FindName | lib-bak/ff_ng_base.c:932-940 | finds a valid node with that name in the chain where it is looked for, or says that there is none |
| NgHash.NodeTable.NameNode | lib-bak/ff_ng_base.c:856-901 | for every name: invalid, in use or set, exactly when; the node is filed under the name as given; a rehash on the way files all nodes under the names they keep; a name of 32 characters is never in use |
| NgHash.NodeTable.Grow | lib-bak/ff_ng_base.c:981-1007 | every named node is in the chain of the name it keeps, in a table twice as big, or nothing changes when there is no memory |
| NgHash.NodeTable.NameToNode | lib-bak/ff_ng_base.c:913-943 | ".", a bracketed ID or a name, in that order; an ID resolves to the only valid node that has it |
| NgHash.NodeTable.Invalidate | lib-bak/ff_ng_base.c:740 | no look-up returns the node again; it stays filed |
| NgHash.NodeTable.Forget | lib-bak/ff_ng_base.c:797-825 | the last reference takes the node out of both tables |
| NgHash.LookupAgrees | lib-bak/ff_ng_base.c:913-943 | for a name that no valid node keeps as the cut form of a longer one, look-up agrees with a linear search over the valid nodes, through any sequence of operations |
| NgHash.FoundIff | lib-bak/ff_ng_base.c:880-898 | the one valid node that keeps a name is found under it exactly when the name and what the node is filed under hash to one chain; always after a rehash, and always when the name was given whole |
| NgHash.LongNameNotFound | lib-bak/ff_ng_base.c:882-888 | no node is ever found under a name of 32 characters |
| NgHash.LongFoundIff | freebsd/sys/hash.h:34-67 | with hash32_str: a node given 32 characters and not refiled, alone in keeping its name, is found under it exactly when 32 times the hash of the kept name and the last character add up to a multiple of the table size; at 16 chains, when the last character is a multiple of 16 |
| NgHash.KnownHashes | freebsd/sys/hash.h:34-50 | the hash of two short names |
| NgHash.LongNameLost | lib-bak/ff_ng_base.c:880-898 | a node given 32 times the letter n is not found in the first table |
| NgHash.EveryNodeIsFound | lib-bak/ff_ng_base.c:913-943 | every valid node is found by its printed ID, and by a name that was given whole; such a name is never taken for "." or for an ID |
| Lcores.SetBitsExact | lib/ff_config.c:107-127 | the list of set bits is strictly increasing and contains exactly the set bits |
| Lcores.ParseLcoreMask | lib/ff_config.c:69-136 | succeeds exactly on a hexadecimal number below 2^128 with a bit for this process; the lcores are its set bits in increasing order, and the process mask has the one bit of its lcore |
| Lcores.Strip | lib/ff_config.c:94-102 | removes leading blanks, one 0x, trailing blanks (what is left: BodyOf) |
| Lcores.BodyOf | lib/ff_config.c:94-102 | a numeral between spaces and tabs, with or without 0x or 0X before it, is what is left |
| Hexadecimal.DigitValues | lib/ff_config.c:55-67 | each digit, in either case, has its value |
| Lcores.OneBit | lib/ff_config.c:117-122 | the printed process mask has the value of its one bit |
| Lcores.BinarySearch | lib/ff_config.c:207-228 | finds a position of the value in a strictly increasing list, or says that it is not there |
| Lcores.CheckPort | lib/ff_config.c:869-898 | accepts exactly the lists whose cores are all enabled and, with KNI on the primary, contain the primary's core |
| Toeplitz.ToeplitzHash | lib/ff_dpdk_if.c:1815-1836 | equals the exclusive or of the 32-bit key windows at the set data bits, for every key of at least 4 bytes and all data |
| Toeplitz.WindowShift | lib/ff_dpdk_if.c:1829-1832 | shifting the window in 32 bits and adding the next key bit gives the next window |
| Toeplitz.ByteWindow | lib/ff_dpdk_if.c:1824-1832 | at every byte of the key the window is the four key bytes from there, most significant first |
| Toeplitz.OneBitHash | lib/ff_dpdk_if.c:1825-1834 | data with one set bit hash to the key window at that bit, counted from the most significant bit of the first byte |
| Toeplitz.HashLinear | lib/ff_dpdk_if.c:1815-1836 | the hash of the exclusive or of two byte strings is the exclusive or of their hashes |
| Toeplitz.SymmetricHash | lib/ff_dpdk_if.c:102-110 | under any key with a two-byte period, swapping addresses and ports does not change the hash |
| Flow.QueueOf | lib/ff_dpdk_if.c:266-275 | the last place of the lcore in the port's list, or -1 |
| Flow.SetRssTable | lib/ff_dpdk_if.c:538-561 | entry k is k modulo the number of queues, in whole groups of 64, at least one |
| Flow.TableCovers | lib/ff_dpdk_if.c:705-710 | the assertion on the reported size is exactly "power of two", and the table then has that many entries |
| Flow.RssCheck | lib/ff_dpdk_if.c:1838-1874 | true exactly when the hash of the twelve bytes picks this queue, or there is only one (which bytes where: HashFields; what it amounts to: ClaimsIsPlacement) |
| Flow.HashFields | lib/ff_dpdk_if.c:1853-1871 | the hash is the exclusive or of the field hashes: source address at key bit 0, destination address at 32, source port at 64, destination port at 80 |
| Flow.ClaimsIsPlacement | lib/ff_dpdk_if.c:1873 | a process claims a flow exactly when the card, which hashes the four fields at key bits 0, 32, 64 and 80, puts the flow on its queue |
| Flow.ExactlyOneOwner | lib/ff_dpdk_if.c:1838-1874 | for every 4-tuple exactly one process of the port claims it, the one whose queue the card uses |
| Flow.QueueServed | lib/ff_dpdk_if.c:266-275 | a queue has a process exactly when its core is enabled and not named again later in the list |
| Flow.OwnerIff | lib/ff_dpdk_if.c:1838-1874 | for every list at most one process claims a flow, and one does exactly when the core of the card's queue is enabled and not named again later |
| Flow.RepeatedCore | lib/ff_dpdk_if.c:266-275 | a list that names its only core twice leaves its first queue to nobody |
| Flow.FlowToNobody | lib/ff_dpdk_if.c:1838-1874 | with such a list the flow of all zeros, which hashes to 0, is claimed by no process |
| Flow.DefaultList | lib/ff_config.c:384-393 | the default list has no repeats and gives process p queue p |
| Flow.SameOwnerBothWays | lib/ff_dpdk_if.c:1853-1873 | with the symmetric key both directions of a connection have the same owner |
| Dispatch.StepInv | lib/ff_dpdk_if.c:1113-1253 | every step keeps: at most once per queue, never before receipt, and nothing yet where the only copying process has still to copy |
| Dispatch.AtMostOnce | lib/ff_dpdk_if.c:1113-1253 | in every interleaving, with any dispatcher and any losses, a frame is delivered to each queue's stack at most once |
| Dispatch.ExactlyOnce | lib/ff_dpdk_if.c:1176-1214 | with no dispatcher and nothing lost, an ARP or NDP frame ends up in every queue's stack exactly once, and in KNI exactly once when the primary serves the port |
| Dispatch.KniStep | lib/ff_dpdk_if.c:1205-1214 | KNI gets such a frame exactly as often as the primary's own stack |
| Dispatch.BusyRunEnds | lib/ff_dpdk_if.c:1113-1253 | without new receipts a run of steps that do something is no longer than the work there is at its start |
| Dispatch.NotQuietIsBusy | lib/ff_dpdk_if.c:1113-1253 | while a frame is on its way there is such a step to make |
| Dispatch.ReachesQuiet | lib/ff_dpdk_if.c:1113-1253 | from every state the processes reach one in which nothing is on its way |
| Dispatch.CopiedWhereReceived | lib/ff_dpdk_if.c:1183-1203 | a process copies a frame around only if it had that frame from the card |
| Dispatch.RingsGrow | lib/ff_dpdk_if.c:1239-1253 | handling frames from a ring never puts anything on a ring |
| Dispatch.InOnePlace | lib/ff_dpdk_if.c:1138-1237 | in every run each other received frame is in exactly one place: a ring, a burst, a stack, KNI, answered or freed |
| Dispatch.GoesWhereSent | lib/ff_dpdk_if.c:1138-1173 | in every run a frame the dispatcher sends to queue j, or that stays with j and is not copied around, is never with another queue; it is with j once unless freed for lack of room or taken by KNI, and once nothing is on its way it is in j's stack or KNI |
| Dispatch.AnsweredOrFreed | lib/ff_dpdk_if.c:1140-1164 | a frame answered with -2 is sent back once, one answered with -1 or no queue's number is freed once; neither gets to a queue or to KNI |
| Dispatch.KniGets | lib/ff_dpdk_if.c:1216-1236 | of the frames that are not copied around, which go to KNI and which to the stacks, by setting, kind and what KNI accepts |
| Dispatch.RingOrder | lib/ff_dpdk_if.c:1239-1253 | each process looks at the frames of its ring in the order they were put there, leaving none out |
| Dispatch.BurstFollows | lib/ff_dpdk_if.c:1113-1237 | the steps of a burst are this process's own, receive each frame with the dispatcher's answer for it, and lack a buffer only where one is lacking |
| Dispatch.Port.constructor | lib/ff_dpdk_if.c:226-298 | empty rings, idle processes |
| Dispatch.Port.CopyAround | lib/ff_dpdk_if.c:1183-1203 | the copying loop is one copy step per queue |
| Dispatch.Port.Process | lib/ff_dpdk_if.c:1175-1236 | a kept frame goes through exactly the steps the choices lead to |
| Dispatch.Port.ReceiveFrame | lib/ff_dpdk_if.c:1138-1173 | the dispatcher's answer decides: answered, freed, handed to the queue it names, or kept (what becomes of the frame: GoesWhereSent, AnsweredOrFreed) |
| Dispatch.Port.ProcessPackets | lib/ff_dpdk_if.c:1113-1237 | a burst from the card is exactly that run of steps of this process |
| Dispatch.Port.ProcessDispatchRing | lib/ff_dpdk_if.c:1239-1253 | so is a burst from the ring, which loses its first 32 frames, or all if there are fewer, and gains none |
| Sysinit.Sort | lib/ff_init_main.c:200-210 | the exchange sort leaves a permutation, ordered by subsystem and order |
| Sysinit.LeastAt | lib/ff_init_main.c:227-233 | in the sorted table the first item left to run is least, by subsystem and then by order, among all registered items not yet run |
| Sysinit.ExactlyOnce | lib/ff_init_main.c:195-280 | a schedule of such choices with nothing left has run every registered item exactly once, dummies excepted, and nothing else |
| Sysinit.InRegistered | lib/ff_init_main.c:127-156 | registered is what was there at first and every item of every set that an item that has run added |
| Sysinit.Startup.constructor | lib/ff_init_main.c:185-193 | the linked set is the first table |
| Sysinit.Startup.SysinitAdd | lib/ff_init_main.c:127-156 | the table, or the one being built, followed by the new items: no registration is lost |
| Sysinit.Startup.CallFunc | lib/ff_init_main.c:259-260 | any finite number of registrations by one item are all in the new table |
| Sysinit.Startup.RunItem | lib/ff_init_main.c:259-279 | one item runs and is checked off; the table is everything registered so far |
| Sysinit.Startup.Pass | lib/ff_init_main.c:227-280 | one pass ends with nothing left to run, or with fewer items left and a new table |
| Sysinit.Startup.MiStartup | lib/ff_init_main.c:170-282 | ends, with a fair schedule in which every registered item ran exactly once |
| Route.MsgBuffer | lib-bak/ff_route.c:239-349 | the length; failure exactly when the buffer is shorter; on success header, addresses back to back, and nothing else changed |
| Route.MaskBit | lib-bak/ff_route.c:296-302 | bit i of the returned mask is set exactly when slot i holds an address |
| Route.SameLength | lib-bak/ff_route.c:251-288 | both passes give the same length exactly when the long header form is not used |
| Route.LongFormIsLonger | lib-bak/ff_route.c:266-280 | the sizing pass of an interface's list is shorter than its writing pass in the long form |
| Route.EmptyLengths | lib-bak/ff_route.c:251-288 | what a message without addresses takes on a 64-bit machine, for every kind |
| Route.XAddrs | lib-bak/ff_route.c:192-228 | the reader loop computes the slots as specified, from any bytes |
| Route.ReadInside | lib-bak/ff_route.c:192-228 | from any bytes, every address found has its mask bit and lies inside the limit with its whole length |
| Route.ReadOrder | lib-bak/ff_route.c:192-228 | the addresses found lie one behind the other in the order of their slots |
| Route.ReadFails | lib-bak/ff_route.c:205-206 | EINVAL means that an address was met that runs past the limit |
| Route.ReadRefuses | lib-bak/ff_route.c:197-206 | the address of the first mask bit is refused exactly when it runs past the limit, or one behind it is |
| Route.ReadWritten | lib-bak/ff_route.c:192-228 | reading a written message never fails and finds each address at its place, up to the first empty one |
| Route.RoundTrip | lib-bak/ff_route.c:192-349 | the same addresses in the same slots, exactly when no address has length 0 |
| Route.EmptyNetmaskLost | lib-bak/ff_route.c:214-217 | a message with an empty netmask is written and read without an error and does not come back as it was |
| TxRing.Ring.constructor | lib-bak/ff_memory.h:96-102 | an empty ring |
| TxRing.Ring.Advance | lib-bak/ff_memory.c:78-81 | one descriptor: what the slot held is freed, the slot holds the new one, the head wraps |
| TxRing.Ring.Enqueue | lib-bak/ff_memory.c:173-189 | after any run the slots hold the latest 512 descriptors and exactly the older mbufs have been freed, once each and in order |
| TxRing.Ring.Conserved | lib-bak/ff_memory.c:173-189 | at any moment what has been freed and what the slots hold is all that was put in, each as often |
| TxRing.Ring.FreedWhenReached | lib-bak/ff_memory.c:173-189 | the mbuf of a descriptor is freed exactly when 512 more descriptors have been used after it, and is in its slot until then, whether or not its address is used again |
| Itimer.Fix | lib/ff_glue.c:352-367 | refuses exactly the malformed values and rounds a short time up to one tick |
| Itimer.Itimerval.Decr | lib/ff_glue.c:380-407 | the value in microseconds after one call, normalised; expiry exactly when used up; negative exactly when the interval is shorter than the carry |
| Itimer.Account | lib/ff_glue.c:380-407 | over any run: value = initial - elapsed + expiries * interval, and at most the interval after an expiry |
| Itimer.OneShot | lib/ff_glue.c:395-406 | a timer without an interval counts down to zero, expires in the call that uses it up, and stays at zero |
| Itimer.OnTimeIff | lib/ff_glue.c:370-379 | after every call of a run the expiries seen are those due, if and only if no call passes two due times |
| Itimer.NoDrift | lib/ff_glue.c:370-379 | no drift while no step is longer than the interval: the k-th expiry is in the call that reaches initial + (k-1) * interval |
| Itimer.FixedNeverDrifts | lib/ff_glue.c:352-407 | a timer whose interval went through itimerfix, decremented by at most a tick at a time, never drifts |
| Itimer.NeverAgain | lib/ff_glue.c:382-394 | once the value is negative no later call sees an expiry |
| Itimer.LongStep | lib/ff_glue.c:395-402 | a timer of one tick decremented by three ticks at once misses two expiries and ends below zero |
| Uio.TransferSplit | lib/ff_kern_subr.c:130-168 | moving j bytes and then k more is moving j + k |
| Uio.MovesAdd | lib/ff_kern_subr.c:111-174 | two requests, cut by what is left, move what one request for both would |
| Uio.StoreFetch | lib/ff_kern_subr.c:142-161 | what is copied out to places that do not overlap is copied back in unchanged |
| Uio.Directions | lib/ff_kern_subr.c:142-161 | a read brings the buffer to the places and leaves the buffer alone, a write brings the places to the buffer and leaves memory alone, no-copy changes neither; nothing else changes |
| Uio.Uio.Move | lib/ff_kern_subr.c:111-174 | moves exactly min(n, resid) bytes in order through blocks of any length, keeps resid equal to what remains, and never runs past the vector |
| Uio.CopyinUio | lib/ff_kern_subr.c:176-213 | refuses exactly more than 1024 blocks or more than INT_MAX bytes; otherwise resid is the sum of the lengths |

## Left out

- Callout.CalloutCpu.constructor: the clock starts below 2^31 - 1, so that the first backlog fits the signed comparison; the source starts it at 0.
- NgGraph.Graph.Bypass: the two hooks are distinct, and have peers if the bypass goes ahead; for a valid hook without a peer the code would link into the shared dead hook, which is not modelled.
- NgGraph.Graph.ConNodes: item allocation during cleanup succeeds, as in every destruction inside a larger operation; DestroyHook itself covers both. The first node is not being shut down.
- Flow.ExactlyOneOwner: the lcore list has no repeats (OwnerIff covers every list) and the table size is a power of two.
- Dispatch.Port.ReceiveFrame: dispatcher answers below -2, for which the code would index the rings with a negative number, are not modelled.
- Uio.CopyinUio: allocation failure is not modelled.
- Uio.Uio.Move: block lengths are below 2^32, as CopyinUio sees to; a longer one would be cut to 32 bits when it is read. The exit on a failed copy is not modelled, because copyin and copyout of this build are plain copies that always return 0 (lib/ff_glue.c:565-577).
- Callout: CALLOUT_ACTIVE, the CS_DRAIN wait, migration between CPUs, direct execution from the clock interrupt, profiling and statistics.
- Netgraph: message replies, path parsing beyond absolute addresses, type registration, node types that edit the graph from their callbacks other than by a bypass on closing.
- Gate: references to the node held by queued items, and more than 2^30 activations at once.
- Flow: INI parsing, parsing of the lcore list, the card's own hash for protocols without ports.
- Dispatch: packet contents, VLAN tags on answered frames, traffic counters, packet capture, segments of a deep copy, losses inside KNI's own queue.
- Sysinit: verbose output and the memory of replaced tables.
- Route: IPv6 scope rewriting, 32-bit compatibility headers, jail lookups; header sizes are parameters.
- TxRing: ff_txring_pop and failed sends.
- Other: sockets, kqueue, system-call glue, page allocation, stub locks and condition variables, kernel-NIC-interface internals; flat mappings or foreign calls.
