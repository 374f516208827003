# Verified models of schema-init

Dafny 4.11 models of the bookkeeping cores of schema-init: PID 1's ordered
shutdown, re-exec hand-over and descriptor handling, the D-Bus broker's tables,
the flight recorder, the hardware database lookup and the device link registry.
`dafny verify dfyconfig.toml` checks everything.

The kernel, the clock, other processes and the network appear as parameters:
a shutdown run gets a sequence of rounds (time and what is seen alive), the
outbound queue gets the results of its sends, a reload gets what its child left
behind, and directory listings are read in an arbitrary order.

Where the source updates an object in place, the model is a class with the same
fields and loops. Its methods are proved against specification functions, and
the theorems are about those functions or are kept by every method as the
object's invariant. Ghost fields record the history a statement needs: what was
accepted, announced, answered or closed.

## How the files are laid out

| area | files |
|---|---|
| hardware database | Fnmatch, HwdbTrie, HwdbAgreement, HwdbTrap, HwdbZero, HwdbProps, HwdbSearch |
| ordered shutdown | ShutdownModel, ShutdownProof, ShutdownLoop, ShutdownOrder |
| re-exec state | Decimal, TextLines, ReexecValues, ReexecRecord, ReexecSchemas, ReexecBlob, ReexecTheorems, ReexecState |
| flight recorder | RecorderLine, RecorderRoundTrip, RecorderCode, RecorderRing, RecorderSeqlock, RecorderShared, RecorderArrow, RecorderBest |
| broker queue and tables | OutQueue, NameHolders, NameRegistry, NameTable, UniqueNames, Replies, Activations |
| broker reload and policy | ReloadBooks, Reload, Policy, PolicyEval |
| broker handshake | AuthIdentity, Auth, AuthConn |
| device links | LinkNames, DeviceLinks, DeviceRegistry |
| descriptors | FdClosers, FdPlacement, FdStore |
| shared helpers | Common |

## Where the code does less than it seems to promise

Each of these has a concrete input and the exact condition under which the code
does what one would expect.

- The hwdb walk agrees with testing every stored pattern exactly for keys in
  which no `[` has anything after it, unless a backslash comes first
  (`HwdbTrap.WalkableIsExact`).
- A node below a glob whose prefix offset is zero makes the walk read the file's
  header as that node's prefix (`HwdbZero.WalkReadsHeader`). Walk and linear scan
  still agree on all keys without glob characters exactly when nothing is stored
  at or below such a node (`HwdbZero.ZeroPrefixIsExact`; the smallest case is
  `HwdbZero.ZeroPrefixMisses`). Agreement needs this condition when the patterns
  at and below such nodes have no brackets and the header has neither `[` nor
  backslash; with a bracket there it may not (`HwdbZero.BracketMayHide`). That the
  condition is enough needs neither.
- Besides no identity and the peer's own id, every way to write minus two is
  accepted for every peer, and nothing else is (`AuthIdentity.AcceptedExactly`,
  `AuthIdentity.MinusTwoIsAccepted`; a whole session is in `Auth.MinusTwoGetsIn`).
  An id may be written with blanks, a sign and zeros in front, a NUL byte writes
  0, and bytes past the sixty-third do not count (`AuthIdentity.ReadExactly`,
  `AuthIdentity.NulWritesZero`, `AuthIdentity.TailIgnored`).
- A link name that starts with a dot passes the name check, is claimed and
  linked, and is never withdrawn: its link exists exactly when some device ever
  claimed it (`DeviceLinks.DotLinksStay`, `DeviceRegistry.DotNameStays`). The same
  holds of a name with the text `\x2f` in it (`DeviceLinks.EscapedStayAfter`).
- A registry entry gives its name back exactly when the name is free of the text
  `\x2f` (`LinkNames.EscapeRoundTrip`). A name with that text shares its entry with
  another (`DeviceRegistry.EscapedIsShared`), and whenever two names share one, a
  link can lead to a device that never asked for it
  (`DeviceRegistry.SharedNameMisleads`). Names that have their entry for themselves
  follow the requests (`DeviceLinks.LinksFollowRequests`).
- During shutdown a service that was killed is killed again in every round in
  which its exec_stop_post commands keep it counted as alive, and in no other
  (`ShutdownOrder.KilledAgainDuringPost`; a run with two kills is
  `ShutdownOrder.KilledTwice`).

## Model

| member | source | states |
|---|---|---|
| `HwdbTrie.HitsAreFiltered` | hwdb.h:135-158 | Testing every node's full root-to-node pattern by descending the trie gives exactly the stored entries whose pattern fnmatches the key, in order. |
| `Fnmatch.TailIsForced` | hwdb.h:153 | When all texts a pattern tail matches have one length, a match of head plus tail splits there and nowhere else. |
| `HwdbAgreement.WalkAgrees` | hwdb.h:160-195 | For every well-formed trie and key without glob characters, the walk reports the same multiset of values as testing every stored pattern. |
| `HwdbAgreement.WalkFindsTheSame` | hwdb.h:160-195 | For every walkable key, globs included, walk and linear scan find the same values. |
| `HwdbTrap.WalkableIsExact` | hwdb.h:160-195 | Walk and linear scan agree on every well-formed trie if and only if the key is walkable. |
| `HwdbZero.WalkReadsHeader` | hwdb.h:135-158 | For every trie with distinct child bytes and no backslash in its patterns, and every header without a backslash, the walk finds on keys without glob characters, value by value as often, what testing the patterns finds once the header stands in for every zero prefix below a glob. |
| `HwdbZero.NothingStranded` | hwdb.h:135-158 | That condition is the rule on prefix offsets in well-formed tries. |
| `HwdbZero.StrandedIsMissed` | hwdb.h:135-195 | With something stored at or below such a node, there is a key without glob characters for which the walk finds a proper part of what is stored, repeated values counted. |
| `HwdbZero.ZeroPrefixIsExact` | hwdb.h:135-195 | Walk and linear scan find every value equally often, on all keys without glob characters, if and only if nothing is stored at or below a zero prefix under a glob. |
| `HwdbZero.ZeroPrefixMisses` | hwdb.h:139-141 | A concrete trie whose entry is missed, for every header that starts with the magic bytes. |
| `HwdbZero.BracketMayHide` | hwdb.h:135-195 | A trie with a bracket and something stored below such a node in which walk and scan agree on all those keys, for every header. |
| `HwdbProps.KeptIsHighest` | hwdb.h:94-109 | With at most 64 names, collecting the values in any order keeps for each name one of greatest (priority, line), and exactly the names that occur. |
| `HwdbSearch.LineBuffer.Add` | hwdb.h:125-132 | Appends when the result stays under 2048 bytes and otherwise leaves the buffer alone. |
| `HwdbSearch.LineBuffer.Remove` | hwdb.h:133 | Takes off the last bytes, or nothing when there are fewer. |
| `HwdbSearch.Collector.AddValue` | hwdb.h:94-122 | In-place update of the collected table equals the specification's insertion. |
| `HwdbSearch.ChildLookup` | hwdb.h:77-84 | The first child for a byte, or none. |
| `HwdbSearch.FnmatchBelow` | hwdb.h:135-158 | The recursive descent with the shared buffer collects what its specification lists and gives the buffer back as it was. |
| `HwdbSearch.SearchedIsWalk` | hwdb.h:124-195 | With every root-to-node pattern under 2048 bytes the bounded buffer never changes the result. |
| `HwdbSearch.Search` | hwdb.h:160-195 | The loop over nodes collects exactly what the specified walk lists. |
| `HwdbSearch.LookupIsLinearScan` | hwdb.h:160-195 | Search and collection together keep for every name what a linear scan of all patterns would keep. |
| `HwdbSearch.SearchCollectsEachOnce` | hwdb.h:160-195 | For glob-free keys each matching entry is collected exactly as often as it is stored. |
| `HwdbSearch.CopyInto` | hwdb.h:200-204 | The kept pairs go behind the record's own, in order, as many as there is room for among 128. |
| `HwdbSearch.Query` | hwdb.h:197-206 | A lookup keeps for every property name a highest-ranked value among all matching entries, and adds what it kept to the event record. |
| `ShutdownProof.WindowForcesProgress` | engine.c:3062-3168 | A whole time window cannot pass without a service making progress while anything is alive, even with cyclic dependencies and hanging stop commands. |
| `ShutdownProof.RoundSpendsBudget` | engine.c:3062-3168 | Every unfinished round leaves less of an explicit budget that covers exec_stop, SIGTERM, kill, post commands and the restart of the clock after a stop_first hold. |
| `ShutdownProof.ShutdownTerminates` | engine.c:3046-3168 | Every run in which the clock advances and an empty cgroup gains no process ends within a bound that depends only on the number of services and the longest grace. |
| `ShutdownProof.DueServiceSteps` | engine.c:621-642 | A live service past all its deadlines and not held back takes a step. |
| `ShutdownLoop.ShutDependsOn` | engine.c:3016-3026 | True exactly when the service depends on the target, directly or through a group. |
| `ShutdownLoop.LookOn` | engine.c:3075-3109 | Reaped runner, liveness and the start of exec_stop_post, branch by branch, for one service. |
| `ShutdownLoop.LookPass` | engine.c:3075-3109 | The first pass of a round computes who is alive as specified. |
| `ShutdownLoop.HoldPass` | engine.c:3110-3115 | True exactly when a live stop_first service holds the others back. |
| `ShutdownLoop.ActPass` | engine.c:3110-3160 | The second pass does to every service what the specified round does, and the clock starts anew after a stop_first hold. |
| `ShutdownLoop.ShutdownOrdered` | engine.c:3062-3168 | The loop itself: leaves within the bound, with nothing alive, and not before. |
| `ShutdownOrder.AtMostOnce` | engine.c:3075-3160 | In a whole run a service gets at most one SIGTERM and one start of each kind of stop command. |
| `ShutdownOrder.TermAtIsWhen` | engine.c:3153-3154 | The recorded time is the time of the round that sent the SIGTERM. |
| `ShutdownOrder.KillAfterGrace` | engine.c:3126-3136 | A kill comes only after a SIGTERM and a full grace period. |
| `ShutdownOrder.KilledAgainDuringPost` | engine.c:3095-3136 | A service already killed counts as alive exactly while its exec_stop_post commands are running and within grace, and exactly then it is killed again. |
| `ShutdownOrder.KilledTwice` | engine.c:3095-3136 | A concrete run in which a service is killed in two rounds. |
| `ShutdownOrder.DependentsGoFirst` | engine.c:3137-3154 | Until the time limit, nothing stops a service that a live one depends on, nor anything else while a stop_first service is alive. |
| `ReexecValues.ReadPrint` | reexec_state.h:164-236 | Every value in range of every field kind is read back exactly. |
| `ReexecValues.PrintIsPlain` | reexec_state.h:134-191 | A printed value never breaks its token or its line. |
| `ReexecValues.UnescapeEscape` | reexec_state.h:134-162 | Unescaping an escaped text gives it back. |
| `ReexecValues.CounterExact` | reexec_state.h:195-203 | An unsigned counter survives if and only if it fits a signed one. |
| `ReexecValues.PidExact` | reexec_state.h:192 | A process id survives if and only if it is not negative. |
| `ReexecRecord.TakePrintedRow` | reexec_state.h:284-401 | A printed record is read back, hidden fields as zero. |
| `ReexecRecord.UnknownTokenIgnored` | reexec_state.h:284-401 | An unknown key=value token anywhere in a record changes nothing. |
| `ReexecTheorems.RoundTrip` | reexec_state.h:238-401 | Parsing what the writer prints gives back globals, services, evictions and stored descriptors, for all in-range values, flags normalised to 0 or 1. |
| `ReexecTheorems.TruncationRejected` | reexec_state.h:284-401 | Every proper prefix of a written blob, but the one missing only the last newline, is refused. |
| `ReexecTheorems.UnknownRecordsIgnored` | reexec_state.h:284-401 | Unknown records inserted anywhere before the end line leave the result unchanged. |
| `ReexecTheorems.UnknownTokensIgnored` | reexec_state.h:284-401 | Unknown tokens added to any record leave the result unchanged. |
| `ReexecTheorems.EndedNeedsEnd` | reexec_state.h:284-401 | An accepted blob has an end line. |
| `ReexecState.RxEscape` | reexec_state.h:134-142 | The escaping loop computes the specified text. |
| `ReexecState.RxUnescape` | reexec_state.h:144-162 | The decoding loop computes the specified text or fails on a bad escape or a full buffer. |
| `ReexecState.StateWrite` | reexec_state.h:238-282 | The printing loops lay out exactly the specified blob. |
| `ReexecState.StateParse` | reexec_state.h:284-401 | The line and token loops compute the specified parse, error cases included. |
| `ReexecState.ReexecCompare` | reexec_state.h:408-439 | Accepts exactly the blobs that name no service twice and whose every service may be carried over; otherwise reports the first service that fails, a repeated name before a missing or changed file. |
| `RecorderRoundTrip.RoundTrip` | recorder.h:59-142 | A formatted line parses to the sanitised event if and only if the source is known. |
| `RecorderRoundTrip.SanitisedAgain` | recorder.h:59-98 | Formatting the sanitised event gives the same line. |
| `RecorderRoundTrip.FitsBuffer` | recorder.h:154-160 | No line is longer than 401 bytes, so the 640-byte buffer never drops an event. |
| `RecorderCode.RecWord` | recorder.h:59-66 | The word loop computes the sanitised, cut word. |
| `RecorderCode.RecFormat` | recorder.h:83-98 | The line, or failure exactly when it does not fit. |
| `RecorderCode.RecParse` | recorder.h:100-142 | The scanning loop computes the specified parse. |
| `RecorderRing.Ring.Push` | recorder_logic.h:42-50 | After any number of pushes the ring holds the newest events, past the 32-bit wrap of its counter too. |
| `RecorderRing.Ring.Read` | recorder_logic.h:72-82 | Reading oldest first gives exactly the last min(k, 128) events. |
| `RecorderRing.SlotSurvivesWrap` | recorder_logic.h:42-50 | The slot of the next event does not jump when the counter wraps. |
| `RecorderSeqlock.SnapshotIsCommitted` | recorder_logic.h:42-82 | In every interleaving of writer and field-by-field reader with fewer than 2^31 writes during a copy, an accepted snapshot is one committed state. |
| `RecorderSeqlock.SnapshotIsTheMemoryAtLoad` | recorder_logic.h:60-82 | It is the memory at the reader's last look at the counter before copying. |
| `RecorderShared.StoresWrite` | recorder_logic.h:42-59 | The cell-by-cell stores of a push or an arrow change amount to that write. |
| `RecorderShared.CommittedHold` | recorder_logic.h:42-82 | However many cells an event takes, every committed state of the shared memory holds the newest events of the writes before it. |
| `RecorderShared.SnapshotIsNewest` | recorder_logic.h:42-82 | In every interleaving, copies torn inside an event included, an accepted snapshot of the whole ring read oldest first is the last min(k, 128) events of some prefix of the pushes. |
| `RecorderArrow.BeatsIsRank` | recorder_logic.h:150-169 | On shown arrows the comparison is "ranks at least as high" in a total preorder of shade, tier, session-first and time. |
| `RecorderArrow.AtLeastTotal` | recorder_logic.h:160-169 | The ranking is total. |
| `RecorderArrow.AtLeastTransitive` | recorder_logic.h:160-169 | The ranking is transitive. |
| `RecorderBest.PairAll` | recorder_logic.h:290-320 | The pairing loop gives every event of an episode its end. |
| `RecorderBest.BestArrow` | recorder_logic.h:290-349 | The last highest-ranked candidate still shown, or none exactly when no event offers one. |
| `RecorderBest.BestOfRing` | recorder_logic.h:290-349 | The same for the events a ring still holds. |
| `OutQueue.SentPlusWaiting` | schema-dbus.c:93-132 | Bytes sent plus bytes queued are the concatenation of the accepted messages. |
| `OutQueue.PassedOnce` | schema-dbus.c:102-120 | Descriptors leave once, with the first byte of their message. |
| `OutQueue.Sending` | schema-dbus.c:117-123 | A send of any size keeps the account and takes its bytes, and the record when the chunk is done, off the backlog. |
| `OutQueue.Accepting` | sdbus_conn.h:90-94 | A queued message keeps the account. |
| `OutQueue.Queue.Room` | sdbus_conn.h:80-89 | Compaction and doubling keep the waiting chunks and keep the capacity within 16 or four times the largest live count. |
| `OutQueue.Queue.Enqueue` | sdbus_conn.h:72-95 | Accepts the message, or drops it, marks the connection and closes its descriptors exactly when the backlog would pass the cap. |
| `OutQueue.Queue.SendFront` | schema-dbus.c:112-124 | The state after one successful send; the byte count stays the unsent bytes plus one record per waiting chunk. |
| `OutQueue.Queue.Reset` | schema-dbus.c:127-130 | A queue with nothing left has sent everything and frees its array. |
| `OutQueue.Queue.Flush` | schema-dbus.c:93-132 | The bytes and descriptors sent are exactly those the send results take, chunk by chunk; an emptied queue has sent everything. |
| `NameHolders.AskCode` | sdbus_names.h:105-150 | The reply code says where the requester stood before and stands after, for every flag combination. |
| `NameHolders.AskKeepsOthers` | sdbus_names.h:128-146 | No other holder is touched, except a replaced owner that had asked not to be queued. |
| `NameHolders.AskPlacement` | sdbus_names.h:111-149 | A requester that got in holds the name with its flags, at the end of the queue if it was new there. |
| `NameHolders.AskKeepsOrder` | sdbus_names.h:105-150 | Holders before and after a request stand in the same order. |
| `NameHolders.AskDistinct` | sdbus_names.h:105-150 | A request keeps the holders distinct. |
| `NameHolders.DropKeepsOrder` | sdbus_names.h:84-87 | A removal keeps the order of the others. |
| `NameHolders.DropHolds` | sdbus_names.h:84-87 | A removal takes out exactly the connection it is for. |
| `NameHolders.HolderInsert` | sdbus_names.h:72-82 | The two copy loops insert at the index. |
| `NameHolders.HolderRemove` | sdbus_names.h:84-87 | The shift loop removes at the index. |
| `NameHolders.AskLoop` | sdbus_names.h:105-150 | The request's branches compute the specified holders and code, and report a change exactly when the owner changes. |
| `NameRegistry.AnnounceOne` | sdbus_names.h:111-117 | Announcing a change of one name keeps every listener's picture right and every announcement's old owner true. |
| `NameRegistry.NobodyOvertakes` | sdbus_names.h:72-200 | Two connections that hold a name all through a stretch of a run keep their relative order. |
| `NameRegistry.AskCapped` | sdbus_driver.h:299-308 | Under the driver's guard no request takes anybody past 512 names. |
| `NameRegistry.CountHeldLoop` | sdbus_names.h:242-248 | The nested loops count the names a connection holds. |
| `NameTable.Registry.Request` | sdbus_names.h:105-150 | The new holders, code and announcement; replaying all announcements gives every owner, holders stay distinct and in order. |
| `NameTable.Registry.Release` | sdbus_names.h:152-168 | The same for a release, with its three result codes. |
| `NameTable.Registry.Disconnect` | sdbus_names.h:172-191 | Drops the connection from every name, announces each change of owner once in table order as far as the buffer has room, and leaves the connection held nowhere. |
| `NameTable.Registry.RequestName` | sdbus_driver.h:299-308 | Refused exactly when it would add a holding past 512; nobody ever holds more. |
| `UniqueNames.NeverTwice` | sdbus_names.h:89-96 | The names given are all different if and only if there are at most 2^32 of them. |
| `UniqueNames.LiveDistinct` | sdbus_names.h:89-96 | Two connections known at the same time have the same name if and only if a multiple of 2^32 names lies between them, so never among the first 2^32 names. |
| `UniqueNames.Table.Alloc` | sdbus_names.h:89-96 | The next name of the sequence, counter wrap included, goes to the connection. |
| `UniqueNames.Table.Forget` | sdbus_names.h:192-199 | Swap-removal of the first entry of the connection, and of no other. |
| `Replies.KillFits` | sdbus_reply.h:54-110 | Ending the call in a slot keeps calls and live slots in one-to-one correspondence. |
| `Replies.RecordFits` | sdbus_reply.h:33-47 | Reusing a dead slot or adding one keeps the correspondence. |
| `Replies.EndingKeepsLeft` | sdbus_reply.h:94-110 | A call that has left stays as it left: nobody leaves twice. |
| `Replies.ToldIsEnded` | sdbus_reply.h:69-110 | A caller is told of a call exactly when the call expires or loses its callee. |
| `Replies.GoneIsGone` | sdbus_reply.h:106-110 | After a connection is gone no waiting call names it. |
| `Replies.Table.Record` | sdbus_reply.h:33-47 | The call waits; all earlier calls are as they were. |
| `Replies.Table.Match` | sdbus_reply.h:54-63 | Ends one waiting call that the reply answers, never another caller's when the destination is known, or says that there is none. |
| `Replies.Table.PendingOn` | sdbus_reply.h:69-79 | Lists the callers waiting on a callee in slot order, but for the one left out, as far as the buffer has room. |
| `Replies.Table.NextDeadline` | sdbus_reply.h:83-89 | The least deadline of a waiting call, or -1 exactly when none waits. |
| `Replies.Table.ReapExpired` | sdbus_reply.h:94-103 | Exactly the waiting calls past their deadline end as expired, and their callers are reported. |
| `Replies.Table.Purge` | sdbus_reply.h:106-110 | Exactly the waiting calls of a gone connection end. |
| `Replies.Table.RemoveConn` | schema-dbus.c:844-854 | Every caller that waited on the connection is told once, then all its calls end. |
| `Activations.PendingPopped` | sdbus_activate.h:319-323 | Swapping the last activation into a popped place loses nothing but the popped one. |
| `Activations.HoldBalanced` | sdbus_activate.h:308-316 | A held message enters the account and the table once. |
| `Activations.PoppedNames` | sdbus_activate.h:319-323 | A pop keeps one pending activation per name. |
| `Activations.Table.Hold` | schema-dbus.c:504-543 | Holds with the one pending activation of the name, starting the service only when there is none. |
| `Activations.Table.Release` | schema-dbus.c:224-268 | Everything held for a name goes out once, in order, and the name is no longer pending. |
| `Activations.Table.ChildExited` | schema-dbus.c:1592-1600 | The exited child's activation fails, and no other. |
| `Activations.Table.ReapExpired` | schema-dbus.c:1630-1638 | Exactly the activations past their deadline fail. |
| `Activations.Table.FailAll` | schema-dbus.c:1283-1287 | Nothing is left pending: all that was held was released or failed. |
| `Activations.ReleaseHeld` | schema-dbus.c:227-266 | A success for an explicit start, a forwarded message otherwise, nothing for a caller that is gone. |
| `Activations.FailHeld` | schema-dbus.c:476-487 | An error for each caller still there that expects a reply. |
| `ReloadBooks.EveryoneAnsweredOnce` | schema-dbus.c:937-945 | A connection that is still there has had exactly one reply for each of its closed requests, in order. |
| `ReloadBooks.OneReplyEach` | schema-dbus.c:937-945 | When all callers are there, the i-th reply answers the i-th request with its serial and verdict. |
| `ReloadBooks.CloseStep` | schema-dbus.c:937-945 | Closing the first waiting request keeps the account; a success needs a reload that started at or after the request. |
| `ReloadBooks.AdoptionIsSafe` | schema-dbus.c:966-1023 | Over any run, each adopted policy keeps at least half the rules of the one before it and leaves the owners of that moment safe. |
| `Reload.Reloader.ReplyAll` | schema-dbus.c:937-945 | Answers exactly the requests of one list, connected callers only. |
| `Reload.Reloader.Settle` | schema-dbus.c:966-1023 | Policy and table are swapped together or not at all: exactly when there is a policy that parses and the owners of names survive it. The callers get that outcome. |
| `Reload.Reloader.Finish` | schema-dbus.c:966-1031 | Ends the reload and starts exactly one more when requests came meanwhile; the mutual recursion with the start is bounded. |
| `Reload.Reloader.Start` | schema-dbus.c:1033-1058 | Starts a reload, or fails or finishes it at once with the callers told so; afterwards whoever waits has a child at work with a deadline. |
| `Reload.Reloader.Request` | schema-dbus.c:1060-1076 | A request during a reload waits for the next one. |
| `Reload.Reloader.Reaped` | schema-dbus.c:1079-1093 | The callers succeed exactly when the child left a policy that parses and is safe for the current owners, and then both parts are adopted. |
| `Reload.Reloader.CheckTimeout` | schema-dbus.c:1095-1107 | A child past its deadline fails exactly the callers of its reload and nothing is adopted for them; otherwise nothing changes. |
| `Reload.Reloader.Abort` | schema-dbus.c:1111-1117 | Every request ever made is closed and nothing is swapped. |
| `Reload.Reloader.Connect` | schema-dbus.c:822-823 | A new connection changes no account. |
| `Reload.Reloader.Disconnect` | schema-dbus.c:858-859 | A connection that goes takes its claim to replies with it and nothing else. |
| `Policy.LastAllowsSnoc` | sdbus_policy.h:318-320 | One more rule decides if it matches and changes nothing otherwise. |
| `Policy.UnmentionedAlike` | sdbus_policy.h:207-324 | A policy treats all names that no own rule mentions alike. |
| `PolicyEval.PeerLoop` | sdbus_policy.h:222-237 | Membership among the peer's names, with its address as fallback only when it owns none. |
| `PolicyEval.RuleMatches` | sdbus_policy.h:207-284 | True exactly when every condition of the rule holds. |
| `PolicyEval.IsApplicable` | sdbus_policy.h:286-299 | True exactly when the context is for the requester. |
| `PolicyEval.Eval` | sdbus_policy.h:309-324 | Allows exactly a requested reply, or a request whose last matching rule in the flattened default, group, user, mandatory order is an allow. |
| `PolicyEval.PolicyNames` | sdbus_reload.h:20-30 | True exactly when some own rule names the name or a prefix of it. |
| `PolicyEval.PolicyOk` | sdbus_reload.h:39-61 | Accepted exactly when at least half the rules stay and every current owner stays allowed or its name is unmentioned. |
| `PolicyEval.HoldRaw` | sdbus_reload.h:67-83 | In-place compaction keeps exactly the admitted entries in order. |
| `PolicyEval.AdmittedIsSafe` | sdbus_reload.h:67-83 | An entry stays exactly when it was read and is plain, an override or already running. |
| `AuthIdentity.WholeNumberExactly` | sdbus_auth.h:46-52 | Inside the range of a long, a text is read as a number other than the error value -1 exactly when it is blanks, an optional sign, zeros and the digits of that number, or empty for 0. |
| `AuthIdentity.ReadExactly` | sdbus_auth.h:31-53 | An identity is read as a number exactly when the text it decodes to, cut at 63 bytes and at a NUL, writes that number. |
| `AuthIdentity.AcceptedExactly` | sdbus_auth.h:95-102 | An identity is accepted for a peer if and only if it is empty, writes the peer's id or writes minus two. |
| `AuthIdentity.TailIgnored` | sdbus_auth.h:31-53 | Whatever follows the first sixty-three bytes of an identity, it is accepted exactly when they are. |
| `AuthIdentity.NulWritesZero` | sdbus_auth.h:31-53 | A single NUL byte is read as 0. |
| `AuthIdentity.MinusTwoIsAccepted` | sdbus_auth.h:95-102 | The identity 2d32 is accepted for every peer. |
| `AuthIdentity.OwnIdAccepted` | sdbus_auth.h:31-53 | A client that sends its own id in hex is accepted by exactly that peer. |
| `AuthIdentity.HexUidLoop` | sdbus_auth.h:31-53 | The decoding loop with its 63-byte buffer computes the claimed id. |
| `Auth.FeedSplit` | sdbus_auth.h:62-129 | Two reads are like one while all bytes together fit 16384. |
| `Auth.ChunkInvariant` | sdbus_auth.h:62-129 | Any way of cutting a stream gives the same replies, flags, outcome and leftover message bytes as one read. |
| `Auth.OnlyVouchedBegin` | sdbus_auth.h:121-124 | Nobody gets past BEGIN without an accepted identity since the last CANCEL. |
| `Auth.VouchedExactly` | sdbus_auth.h:88-124 | A client is let past BEGIN if and only if since its last CANCEL it offered an identity that is empty, writes the peer's id or writes minus two. |
| `Auth.MinusTwoGetsIn` | sdbus_auth.h:62-129 | For every peer, NUL, one identity that writes minus two and BEGIN get in without either. |
| `Auth.TakeLineHonest` | sdbus_auth.h:76-128 | The flags always say what the lines so far mean, and every line but BEGIN gets one reply. |
| `Auth.FreshIsHonest` | sdbus_auth.h:62-66 | A new connection starts with flags that say so. |
| `AuthConn.FindCrlf` | sdbus_auth.h:77-80 | The scan finds the first CR LF. |
| `AuthConn.Conn.Act` | sdbus_auth.h:88-127 | The branches for one line do what the specified step does. |
| `AuthConn.Conn.FeedBytes` | sdbus_auth.h:62-129 | The loop computes the specified state and result. |
| `LinkNames.NameOkLoop` | disk_links.h:159-169 | True exactly when no component is empty, `.` or `..`. |
| `LinkNames.TargetLeadsToDevice` | disk_links.h:171-185 | From the link's own directory the relative target leads to the device. |
| `LinkNames.TargetInjective` | disk_links.h:173-185 | Different devices have different targets. |
| `LinkNames.TargetLoop` | disk_links.h:173-185 | The loop writes one `../` per directory level, then the device name. |
| `LinkNames.EscapeRoundTrip` | disk_links.h:220-227 | Unescaping an escaped name gives it back if and only if it is free of the escape sequence. |
| `LinkNames.EscapeUnescape` | disk_links.h:295-300 | An entry is the escaped form of the name it is decoded to. |
| `LinkNames.EscapeInjective` | disk_links.h:220-227 | Such names never share a registry entry. |
| `LinkNames.EscapeLoop` | disk_links.h:220-227 | The escaping loop computes the escaped name. |
| `LinkNames.UnescapeLoop` | disk_links.h:295-300 | The decoding loop computes the unescaped name. |
| `DeviceLinks.Winner` | disk_links.h:243-266 | The running best over claims in any order is the best of all. |
| `DeviceLinks.BestUnique` | disk_links.h:259-264 | There is one winner, so the reading order does not matter. |
| `DeviceLinks.BestMeaning` | disk_links.h:213-219 | The winner has the highest priority, and a current holder of that priority keeps the link. |
| `DeviceLinks.LinksFollowClaims` | disk_links.h:229-325 | For every name that has its entry for itself, the link exists exactly when some device has a claim on it, and leads to such a device of highest priority. |
| `DeviceLinks.LinksFollowRequests` | disk_links.h:229-325 | For such a name without a leading dot, the link exists exactly when some device's last update asked for it. |
| `DeviceLinks.DotLinksStay` | disk_links.h:286-325 | For such a name with a leading dot, the link exists exactly when some device ever claimed it. |
| `DeviceLinks.ReflectsAfter` | disk_links.h:276-325 | An update keeps the claims on such names equal to what the devices asked for. |
| `DeviceLinks.EscapedStayAfter` | disk_links.h:286-325 | The link of a name with the escape sequence exists exactly when some device ever claimed it. |
| `DeviceRegistry.Registry.Resolve` | disk_links.h:229-270 | Points the link at the winner or drops it, touches no other link, and changes nothing on a tie. |
| `DeviceRegistry.Registry.Withdraw` | disk_links.h:291-307 | Removes one claim from one entry and no other, and resolves the name the entry stands for. |
| `DeviceRegistry.Registry.AddClaim` | disk_links.h:312-323 | Makes one claim and settles its link; a claim made again unsettles no other name of the entry. |
| `DeviceRegistry.Registry.WithdrawUnlisted` | disk_links.h:286-308 | In every entry exactly the device's unlisted claims go, except in entries that start with a dot. |
| `DeviceRegistry.Registry.ClaimListed` | disk_links.h:310-324 | Exactly the entries of listed good names get the claim, and every such name is settled. |
| `DeviceRegistry.Registry.Update` | disk_links.h:276-325 | Every claim in every entry after any update; links agree with claims after any sequence of updates, for every name that has its entry for itself. |
| `DeviceRegistry.DotNameStays` | disk_links.h:290 | Any clean name with a leading dot stays linked after its only device withdrew it. |
| `DeviceRegistry.SharedNameMisleads` | disk_links.h:220-270 | For any two good names with one entry, the link of one can be made to lead to a device that only asked for the other. |
| `DeviceRegistry.EscapedIsShared` | disk_links.h:220-227 | A name with the escape sequence shares its entry with another name. |
| `FdClosers.HandsPopped` | fdclose.h:91-97 | Swap-removal from the tracking arrays loses only the removed closer's descriptor. |
| `FdClosers.FlushKept` | fdclose.h:99-118 | Giving the park list to the overflow closer loses nothing. |
| `FdClosers.ReapOne` | fdclose.h:164-174 | A reaped closer's descriptor, and only that, moves to closed. |
| `FdClosers.ReapBatch` | fdclose.h:164-174 | A reaped overflow closer's batch, and only that, moves to closed. |
| `FdClosers.Pigeonhole` | fdclose.h:35 | Distinct numbers below a limit are no more than the limit. |
| `FdClosers.RoomToPark` | fdclose.h:131-145 | One more open descriptor below 4096 always finds room in the park list. |
| `FdClosers.OpenMore` | fdclose.h:131-145 | Parking a fresh descriptor keeps the park list distinct and in range. |
| `FdClosers.Closers.Spawn` | fdclose.h:131-157 | Where the descriptor goes in each case; at most 33 tracked, at most 32 single closers; as long as every descriptor handed over was fresh, the no-room close is never taken. |
| `FdClosers.Closers.Flush` | fdclose.h:99-118 | Takes the whole park list exactly when there is none yet, something is parked and the clone works. |
| `FdClosers.Closers.Untrack` | fdclose.h:91-97 | Swap-removal, forgetting the overflow closer when it is the one. |
| `FdClosers.Closers.Reaped` | fdclose.h:164-174 | Recognises exactly the tracked children and keeps every descriptor in one place; the next overflow closer takes the whole park list exactly when the slot is free and something is parked. |
| `FdClosers.Closers.CloseDetached` | fdclose.h:159-162 | Hands over exactly the given descriptors, closes at once exactly those it says, and none of a fresh message for want of room. |
| `FdPlacement.Finished` | fdstore.h:136-162 | Duplicating, moving down and closing the temporaries place every file and leave the rest alone. |
| `FdPlacement.Crowded` | fdstore.h:149-152 | Duplication runs out of numbers exactly when fewer are free than there are sources. |
| `FdPlacement.NextTemp` | fdstore.h:149-152 | The temporaries are the lowest free numbers above the targets, in order. |
| `FdPlacement.Process.DupFd` | fdstore.h:150 | The lowest free number from a bound on, below the limit. |
| `FdPlacement.Process.Place` | fdstore.h:136-162 | On success 3+i refers to the file `src[i]` had at entry, for every overlap, and nothing outside 3..3+n-1 changed; on failure nothing changed; success exactly when limits and free numbers suffice and every source is open or is the number of an earlier source's temporary, whose file it then shares. |
| `FdStore.TakeConserves` | fdstore.h:67-84 | Kept and handed-over descriptors are together the stored ones. |
| `FdStore.Store.Add` | fdstore.h:47-65 | Stores exactly when name, service, headroom, total and per-service limits allow it. |
| `FdStore.Store.Take` | fdstore.h:67-84 | In-place compaction keeps the others in order and hands over exactly the matching descriptors. |
| `FdStore.Store.Sweep` | fdstore.h:174-184 | The scan over the shrinking array drops exactly the services that do not stay. |

## Left out

- Service supervision in `tick_service`, timers, binds and the recovery arc: they rest on service files that are not part of this model.
- PID 1's own shared memory export, whose counter moves only once per write.
- Bytes of the hwdb file: the trie is a tree of nodes, and its offsets and bounds checks are not modelled.
- svc_runtime_copy, line numbers in parse errors and NUL bytes in the input of the re-exec state.
- The tier tables, the rendered text and the recurrence count of recorder events: an event carries its computed tier.
- Listing functions of the name registry, which only read, and the inbound buffer's growth.
- Descriptors of held activation messages, and the routing of a released message beyond handing it on.
- Trigger names, log texts, error texts and the policy cache file of a reload.
- Parsing of policy text and of service files: a policy is a table of contexts and rules.
- The notify socket's descriptor passing switch, sender attribution, and the quiesce and resume steps of the closers, which depend on kernel timing.
- DeviceRegistry.Registry.Update: file operations succeed, no real file is in a link's place and paths fit their buffers.
- RecorderBest.BestArrow: chooses the arrow; its rendered line and recurrence count are not modelled.
- LinkNames.TargetLoop: the output buffer is long enough.
- LinkNames.EscapeLoop: the output buffer is long enough.
- LinkNames.UnescapeLoop: the name buffer is long enough.
- OutQueue.Queue.SendFront: a send that takes no byte of a non-empty rest does not occur on a stream socket.
- OutQueue.Queue.Flush: reads a send result of no bytes of a non-empty rest as one byte, for the same reason.
- HwdbZero.StrandedIsMissed: for patterns without brackets at or below a zero prefix under a glob, and headers without `[` and backslash.
- HwdbZero.ZeroPrefixIsExact: its necessary half has the same restriction; `HwdbZero.BracketMayHide` shows that it is false of patterns with brackets.
- Fnmatch.TailIsForced: bracket expressions have characters, ranges and complement; character classes such as `[:alpha:]`, equivalence classes and collating symbols are not part of the pattern language here.
- Hardware probes, mounts, namespaces, sockets, event loops and console code, which are system call plumbing.
