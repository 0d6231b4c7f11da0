# Model of mycs-common

A Dafny model of the parts of the library with the most state and branching, and
proofs of what they promise.

- **JSON stream parser** (`JsonStream`, `JsonParser`, `JsonDocuments`, `JsonRebuild`, `JsonTheorems`, `Decimal`). A two-stack token machine that fills maps in place and slices by value. Maps live in an explicit store, so that aliasing between a map on the stack and the same map inside its parent is part of the model.
- **Packet filter router** (`Bits`, `Nft`, `Groups`, `GroupVerdicts`, `GroupSlices`, `RuleStore`, `RuleCounts`, `FilterTable`, `Router`, `FirstMatch`, `HookVerdicts`, `SharedMaps`, `IpLists`, `IpOrders`, `Headers`). A compiler from security groups to nftables expressions, an evaluator for those expressions on packets given as bit strings, a reference-counted rule store, the maps that groups share, the deny and allow lists, and a printer of packet headers that says what all this means for their fields.
- **Task dispatcher** (`Tasks`, `TaskRuns`) and **execution timer** (`Timer`, `TimerRuns`, `TimerStop`). Transition systems whose threads take atomic steps; a run is any sequence of enabled steps.
- **Monitor service and counters** (`Counters`, `Monitors`, `MonitorRuns`). Counters and monitors as objects, and the service as a transition system over collections, posts, failures and Stop.
- **Out-of-order writer, chunk seekers, line filter** (`WriteAt`, `WriteAtBuffer`, `Chunks`, `ChunkCopies`, `ChunkFiles`, `LineFilter`, `LineRules`). Objects that update fields in place, proved against value models, and what these mean for files, texts and the calls that build a filter.
- **Auth tokens** (`Text`, `AuthToken`, `Signatures`). Two parties over an abstract cipher and hash, and what their signatures cover.
- **Word wrap** (`WordWrap`, `WrapLetters`). Nested scanning loops against a declarative greedy wrap, and the letters they keep on all inputs.

Clocks, randomness, schedulers, callbacks, senders and the caller's context are
choices of a run or parameters. Where the source can panic or never return, the
model has that outcome, and the theorems say when it is reached, as far as "Left out"
does not say otherwise. Where the code and its comments disagree the model follows the
code: the timer's Stop can return without waiting for a timer loop that has yet to set
its ticker, leave one without a ticker, or never return, a refused seek moves a chunk reader,
the wrap loses one-letter lines and never ends on some blanks, groups on the same networks
read each other's ports, and an `@` name above a container is taken for an array index.

Automatic induction is switched off on lemmas: a proof by induction shows its recursive
call. `dafny verify dfyconfig.toml` checks the project.

## Model

| member | source | states |
|---|---|---|
| `JsonTheorems.ParseSucceedsIff` | pkg/goutils/persistence/json_stream_parser.go:22-182 | for every document with an object or array root, followed by any further tokens, parsed into an empty root of its kind: parsing succeeds if and only if nothing follows, no null occurs, and no container stands under a name starting with `@` that another member follows |
| `JsonTheorems.ParseRebuilds` | pkg/goutils/persistence/json_stream_parser.go:103-181 | on every such document the parser rebuilds exactly that document (last binding wins), makes exactly the Unmarshal and Finalize calls of its depth-first traversal with their absolute paths and `@i` keys, and after every token the key path is as deep as the unmarshaller stack, or one deeper just after a key |
| `JsonTheorems.RunRebuilds` | pkg/goutils/persistence/json_stream_parser.go:112-180 | the token loop ends with both stacks empty and the document in the store, nothing else in the store having changed |
| `JsonTheorems.CallsNested` | pkg/goutils/persistence/json_stream_parser.go:112-180 | replayed against a stack, every Finalize of the traversal closes the innermost open container and none stays open |
| `JsonTheorems.NullFails` | pkg/goutils/persistence/json_stream_parser.go:25-72 | a document with a null anywhere is never parsed to the end, whatever the root |
| `JsonTheorems.UnsafeFails` | pkg/goutils/persistence/json_stream_parser.go:139-158 | in a document without nulls, a container under an `@` name that another member follows always makes the parse end in an error |
| `JsonTheorems.RefusedHow` | pkg/goutils/persistence/json_stream_parser.go:22-182 | a document without nulls is refused with an error exactly if a container stands under an `@` name that another member follows, and else, exactly when further tokens follow it, with a panic |
| `JsonTheorems.RootNullPanics` | pkg/goutils/persistence/json_stream_parser.go:112-144 | a null that the root object or array itself holds, after members or elements that are clean, always ends in a panic, whatever follows |
| `JsonTheorems.NullFinalizes` | pkg/goutils/persistence/map.go:45-63 | a null in an object in an array under a name ends in an error of Finalize |
| `JsonTheorems.AtNameWitness` | pkg/goutils/persistence/json_stream_parser.go:139-158 | two documents that differ in member order only, one of which is refused |
| `JsonTheorems.RunHeight` | pkg/goutils/persistence/json_stream_parser.go:103-181 | in every successful run, of any tokens, the stack height is the openings minus the closings and nulls |
| `JsonParser.Parse` | pkg/goutils/persistence/json_stream_parser.go:22-182 | for every token sequence Parse ends as the token machine does; and on the tokens of any document, with others after it or not, it succeeds exactly where it can, and then returns the document with the calls of its traversal made; empty input gives the root as it was, and one token alone no root at all, or an error if it is a number or a bool |
| `JsonParser.ParserState.Consume` | pkg/goutils/persistence/json_stream_parser.go:112-180 | one pass of the loop over its key path, stack, previous token kind and array index as variables does one step of the machine, errors and panics included |
| `JsonRebuild.FillObject` | pkg/goutils/persistence/map.go:13-63 | the tokens of an object's members, read in any machine state that is about to read members, leave the object's meaning in the map at its location and leave the rest of the machine and the store as they were |
| `JsonRebuild.FillArray` | pkg/goutils/persistence/array.go:14-63 | the tokens of an array's elements, likewise, append exactly the elements to the slice on the stack |
| `JsonDocuments.RepresentsUnique` | pkg/goutils/persistence/map.go:24-62 | a store node represents at most one document value, so a rebuilt document is the document |
| `JsonDocuments.RepresentsFrame` | pkg/goutils/persistence/map.go:24-62 | writes to maps outside its own region do not change what a node represents |
| `Decimal.AtoiPrint` | pkg/goutils/persistence/array.go:55 | reading a printed index gives the index back, for all integers |
| `WriteAt.WriteHolds` | pkg/goutils/streams/writeat_buffer.go:41-120 | from any buffer reached by writes that do not overlap, a write that overlaps nothing written before succeeds and the buffer then covers exactly its positions as well, slots sorted, disjoint and strictly beyond the output |
| `WriteAt.WriteFailsIff` | pkg/goutils/streams/writeat_buffer.go:41-120 | after any writes none of which failed, overlapping ones included: a write fails if and only if it is not empty and either starts before the output position or makes some position written twice with no gap between it and the output position; an accepted write leaves such a buffer again |
| `WriteAt.FailsForGood` | pkg/goutils/streams/writeat_buffer.go:95-117 | once a write has failed every later one fails |
| `WriteAt.WriteEmits` | pkg/goutils/streams/writeat_buffer.go:41-120 | what an accepted write emits, after any writes none of which failed: the output grows to the first position that nothing waiting covers, and each new byte is that of the only slot that covers its position |
| `WriteAt.WriteAllWaits` | pkg/goutils/streams/writeat_buffer.go:41-120 | every run of writes none of which failed leaves a buffer of which WriteFailsIff and WriteEmits speak |
| `WriteAt.OverlapFailsIff` | pkg/goutils/streams/writeat_buffer.go:41-120 | in particular, where nothing overlapped before, a non-empty write fails if and only if its offset is negative, or it overlaps written bytes and does not start beyond the output position |
| `WriteAt.WriteAllHolds` | pkg/goutils/streams/writeat_buffer.go:41-120 | pieces of a content written in any order, onto any buffer that holds others, all succeed, and the buffer then holds exactly what they cover as well |
| `WriteAt.LongestPrefix` | pkg/goutils/streams/writeat_buffer.go:41-120 | the output is the longest covered prefix of the content, and slots wait exactly when there is a gap |
| `WriteAt.HoldsAll` | pkg/goutils/streams/writeat_buffer.go:34-120 | once everything is covered the output is the content and no slot is left |
| `WriteAt.ReuseHarmlessIff` | pkg/goutils/streams/writeat_buffer.go:79-117 | whatever the callers did to slices that waiting slots refer to: once the other pieces of a content are written everything is emitted, and the output is the content if and only if the output and the slots held its bytes at that point |
| `WriteAt.InsertAt` | pkg/goutils/streams/writeat_buffer.go:71-92 | sorted insertion puts the slot at the first index whose position is greater and moves nothing else |
| `WriteAtBuffers.WriteAtBuffer.WriteAt` | pkg/goutils/streams/writeat_buffer.go:41-120 | the method on arrays does what the value model does to the buffer's view, and keeps no array but those it had and its argument |
| `WriteAtBuffers.WriteAtBuffer.Search` | pkg/goutils/streams/writeat_buffer.go:71-77 | the binary search returns the first index whose slot starts after the offset |
| `WriteAtBuffers.WriteAtBuffer.AddSlot` | pkg/goutils/streams/writeat_buffer.go:79-92 | inserts the slot in order, sharing the caller's array |
| `WriteAtBuffers.WriteAtBuffer.DrainSlots` | pkg/goutils/streams/writeat_buffer.go:95-117 | emits slots while the first one starts at the output position |
| `WriteAtBuffers.WriteAtBuffer.Close` | pkg/goutils/streams/writeat_buffer.go:34-39 | succeeds exactly when no slot is left |
| `WriteAtBuffers.ReuseCorrupts` | pkg/goutils/streams/writeat_buffer.go:79-92 | one run in which a caller that reuses its slice after an early write changes what is emitted later |
| `Chunks.ChunkedCopy` | pkg/goutils/utils/files.go:327-373 | windows that tile a content, each written in order by its own seeker: for every interleaving and every choice of write sizes, no write fails; the windows are all finished if and only if each seeker was given as many bytes as its window holds, and then the output is exactly the content and nothing waits |
| `Chunks.CopyFromIff` | pkg/goutils/utils/files.go:327-373 | from any point of a copy, whatever the waiting slots hold by then: turns that finish the windows never fail and leave nothing waiting, and the output is the content if and only if the output and the slots held its bytes at that point |
| `Chunks.PartWayKept` | pkg/goutils/utils/files.go:327-373 | turns lead from any point of a copy, whatever the waiting slots hold, to another such point |
| `ChunkCopies.Copy` | pkg/goutils/utils/files.go:327-373 | seeker objects that share one buffer object and load caller slices: up to the first turn whose slice a waiting slot refers to, every interleaving does what the value model does |
| `ChunkCopies.FinishCopy` | pkg/goutils/utils/files.go:327-373 | from any point, whatever was done to the slices: when the windows are finished the output is the content if and only if the output and the slots held its bytes at that point |
| `ChunkCopies.ReuseTurn` | pkg/goutils/streams/writeat_buffer.go:41-120 | one turn with any slice, though waiting slots refer to it, leads to a point of the copy from which FinishCopy can go on |
| `ChunkCopies.CopyReusing` | pkg/goutils/utils/files.go:327-373 | a copy in which slices are reused at will: no write fails, and once the windows are finished nothing waits and the output is as long as the content; only its bytes can be wrong |
| `ChunkCopies.CopyChunks` | pkg/goutils/utils/files.go:327-373 | fresh seekers and a slice of its own for every turn: no write fails, and when the windows are finished the output is the content |
| `ChunkCopies.Load` | pkg/goutils/streams/writeat_buffer.go:79-92 | loading a slice again leaves all slots in place and changes only the bytes of those that refer to it |
| `Chunks.TurnProgress` | pkg/goutils/utils/files.go:348-373 | one write of one seeker keeps the joint state of all seekers and the buffer |
| `Chunks.ReadAllExact` | pkg/goutils/utils/files.go:292-324 | for every sequence of buffer sizes a chunk reader returns a prefix of its window, reports end of file only with the whole window read, and does so once the sizes add up to the window |
| `Chunks.ReadPrefix` | pkg/goutils/utils/files.go:292-324 | one read takes exactly the next bytes of the window |
| `Chunks.SeekRead` | pkg/goutils/utils/files.go:250-268 | after a seek, reading gives the window from there, whatever was read before |
| `Chunks.ChunkWriteSeeker.Write` | pkg/goutils/utils/files.go:348-373 | writes, at the window's offset plus pointer, as much as the window still takes, and moves the pointer and the remainder |
| `Chunks.ChunkWriteSeeker.SeekTo` | pkg/goutils/utils/files.go:375-393 | moves the pointer as the seek rule says, for which WindowIsFile is proved |
| `ChunkFiles.WindowIsFile` | pkg/goutils/utils/files.go:242-324 | every history of reads and seeks of a chunk reader, none to before its start: it answers as a file of the bytes in its window would that has a position of its own, seeks from the start, the position and the end included, and repeats the end of file until the next seek |
| `ChunkFiles.RefusedSeekMoves` | pkg/goutils/utils/files.go:250-268 | a seek to before the start is refused and yet moves the reader: the next read returns a byte from before the window |
| `ChunkFiles.ChunkReadSeeker.Read` | pkg/goutils/utils/files.go:292-324 | the method on an array fills its front with what the value model reads, leaves the rest of it, and moves the object alike |
| `ChunkFiles.ChunkReadSeeker.SeekTo` | pkg/goutils/utils/files.go:250-268 | moves the object as the value model does |
| `Chunks.TurnsTake` | pkg/goutils/utils/files.go:348-373 | after any turns a seeker still lacks its window less the bytes it was given, down to nothing |
| `LineRules.AnyChunking` | pkg/goutils/streams/filter_writer.go:60-205 | for any builder calls, any text and every way of cutting it into Write calls, in terms of the patterns given to the builders alone: a line comes out exactly if it is read while lines are included and the include and exclude patterns want it, or if it follows a line that resumes for good; an unterminated last line comes out exactly if lines are included there; the last call decides if nothing is read at all |
| `LineRules.WantedOnly` | pkg/goutils/streams/filter_writer.go:98-205 | a filter of include and exclude patterns only passes on exactly the lines that some include pattern matches, or all where there is none, and that no exclude pattern matches |
| `LineRules.StartsAsAsked` | pkg/goutils/streams/filter_writer.go:60-108 | whether a text is included from its start is decided by the last call that sets it: an exclude-after pattern given before any include-after one and SetPassThru say yes, the opposite calls no |
| `LineRules.ReadsAsAsked` | pkg/goutils/streams/filter_writer.go:80-117 | the built filter wants, stops at and resumes at a line exactly as some pattern given to the builder says |
| `LineFilter.BuiltOutput` | pkg/goutils/streams/filter_writer.go:121-205 | for every built filter and every way of cutting the bytes, the output after Close is that of the line-by-line reference |
| `LineFilter.NothingAfterClose` | pkg/goutils/streams/filter_writer.go:119-205 | after Close nothing more comes out, whatever is written |
| `LineFilter.FeedIsFiltered` | pkg/goutils/streams/filter_writer.go:135-205 | the byte machine, from any state at a line start, agrees with the line-by-line reference, which decides a line by quantifying over the patterns |
| `LineFilter.ShortcutsAgreeIff` | pkg/goutils/streams/filter_writer.go:152-177 | switching the writer to pass-through or to discarding changes nothing on any data if and only if, where the switch to pass-through can be made at all, the per-line patterns pass every line |
| `LineFilter.SwitchAgrees` | pkg/goutils/streams/filter_writer.go:152-177 | under that condition the two agree on all data |
| `LineFilter.PassThruDiffers` | pkg/goutils/streams/filter_writer.go:163-178 | otherwise a line that the per-line patterns reject is still emitted |
| `LineFilter.ExcludedForGood` | pkg/goutils/streams/filter_writer.go:152-161 | with no pattern to include again, nothing is emitted after an exclusion |
| `LineFilter.BuildFlags` | pkg/goutils/streams/filter_writer.go:60-108 | whatever the builder calls, each flag says whether its pattern list is non-empty |
| `LineFilter.FeedConcat` | pkg/goutils/streams/filter_writer.go:121-185 | feeding two pieces is feeding their concatenation |
| `LineFilter.FilterWriter.Write` | pkg/goutils/streams/filter_writer.go:121-185 | one Write call feeds its bytes to the machine |
| `LineFilter.FilterWriter.WriteFiltered` | pkg/goutils/streams/filter_writer.go:135-181 | the buffering loop does what feeding byte by byte does |
| `LineFilter.FilterWriter.FinishLine` | pkg/goutils/streams/filter_writer.go:139-179 | decides one line: it is emitted exactly in the include state, if some include pattern matches or there is none and no exclude pattern matches, and the state changes exactly at a line that a pattern of its kind matches |
| `LineFilter.FilterWriter.Close` | pkg/goutils/streams/filter_writer.go:189-205 | decides an unterminated last line |
| `Tasks.DispatcherSafe` | pkg/goutils/utils/task.go:43-179 | in every state that submitters, workers and Stop can reach, the wait group counts exactly the tasks being sent, queued or held; nothing panics; the queue is closed only when nobody sends or holds a task; no task is settled twice, and none with a non-negative retry count is run more than retries + 1 times; every attempt but the last failed and left data, and a task settled by such a failure has had exactly retries + 1 attempts, unless Stop was called or a retry of that task was given up |
| `Tasks.InvKept` | pkg/goutils/utils/task.go:57-118 | every step of every thread keeps the dispatcher's invariant |
| `Tasks.ClosedQuietly` | pkg/goutils/utils/task.go:125-155 | once the queue is closed every submitted task has been settled exactly once |
| `Tasks.SettledOnce` | pkg/goutils/utils/task.go:63-117 | a settled task is in circulation no more; a rejected one is never settled |
| `Tasks.LiveChange` | pkg/goutils/utils/task.go:57-118 | each step puts a task into circulation when it submits it and takes it out when it settles or rejects it, and otherwise loses and duplicates none |
| `Tasks.Progress` | pkg/goutils/utils/task.go:57-118 | with non-negative retries every step but a submission lowers one measure of remaining tries and pending steps |
| `Tasks.RunBounded` | pkg/goutils/utils/task.go:57-118 | so between submissions every run is bounded by that measure |
| `Tasks.Quiescent` | pkg/goutils/utils/task.go:57-118 | when no task can move on, whether Stop has been called or not, every submitted task has been settled |
| `Tasks.AcceptedIsSettled` | pkg/goutils/utils/task.go:43-155 | from every reachable state of a dispatcher with workers, stopped or not: every run without submissions is bounded, and once no task can move on, each task that had been accepted has been settled exactly once, by its last attempt, was not rejected and was run at most retries + 1 times; where Stop was not called and no retry given up it was run until it succeeded, failed without leaving data, or had failed retries + 1 times |
| `Tasks.SomeRunSettles` | pkg/goutils/utils/task.go:57-118 | from every such state some run without submissions comes to rest |
| `Tasks.NegativeRetriesUnbounded` | pkg/goutils/utils/task.go:63-104 | with any negative retry count there is, for every n, a run that tries a task n times |
| `TaskRuns.StopEndsRetries` | pkg/goutils/utils/task.go:63-104 | after Stop has been called nothing is retried: in every run from there each task is run at most once more, and that settles it |
| `TaskRuns.QueueOrder` | pkg/goutils/utils/task.go:57-155 | in every run the queue is first in, first out: the tasks that workers are found running after a receive, followed by the queue, are the queue at the start followed by all that was put into it, retries included |
| `Monitors.MonitorConserves` | pkg/common/monitors/monitor.go:104-238 | for every run of updates, collections, posts, whole and partial failures, put-backs and Stop, ticks after Stop included: a cumulative counter's delivered, in-flight, buffered and uncollected values add up to its reading; what is delivered is exactly the batches whose send succeeded and the accepted parts of partial failures, in that order, and with what is in flight and buffered it is exactly what was produced, so that nothing is delivered while no send succeeds; posts are on schedule; and where the timer's Stop made its handshake, Stop returns with nothing in flight |
| `Monitors.StopIsFinalIff` | pkg/common/monitors/monitor.go:66-238 | in every run in which Stop has returned: no payload is being sent and none will be, however the run goes on, if and only if the timer's Stop made its handshake, or the collect count is zero, or there is no counter |
| `Monitors.LateTickPosts` | pkg/common/monitors/monitor.go:220-238 | every service with a counter and a positive collect count has a run in which Stop has returned and a batch with a payload is in flight |
| `Monitors.InvKept` | pkg/common/monitors/monitor.go:104-238 | every step keeps conservation, the payload balance, the schedule and the order of Stop |
| `Monitors.SendKeeps` | pkg/common/monitors/monitor.go:183-217 | a send that succeeds, fails or fails in part moves payloads without losing or copying any: a batch that failed leads the buffer and none of it counts as delivered |
| `Monitors.SumOrder` | pkg/common/monitors/monitor.go:189-214 | what a counter has handed out does not depend on the order of payloads |
| `Monitors.NeverPosts` | pkg/common/monitors/monitor.go:104-118 | with a collect count below one no collection ever posts anything |
| `Monitors.DeliveredIsTaken` | pkg/common/monitors/monitor.go:183-217 | over any run, delivered grows by exactly what the sender took, in the order in which it took it |
| `MonitorRuns.FailedGoesFirst` | pkg/common/monitors/monitor.go:183-217 | a batch whose send failed leads the buffer, ahead of all that is collected later; where no later send fails it stays together to its delivery, and has been delivered when Stop returns after a handshake |
| `MonitorRuns.StopSendsAll` | pkg/common/monitors/monitor.go:220-238 | Stop after a handshake, with no send failing and no counter updated from its collection on: all that was ever produced has been delivered, and what was delivered of each cumulative counter of a monitor adds up to its reading |
| `MonitorRuns.TickCollectsAll` | pkg/common/monitors/monitor.go:104-143 | at the end of the collection that a tick begins, every cumulative counter of every monitor that was not updated meanwhile holds nothing |
| `Counters.CollectKeepsReading` | pkg/common/monitors/counter.go:73-91 | collecting never changes a counter's reading, and a cumulative counter hands out exactly what it stops holding |
| `Counters.ReadingAfter` | pkg/common/monitors/counter.go:97-134 | the reading after Inc, Add and Set |
| `Counters.SnapshotTells` | pkg/common/monitors/counter.go:73-134 | after any history of updates and collections a snapshot tells what the updates add up to, or for a cumulative counter by how much that has moved since the snapshots before, and is left out exactly if that is zero and zeros are to be ignored |
| `Counters.HistoryHolds` | pkg/common/monitors/counter.go:73-134 | after any history value and cumulative value add up to what the updates say, the cumulative value being the sum of the snapshots |
| `Counters.CollectListConserves` | pkg/common/monitors/monitor.go:120-143 | collecting a list, however often it names a counter, hands out exactly what moved into its cumulative value |
| `Counters.DeletesOnlyItIff` | pkg/common/monitors/monitor.go:247-260 | deleting a counter from a non-empty list removes exactly one occurrence of it and nothing else if and only if it is listed |
| `Counters.CollectMonitor` | pkg/common/monitors/monitor.go:120-143 | the loop over one monitor's counters, each collected in its current state |
| `Counters.CollectEvents` | pkg/common/monitors/monitor.go:120-143 | the loop over all monitors: the payload, and that it is kept exactly if some snapshot was taken |
| `Counters.Counter.DoCollect` | pkg/common/monitors/counter.go:73-91 | the object ends in the collected state and hands out the snapshot, for which conservation is proved |
| `Counters.Counter.DoUpdate` | pkg/common/monitors/counter.go:104-134 | the object ends in the state whose reading ReadingAfter gives |
| `Counters.Monitor.DeleteCounter` | pkg/common/monitors/monitor.go:247-260 | shifts over the last occurrence and always shortens the list, with its panic on an empty list |
| `Nft.MaskedCompare` | pkg/goutils/network/packet_filter_router_linux.go:709-733 | masking and comparing an address equals membership in the prefix, for every prefix length |
| `Nft.EvalAddr` | pkg/goutils/network/packet_filter_router_linux.go:709-773 | the compiled address test goes on exactly when the address at its offset in the header is in the prefix; FieldsRead says which addresses the offsets of the source are |
| `Nft.EvalIf` | pkg/goutils/network/packet_filter_router_linux.go:666-677 | the compiled interface test goes on exactly on that interface |
| `Nft.EvalConcat` | pkg/goutils/network/packet_filter_router_linux.go:623-898 | evaluating joined expression lists is evaluating one after the other |
| `Nft.LoadPut` | pkg/goutils/network/packet_filter_router_linux.go:822-842 | a register returns what was put into it |
| `Bits.NameCompare` | pkg/goutils/network/packet_filter_router_linux.go:666-677 | comparing up to the terminating zero compares whole interface names |
| `Bits.NumIff` | pkg/goutils/network/packet_filter_router_linux.go:1684-1705 | a number in range has exactly one big-endian form |
| `GroupVerdicts.GroupVerdict` | pkg/goutils/network/packet_filter_router_linux.go:623-898 | the compiled rules of any valid security group give its verdict on a packet if and only if the conditions they are to test (incoming interface when forwarding, source, destination, output interface, protocol and port) all hold, and fall through otherwise |
| `GroupVerdicts.GroupEvaluates` | pkg/goutils/network/packet_filter_router_linux.go:623-898 | the compiled rules of any valid security group, with whatever its port map holds: nothing where its conditions do not hold, else what the ICMP rule and the port map say, in their order |
| `GroupSlices.CompileGroup` | pkg/goutils/network/packet_filter_router_linux.go:677-905 | compiled as the source does, by appending to one slice of conditions whose capacity doubles when it must grow: the rules in memory at the time they are saved are those of GroupRules if and only if the group is not one with a source, an outgoing interface, a destination, no incoming interface, and both ICMP and other ports; such a group has its last rule twice |
| `GroupSlices.CompilePorts` | pkg/goutils/network/packet_filter_router_linux.go:775-905 | for any capacity of the slice of conditions: with room for a rule all rules end up as the last one, and without each is its own |
| `GroupSlices.Append` | pkg/goutils/network/packet_filter_router_linux.go:791-845 | append writes in place where there is room, and else copies to a new array |
| `GroupSlices.OverwrittenSays` | pkg/goutils/network/packet_filter_router_linux.go:775-845 | such a group loses its ICMP rule or its port map, whichever its first port group asked for |
| `GroupSlices.OverwrittenBreaksCounts` | pkg/goutils/network/packet_filter_router_linux.go:1403-1446 | and saving it leaves an installed rule that no count accounts for |
| `GroupVerdicts.TestsConditions` | pkg/goutils/network/packet_filter_router_linux.go:666-773 | the leading conditions go on exactly when they hold |
| `GroupVerdicts.EvalPortRules` | pkg/goutils/network/packet_filter_router_linux.go:775-845 | the port rules, with their run-once guards in any state and any port map, decide by the ICMP test and the map |
| `GroupVerdicts.IcmpMissesIcmp6` | pkg/goutils/network/packet_filter_router_linux.go:779-808 | the compiled rules of a group for ICMP only say nothing of any ICMPv6 packet |
| `Headers.FieldsRead` | pkg/goutils/network/packet_filter_router_linux.go:1588-1595 | on headers printed field by field as section 3.1 of RFC 791 and section 3 of RFC 8200 draw them, without the offsets of the source, what the rules read there are the source address, the destination address and the protocol or next header, and in the transport header the destination port, for both families |
| `Headers.AddressTests` | pkg/goutils/network/packet_filter_router_linux.go:709-773 | on a printed header the compiled source test goes on exactly if the source address is of the network's family and agrees with it in its leading bits, and the destination test likewise |
| `Headers.ConditionTests` | pkg/goutils/network/packet_filter_router_linux.go:666-773 | on a printed header the leading conditions of a group go on exactly if interfaces, source and destination are those the group names |
| `Headers.GroupDecides` | pkg/goutils/network/packet_filter_router_linux.go:623-898 | on a printed packet the compiled rules of a group give its verdict, drop for a denying and accept for an allowing one, exactly if source, destination, interfaces, protocol number and destination port are among those it names, and otherwise none |
| `Groups.CompilePorts` | pkg/goutils/network/packet_filter_router_linux.go:775-898 | the loop over port groups with its two run-once guards builds exactly the specified rules |
| `Groups.FillPorts` | pkg/goutils/network/packet_filter_router_linux.go:857-881 | the loops over port ranges build exactly the specified map |
| `Groups.PortKeyIff` | pkg/goutils/network/packet_filter_router_linux.go:1684-1705 | port map keys are equal exactly for the same protocol and port |
| `Groups.RangeEntries` | pkg/goutils/network/packet_filter_router_linux.go:857-881 | a range adds exactly the keys of its ports to any map |
| `Groups.PortEntries` | pkg/goutils/network/packet_filter_router_linux.go:775-881 | a group's ports add exactly the keys of the ports it lists to any map |
| `SharedMaps.ApplyGroups` | pkg/goutils/network/packet_filter_router_linux.go:577-909 | the loop over groups reports an error if and only if groups clash, and leaves a router that gives every packet, forwarded or for the router itself, the verdict of ForwardDecides and InputDecides |
| `SharedMaps.RefusedFromClash` | pkg/goutils/network/packet_filter_router_linux.go:577-909 | on a new router exactly the groups before the first clash are applied; a group clashes if it lists a port with another verdict than an earlier group that shares its port map, or would take over the loopback interface, for the kernel refuses to add a key that has another verdict |
| `SharedMaps.ConflictRefused` | pkg/goutils/network/packet_filter_router_linux.go:857-905 | of two groups on the same networks with different verdicts for a port the second is refused and the first stays |
| `Router.SharedRules` | pkg/goutils/network/packet_filter_router_linux.go:1414-1425 | leaving out rules that the chain already has does not change what it decides |
| `FirstMatch.GroupSpecsProper` | pkg/goutils/network/packet_filter_router_linux.go:623-898 | a group's batch holds distinct rules, each with one verdict, at its end |
| `FirstMatch.ApplySaves` | pkg/goutils/network/packet_filter_router_linux.go:577-909 | every group that is not refused is saved, keeping counts exact |
| `FirstMatch.ApplyEvaluates` | pkg/goutils/network/packet_filter_router_linux.go:577-909 | after a group is applied every chain decides as before where it decided, and else as the group does |
| `FirstMatch.ChainsAreGroups` | pkg/goutils/network/packet_filter_router_linux.go:577-909 | for every list of groups a chain decides as the first of its groups that decides |
| `SharedMaps.ForwardDecides` | pkg/goutils/network/packet_filter_router_linux.go:59-909 | for every list of groups, port maps shared or not: a forwarded packet gets the verdict of the first group applied with a destination network whose conditions hold and whose ICMP rule or final port map has an entry for it, and otherwise that of its connection state |
| `SharedMaps.InputDecides` | pkg/goutils/network/packet_filter_router_linux.go:59-909 | likewise, a packet for the router itself gets the verdict of its connection state, else loopback is accepted, else it gets that of the first group applied without a destination network |
| `SharedMaps.ForwardFirstMatch` | pkg/goutils/network/packet_filter_router_linux.go:59-909 | that is the verdict of the first matching group with a destination network, and otherwise of the connection state, if and only if no port that only other groups list leaks to the packet, through a shared map, before a group matches, or one does with that very verdict |
| `SharedMaps.InputFirstMatch` | pkg/goutils/network/packet_filter_router_linux.go:59-909 | the same for packets to the router itself |
| `SharedMaps.DistinctNeverLeak` | pkg/goutils/network/packet_filter_router_linux.go:577-909 | where no two groups share a port map nothing leaks |
| `Headers.ForwardedFrame` | pkg/goutils/network/packet_filter_router_linux.go:59-909 | groups that share no port map, configured on a new router: a printed packet that is forwarded gets the verdict of the first group with a destination network that names its header fields, and otherwise accept for an established or related connection, drop for an invalid one, and none for the others |
| `Headers.OwnFrame` | pkg/goutils/network/packet_filter_router_linux.go:59-909 | a printed packet for the router itself: the verdict of its connection, then acceptance of loopback, then the first group without a destination network that names its header fields |
| `SharedMaps.SharedMapLeaks` | pkg/goutils/network/packet_filter_router_linux.go:775-881 | two groups that share a port map, the first for a forwarded packet but without its port, the second with the port but not for the packet: nothing matches, and the packet gets the verdict of the second |
| `SharedMaps.InputGroupLeaks` | pkg/goutils/network/packet_filter_router_linux.go:775-881 | for every network: accepting TCP port 80 to it, and denying it TCP port 443 of the router, drops what is forwarded to its port 443 |
| `HookVerdicts.SharedEntry` | pkg/goutils/network/packet_filter_router_linux.go:857-881 | a port map that groups share has under a port's key what the last of them that lists the port has put there, and no other key |
| `HookVerdicts.SharedSays` | pkg/goutils/network/packet_filter_router_linux.go:810-881 | so it says of a packet what that group says |
| `HookVerdicts.AllForward` | pkg/goutils/network/packet_filter_router_linux.go:59-909 | once any groups are applied a forwarded packet gets the verdict of the first group that says something, else of its connection state |
| `HookVerdicts.AllInput` | pkg/goutils/network/packet_filter_router_linux.go:59-909 | the same for packets to the router itself |
| `HookVerdicts.MapBuilt` | pkg/goutils/network/packet_filter_router_linux.go:810-881 | once groups are applied every port map holds what all the groups that share it have put there |
| `HookVerdicts.FinalMaps` | pkg/goutils/network/packet_filter_router_linux.go:59-313 | once groups are applied every port map, the connection map and the interface map hold exactly what the groups put there |
| `RuleCounts.CountsExact` | pkg/goutils/network/packet_filter_router_linux.go:1403-1483 | after any sequence of saves and deletes, each rule's reference count is its number of occurrences across the saved filters, and a rule is installed exactly when it is a base rule or that count is positive |
| `RuleCounts.SaveKeepsIff` | pkg/goutils/network/packet_filter_router_linux.go:1403-1446 | saving keeps this if and only if the batch repeats no rule that is new to the kernel |
| `RuleCounts.SaveKeeps` | pkg/goutils/network/packet_filter_router_linux.go:1403-1446 | such a save succeeds and finds all its rules installed |
| `RuleCounts.DeleteKeeps` | pkg/goutils/network/packet_filter_router_linux.go:1448-1483 | deleting a filter removes exactly the rules that no other filter uses |
| `RuleCounts.DeleteUndoesSave` | pkg/goutils/network/packet_filter_router_linux.go:1403-1483 | deleting a filter just saved under a fresh key restores rules, counts and filters |
| `RuleStore.PrefixFree` | pkg/goutils/network/packet_filter_router_linux.go:1624-1681 | of two rules with one verdict at the end neither is a proper prefix of the other |
| `RuleStore.CheckRuleMatch` | pkg/goutils/network/packet_filter_router_linux.go:1648-1670 | the comparison loop says whether the candidate is a prefix of the rule, and panics exactly when the rule is a proper prefix of the candidate |
| `RuleStore.FindRuleInList` | pkg/goutils/network/packet_filter_router_linux.go:1624-1681 | on rules with one verdict at the end the search never panics and finds the first equal rule |
| `FilterTable.PacketFilterRouter.SaveFilterRules` | pkg/goutils/network/packet_filter_router_linux.go:1403-1446 | the object ends in the saved store, for which counts are proved exact, and reports failure exactly when a rule cannot be found again |
| `FilterTable.PacketFilterRouter.DeleteFilter` | pkg/goutils/network/packet_filter_router_linux.go:1448-1483 | the object ends in the store without the filter; an unknown key is an error that changes nothing |
| `FilterTable.PacketFilterRouter.AddMissing` | pkg/goutils/network/packet_filter_router_linux.go:1413-1425 | the first loop adds exactly the rules not installed when the save began |
| `FilterTable.PacketFilterRouter.CountUses` | pkg/goutils/network/packet_filter_router_linux.go:1431-1444 | the second loop finds the handles and counts one use for each rule of the batch |
| `IpLists.ListsDecide` | pkg/goutils/network/packet_filter_router_linux.go:377-575 | after any sequence of additions to the deny and allow lists, deletions, and saves and deletes of other filters: a list's rules are installed exactly while its combined IPv4 and IPv6 set is not empty, and a non-loopback packet is dropped before routing exactly if its source is denied, or the allow list is not empty and does not hold it |
| `IpOrders.LoopbackDecides` | pkg/goutils/network/packet_filter_router_linux.go:377-575 | after any such sequence, a loopback packet is dropped exactly if its source is denied and the deny list came into force before the allow list or alone; otherwise it is accepted at once while the allow list is in force |
| `Headers.ListedFrame` | pkg/goutils/network/packet_filter_router_linux.go:377-575 | after any such sequence a printed packet that did not come by loopback is dropped exactly if the source address in its header is in the deny list of its family, or the allow list is in force and does not hold it |
| `Headers.AddedFrame` | pkg/goutils/network/packet_filter_router_linux.go:377-575 | in terms of the calls alone, where nothing is deleted: it is dropped exactly if some call added its source to the deny list, or some call added anything to the allow list and none its source |
| `Headers.LoopbackFrame` | pkg/goutils/network/packet_filter_router_linux.go:377-575 | one that came by loopback is decided by the source address in its header and the order in which the lists came into force |
| `IpOrders.RunFollows` | pkg/goutils/network/packet_filter_router_linux.go:377-575 | after any such sequence the prerouting chain holds the rules of the lists in force in the order in which they came into force |
| `IpLists.ExecuteKeeps` | pkg/goutils/network/packet_filter_router_linux.go:377-575 | every command keeps the lists' invariant |
| `IpLists.PreroutingRules` | pkg/goutils/network/packet_filter_router_linux.go:377-575 | the prerouting chain holds exactly the rules of the lists that are not empty |
| `IpLists.ListVerdict` | pkg/goutils/network/packet_filter_router_linux.go:377-575 | what those rules decide, in whatever order the lists came into force |
| `IpLists.ListSpecsProper` | pkg/goutils/network/packet_filter_router_linux.go:377-575 | a list's batch holds distinct rules, each with one verdict, at its end |
| `IpLists.CurrentAfter` | pkg/goutils/network/packet_filter_router_linux.go:377-575 | what each command does to the sets once flushed; a deletion that the kernel rejects drops what was queued before it |
| `IpLists.CreateIpSetElements` | pkg/goutils/network/packet_filter_router_linux.go:1708-1719 | the addresses of a mixed list, by family |
| `AuthTokens.Exchange` | pkg/goutils/rest/auth_token.go:95-644 | for every exchange whose signed keys hold neither separator and whose auth key holds no `\|`: the server recovers exactly the client's hash key and checksums, accepts the request and reads its payload; the client accepts the signed reply and reads its payload |
| `AuthTokens.RunExchange` | pkg/goutils/rest/auth_token.go:73-644 | the same, run on a client's and a server's token object |
| `AuthTokens.RequestTokenIff` | pkg/goutils/rest/auth_token.go:289-318 | a token is handed out exactly by an authenticated client, and the server takes it over exactly if neither the auth key nor a checksum holds `\|`, and refuses it otherwise |
| `AuthTokens.ResponseTokenIff` | pkg/goutils/rest/auth_token.go:95-123 | the same for the client and a server's token, the client keeping its hash key |
| `AuthTokens.KeysRecoveredIff` | pkg/goutils/rest/auth_token.go:217-270 | the keys read out of a signature are the signed ones cut at every `~`, hence the signed ones if and only if no key holds `~` |
| `AuthTokens.ValidatesIff` | pkg/goutils/rest/auth_token.go:217-270 | for any signed keys, a message validates if and only if its values for the keys, cut at every `~`, hash like the signed values |
| `Signatures.ChangeNoticed` | pkg/goutils/rest/auth_token.go:151-270 | with a hash that tells texts apart under the key: a message changed in at most one of the signed keys, however often the key is listed, is accepted if and only if the body, the URL of a request or the header that the key stands for was left alone |
| `Signatures.OneKeySigned` | pkg/goutils/rest/auth_token.go:151-270 | in particular a signature of the body covers the body, one of the URL the URL of a request, and one of another key that header |
| `Signatures.SignedExactly` | pkg/goutils/rest/auth_token.go:151-270 | with such a hash and however many signed parts changed: a message is accepted if and only if its signed parts, joined, are the signed ones joined |
| `Signatures.RunChanged` | pkg/goutils/rest/auth_token.go:73-459 | the same, run on a client's and a server's token object |
| `Signatures.PayloadCovered` | pkg/goutils/rest/auth_token.go:469-644 | with such a hash, what a sealed body decrypts to under a token is the payload the token was made for, or nothing |
| `Signatures.ForeignRefused` | pkg/goutils/rest/auth_token.go:95-123 | a token made under another auth key is refused by server and client |
| `Signatures.KeylessRefused` | pkg/goutils/rest/auth_token.go:151-270 | without a hash key of 32 bytes nothing is signed, validated, encrypted or decrypted |
| `Text.HexDigitsAt` | pkg/goutils/rest/auth_token.go:138-207 | the hexadecimal form has two lower-case digits a byte, the high half first |
| `AuthTokens.AuthToken.constructor` | pkg/goutils/rest/auth_token.go:73-90 | a client token holds its random key, a server token none |
| `AuthTokens.AuthToken.SetEncryptedToken` | pkg/goutils/rest/auth_token.go:289-318 | either kind of token takes over exactly what the wire form carries, or reports an error and keeps its checksums; a bad hex key leaves the bytes before the error as the hash key |
| `AuthTokens.AuthToken.GetEncryptedToken` | pkg/goutils/rest/auth_token.go:125-149 | the wire form of either kind; an error when not authenticated |
| `AuthTokens.AuthToken.SignTransportData` | pkg/goutils/rest/auth_token.go:151-215 | the signing loop over the body, the URL of a request and headers leaves a signature for which ChangeNoticed is proved; an error on the wrong kind of message or a bad hash key |
| `AuthTokens.AuthToken.ValidateTransportData` | pkg/goutils/rest/auth_token.go:217-270 | the validating loop, over the keys read out of the signature, accepts exactly the messages that validate, for which ChangeNoticed is proved |
| `AuthTokens.AuthToken.Encrypt` | pkg/goutils/rest/auth_token.go:469-550 | stores the payload's checksum and seals the payload |
| `AuthTokens.AuthToken.Decrypt` | pkg/goutils/rest/auth_token.go:553-644 | opens a payload and refuses it when the checksum differs |
| `Text.SplitCount` | pkg/goutils/rest/auth_token.go:114 | splitting gives one part more than there are separators |
| `Text.HexRoundTrip` | pkg/goutils/rest/auth_token.go:312 | hex decoding inverts hex encoding, and the encoding holds only hex digits |
| `WordWrap.WrapIsGreedy` | pkg/goutils/utils/strings.go:80-171 | for every input with no white space at its ends and words of 2 to width characters: the loop ends, its lines are the greedy wrap, each fits (the first within width plus indent), and the words are kept in order |
| `WordWrap.WrapKeepsWordsIff` | pkg/goutils/utils/strings.go:80-171 | for words of 1 to width characters the lines are the greedy wrap without its lines of one character other than the last, and no word is lost if and only if there is no such line |
| `WordWrap.WrapsUnique` | pkg/goutils/utils/strings.go:80-171 | a text has one greedy wrap |
| `WordWrap.WrapsWords` | pkg/goutils/utils/strings.go:80-171 | a greedy wrap drops white space only: its words are the words of the text |
| `WordWrap.RunFits` | pkg/goutils/utils/strings.go:80-171 | on every input on which the loop ends, all lines fit |
| `WrapLetters.SplitKeepsLettersIff` | pkg/goutils/utils/strings.go:80-171 | on every input for which the loop ends, with words of any length and white space anywhere: the first line fits within the width plus a positive indent and the others within the width, and the lines hold all the letters of the input in order if and only if no turn finds a line that starts with a lone letter whose next word does not fit |
| `WrapLetters.TurnKeepsLetters` | pkg/goutils/utils/strings.go:107-168 | a turn on any line drops white space and such a lone letter, and nothing else |
| `WordWrap.StepShortens` | pkg/goutils/utils/strings.go:107-168 | a turn leaves the lines as they were if and only if the last line is one character followed by white space; else it shortens the last line |
| `WordWrap.LoneWordLost` | pkg/goutils/utils/strings.go:144-149 | a one-letter word alone on a line is lost |
| `WordWrap.NeverEndsIff` | pkg/goutils/utils/strings.go:80-171 | for a positive width the loop runs for ever if and only if the last line of the input without its white space at the end has at most one character and, with that white space, exceeds its limit |
| `WordWrap.NeverEndsWitness` | pkg/goutils/utils/strings.go:80-171 | one letter followed by as many blanks as the width: the loop never ends |
| `WordWrap.NoneIsForever` | pkg/goutils/utils/strings.go:107-168 | the specified wrap has no value exactly where the loop is still running after every number of turns |
| `WordWrap.SplitString` | pkg/goutils/utils/strings.go:80-171 | for all arguments, however long the loop is watched: the specified lines, a panic, or still running, the last with more turns than characters only where the loop never ends; a zero width that is exceeded never ends, a negative one panics |
| `WordWrap.TakeTurn` | pkg/goutils/utils/strings.go:107-168 | the three scans and the update of the lines do one turn of the specified wrap; a negative width panics exactly where no white space is found |
| `WordWrap.FindSplit` | pkg/goutils/utils/strings.go:114-119 | the last white space at or before the width |
| `WordWrap.FindNext` | pkg/goutils/utils/strings.go:125-133 | the start of the next word |
| `WordWrap.FindEnd` | pkg/goutils/utils/strings.go:138-142 | the end of the line's last word |
| `Timer.CallbacksNeverOverlap` | pkg/goutils/utils/timer.go:51-133 | in every run of one Start, one Stop, any callback answers and any end of the caller's context, at most one goroutine holds the right to run the callback, and the wait group counts exactly the invocations in flight |
| `Timer.QuietAfterHandshake` | pkg/goutils/utils/timer.go:153-165 | once Stop's handshake is made no callback is running and none will run, however the run goes on |
| `Timer.InvKept` | pkg/goutils/utils/timer.go:51-165 | every step of every goroutine, of Stop and of the context keeps one holder of the right, the in-flight count, and quiet after the handshake |
| `Timer.QuietStays` | pkg/goutils/utils/timer.go:51-165 | where no goroutine holds the right, none ever will again, with or without a handshake |
| `Timer.QuietReturnIff` | pkg/goutils/utils/timer.go:51-165 | in every run with non-negative intervals in which Stop has returned and nothing has crashed: no callback is running and none will run, however the run goes on, if and only if the timer was started and no goroutine stands where it may still fire |
| `Timer.SkippedHandshakeFires` | pkg/goutils/utils/timer.go:153-165 | a Stop that meets no ticker skips the handshake, and a callback can run after it returns |
| `Timer.CrashIff` | pkg/goutils/utils/timer.go:110-165 | with non-negative intervals the timer never dereferences a missing ticker before Stop takes it away, and afterwards exactly when the loop enters the select again with none set |
| `Timer.CrashReached` | pkg/goutils/utils/timer.go:110-165 | one Start with any positive interval and one Stop can reach that |
| `Timer.NegativeIntervalCrashes` | pkg/goutils/utils/timer.go:110-151 | a negative interval does so at once |
| `TimerRuns.EveryTickCounts` | pkg/goutils/utils/timer.go:51-133 | in every run each tick, and a Start without an interval, begins one invocation, and each is answered by the callback once, skipped once, or still open |
| `TimerRuns.IntervalHonoured` | pkg/goutils/utils/timer.go:94-151 | in every run with non-negative intervals a loop that waits for a tick waits at the interval asked for last, by Start or by an answer other than zero |
| `TimerRuns.OneAtATime` | pkg/goutils/utils/timer.go:62-108 | in every run with non-negative intervals at most one invocation is in flight, from before its callback until it has counted itself out |
| `TimerRuns.ErrorEnds` | pkg/goutils/utils/timer.go:84-92 | a timer that stops on errors runs no callback after one has answered with an error, however the run goes on |
| `TimerRuns.StopWaitsForAnswer` | pkg/goutils/utils/timer.go:153-156 | Stop gets no further than its wait before a callback that was running has answered |
| `TimerStop.StopReturnsIff` | pkg/goutils/utils/timer.go:110-165 | in every run with non-negative intervals that has not crashed, where Stop waits for its signal to be taken: some way of going on lets it return if and only if some goroutine can still get to where the signal is taken |
| `TimerStop.ExpiredHangs` | pkg/goutils/utils/timer.go:118-165 | a timer of any positive interval whose context expires before Stop is called: the loop is gone, its ticker is not, and Stop never returns |

## Left out

- nftables, netlink and kernel errors: every kernel operation succeeds but a rejected set deletion and the addition of a key that has another verdict. After such an addition is refused the router still has the chains and maps of the batch in its caches; later calls on it are not modelled.
- Hash and string collisions of filter keys and map names: keys are structured values; that groups with only a source and only a destination of the same network share a signature is kept.
- GroupVerdicts.GroupVerdict: is about the rules that are appended; of the groups for which GroupSlices.Overwritten holds the source saves others, as GroupSlices.CompileGroup says. It also asks for ports in 0..65535 and prefixes of their family's length, as the source's types and callers do.
- GroupVerdicts.GroupEvaluates: is about the rules that are appended, likewise.
- FirstMatch.GroupSpecsProper: is about the rules that are appended, likewise; the two rules of an overwritten group are not distinct.
- SharedMaps.ForwardDecides: is about lists without overwritten groups, as are InputDecides, ForwardFirstMatch, InputFirstMatch and ApplyGroups, which rest on the rules of each group.
- Headers.GroupDecides: is about the rules that are appended, as are ForwardedFrame and OwnFrame; the protocol behind all extension headers, which only the ICMP test reads, is a field of its own.
- Headers.ForwardedFrame: asks that no two groups share a port map, as does OwnFrame; SharedMaps.ForwardFirstMatch and InputFirstMatch are about the others.
- GroupSlices.CompileGroup: a slice that grows gets twice its capacity, or what is needed; other policies of the runtime are covered by GroupSlices.CompilePorts only.
- DeleteSecurityGroups, ForwardPort and ForwardTraffic, NAT rules: they reuse the same store and would add only more rule lists.
- Sharing of slice backing arrays elsewhere: Go slices are values here, except in the rules of a group, the out-of-order writer and the chunk copies.
- 64-bit wrap-around of counters, offsets and sizes: integers are unbounded.
- io.Writer errors and short writes below the buffers and the filter.
- Filter.ClearPatterns followed by reuse.
- ChunkFiles.WindowIsFile: is about histories in which no seek goes to before the start; RefusedSeekMoves shows one that does. A read of no bytes past the end of a short source reports no end of file, as some sources do.
- Regular expressions, ciphers, hashes, base64 and JSON encoding of the sealed payload: parameters; the cipher's decryption inverts its encryption, and of the hash only what a member names is asked.
- Signatures.ChangeNoticed: asks for a hash without collisions under the key; SignedExactly is about changes in more than one signed key.
- HTTP transport around the tokens, and bodies that cannot be read.
- Timer.QuietAfterHandshake: one Start and one Stop, as everything about the timer. Reads of the ticker without the lock are single steps, and a crash ends the run.
- Timer.QuietReturnIff: asks for non-negative intervals; a negative one crashes, as NegativeIntervalCrashes says.
- Monitors.MonitorConserves: the sender's error list holds only payloads it was sent; the sender itself, the clock, gaps between ticks and whether the timer's Stop made its handshake are choices of the run.
- Tasks.DispatcherSafe: outside submissions stop once Stop is called, as its wait needs; what a task computes is a choice of the run.
- JsonTheorems.NullFails: of documents with a null in a nested container it does not say which end in an error and which in a panic; RootNullPanics settles a null that the root holds, and NullFinalizes shows an error.
- JSON text and number syntax: the parser is modelled on the token stream of the standard decoder.
- Process execution, SSH, OAuth, UPnP, Tailscale, DNS and route managers, logging, mocks, byte-count formatting, address increments, expect streams: thin wrappers or input and output only.
