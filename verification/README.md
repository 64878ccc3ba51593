# Verification of infer_server

A Dafny model of four parts of infer_server, a TCP inference server, with proofs of what each
part is for. `dafny verify dfyconfig.toml` checks all of it.

## The INI reader (config_reader.h)

`CStrings`, `IniGrammar`, `IniParser`, `IniRun`, `IniLines`, `IniComplete`, `IniRoundTrip`,
`ConfigReader`, `ConfigLookup`.

- `IniGrammar` is the line grammar as a function of one line and of the two buffers that
  survive between lines, and the parse as a fold over the chunks that `fgets` returns.
- `CStrings` and `IniParser` are the C code: pointers become offsets into one `array<char>` that
  is edited in place by writing NULs. Each method is proved to stay in the buffer and to leave
  the string the grammar names; the name and the value live in one buffer, and the contract of
  `ParsePair` says that cutting one does not damage the other.
- `IniRun` says what a whole parse reports for every handler and how two files compose.
- `IniLines` and `IniRoundTrip` write documents in any layout (indentation, padding, separators,
  comments, remarks, continuation lines, malformed lines, byte-order mark, a last line with or
  without a newline) and prove that parsing reads them back; `IniComplete` proves that every
  string is one of these layouts, so that nothing the parser does is left open.
- `ConfigReader` is the class with its map, the meaning of a lookup, and when two keys clash;
  `ConfigLookup` goes from a written configuration to the answers.

Bytes are Dafny characters; nothing depends on their being below 256. `isspace` and `tolower`
are those of the "C" locale. Two departures from what a user would expect are proved with their
exact conditions. The header's documentation says a ';' starts a comment; in the code a comment
behind an empty value becomes the value, because the scan starts afresh there, and this is the
only case (`IniLines.ValueKeptIff`). And a lookup joins section and name with an '=', so the key
of a name that holds an '=' is that of another setting; it is the setting looked up exactly when
the name is free of '=' (`ConfigReaders.OwnKeyIff`, `KeyedValuesIff`, `ConfigLookup.LookupExactIff`).

## The worker pool (thread_pool.h, wait_list.hpp)

`WaitList`, `Pool`, `PoolInvariant`, `PoolOrder`, `PoolRuns`, `PoolBounds`, `PoolProgress`,
`PoolBatches`, `PoolJam`, `PoolShutdown`.

`WaitList` is the monitor as a class. `Pool` is the protocol: any number of add_task calls and n
workers take interleaved atomic steps, and a sequence of actions is a run. The batch window may
close at any time and the admission test is free, except in the results on the real test, where a
task is admitted exactly when its width is at most 3600: `width_sum` is never increased, so the
test at thread_pool.h:87 does not limit the width of a batch, contrary to what its name suggests
(`PoolProgress.BatchWidthUnbounded`). `PoolRuns` says what a run under a test is. `PoolBatches`
follows one batch: a task that is put back ends it, and it is answered in its own order. What the
pool does not do is proved with the exact condition and a run that shows it:

- Tasks are not batched in the order of acceptance: a task may overtake n - 1 earlier ones, for
  every n, and no more (`PoolOrder.BoundedReordering`, `PoolBounds.BoundIsSharp`), so the pool is
  FIFO if and only if it has at most one worker (`PoolBounds.FifoIff`).
- A task wider than 3600 is put back for ever. As long as put_front drops nothing, an ordinary
  task behind such tasks can still be batched if and only if they are fewer than the workers that
  have not left (`PoolJam.JamIff`). Only a list filled to 5000 ends such a jam, because put_front
  then drops the wide task, and with drops some worker left is enough (`PoolJam.OverflowIff`).
- Workers that test `is_stop_` before the constructor clears it leave; a running pool can never
  answer again if and only if all have left (`PoolProgress.SilentIff`, `PoolProgress.StartupRace`).
- The destructor joins the workers before it flushes the list. Whatever tasks the test puts back,
  it can never reach the flush if and only if more workers wait than tasks are queued or on their
  way, and none that would be put back is queued, on its way or in hand
  (`PoolShutdown.ShutdownHangsIff`). For a free test that means that a worker waits and no task is
  queued, on its way or in hand (`PoolShutdown.FreeShutdownHangsIff`).

## The connection slots (base_server_impl.h)

`SlotTable`, `SlotRuns`, `SlotProperties`, `SlotDeadlines`, `SlotAllocator`, `SlotLeaks`,
`SlotAnswers`, `SlotReplies`.

The table is a class over an array whose first contents are arbitrary; a run is any sequence of
accepts, events, releases and timeout checks that meets the environment's side of the bargain:
the clock is monotone and below INT_MAX, `accept` returns a descriptor that is not open, epoll
names live offsets, and `close` succeeds. The last assumption is dropped in `SweepExact`, which
says for every outcome of `close` which slots a sweep will leave open beyond the mark, and in
`SlotLeaks`, which follows them over every run: such a slot refuses release until some later
connection happens to be given it, and its descriptor is never closed. `min_timeout` is never assigned by `Init`; it is a
parameter here, and `SkipSoundIff` gives the exact condition on it. With the constants of
constants.h (all timeouts 1) it must not be positive. Under the same condition, and no other, the
table behaves over every run as an allocator that hands out the least free offset and closes what
is due at every check (`SlotAllocator`).

A task keeps the address of its slot, and no code sets the state BUSY, which would stop the
timeout while the task is computed. `SlotAnswers` adds tasks, replies and writes to the run and
gives the exact condition under which an answer reaches the connection that asked; a run in which
it reaches another one is `SlotAnswers.AnswerGoesAstray`. `SlotReplies` says which answer is
written: the latest one stored in the slot, each at most once, and the k-th for the k-th request
where requests wait for their answers.

## Buffers, frames and the ring (fixed_string.h, socket_util.cc, string_util.h, simple_queue.h)

`Binary32`, `EStrings`, `ByteCodec`, `Framing`, `RingQueue`.

`Binary32` models the rounding of the growth expression and says exactly which requests get more
than they ask for: all below 2^44 do, 2^44 itself does not, and some larger ones do again. Where
malloc grants a request that is not served, the code writes past the end; the methods of `EStrings`
require just that what they write fits. `EStrings` is the buffer with its regrowth. `Framing` runs
`send_data` and `recv_data` against arbitrary schedules of partial transfers, retries and errors.
A frame with any tag reads back, and every other stream is one of three failures. `RingQueue`
computes its indices modulo 2^32 as the mixed int/unsigned expressions do.

## Model

| member | source | states |
|---|---|---|
| CStrings.RStripInPlace | config_reader.h:123-129 | stripping in place leaves the text without trailing whitespace and changes no byte outside the stripped tail |
| CStrings.FindCharsOrComment | config_reader.h:142-157 | the pointer loop with its `was_space` flag stops at the least offset that is a stop character or a ';' after whitespace, else at the terminator |
| CStrings.StrNCpy0 | config_reader.h:160-165 | the destination holds the source, cut to its size less one, and is terminated |
| IniParser.ParsePair | config_reader.h:243-258 | name and value, two strings cut out of one buffer, are both intact when the handler reads them; prev_name holds the truncated name |
| IniParser.ParseLineInPlace | config_reader.h:195-264 | for every line and every parser state the in-place code yields the event, next state and failure of the line grammar |
| IniParser.Fgets | config_reader.h:195 | a chunk runs through the first newline, at most 199 bytes, and is terminated; a NUL in it hides the rest |
| ConfigReaders.ConfigReader.IniParseStream | config_reader.h:168-277 | over a whole stream the C loop with ValueHandler ends with the error and the store of the pure run |
| IniRun.ErrorReporting | config_reader.h:195-276 | for every input and handler: 0 exactly when no line was malformed and no call failed, else the 1-based first such line; every well-formed line is still delivered |
| IniRun.MalformedExactly | config_reader.h:208-264 | a line is malformed exactly when it is no comment and no continuation and every delimiter stands behind an inline comment |
| IniRun.MalformedKeeps | config_reader.h:236-263 | a malformed line leaves the section and the setting as they were |
| IniRun.ParserComposes | config_reader.h:195-276 | if B opens with a header, A ++ B gives A's events then B's, and A's error, else B's shifted by the length of A |
| IniRun.ContextComposes | config_reader.h:228-235 | a valid header makes the parser forget everything before it |
| IniLines.LineReadBack | config_reader.h:206-264 | every layout of a header, setting, continuation, remark or malformed line, indented where no setting stands above it, and with any whitespace or line end behind it, parses to what the line says |
| IniLines.FirstLineReadBack | config_reader.h:199-205 | a byte-order mark in front of the first line changes nothing |
| IniLines.ValueKeptIff | config_reader.h:242-257 | of a setting with an inline comment the handler gets the written value if and only if it is not empty; otherwise it gets the comment, contrary to the documented syntax |
| IniComplete.EveryLine | config_reader.h:206-264 | every string is such a layout in every context, so the layouts determine the parser on all input |
| IniRoundTrip.ChunksOfLines | config_reader.h:195 | `fgets` splits a text of whole lines exactly at its newlines, whether or not the last line has one |
| IniRoundTrip.ChunksAreLinesIff | config_reader.h:195 | reading any text gives its lines, cut behind each newline, if and only if every line has at most 199 characters and no NUL |
| IniRoundTrip.TextRoundTrip | config_reader.h:168-277 | parsing any layout of a document emits the events of its well-formed lines in order, as if the malformed ones were not there, and with an accepting handler returns the number of the first malformed line, or 0 |
| IniRoundTrip.ConfigRoundTrip | config_reader.h:168-277 | parsing the canonical text of a configuration emits exactly its (section, name, value-line) triples and returns 0 |
| IniRoundTrip.ContinuationName | config_reader.h:213-226 | a continuation line carries the setting's full name if and only if the name is shorter than 50 |
| ConfigReaders.Accumulation | config_reader.h:432-442 | each stored value is the newline-join of the key's values without leading empty ones, and the sections are those of the events |
| ConfigReaders.LookupMeaning | config_reader.h:386-390 | a lookup returns the default exactly when no event of the file has its key |
| ConfigReaders.KeyUnambiguous | config_reader.h:424-430 | keys of '='-free names coincide if and only if section and name agree letter by letter up to ASCII case |
| ConfigReaders.EmittedKeysUnambiguous | config_reader.h:243-257 | two settings of one file share a key exactly when they agree up to case, whatever '=' the sections hold |
| ConfigReaders.OwnKeyIff | config_reader.h:424-430 | the key of a section and name is that of no other setting, case aside, if and only if the name holds no '=' |
| ConfigReaders.KeyedValuesIff | config_reader.h:386-442 | the values collected for a lookup are those of its section and name, in all events a file can give, if and only if the name holds no '=' |
| ConfigReaders.SettingLookup | config_reader.h:386-442 | a lookup returns the joined values of the one setting its key addresses, up to case, and the default exactly when the file does not give that setting |
| ConfigReaders.LookupIgnoresCase | config_reader.h:386-430 | a lookup gives the same answer for any two requests that agree up to case |
| ConfigReaders.ConfigReader.ValueHandler | config_reader.h:432-442 | the stepwise map updates amount to the accumulation the lemmas speak of |
| ConfigReaders.ConfigReader.Get | config_reader.h:386-390 | the lookup of LookupMeaning on the current map |
| ConfigLookup.LookupReadsBack | config_reader.h:366-442 | a written configuration answers every lookup with exactly the lines written for the setting addressed, which for a name without '=' is that section and name up to case, or the default |
| ConfigLookup.ValueLinesRecovered | config_reader.h:386-442 | cutting the answer at its newlines gives back the value lines, from the first one that is not empty |
| ConfigLookup.LookupExactIff | config_reader.h:424-442 | a lookup finds just the lines written for its section and name if and only if the name holds no '=' or the setting its key addresses is not written |
| ConfigLookup.FoundUnwritten | config_reader.h:424-442 | `[a=b] c=1` answers a lookup of b=c in section a, which it does not contain |
| WaitLists.WaitList.PutNode | wait_list.hpp:30-40 | appends unless the list is dead or holds 5000 tasks, and keeps the count equal to the length |
| WaitLists.WaitList.PutNodeFront | wait_list.hpp:42-52 | the same at the front |
| WaitLists.WaitList.GetFromHead | wait_list.hpp:54-72 | waits, returns NULL or pops the head, as the atomic step of the protocol says |
| PoolInvariant.Reachable | thread_pool.h:65-112 | in every reachable state the list is P ++ S with S the never-popped accepted tasks in order, and P plus the tasks in hand number at most n |
| PoolInvariant.TaskConservation | thread_pool.h:38-108 | submitted tasks are those on their way, queued, in hand, batched, answered or dropped; the count is the length and at most 5000 |
| PoolInvariant.AnsweredOnce | thread_pool.h:105-108 | no task is answered twice, nor both answered and dropped |
| PoolInvariant.PutFrontDropsIffFull | wait_list.hpp:42-52 | in every reachable state put_front drops its task exactly when 5000 are queued |
| PoolInvariant.NothingLost | wait_list.hpp:42-52 | put_front drops nothing in a run whose queued and in-hand tasks never exceed 5000 |
| PoolOrder.BoundedReordering | thread_pool.h:73-93 | when a task joins a batch, fewer than n tasks accepted before it still wait |
| PoolOrder.SingleWorkerFifo | thread_pool.h:73-93 | with one worker tasks join batches in the order of acceptance |
| PoolOrder.SingleWorkerReplies | thread_pool.h:105-108 | with one worker replies are sent in the order of acceptance |
| PoolBatches.NothingJoins | thread_pool.h:73-93 | in every run, from the end of a window, by time or by a task put back, to the next test of is_stop_ no task joins the batch of that worker |
| PoolBatches.BatchAnswered | thread_pool.h:95-112 | such a batch is answered task by task in its order, and then the worker is back at its outer loop |
| PoolBatches.ClosedDoor | thread_pool.h:28-42 | before the constructor is done and once the destructor has begun every new task is refused |
| PoolBounds.BoundIsSharp | thread_pool.h:73-93 | for every n a run lets the last worker admit a task while exactly n - 1 tasks accepted before it still wait |
| PoolBounds.FifoIff | thread_pool.h:65-93 | every run, under a free test or the real one, batches in the order of acceptance if and only if there is at most one worker |
| PoolBounds.RealAdmission | thread_pool.h:87-90 | under the real test no task wider than 3600 is ever batched, and fewer than n such tasks, accepted earlier and not dropped, stand behind any that is |
| PoolBounds.OversizeTasksJam | thread_pool.h:87-90 | after n oversize tasks, until one is dropped, no later task is batched or answered |
| PoolJam.JamIff | thread_pool.h:66-93 | without drops an ordinary task that waits in a running pool can still be batched if and only if the oversize tasks accepted before it are fewer than the workers that have not left |
| PoolJam.OverflowIff | wait_list.hpp:42-52 | with drops it can still be batched if and only if some worker has not left |
| PoolJam.JamReached | thread_pool.h:66-93 | for every n a run jams the pool: the ordinary task behind n oversize ones gets through only by a drop |
| PoolProgress.BatchWidthUnbounded | thread_pool.h:72-91 | for every bound a run builds a batch whose total width exceeds it |
| PoolProgress.SilentIff | thread_pool.h:66-112 | a running pool can never answer anything again if and only if all its workers have left |
| PoolProgress.StartupRace | thread_pool.h:28-66 | any number of workers, up to all, may test is_stop_ before the constructor clears it and leave the pool that then runs |
| PoolShutdown.ShutdownHangsIff | thread_pool.h:32-36 | under any admission test the flush can never be reached if and only if more workers wait than tasks are queued or on their way, and no task the test puts back is queued, on its way or in hand |
| PoolShutdown.FreeShutdownHangsIff | thread_pool.h:32-36 | no run whatever reaches the flush if and only if a worker waits and no task is queued, on its way or in hand |
| PoolShutdown.StuckReached | thread_pool.h:32-36 | every pool has a run that gets stuck so |
| PoolShutdown.HungWithATaskReached | thread_pool.h:32-36 | under the real test a pool of two or more workers also hangs with a task queued |
| SlotTables.SlotTable.InsertItem | base_server_impl.h:268-285 | the in-place code does what the insertion function says to array, mark and result |
| SlotTables.SlotTable.ResetItem | base_server_impl.h:287-325 | the same for a release, with every error branch |
| SlotTables.SlotTable.CheckTimeouts | base_server_impl.h:186-248 | the in-place sweep computes the slotwise sweep, the mark and the cached bound |
| SlotTables.LeastIs | base_server_impl.h:199-243 | a sweep leaves the cached bound at the least of its old value and the times of the timed slots it keeps |
| SlotRuns.RunKeeps | base_server_impl.h:186-325 | over every run the mark stays in bounds, live descriptors are distinct, and the cached bound is INT_MAX or at most every live slot's time |
| SlotProperties.SkipSound | base_server_impl.h:189-192 | an early return with min_timeout below all timeouts skips no due connection |
| SlotProperties.SkipSoundIff | base_server_impl.h:189-192 | skipping is safe if and only if min_timeout is below all three timeouts |
| SlotProperties.SkipsNoMore | base_server_impl.h:199-243 | once the cached bound is older than min_timeout no later call returns early |
| SlotDeadlines.Deadline | base_server_impl.h:102-105 | over every run, from entering a state and while only events of that state concern it, a connection lasts if and only if no full sweep comes at or after the entry time plus the timeout; repeated events never extend it |
| SlotProperties.SweepExact | base_server_impl.h:198-245 | for every outcome of close, which slots a sweep frees and keeps; a slot is left open beyond the mark if and only if it was expired, does not close and has no kept slot behind it |
| SlotLeaks.LostUntilOverwritten | base_server_impl.h:186-325 | from any table, over every run and every outcome of close, an open slot at or beyond the mark keeps its descriptor there, and refuses release, if and only if no new connection is given it |
| SlotLeaks.NeverClosed | base_server_impl.h:186-325 | a descriptor that no live slot holds, and that accept does not return, is never closed, whatever close does |
| SlotLeaks.StrandedIsLost | base_server_impl.h:198-325 | both hold of every slot that a sweep leaves open beyond the mark, after any run |
| SlotLeaks.OneSlotLost | base_server_impl.h:198-285 | one connection that is due and whose close fails: the next connection overwrites its slot |
| SlotAllocators.SweepFrees | base_server_impl.h:198-245 | the connections left are those not past their timeout, all below the mark |
| SlotAllocators.InsertTakesLeast | base_server_impl.h:250-285 | insertion takes the least offset without a connection and fails exactly when there is none |
| SlotAllocators.ReleaseFrees | base_server_impl.h:287-325 | releasing frees one offset, or restarts it, and touches no other |
| SlotAllocators.FollowsAllocator | base_server_impl.h:186-325 | over every run, with min_timeout below all timeouts, the table holds the connections of a least-free-offset allocator without mark, cache or array, and gives the next connection the same offset or refusal |
| SlotAllocators.IsAllocatorIff | base_server_impl.h:186-325 | it does so over all runs if and only if min_timeout is below all three timeouts |
| SlotProperties.FirstContentsIrrelevant | base_server_impl.h:43-44 | what the array held at allocation never shows in a result or below the mark |
| SlotAnswers.PlayIsRun | base_server_impl.h:96-167 | reading requests and writing answers are events of the slot table, so its runs with tasks are runs of the table |
| SlotAnswers.AnswerReachesIff | echo_task.cc:38-55 | over every run an answer that is written reaches the connection that asked if and only if its slot stayed live from the request to the write |
| SlotAnswers.AnswerGoesAstray | base_server_impl.h:131-167 | for every read timeout a run writes the answer of a connection that timed out to the one that took its slot |
| SlotReplies.AnswerIsLatest | echo_task.cc:38-55 | over every run a written answer is that of the latest reply to its slot, the slot has been live from that reply on, and nothing else was written from it |
| SlotReplies.AnsweredOnce | base_server_impl.h:131-167 | no task is answered twice |
| SlotReplies.AnswersInOrder | base_server_impl.h:96-167 | where requests wait for answers and the slot is not freed meanwhile, the k-th answer is that of the k-th request and reaches the connection that asked |
| SlotReplies.RequestServed | base_server_impl.h:96-167 | from every reachable state a request on a live slot that is not about to be written to is read, and its answer, if given at once, is written to the connection that asked |
| Binary32.SmallGrowth | fixed_string.h:100 | below 4000000 the capacity is floor(5*size/4) plus one or two under binary32 rounding |
| Binary32.GrowthIs | fixed_string.h:100 | the capacity is computed with every step rounded to the nearest binary32 number, ties to even |
| Binary32.GrowthSufficesIff | fixed_string.h:100 | the capacity exceeds the request if and only if the request is below 4000000, or rounded up, or rounded down by less than the million added |
| Binary32.GrowthSuffices | fixed_string.h:100 | the capacity exceeds every request below 2^44 |
| Binary32.GrowthFailsAtTwo44 | fixed_string.h:100 | a request of 2^44, the least that is not served, gets exactly 2^44; 2^44 + 100000 is served |
| EStrings.EString.Reserve | fixed_string.h:88-125 | what the buffer holds and its capacity when it succeeds, for every request whose kept text fits, and that nothing changes when it fails |
| EStrings.EString.StrsCat | fixed_string.h:218-239 | appends inside the buffer, terminated, or leaves everything unchanged |
| EStrings.EString.MemCpy | fixed_string.h:241-251 | replaces the text, or leaves everything unchanged |
| EStrings.AppendsConcatenate | fixed_string.h:218-239 | a run of appends leaves the concatenation of its sources, with room for the terminator if every length on the way is served |
| EStrings.AppendsAmortised | fixed_string.h:88-125 | regrowth copies at most four times the capacity, linear in the first capacity and the final length |
| ByteCodec.LittleRoundTrip | string_util.h:30-44 | reading what was written gives the word back, sign extension and all |
| ByteCodec.LittleRoundTripBytes | string_util.h:30-44 | writing what was read gives the bytes back |
| ByteCodec.LittleValue | string_util.h:30-44 | four bytes read as the number with the least significant byte first |
| ByteCodec.BytesToIntBig | string_util.h:13-20 | the big-endian reader is the little-endian one on the reversed bytes |
| ByteCodec.IntToBytesBig | string_util.h:22-27 | the big-endian writer writes the little-endian bytes reversed |
| Framing.SendData | socket_util.cc:108-129 | under every schedule: all bytes in order, or -1 and a proper prefix |
| Framing.RecvData | socket_util.cc:83-106 | under every schedule: the next bytes of the stream, or 0 |
| Framing.DecodeEncode | base_server_impl.h:108-121 | a frame reads back if and only if its payload is not empty |
| Framing.DecodePacket | base_server_impl.h:107-129 | a frame with any tag and a payload of 1 to 2^31 - 1 bytes reads back, whatever follows |
| Framing.DecodeFails | base_server_impl.h:107-129 | the other streams: a short header, a length that is zero or negative as an int, a short payload, and what each leaves unread |
| Framing.SendFrame | base_server_impl.h:145-156 | header and payload reach the wire as one encoded frame; after a failed header the payload is still sent, bare |
| Framing.RecvFrame | base_server_impl.h:107-129 | reading a frame is decoding the stream |
| Framing.ReadRequests | base_server_impl.h:107-133 | any list of client requests, with the tags that choose the pools, is read as written through any schedule, and what follows is left |
| Framing.Transfer | base_server_impl.h:107-156 | any list of frames crosses any two schedules of partial transfers and retries unchanged, with nothing left |
| RingQueues.LenExprIsDistance | simple_queue.h:33-35 | the length expression, wrap-around included, is the distance from get to put |
| RingQueues.NextExprIsSuccessor | simple_queue.h:37-40 | the index expressions give the next cell |
| RingQueues.SimpleQueue.Push | simple_queue.h:46-53 | appends unless size - 1 elements are stored |
| RingQueues.SimpleQueue.Pop | simple_queue.h:55-62 | removes the oldest element if there is one |

## Left out

- Sockets, epoll registration, `accept`, `close`, file opening: only what they promise is modelled.
- `ini_parse` and `ini_parse_file`: they open a file and call the stream parser; the text of the stream is a parameter.
- ConfigReaders.ConfigReader.IniParseStream: the loop is modelled with ValueHandler, the only handler the repository passes; every other handler is covered by the pure run. `lineno` is unbounded, so files of 2^31 lines or more are not modelled.
- `GetInteger`, `GetReal`, `GetBoolean`: thin wrappers over library conversions.
- Pool.Apply: `ThreadPool::run` is modelled as steps of a protocol rather than as a method, because its interleavings are the point; `Handle` and the reply's content are not modelled.
- The 50 ms window, sleeps, condition-variable wake-ups and real-time liveness of the pool: the window closes at any time and a waiting worker may be scheduled at any time.
- Data races on `is_stop_`: each read and write of it is one step.
- SlotRuns.Run: `close` always succeeds in a run; runs with every outcome of `close` are those of SlotLeaks.RunFrom.
- SlotAnswers.AnswerReachesIff: speaks of answers that are written. One that a later reply to the same slot overwrites first, or whose slot is free, is never written. A reply on a worker thread is one step, and what is in an answer is not modelled.
- A `send` that returns 0: a call that succeeds moves at least one byte.
- Clock readings at or beyond INT_MAX, where the int fields of the server would be truncated.
- Framing.RecvFrame: the payload goes to a destination of its own size; the code reserves a local buffer and reads into the slot's, and it goes on after a failed header, which is not modelled.
- EStrings.EString.StrsCat: a source that overlaps the buffer is excluded, as the code frees the old buffer before copying.
- `EString::strncpy`, `strcpy` and `strscpy`: they replace the text as `memcpy` does and terminate it. `refresh`, `left` and `setLength` read or assign one field.
- Requests within a million of 2^64, where `size + 1000000` wraps around.
- SimpleQueue: sizes that are not positive, and use before a successful Init.
- `base_server.cc`, `handler.cc`, `block_queue.h`, `block_queue.cc`: superseded or unused.
- Protobuf messages, the task classes and the client.
