# node-lua: model and proofs

node-lua is an actor runtime: contexts with mailboxes, worker threads that steal work from
each other, one network thread, and a modified Lua core inside each context.  The modules
here model its hard parts and prove what they promise.  Concurrent parts are transition
systems whose steps are the lock-protected sections of the code; parts that update
structures in place are classes whose methods are proved against functions on sequences and
maps; the main results are lemmas about every input, every run or every reachable state.

| modules | what they model |
|---|---|
| RunQueue, Tokens, Scheduler, SchedulerInv, SchedulerSteps, SchedulerProof, SchedulerRuns | the work-stealing scheduler: tokens, semaphores, mailboxes, references |
| ContextQueue, MessageQueue, ContextMgr | its linked list, ring buffer and handle table |
| WaitProtocol | context.wait: WAIT, WAIT_CANCEL and WAKEUP between contexts that die at any time |
| EndianConv, TcpFraming, ReadPipeline | byte order, length-prefixed frames, and a frame's way to a waiting coroutine |
| RefSessions, HandleRefs | session numbers and queues; the two-step release of handle references |
| Buffer | copy-on-write storage |
| QuotedString, QuotedLines, TablePack, TableWire, IntPack, BufferPack, FormatMeaning, FormatProof | the codecs, and what their formats mean |
| LuaMachine, JumpLists, JumpChains, ShortCircuit, CodeEdits, CodeLayout, CodeSteps, CodeGen | the short-circuit code generator and the machine that runs its code |
| GcHeap, Collector | the incremental tri-colour collector |
| Basics, Bytes, Arith | optional values, lists, bytes and division |

What the code does where its promises do not hold, each with the exact condition or a run:

- With 2^30 contexts the handle table's capacity wraps to 0: the outcome `Overrun` of
  `ContextMgr.ContextMgr.Register`, which occurs exactly then.
- Frame heads are decoded as signed numbers, so limits that set_rwopt accepts let payloads
  through that the reader refuses (`TcpFraming.FramingRoundTrip` gives the condition,
  `TcpFraming.LargestLimitIsTooLarge` an instance).
- A reader that wakes itself for the overflow queue can be told of a read error before frames
  that arrived earlier (`ReadPipeline.ErrorBeforeFrame`; the condition is in
  `ReadPipeline.ErrorAfterFrames`).  No frame is lost or reordered.
- A read made after the error message was handled and before the error is recorded is not
  told of it until another read is made (`ReadPipeline.ReaderForgotten`, `ReadPipeline.ToldByNextRead`;
  exactly then, by `ReadPipeline.ReadersAreTold` and `ReadPipeline.LateReadIsNotTold`).
- A context that waits by a callback for a handle that does not exist yet wakes itself, and that
  message can end a later wait for the context which got the handle; it then stays among its
  waiters (`WaitProtocol.GuessedStaysWaiter`; for all other handles waiters and sessions agree
  exactly, by `WaitProtocol.WaitersAreExact`).
- The countdown of session numbers looks at one number less than there are, so it can fail
  with one number free (`RefSessions.Context.FindId` gives the condition,
  `RefSessions.OneFreeNotFound` an instance); the session count then counts a wait without a
  number (`RefSessions.Context.RefYieldCoroutine`).
- buffer_adjust_len on a shared block changes what the other handles see, and splitting a
  shared buffer of length 0x7fffffff loses its remainder (`Buffer.Buffers.AdjustLen`,
  `Buffer.Buffers.Split`; instances `Buffer.AdjustShowsElsewhere`, `Buffer.SplitCanLose`).
- buffer_append keeps the place of data inside a block that realloc moves in an int32_t; past
  that it reads them where they were (`Buffer.Buffers.Append`; instance `Buffer.MisplacedExists`).
- Objects that become unreachable after they were marked survive the cycle
  (`Collector.FloatingGarbage`); what a cycle leaves is exactly the reached of
  `Collector.Gc.FinishCycle`.

## Model

| member | source | states |
|---|---|---|
| RunQueue.SplitDistinct | src/context_queue.cpp:85-103 | Cutting a list into the stolen half and the rest, or taking one off, keeps every element exactly once. |
| RunQueue.JoinDistinct | src/context_queue.cpp:39-62 | Joining two lists that share no element repeats none. |
| Tokens.PutValid | src/context.cpp:41-54 | Creating a token for a context that has none keeps every token in exactly the place it is recorded at. |
| Tokens.TakeFirstValid | src/context_queue.cpp:64-83 | Taking the first token of a place loses no other. |
| Tokens.MoveValid | src/worker_mgr.cpp:112-146 | Moving the first k tokens from one place to another (push, pop, steal half, repush) neither loses nor duplicates one. |
| Tokens.TokenIsUnique | src/context.cpp:41-69 | A token found at two positions of two places is at one position of one place. |
| SchedulerProof.StepKeepsInv | src/worker_mgr.cpp:106-191 | Each of the 26 kinds of step, by any thread, keeps the whole invariant of tokens, threads, mailboxes, semaphores and references. |
| SchedulerProof.BornStep | src/node_lua.cpp:67-79 | Every step keeps: a context that is not inited is held by the thread that creates it, and no two threads create one context. |
| SchedulerProof.ReachableInv | src/worker_mgr.cpp:148-191 | The invariant holds in every state any interleaving of creators, senders and workers can reach. |
| SchedulerProof.TokenInOnePlace | src/context.cpp:41-69 | In every reachable state the token of a context is at most once in all lists, stolen segments, hands and desks together, and it exists exactly while m_processing is set (but for a context whose init failed). |
| SchedulerProof.NoTwoWorkersRunOne | src/worker_mgr.cpp:164-190 | No two workers ever run the same context. |
| SchedulerProof.NoLostWakeup | src/context_queue.cpp:24-36 | A context with mail has a token; a worker that saw its list empty never sleeps on a non-empty list unless its semaphore is positive or a post for it is owed. |
| SchedulerProof.MailboxIsFifo | src/context.cpp:41-98 | The messages received, those dropped and those in the mailbox are, in order, exactly the messages accepted, in lock order; messages are dropped only after retirement, each dropped query whose sender waits is answered once, and a context whose init failed was sent nothing. |
| SchedulerProof.NothingAfterRetirement | src/worker_mgr.cpp:165-177 | Over any further run a retired context stays retired and receives nothing more; what it is sent is dropped or stays in its mailbox. |
| SchedulerRuns.MailIsWhatWasSent | src/context.cpp:41-98 | Over every run told by its events, what a context received, dropped and still holds is, in order, exactly what the send events that reach it sent; it is registered by the events; and exactly the dropped queries with a source and a session are answered. |
| SchedulerProof.ReferencesConserved | src/context.h:13-14 | m_ref is the registration, the counted token, the owning threads and the leaving workers; the context is deleted once, and exactly when none is left. |
| SchedulerProof.ClaimedIsAlive | src/context.h:13-14 | A registered or claimed context has not been deleted. |
| SchedulerProof.StoredIsClaimed | src/worker_mgr.cpp:106-110 | A context in a list, segment, hand or desk is held by a reference. |
| SchedulerProof.NoUseAfterDelete | src/worker_mgr.cpp:148-191 | No step reads or writes a context that has been deleted. |
| SchedulerProof.MailCanProgress | src/worker_mgr.cpp:148-191 | While a context has mail, the thread that must act next for it has a step it can take. |
| SchedulerProof.WorkerCanGoOn | src/worker_mgr.cpp:153-161 | A worker whose list, segment or desk is not empty can go on, asleep or not. |
| ContextQueue.ContextQueue.PushOne | src/context_queue.cpp:19-37 | The linked list is the old sequence with the context last; the semaphore is posted exactly if the list was empty. |
| ContextQueue.ContextQueue.PushMany | src/context_queue.cpp:39-62 | A linked segment is appended whole and in order; one post if the list was empty. |
| ContextQueue.ContextQueue.TryPopOne | src/context_queue.cpp:64-83 | The first context comes off the list, or none if it is empty. |
| ContextQueue.ContextQueue.TryPopHalf | src/context_queue.cpp:85-103 | A thief gets exactly the stolen half, as a segment ending in null, and never empties the list; the rest stays linked with its last element as tail. |
| ContextQueue.ContextQueue.PopAll | src/context_queue.cpp:105-113 | The whole list comes off in order. |
| MessageQueue.MessageQueue.Push | src/message_queue.cpp:23-36 | Across wrap-around and doubling the ring holds the old messages and then the new one; refused exactly when 2^31 are queued. |
| MessageQueue.MessageQueue.Pop | src/message_queue.cpp:38-51 | The oldest message comes out and the others keep their order. |
| MessageQueue.MessageQueue.ExpandQueue | src/message_queue.cpp:53-71 | Doubling moves every message to its place from the start of the ring; it fails exactly when the doubled capacity would wrap. |
| MessageQueue.RingIsRemainder | src/message_queue.cpp:60-64 | The copy loop's index modulo the capacity is the ring position. |
| ContextMgr.CapacityDividesWord | src/context_mgr.cpp:30-43 | Every capacity the table can have divides the 32-bit word, so residues survive the wrap of the index. |
| ContextMgr.CapacityTimesFour | src/context_mgr.cpp:30-43 | Quadrupling in 32 bits gives four times the capacity below 2^30 and 0 at 2^30. |
| ContextMgr.NoCollision | src/context_mgr.cpp:30-43 | Handles that differ modulo a capacity differ modulo four times it: rehashing never collides. |
| ContextMgr.PassMeets | src/context_mgr.cpp:49-69 | One pass over the capacity meets every residue. |
| ContextMgr.ProbeResidue | src/context_mgr.cpp:49-69 | The handle tried at an offset has the residue of base and offset, even when the sum wraps. |
| ContextMgr.SkipZero | src/context_mgr.cpp:49-69 | Skipping handle 0 at the wrap keeps the residues of the pass. |
| ContextMgr.ContextMgr.Rehash | src/context_mgr.cpp:30-43 | The larger table holds exactly the contexts of the full one, each at its handle modulo the new capacity. |
| ContextMgr.ContextMgr.Probe | src/context_mgr.cpp:49-69 | A pass finds a free handle or the table is full, and leaves the index where it was while nothing wraps. |
| ContextMgr.ContextMgr.FindFree | src/context_mgr.cpp:45-72 | A free handle is found, after growing the table once if need be, except exactly when 2^30 contexts fill it. |
| ContextMgr.ContextMgr.Register | src/context_mgr.cpp:45-72 | Which of its three outcomes occurs, exactly; a registered context gets an unused handle, a slot of its own and a reference; handles only go up until the index wraps, which it does not while all that may be probed lies ahead. |
| ContextMgr.ContextMgr.SetHandleIndex | src/context_mgr.cpp:23-28 | The index starts anew, and a new turn of handles with it. |
| ContextMgr.ContextMgr.Retire | src/context_mgr.cpp:74-88 | The context leaves its slot and its handle; a second retirement does nothing. |
| ContextMgr.ContextMgr.Grab | src/context_mgr.cpp:90-101 | A handle resolves to the context that holds it now, with one more reference, and to nothing once that context is retired. |
| ContextMgr.ContextMgr.Run | src/context_mgr.cpp:45-101 | Over any run of registrations, retirements and lookups, until the index wraps or is reset: a handle below the index never resolves to another context than it did, and once retired to none. |
| WaitProtocol.StepKeepsInv | src/context_lua.cpp:825-838 | Every step of the exchange, by any context at any moment of its life, keeps the invariant. |
| WaitProtocol.WaitIsNeverLost | src/context_lua.cpp:1272-1314 | A wait of a live context, by a coroutine or a callback, is known to its target once the mailbox is replayed in order, or still has to be told by the dying target, or its WAKEUP is already in the mailbox; through timeouts, waits again and destruction. |
| WaitProtocol.NoFalseWakeup | src/context_lua.cpp:84-93 | A WAKEUP in a mailbox means its sender has begun to die, or was looked up before it was created. |
| WaitProtocol.DyingTells | src/context_lua.cpp:760-783 | From any stage of its destruction a context's own steps, in every order in which it may take its waiters, come to the WAKEUP in the mailbox of a waiter it still has to tell: it is never stuck before that and no order misses it. |
| WaitProtocol.DeathReachesEveryWaiter | src/node_lua.h:177-199 | So, in every order, the death of a context reaches every live context blocked on it. |
| WaitProtocol.ReplayAppend | src/context_lua.cpp:825-833 | A message appended to a mailbox acts on the waiter set after all that were there. |
| WaitProtocol.WaitersAreExact | src/context_lua.cpp:1302-1345 | Between live contexts, an idle context is among another's waiters, once the mailbox is handled, if and only if it has a session on it; a handle looked up before it existed is excepted. |
| WaitProtocol.GuessedStaysWaiter | src/context_lua.cpp:1315-1375 | The exception is needed: a run in which a context without a session stays among the waiters of a handle it had waited for before it existed. |
| WaitProtocol.HandledWait | src/context_lua.cpp:825-833 | Handling a WAIT_CANCEL takes exactly its sender off the waiters, a WAIT puts exactly its sender on, and no other message changes them. |
| WaitProtocol.ReplayMeans | src/context_lua.cpp:825-833 | In the end the waiters are those whose last WAIT is followed by no WAIT_CANCEL of theirs. |
| WaitProtocol.SessionBegins | src/context_lua.cpp:1272-1288 | A wait that was sent is recorded, as one more blocked session or as the callback. |
| WaitProtocol.SessionTimesOut | src/context_lua.cpp:1302-1314 | A timeout ends exactly one blocked session. |
| WaitProtocol.CallbackTimesOut | src/context_lua.cpp:1302-1314 | A timeout of the callback ends it and no blocked session. |
| WaitProtocol.LastSessionCancels | src/context_lua.cpp:1302-1340 | When the last session on a context goes by a timeout or by nil, a WAIT_CANCEL is due. |
| WaitProtocol.WakeupResumes | src/context_lua.cpp:835-838 | A WAKEUP resumes each coroutine blocked on its sender once, and then the callback, which goes. |
| EndianConv.DigitsValue | src/endian_conv.cpp:14-56 | The value of the low n bytes of a number is the number modulo 256^n. |
| EndianConv.EncodedBytes | src/endian_conv.cpp:116-135 | Byte i of a number is (n / 256^i) % 256 in little-endian order and the mirror of that in big-endian order. |
| EndianConv.LoadStore | src/endian_conv.cpp:14-56 | A number stored in n bytes and loaded again is its low bytes read as a signed number. |
| EndianConv.EndianFromInteger | src/endian_conv.cpp:116-135 | The bytes written are the number's in the asked byte order on either kind of machine, and the rest of the buffer is untouched. |
| EndianConv.EndianRoundTrip | src/endian_conv.cpp:58-135 | Writing and reading in one byte order, on machines of any two orders, gives the low bytes as a signed number. |
| TcpFraming.ParseMore | src/uv_tcp_handle.cpp:321-386 | More bytes continue the whole-stream parse where the complete frames ended; an error is final. |
| TcpFraming.Advance | src/uv_tcp_handle.cpp:321-386 | What one more piece of the stream, up to the end of a frame, does to the parse. |
| TcpFraming.FramesWithin | src/uv_tcp_handle.cpp:345-353 | No frame of any stream has more bytes than the reader's limit, nor as many as a buffer cannot have. |
| TcpFraming.Reader.WriteDirect | src/uv_tcp_handle.cpp:308-341 | Bytes read straight into the frame buffer leave the reader where the parse of the longer stream says. |
| TcpFraming.Reader.WriteShared | src/uv_tcp_handle.cpp:321-386 | So do bytes copied out of the shared buffer, whatever heads, bodies and frame ends they hold. |
| TcpFraming.Receive | src/uv_tcp_handle.cpp:308-386 | For every stream, every cutting into reads and either path per read, the frames and the error are those of the whole-stream parse, and no frame is longer than the reader's limit or a buffer. |
| TcpFraming.FramingRoundTrip | src/uv_tcp_handle.cpp:275-306 | For payloads of any lengths a head can say, whatever the writer's limit, the parse is the payloads up to the first undeliverable one and then its error, never a wrong frame; complete if and only if every length is at most the limit, fits the head as a signed number and is below 0x7fffffff. |
| TcpFraming.ReceiveWire | src/uv_tcp_handle.cpp:275-386 | Writer and reader joined, each with its own limit: however the wire is cut into reads, the finished frames are the payloads up to the first undeliverable one, all of them and without an error if and only if every payload is deliverable; one longer than the reader's limit is refused with UV_EMSGSIZE. |
| TcpFraming.LargestLimitIsTooLarge | src/lua_tcp_handle.cpp:850-862 | The largest limit accepted for a one-byte head lets through a payload that its reader refuses with UV_EMSGSIZE. |
| ReadPipeline.NetSide.WriteReadBufferFinish | src/uv_tcp_handle.cpp:399-428 | A finished frame is sent if a read is outstanding, using that read up, and cached otherwise. |
| ReadPipeline.NetSide.TriggerReadError | src/uv_tcp_handle.cpp:430-443 | The cached frames go out in order and the error after them. |
| ReadPipeline.NetSide.ReadRequest | src/uv_tcp_handle.cpp:451-478 | A read request drains the cache exactly as far as outstanding reads last. |
| ReadPipeline.DrainKeeps | src/uv_tcp_handle.cpp:451-478 | What a request sends and what it leaves cached are the old cache in order; if reads are left over the cache is empty. |
| ReadPipeline.StepKeepsInv | src/lua_tcp_handle.cpp:1029-1083 | Every step of the network thread, the context and its coroutines keeps frames in order and errors behind frames in the mailbox. |
| ReadPipeline.FramesInOrder | src/uv_tcp_handle.cpp:399-478 | In every run the frames given out, the overflow queue, the mailbox and the cache are together the completed frames, each once and in order; an outstanding read means an empty cache, and until an error the socket is read exactly while a read is outstanding. |
| ReadPipeline.NoFrameLost | src/uv_tcp_handle.cpp:399-428 | The frames a run completed, by its events, are given out, in the overflow queue, in the mailbox or cached, once and in the order of completion. |
| ReadPipeline.ReadsAnswered | src/lua_tcp_handle.cpp:759-797 | Where no callback reads, each read waits, has timed out or has been given exactly one frame or error. |
| ReadPipeline.ErrorAfterFrames | src/lua_tcp_handle.cpp:1069-1083 | A wake-up with a read error follows every earlier frame if and only if no frame is left in the mailbox, which always holds for the error message itself. |
| ReadPipeline.ErrorBeforeFrame | src/lua_tcp_handle.cpp:744-760 | It can fail for an overflow message: a run in which a reader is told of a read error while an earlier frame is still in its mailbox. |
| ReadPipeline.ToldTheError | src/lua_tcp_handle.cpp:1069-1083 | Whoever is told of an error is told of the one the stream failed with. |
| ReadPipeline.ReadersAreTold | src/lua_tcp_handle.cpp:1029-1083 | Unless some read was made between the handling of the error message and the recording of the error, every reader waiting after an error will be told of it. |
| ReadPipeline.LateReadIsNotTold | src/lua_tcp_handle.cpp:759-784 | A reader that waits after an error will be told, as things stand, if and only if its read was not made in that gap. |
| ReadPipeline.ReaderForgotten | src/uv_tcp_handle.cpp:430-443 | A run with a read in that gap, after which the reader waits and nothing is under way that could wake it. |
| ReadPipeline.ToldByNextRead | src/lua_tcp_handle.cpp:759-784 | However the run goes on from there, something that tells the waiting readers is under way if and only if another read has been made since; until then no reader is told anything. |
| ReadPipeline.ReadersAreServed | src/lua_tcp_handle.cpp:759-797 | Until an error no reader waits in vain: a frame or a request is under way or the socket is being read; and without a callback the waiting and timed-out reads equal the read credits, requests and frames under way. |
| RefSessions.QueueDropped | src/ref_sessions.cpp:43-51 | A coroutine taken out of a queue, wherever it stood, leaves the table and every other queue and slot in agreement. |
| RefSessions.QueuePushed | src/ref_sessions.cpp:22-27 | A coroutine put in a queue under a number not in use keeps them in agreement. |
| RefSessions.SlotSet | src/ref_sessions.cpp:4-12 | So does a callback put in an empty slot. |
| RefSessions.SlotCleared | src/ref_sessions.cpp:14-20 | So does a callback freed. |
| RefSessions.NearlyFull | src/context_lua.cpp:461-485 | A table that holds all numbers but one has at least that many entries. |
| RefSessions.OneFreeNotFound | src/context_lua.cpp:461-485 | A table with one number free, which the countdown does not look at. |
| RefSessions.Context.FindId | src/context_lua.cpp:461-485 | No number is found if and only if all are in use but perhaps the one above where the countdown starts; a number found is not in use, and below where the countdown stood unless it began again. |
| RefSessions.Context.RefYieldCoroutine | src/context_lua.cpp:302-312 | m_ref_session_count stays the number of live entries plus the waits for which no number was left; no number above the countdown is given out again in its turn. |
| RefSessions.Context.Push | src/ref_sessions.cpp:22-27 | The coroutine is last in its queue under a number not in use and not given out in this turn. |
| RefSessions.Context.MakeNonblocking | src/ref_sessions.cpp:4-12 | A callback in an empty slot gets a number of its own, not given out in this turn; one replaced keeps the number. |
| RefSessions.Context.WakeupPlain | src/context_lua.cpp:653-687 | An answer wakes its session once, which leaves the table before it runs; an answer to a freed session wakes nothing and changes nothing. |
| RefSessions.Context.WakeupOneBlocking | src/ref_sessions.cpp:43-51 | Exactly the first coroutine is resumed, after it left queue and table; what it then does only lengthens queues. |
| RefSessions.Context.WakeupAllBlocking | src/ref_sessions.cpp:29-41 | Exactly the coroutines that were in the queue are resumed, in order, and leave it; those that come back meanwhile stay. |
| RefSessions.Context.WakeupNonblocking | src/ref_sessions.cpp:53-61 | Exactly the callback is resumed if there is one, and freed before if asked. |
| RefSessions.Context.WakeupOneFixed | src/ref_sessions.cpp:63-76 | Exactly the session with that number is resumed, after it left its queue and the table, and none if it does not wait here. |
| RefSessions.Context.WakeupOnce | src/ref_sessions.h:24-28 | Exactly one is resumed: the first coroutine, which leaves queue and table, else the callback. |
| RefSessions.Context.MakeSessions | src/ref_sessions_mgr.cpp:103-112 | A key without an object gets an empty one, from the pool or new; objects in use and pooled stay apart. |
| RefSessions.Context.CheckSessions | src/ref_sessions_mgr.cpp:120-152 | Only an object that has become empty goes to the pool, and none that waits is ever deleted. |
| RefSessions.Context.WakeupOnceKeyed | src/ref_sessions_mgr.cpp:81-91 | Exactly one is resumed, the first coroutine of the key or else its callback, if anyone waits there; every other session stays. |
| RefSessions.Context.ResponseContextQuery | src/context_lua.cpp:810-818 | A query with a sender is handed to exactly one receiver, of the sender or else of anyone, if one waits, and every other session stays; else it is answered once if it has a session. |
| RefSessions.Context.TakeAll | src/context_lua.cpp:461-485 | Over any sequence of calls, until the countdown begins again: a number above it that is in no entry, such as that of a session that ended, is not given out and wakes nobody; and a session that waits for its own answer is in the table exactly as long as it has not been resumed. |
| RefSessions.Context.LateReply | src/context_lua.cpp:820-823 | A session is asked for and, after any calls in the same turn, answered: the answer wakes it if and only if none of those calls did; a second answer, after any further calls, wakes nothing. |
| HandleRefs.RefTable.Ref | deps/lua/lauxlib.c:581-602 | A reference given out is not in use, and the free list stays acyclic and apart from the slots in use. |
| HandleRefs.RefTable.Unref | deps/lua/lauxlib.c:605-612 | A freed slot heads the free list; all others stay as they were. |
| HandleRefs.RefTable.ReleaseRef | src/lua_handle_base.cpp:68-84 | The first release leaves a marker, the second frees the slot, whichever side is first. |
| HandleRefs.RefTable.GetLuaHandle | src/lua_handle_base.cpp:86-96 | The handle while neither side has released the reference, else NULL. |
| HandleRefs.Popped | deps/lua/lauxlib.c:590-597 | Taking the list's first slot leaves the rest of the list threaded through the table. |
| HandleRefs.Pushed | deps/lua/lauxlib.c:605-612 | Threading a slot in front of the list keeps it a list. |
| HandleRefs.BorderIsSize | deps/lua/lauxlib.c:598-600 | With no free slot, whatever border lua_rawlen finds is the last slot, so the next reference is new. |
| HandleRefs.StillHeld | src/lua_handle_base.cpp:64-84 | A side that has not released a reference still holds it. |
| HandleRefs.ReissuedAfterBoth | src/lua_handle_base.cpp:64-84 | In every run a number is given out again only after both the Lua side and the network side have released it. |
| Buffer.ReleasedValid | src/buffer.cpp:205-210 | Giving up a handle keeps every count equal to the number of sharing handles and shows the others what they saw. |
| Buffer.BoundValid | src/buffer.cpp:4-27 | So does a handle taking a new block. |
| Buffer.RewrittenValid | src/buffer.cpp:45-75 | So does writing into, or reallocating, an unshared block. |
| Buffer.Alone | src/buffer.cpp:48-49 | A count of one means no other handle has the block. |
| Buffer.GenCapacityFits | src/buffer.cpp:29-43 | A capacity is refused exactly for a total of 0 or of at least the maximum, and otherwise holds the total within the maximum. |
| Buffer.Buffers.Append | src/buffer.cpp:45-93 | Only the caller's handle changes: old content and then the data, even data inside the block that is moved, unless their place does not fit an int32_t; and exactly when it is refused. |
| Buffer.Buffers.AppendMoved | src/buffer.cpp:55-73 | Data inside a block that realloc moves are read from where they moved to, if their place fits an int32_t. |
| Buffer.MisplacedExists | src/buffer.cpp:55-62 | A block and data inside it whose place does not fit, in an append that succeeds. |
| Buffer.Buffers.Reserve | src/buffer.cpp:95-131 | The content stays, in a block of the handle's own with room for what was asked; refused exactly if the block is shared or too small and the total is 0 or too much. |
| Buffer.Buffers.AppendChar | src/buffer.cpp:133-174 | One byte more, for the caller's handle only, and exactly when it is refused. |
| Buffer.Buffers.Clear | src/buffer.cpp:176-196 | The caller's handle is empty, the others keep their content. |
| Buffer.Buffers.Grab | src/buffer.cpp:198-203 | A second handle with the same content. |
| Buffer.Buffers.Release | src/buffer.cpp:205-210 | A block is freed exactly with its last handle. |
| Buffer.Buffers.Concat | src/buffer.cpp:212-217 | The destination's content and then the source's, also when they share a block or are one handle, and exactly when it is refused. |
| Buffer.Buffers.AdjustLen | src/buffer.cpp:219-228 | It succeeds if and only if nothing is added or the block has room; as the length is set in the block itself, only the caller's handle changes if and only if nothing is added, there is no room, or the block is not shared. |
| Buffer.AdjustShowsElsewhere | src/buffer.cpp:219-228 | A shared block with room, where setting one handle's length changes what the other shows. |
| Buffer.Buffers.Split | src/buffer.cpp:230-257 | Piece and remainder are the old content, if and only if the buffer is not a shared one of the greatest length. |
| Buffer.SplitCanLose | src/buffer.cpp:243-247 | A shared block of the greatest length, the losing case. |
| Buffer.Buffers.Remove | src/buffer.cpp:259-294 | Exactly the clamped range goes, for the caller's handle only. |
| QuotedString.SdsCatRepr | src/sds.cpp:563-586 | The loop appends the quoted form of the bytes. |
| QuotedString.SdsSplitArgs | src/sds.cpp:629-746 | The loops compute the split of the line, and end on every line; a line is refused exactly if a quote is left open or a closing quote is followed by something else than a blank or the end. |
| QuotedString.GetToken | src/sds.cpp:640-730 | One token, in its three modes, or the refusal of unbalanced quotes. |
| QuotedLines.SplitLine | src/sds.cpp:588-746 | A line of words, double-quoted text with its escapes, single-quoted text and blanks between them splits into what its grammar says they mean. |
| QuotedLines.SplitWords | src/sds.cpp:711-724 | Words without blanks, quotes and NUL, joined by blanks, split into themselves. |
| QuotedLines.ShowQuoted | src/sds.cpp:563-586 | The quoted form is a quote, each byte as itself, behind a backslash, as its letter or as two hexadecimal digits, and a quote. |
| QuotedString.ReadsEscape | src/sds.cpp:654-677 | Each written character, escaped or not, is read back as one character. |
| QuotedString.ReprRoundTrip | src/sds.cpp:563-746 | Any list of byte strings, NUL, quotes, backslashes and text that looks like an escape included, written and joined by spaces, splits into itself. |
| QuotedString.OneArgument | src/sds.cpp:563-746 | One written string splits into exactly that one argument. |
| TablePack.TPack.PackLuaData | src/ltpack.cpp:82-106 | Succeeds exactly for values without functions and the like nested at most 256 deep, and then appends their packed form. |
| TablePack.TPack.PackTable | src/ltpack.cpp:58-80 | A table is its begin tag, its entries in order and its end tag, refused exactly beyond the depth. |
| TableWire.PackedIsWire | src/ltpack.cpp:9-80 | Each kind of value is packed as its tag, as a number from 0 to 8, and its bytes; an integer in the least of 1, 2, 4 and 8 bytes that holds it. |
| TableWire.PackableIsPlain | src/ltpack.cpp:58-106 | What can be packed are the values without functions and the like whose tables are nested no more than 256 deep. |
| TableWire.Pack | src/ltpack.cpp:82-106 | Packing appends exactly these bytes and refuses exactly the other values. |
| TablePack.UnpackLuaData | src/ltpack.cpp:108-158 | The recursive reader computes the value and the position, and ends: each call uses up bytes. |
| TablePack.Unpack | src/ltpack.cpp:108-158 | A reader that succeeds has moved forward within the data, and a value read is never taken for the end of a table. |
| TablePack.UnpacksScalar | src/ltpack.cpp:19-56 | Integers of the least width, doubles, strings and booleans read back where they were written. |
| TablePack.RawSetNew | src/ltpack.cpp:146-149 | Setting a key not yet in the table adds an entry at its end. |
| TablePack.PackRoundTrip | src/ltpack.cpp:19-158 | Every nested value with distinct scalar keys, followed by any bytes, unpacks to itself and uses exactly its own bytes. |
| IntPack.PackInt | src/lbuffer.cpp:354-371 | The loops write the two's complement of a signed number, or the 64 bits of an unsigned one, in 1 to 16 bytes of either order. |
| IntPack.UnpackInt | src/lbuffer.cpp:514-537 | The loops compute the number, sign-extended if short, refused if longer bytes do not repeat the sign. |
| IntPack.SignExtension | src/lbuffer.cpp:364-368 | Beyond the eighth byte the two's complement of a number is its sign repeated. |
| IntPack.IntRoundTrip | src/lbuffer.cpp:354-537 | Every number an option accepts reads back as itself, for widths 1 to 16, both orders, signed and not. |
| IntPack.ReadsExactly | src/lbuffer.cpp:514-537 | Bytes are read as a number if and only if they are the bytes of that number; any others are refused. |
| BufferPack.LbufferPack | src/lbuffer.cpp:392-478 | The loop over the format succeeds exactly when every option and argument is good, and appends their bytes. |
| FormatProof.PackOptions | src/lbuffer.cpp:274-478 | On the text of any list of options, pack appends exactly the bytes the options mean by letter, numeral, byte order and alignment, and refuses exactly what they refuse. |
| FormatProof.ReadsOption | src/lbuffer.cpp:281-315 | Each option letter with its numeral is read as the kind, size, byte order and alignment it stands for, or refused. |
| FormatProof.WritesValue | src/lbuffer.cpp:407-468 | Each option with a value writes the bytes its letter asks for, or refuses the value. |
| FormatProof.PacksInteger | src/lbuffer.cpp:296-309 | After '<' or '>', an integer option of any size writes byte i of the number as (n / 256^i) % 256, or the mirror. |
| FormatMeaning.Gap | src/lbuffer.cpp:341-348 | The padding is less than the size and the greatest alignment and makes the position a multiple of the smaller. |
| BufferPack.PosRelatMeans | src/lbuffer.cpp:545-548 | A start position counts from the first byte, or from the last if negative, and before the first there is none. |
| BufferPack.LbufferUnpack | src/lbuffer.cpp:540-603 | The loop over the format gives the values and the next position, or the error, of reading the format at the start position. |
| BufferPack.LbufferPackSize | src/lbuffer.cpp:481-503 | The loop computes the size of a fixed format, and refuses variable or too long ones. |
| BufferPack.OneBack | src/lbuffer.cpp:407-475 | A value written under any option reads back where it was written, as its option keeps it. |
| BufferPack.UnpacksBack | src/lbuffer.cpp:392-603 | Whatever the format and its alignment, unpacking where packing began gives each argument back as its own option keeps it, and ends where packing ended. |
| BufferPack.PackRoundTrip | src/lbuffer.cpp:392-603 | From an empty buffer and position 1, whatever bytes follow: unpacking ends where packing did, and gives back the very arguments packed if and only if every option keeps its argument. |
| BufferPack.KeepsIsBack | src/lbuffer.cpp:427-449 | A value comes back unchanged if and only if its option keeps it: a c string of the exact size, a number the float can hold. |
| BufferPack.KeptIsSame | src/lbuffer.cpp:427-449 | What comes back is the list of arguments if and only if every option keeps its own. |
| BufferPack.LuaCodecSized | src/lbuffer.cpp:407-475 | Every option of a fixed size writes as many bytes. |
| BufferPack.SizeIsPacked | src/lbuffer.cpp:481-503 | Whenever packsize gives a number and a pack of the format succeeds, the number is that of the bytes appended. |
| LuaMachine.ExecRuns | deps/lua/lopcodes.h:165-232 | Code without pending jumps runs on the machine exactly as the symbolic execution says. |
| LuaMachine.InstructionMeans | deps/lua/lopcodes.h:169-212 | One step of the machine on each instruction is what lopcodes.h says. |
| JumpLists.Append | deps/lua/lcode.c:180-183 | Emitting code after resolving the waiting jumps changes no other way through the code before it. |
| JumpLists.ToHere | deps/lua/lcode.c:209-212 | Jumps told to go to the next instruction do so, and nothing else changes. |
| JumpLists.Patch | deps/lua/lcode.c:167-177 | Patching a list sends its valued jumps to one target with the value in the register and the others to the other target, and leaves every other path alone. |
| JumpLists.Untie | deps/lua/lcode.c:161-164 | Tests that stop keeping a value test the same. |
| JumpChains.Spliced | deps/lua/lcode.c:215-226 | Linking the last jump of one list to the head of another makes one list of both. |
| CodeSteps.TestValue | deps/lua/lcode.c:640-652 | A test of the value and its jump decide it: falling through means the asked truth, jumping the other with the value at hand. |
| CodeSteps.Join | deps/lua/lcode.c:888-901 | Code for one operand of and/or followed by code for the other computes the whole. |
| CodeSteps.Swap | deps/lua/lcode.c:702-734 | Lists exchanged and values dropped, the code computes the negation. |
| CodeSteps.CompareBoth | deps/lua/lcode.c:825-838 | Two operands in place, the comparison with its operands exchanged or its condition inverted is the relation asked for. |
| CodeSteps.LoadAfterValue | deps/lua/lcode.c:504-511 | A jump over the two loads keeps the value that fell through. |
| CodeSteps.LoadAfterJumps | deps/lua/lcode.c:499-511 | A comparison falls through to the load of false, its jump counting among the true exits. |
| CodeSteps.PatchList | deps/lua/lcode.c:512-513 | A patched list carries its values to the end or through its load. |
| CodeGen.FuncState.Concat | deps/lua/lcode.c:215-226 | The result is the two lists in order; only links change. |
| CodeGen.FuncState.PatchListAux | deps/lua/lcode.c:167-177 | Every jump of the threaded list lands on the target meant for it, and its test gets the register. |
| CodeGen.FuncState.NeedValue | deps/lua/lcode.c:139-145 | True exactly if some jump of the list carries no value. |
| CodeGen.FuncState.RemoveValues | deps/lua/lcode.c:161-164 | Exactly the tests of the list become plain tests. |
| CodeGen.FuncState.Discharge2Reg | deps/lua/lcode.c:445-485 | The value, constant, moved or relocated, ends in the register; a pending comparison stays pending. |
| CodeGen.FuncState.JumpOnCond | deps/lua/lcode.c:640-652 | The jump is taken exactly on the asked truth, a trailing NOT being removed and its test inverted. |
| CodeGen.FuncState.GoIfTrue | deps/lua/lcode.c:655-676 | Code goes on exactly if the value is true; all other exits are on the false list. |
| CodeGen.FuncState.GoIfFalse | deps/lua/lcode.c:679-699 | Code goes on exactly if the value is false; all other exits are on the true list. |
| CodeGen.FuncState.CodeNot | deps/lua/lcode.c:702-734 | The descriptor now means the negation. |
| CodeGen.FuncState.Exp2Reg | deps/lua/lcode.c:496-517 | The value is in the register whichever exit was taken, with no jump left open. |
| CodeGen.FuncState.Exp2NextReg | deps/lua/lcode.c:520-525 | The value is in the next free register and the others below it keep theirs. |
| CodeGen.FuncState.Exp2AnyReg | deps/lua/lcode.c:528-539 | The value is in some register with no jump left open. |
| CodeGen.FuncState.Exp2RK | deps/lua/lcode.c:556-589 | The value is a constant operand or in a register. |
| CodeGen.FuncState.CodeComp | deps/lua/lcode.c:825-838 | The comparison of two placed operands, registers freed in order. |
| CodeGen.FuncState.SubExpr | deps/lua/lparser.c:1046-1073 | For every expression of and, or, not and the six comparisons over locals, upvalues and constants, nested freely, the code laid down means direct evaluation. |
| CodeGen.FuncState.ExprToNextReg | deps/lua/lcode.c:520-525 | Compiled into the next register the expression has no open jump and means its value; it compiles whenever its code and registers have room. |
| CodeGen.FuncState.ExprToLocal | deps/lua/lcode.c:592-599 | Compiled into a local, also one the expression reads, it means its value; it compiles whenever its code and registers have room. |
| CodeGen.CompileAndRun | deps/lua/lcode.c:520-525 | Compiled and run from any registers, an expression leaves the value of direct evaluation in the next register and every lower register as it was. |
| CodeGen.CompileComparison | deps/lua/lcode.c:825-838 | Each comparison operator, compiled and run on two integers, gives its relation. |
| CodeGen.OperatorsMean | deps/lua/lcode.c:849-900 | What and, or and not make of two values, of which only nil and false are false. |
| CodeGen.ExpressionRuns | deps/lua/lopcodes.h:206-212 | The machine runs the finished code to its end, leaves the value of direct evaluation in the register and keeps all other registers in use. |
| GcHeap.PathInClosed | deps/lua/lgc.h:15-24 | A path from inside a closed set stays inside it. |
| GcHeap.Graying | deps/lua/lgc.c:258-277 | Graying a white object and listing it keeps the tri-colour invariant. |
| GcHeap.Popping | deps/lua/lgc.c:565-606 | Taking the first gray object up, black or as a thread for later, breaks the invariant for that object only. |
| GcHeap.AllMarked | deps/lua/lgc.c:609-611 | With empty gray lists no marked object refers to a white one. |
| GcHeap.MarkedIsReached | deps/lua/lgc.c:991-1044 | Marking to the end marks exactly what is reached from where it started. |
| GcHeap.Flipped | deps/lua/lgc.c:1041 | Once the whites are exchanged the dead are exactly the unmarked, and nothing living refers to them. |
| GcHeap.SweptKeeps | deps/lua/lgc.c:740-757 | Sweeping drops nothing that can be reached. |
| GcHeap.FreeOne | deps/lua/lgc.c:744-750 | Freeing a dead object keeps the sweep's invariant. |
| GcHeap.StoreBack | deps/lua/lgc.c:171-176 | A store behind the backward barrier keeps the tri-colour invariant. |
| GcHeap.MarkCell | deps/lua/lgc.c:185-191 | So does assigning a shared upvalue whose value is marked, for all closures at once. |
| GcHeap.ReachedIsNotLost | deps/lua/lgc.h:15-24 | A program cannot reach what was out of reach when the cycle started. |
| Collector.Gc.ReallyMark | deps/lua/lgc.c:235-283 | Marking keeps the invariant, stays within every closed set that holds the object, and leaves it not white. |
| Collector.Gc.PropagateMark | deps/lua/lgc.c:565-606 | One traversal keeps the invariant and brings the end of marking nearer. |
| Collector.Gc.PropagateAll | deps/lua/lgc.c:609-611 | Propagation empties the gray list and ends. |
| Collector.Gc.RestartCollection | deps/lua/lgc.c:337-345 | A cycle starts with the exact set of unreachable objects on record. |
| Collector.Gc.AtomicStep | deps/lua/lgc.c:991-1044 | What the coming sweep will free is exactly what is not reached from the roots or from what is marked already. |
| Collector.Gc.SweepList | deps/lua/lgc.c:740-757 | At most count objects are swept: the dead go, the living turn white. |
| Collector.Gc.EnterSweep | deps/lua/lgc.c:966-973 | The sweep starts behind a living object, so new objects are not met by it. |
| Collector.Gc.SingleStep | deps/lua/lgc.c:1054-1107 | Every step, in any state between any program actions, frees nothing reachable, alters no object, and goes on to the next phase or comes nearer to it; the atomic step fixes the garbage as exactly the unreached from roots and marked objects, and sweep steps neither change that set nor free anything else. |
| Collector.Gc.FinishCycle | deps/lua/lgc.c:1071-1094 | From the atomic phase to the end of the sweep what is left is exactly what was reached then from the roots or from marked objects. |
| Collector.Gc.NothingLost | deps/lua/lgc.c:1075-1090 | Once a cycle's sweep is over nothing is left that was unreachable when the cycle started. |
| Collector.Gc.RunTilState | deps/lua/lgc.c:1114-1118 | Stepping until a state in the mask ends. |
| Collector.Gc.FullGc | deps/lua/lgc.c:1169-1186 | A full collection, from any state, leaves exactly the reachable objects. |
| Collector.CollectAll | deps/lua/lgc.c:1169-1186 | Told by what objects hold: a full collection leaves the least set that holds the main and the running thread, the registry, and with every object its metatable, references and upvalues, and alters none of them. |
| Collector.Gc.TableWrite | deps/lua/lgc.c:171-176 | A store into a table keeps every invariant; the table turns gray exactly when it was black and the value white. |
| Collector.Gc.ForwardWrite | deps/lua/lgc.c:155-165 | A store into any other object keeps every invariant and changes nothing else, save that storing a white value into a black object marks the value while marking and whitens the object in the sweep. |
| Collector.Gc.SetUpvalue | deps/lua/lgc.c:185-191 | A store into a shared upvalue keeps every invariant. |
| Collector.Gc.SetStack | deps/lua/lgc.c:536-543 | A store on the stack of a thread keeps every invariant without a barrier. |
| Collector.Gc.SetRegistry | deps/lua/lgc.c:999-1003 | So does replacing the registry or a metatable of a basic type. |
| Collector.Gc.NewObject | deps/lua/lgc.c:208-216 | A new object is white, first in the list and on the stack, in any state of the collector. |
| Collector.FloatingGarbage | deps/lua/lgc.c:1054-1094 | A run in which a table, dropped together with the closure that held it after the collector marked it, is out of reach and yet in the heap when the sweep is over. |

## Left out

- The shutdown of workers (stop, wait, m_exiting): a drain phase with rules of its own.
- Weak memory order and failing allocations: lock sections and atomic operations are
  sequentially consistent and malloc succeeds, except where a function reports failure by size.
- Sockets, the libuv loop, DNS, UDP, pipes, logging: network events are arbitrary inputs.
- Lua execution: a resumed coroutine is an arbitrary list of the API actions that matter here.
- Scheduler: reads of m_inited and of the handle outside the lock; a send is allowed once the
  context has been inited, also after it died, as a sender may have looked before.  What
  on_dropped does beyond answering queries is WaitProtocol's, or left out; the logger context
  answers no query.
- WaitProtocol: handles are not reused after the 32-bit wrap; the callback form of
  context.wait on a missing context, which registers nothing, only wakes its caller.
- TcpFraming: reading without a head, where every read is a frame; read buffers are sequences,
  and an empty frame is finished at the end of its head rather than at the loop's end.
- ReadPipeline: closing the socket while frames are under way; which callback is told of an
  error is not followed.
- RefSessions: timers of sessions; a resumed coroutine does not use the manager, which includes
  freeing a callback by recv or wait with nil, while the wake-up that resumed it unwinds: such
  calls come after it; replies use the numbers of queries.
- Buffer: the NUL after the content, which buffer_adjust_len does not maintain.
- TablePack: floats are the eight bytes they are stored in, and keys are compared as stored;
  tables as keys; reading past the end is the failure that sdsread's assertion raises.
- BufferPack: how floats are formatted (a parameter); string lengths near 2^64 whose sum with
  the position wraps; a z string without its zero is an error rather than a read past the end.
- FormatProof.PackOptions: does not cover a 'c' with a numeral whose digits but the last exceed
  214748363, which pack reads in two pieces and then refuses.
- CodeGen: the constant table (instructions carry constants, which always fit an operand), the
  merging of adjacent LOADNIL instructions, upvalue closing in JMP, arithmetic and calls;
  codecomp's second look at operands that luaK_infix has already placed is not repeated.
- Collector: weak tables, ephemerons, finalizers (their lists are empty), open upvalues, fixed
  objects, shared prototypes and pacing; addresses of freed objects are not used again.
