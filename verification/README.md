# Verification of the framework's stateful cores

This project models the parts of the web framework that hold state, run concurrently or encode data, and proves what their documentation and their callers rely on. Code that updates objects in place is modelled by classes and loops proved against functions; the laws are lemmas about those functions. Concurrent code is a machine whose atomic steps interleave freely, and its theorems hold in every reachable state of every run.

| file | models |
|---|---|
| `WebSocketFrame.dfy` | the frame codec (sections 5.2, 5.3 and 5.5.1 of RFC 6455) |
| `WebSocketReadLoop.dfy`, `Chunking.dfy` | the read loop over any chunking of the byte stream |
| `WebSocketCloseWait.dfy` | the lock-free handoff of the coroutine waiting for the close |
| `WebSocketSendQueue.dfy`, `WebSocketSendCalls.dfy` | the send queue and its single writer; what each call on a session comes to |
| `Paths.dfy`, `RouterPattern.dfy` | splitting at slashes; route patterns |
| `RouterTable.dfy`, `RouterDispatch.dfy` | the trie as a value: histories of registrations and groups against a flat table, dispatch against a declarative match |
| `RouterTrie.dfy`, `Router.dfy` | the heap trie and the routers that share it, proved over whole histories to act as that value |
| `LogWriter.dfy` | the bounded asynchronous log writer |
| `WhenAll.dfy` | the countdown of `when_all` |
| `TopicBus.dfy`, `TopicBusLifetimes.dfy` | the registry of weak subscriptions; subscribers that end while its lock is held |
| `Sha1.dfy`, `Sha1Example.dfy` | SHA-1 against FIPS 180-4, with the standard's example worked out |
| `Base64.dfy` | Base64 against section 4 of RFC 4648 |
| `HttpParser.dfy` | the request parser under llhttp's callbacks |
| `GrpcStreams.dfy` | gRPC streams under nghttp2's callbacks |
| `StaticPath.dfy` | from a request path to a candidate file |
| `Octets.dfy`, `Sequences.dfy` | octets, exclusive or, network byte order; laws of sequences |

`dafny verify dfyconfig.toml` checks the whole project. The option in it turns Dafny's automatic induction off: every induction in the project is written out.

## Where the code does less than one might assume

These are proved as they stand in the code.

- A Close frame is pushed to the front of the send queue, so data already queued goes out after it, which section 5.5.1 of RFC 6455 forbids. `DataCanFollowClose` gives a run; `DataBehindClose` says exactly which data frames follow a Close, so that none do if and only if none was queued then and none is accepted later.
- `enqueue_frame` does not look at `closed_` again on the strand. `AcceptedAfterFailure` gives a run in which a frame is accepted after a write has failed. `send_text` and `send_binary` look at it once, some steps before they post, so a sender can post after the close (`SenderPastItsCheck`). `ClosedStillAccepts` says exactly when a closed session still accepts data: when a send is posted and has not run yet, or a sender that found the session open has still to post.
- Control frames are pushed to the front one by one, so those that wait go out in the reverse of the order they were pushed in, and a Close overtakes the Pongs before it (`BurstReversed`, `QueueOrder`).
- `subscribe` and `unsubscribe` hold a temporary pointer to each living entry under the exclusive lock. If every other owner lets go meanwhile, its release runs a session's destructor, whose `unsubscribe` locks the mutex that its own thread holds (`EndsUnderTheLock`), and nobody gets the lock again (`StuckForever`). A call can get there exactly when an entry it will look at is alive and is not its caller's (`WalkMayStick`).
- The session's answer 1003 to a continuation frame is never given: the parser refuses such a frame, so the answer is 1002 (`ParsedIsWire`, `StreamAnswered`).
- `LogWriter::stats()` loads `accepted` before `written`, so a snapshot can show more written than accepted (`StatsCanRunAhead`); it can be relied on exactly when the worker has exited (`StatsConsistent`). The worker exits only after the stop that `~LogWriter` requests (`src/log/log_writer.cpp:53-59`), so no caller of `stats()` is ever in that state. In the state itself `written` never exceeds `accepted` (`Conservation`).
- `increment_dropped` loads the counter and then adds to it, so callers that race at the maximum wrap it (`DropCounterCanWrap`); additions under way keep it growing exactly when there is room for all of them (`RacingAdds`).
- Dispatch never backtracks: a static child that leads nowhere, even the node of a group without routes, hides a parameter sibling (`DeadEndIsNotFound`, `NoBacktracking`). A wildcard child shadows its parent's own handler at the end of the path (`WildcardHidesParent`). A node keeps the first parameter name that a registration or a group gave it (`TableNodes`). A group's own dispatch always answers 404 (`DispatchRequest`).
- The frame parser accepts length fields that are not minimal, and control frames with more than 125 octets of payload (`WireParses` covers every length form). `emit_frame` and the parser round-trip exactly for final, non-continuation frames within the limits (`EmitRoundTrip`).
- The HTTP parser never commits the last trailer; the others count towards the limit on headers and are not part of the request (`Verdict` in `MessageVerdict`).

## Model

| member | source | states |
|---|---|---|
| `WebSocketFrame.ParseFrameDetailed` | src/net/websocket_frame.cpp:84-273 | the bit tests, the length loop, the key copy and the unmasking loop compute exactly the frame, the violation or the need for more input that the layout of section 5.2 prescribes |
| `WebSocketFrame.UnmaskPayload` | src/net/websocket_frame.cpp:255-261 | the in-place loop xors octet i with key octet i mod 4 |
| `WebSocketFrame.ParseStable` | src/net/websocket_frame.cpp:84-273 | a parse or a violation reached on a buffer is not changed by octets that arrive later |
| `WebSocketFrame.IncompleteIsShort` | src/net/websocket_frame.cpp:84-273 | an undecided buffer is shorter than the payload limit plus 14 |
| `WebSocketFrame.WireParses` | src/net/websocket_frame.cpp:164-273 | every masked or unmasked layout of a permitted frame, in every length form and under every key, parses to that frame with its exact length, whatever follows |
| `WebSocketFrame.ParsedIsWire` | src/net/websocket_frame.cpp:84-273 | conversely, what is consumed by a successful parse is a layout of the frame returned |
| `WebSocketFrame.WirePrefixIncomplete` | src/net/websocket_frame.cpp:84-247 | every strict prefix of an acceptable frame is Incomplete |
| `WebSocketFrame.RefusedExactly` | src/net/websocket_frame.cpp:84-230 | FrameTooLarge exactly for a complete header of a permitted frame that declares more than the limit; ProtocolError exactly for two octets that start no permitted frame, or a 64-bit length with its top bit set |
| `WebSocketFrame.FirstOctets` | src/net/websocket_frame.cpp:290-300 | the first octet of a final frame of each opcode, as in the table of RFC 6455 |
| `WebSocketFrame.MaskedExample` | src/net/websocket_frame.cpp:255-261 | the masked "Hello" of section 5.7, each octet with its octet of the key |
| `WebSocketFrame.EmittedExamples` | src/net/websocket_frame.cpp:290-330 | the unmasked examples of section 5.7 in all three length forms |
| `WebSocketFrame.EmitFrame` | src/net/websocket_frame.cpp:290-330 | the pushes build the minimal header followed by the payload |
| `WebSocketFrame.EmitRoundTrip` | src/net/websocket_frame.cpp:84-330 | parsing an emitted frame gives it back, with its exact length, if and only if it is final, not a continuation, and within both limits |
| `WebSocketFrame.EmitIsMinimal` | src/net/websocket_frame.cpp:290-330 | nothing the unmasked parser accepts for a frame is shorter than the emitted form |
| `WebSocketFrame.PushBe16` | src/net/websocket_frame.cpp:63-67 | appends two octets in network order |
| `WebSocketFrame.PushBe64` | src/net/websocket_frame.cpp:70-76 | the shifting loop appends eight octets in network order |
| `WebSocketFrame.EmitCloseFrame` | src/net/websocket_frame.cpp:336-349 | builds a Close frame of the code and the reason cut to 123 octets |
| `WebSocketFrame.CloseRoundTrip` | src/net/websocket_frame.cpp:336-349 | a peer reads back the code and the reason, and the payload fits a control frame |
| `WebSocketFrame.CloseCodeIsPeers` | src/net/websocket_session.cpp:498-506 | the code taken from a received Close is its first two octets, and 1000 when it has fewer |
| `Octets.XorTwice` | src/net/websocket_frame.cpp:255-261 | masking twice with one key octet is the identity |
| `Octets.XorBitwise` | src/net/websocket_frame.cpp:255-261 | a bit of the exclusive or is set exactly where one of the two has it set |
| `Octets.BigEndianRoundTrip` | src/net/websocket_frame.cpp:63-76 | a number is recovered from its octets in network order |
| `WebSocketReadLoop.WebSocketSession.OnFrame` | src/net/websocket_session.cpp:467-539 | the switch on the opcode: one message, one Pong, nothing, or the end with its Close and close code |
| `WebSocketReadLoop.WebSocketSession.DrainFrames` | src/net/websocket_session.cpp:430-547 | the inner loop reacts to each complete frame in order and leaves the rest in the accumulator |
| `WebSocketReadLoop.WebSocketSession.DoReadLoop` | src/net/websocket_session.cpp:396-554 | the whole loop over a sequence of reads, ended by an error, end of file or the session |
| `WebSocketReadLoop.DrainAppend` | src/net/websocket_session.cpp:427-547 | draining early and draining late come to the same |
| `WebSocketReadLoop.ChunkingIndependent` | src/net/websocket_session.cpp:411-551 | any split of a stream into non-empty chunks gives the same events and status as one chunk |
| `WebSocketReadLoop.SplitsAgree` | src/net/websocket_session.cpp:411-551 | two splits of one stream cannot be told apart, also when the peer then hangs up |
| `WebSocketReadLoop.HangUpEnds` | src/net/websocket_session.cpp:411-424 | a failed read or an empty chunk ends the session there: nothing more happens and nothing later is read |
| `WebSocketReadLoop.LeftoverBound` | src/net/websocket_session.cpp:430-551 | while the session is open a pass leaves fewer than the limit plus 14 octets |
| `WebSocketReadLoop.StreamDelivered` | src/net/websocket_session.cpp:411-551 | a stream of valid client frames is answered frame by frame, in order, up to the first Close |
| `WebSocketReadLoop.SplitStream` | src/net/websocket_frame.cpp:84-273 | every byte stream is the wire form of some client frames followed by bytes the parser does not accept as one |
| `WebSocketReadLoop.StreamAnswered` | src/net/websocket_session.cpp:411-551 | when the application claims no Close, any byte stream in any chunking leads to exactly these events: an answer to each frame at its front, the first Close answered by one with its code, or 1000 when it has none, and else 1009 for an oversized and 1002 for a malformed tail; the session stays open exactly otherwise |
| `WebSocketReadLoop.CloseFrameReads` | src/net/websocket_session.cpp:450-456 | a peer reads the code and the reason back from every Close frame the loop sends |
| `WebSocketReadLoop.AtMostOneClose` | src/net/websocket_session.cpp:445-458 | whatever arrives, the read loop enqueues at most one Close, and none once another has been claimed |
| `WebSocketReadLoop.ApplicationCloses` | src/net/websocket_session.cpp:445-517 | once the application has claimed the Close in a message callback the read loop enqueues none |
| `Chunking.ChunksAgree` | src/net/websocket_session.cpp:427-428 | the general law: a consumer that composes over two chunks composes over any number |
| `WebSocketCloseWait.SharedFlags.AwaitStep` | src/net/websocket_session.cpp:325-377 | one atomic operation of the waiter: the checks, the store, the recheck and the compare-exchange |
| `WebSocketCloseWait.SharedFlags.FinishStep` | src/net/websocket_session.cpp:553-566 | one atomic operation of the end of the read loop: set closed, exchange, resume |
| `WebSocketCloseWait.ContinuesExactlyOnce` | src/net/websocket_session.cpp:325-377 | in every interleaving with the read loop and with write errors the waiter continues at most once, only when closed, and exactly once when both have finished |
| `WebSocketCloseWait.ReturnedClosed` | src/net/websocket_session.cpp:327-352 | nobody is let through before the session is closed |
| `WebSocketCloseWait.ClosedIsNotWaitedFor` | src/net/websocket_session.cpp:327-346 | on a session that is closed already the waiter returns at its next step and is never suspended |
| `WebSocketCloseWait.ClosedExactly` | src/net/websocket_session.cpp:403-417 | `closed_` is set exactly once the loop has closed or left, or a write has failed |
| `WebSocketCloseWait.HandoffTerminates` | src/net/websocket_session.cpp:346-377 | the handoff takes at most eight steps and blocks nobody |
| `WebSocketSendQueue.SendQueue.OnEnqueueFrame` | src/net/websocket_session.cpp:246-264 | a data frame is queued at the back unless 128 wait, and starts the writer if none is active |
| `WebSocketSendQueue.SendQueue.OnSendFromBus` | src/net/websocket_session.cpp:223-239 | the same for a bus message, dropped also when closed |
| `WebSocketSendQueue.SendQueue.OnEnqueuePriority` | src/net/websocket_session.cpp:270-282 | a control frame goes to the front whatever the depth |
| `WebSocketSendQueue.SendQueue.OnWriteDone` | src/net/websocket_session.cpp:288-302 | from one write's end to the next suspension: the next frame, idle, or closed with the queue cleared |
| `WebSocketSendQueue.SendQueue.ClaimClose` | src/net/websocket_session.cpp:153-158 | the compare-exchange on close_sent_ has one winner |
| `WebSocketSendQueue.SendSafety` | src/net/websocket_session.cpp:145-302 | in every run one write at most is in flight and is whenever frames wait; at most 128 data frames wait; data written, in flight and queued are those accepted, in order, until a write fails, and those written stay an ordered part of them; one Close at most is enqueued |
| `WebSocketSendQueue.QueueOrder` | src/net/websocket_session.cpp:246-296 | in every run control frames wait in front of all data, a new one in front of the others, and the data waiting are the last ones accepted, in order |
| `WebSocketSendQueue.BurstReversed` | src/net/websocket_session.cpp:270-302 | any number of control frames pushed during a write go out in reverse order, and then what was queued before |
| `WebSocketSendQueue.DataBehindClose` | src/net/websocket_session.cpp:270-302 | while no write fails, the data frames behind the Close are exactly those queued when it was pushed and those accepted since |
| `WebSocketSendQueue.DataCanFollowClose` | src/net/websocket_session.cpp:275-276 | a run in which a data frame is written after the Close |
| `WebSocketSendCalls.DataTask` | src/net/websocket_session.cpp:215-264 | in every state a send's frame is accepted exactly when fewer than 128 frames wait, a bus message exactly when the session is open besides; it is then last in the queue, or goes out at once |
| `WebSocketSendCalls.SendComesTo` | src/net/websocket_session.cpp:104-139 | a send is an error on a closed session; on an open one its steps accept the frame last in the queue if there is room, and change nothing else |
| `WebSocketSendCalls.BusComesTo` | src/net/websocket_session.cpp:215-239 | a bus message is dropped on a closed session, and on an open one treated likewise |
| `WebSocketSendCalls.CloseGracefulComesTo` | src/net/websocket_session.cpp:145-163 | on an open session the Close frame goes out next, unless one was claimed before: then nothing changes |
| `WebSocketSendCalls.ReadLoopCloseComesTo` | src/net/websocket_session.cpp:445-458 | the same for the read loop's own Close, open or not |
| `WebSocketSendCalls.PongComesTo` | src/net/websocket_session.cpp:485-492 | a Pong goes out next |
| `WebSocketSendCalls.EverythingGoesOut` | src/net/websocket_session.cpp:288-302 | from every reachable state without a failed write, successful writes put all the data accepted so far on the wire, in order, and leave the session idle |
| `WebSocketSendCalls.OutgoingGrows` | src/net/websocket_session.cpp:246-302 | between any two states of a run without a failed write the data written, in flight and queued grow by exactly those accepted |
| `WebSocketSendCalls.FailureDropsTheQueue` | src/net/websocket_session.cpp:293-301 | a failed write closes the session and drops every frame that waited; data that go out later were accepted later |
| `WebSocketSendCalls.StaysClosed` | src/net/websocket_session.cpp:288-302 | no step opens a closed session again |
| `WebSocketSendQueue.LateFramesWereChecked` | src/net/websocket_session.cpp:104-139 | every frame accepted after the close belongs to a send that had found the session open: one posted by then, or one whose sender was between its check and its post |
| `WebSocketSendQueue.ClosedStillAccepts` | src/net/websocket_session.cpp:104-264 | some run from a closed session accepts a frame if and only if a send is posted and has not run yet, or a sender that found the session open has still to post |
| `WebSocketSendQueue.SenderPastItsCheck` | src/net/websocket_session.cpp:104-120 | a run to a closed session with nothing posted and a sender between its check and its post |
| `WebSocketSendQueue.AcceptedAfterFailure` | src/net/websocket_session.cpp:246-302 | a run in which a frame is accepted, and its write begun, after another write has failed |
| `Paths.TokensOfJoin` | src/router/router_impl.cpp:89-96 | appending a path that starts with a slash appends its segments |
| `Paths.TokensOfJoined` | src/router/router_impl.cpp:307-320 | splitting undoes joining for non-empty slash-free segments |
| `RouterPattern.ParsePattern` | src/router/router_impl.cpp:81-167 | the loop reads the segments of a pattern, or meets a fatal one |
| `RouterPattern.RenderParses` | src/router/router_impl.cpp:105-156 | a well-formed segment written out parses back to itself |
| `RouterPattern.ParsedRenders` | src/router/router_impl.cpp:105-156 | an accepted token is the written form of the segment it was read as |
| `RouterPattern.ParseExactly` | src/router/router_impl.cpp:81-167 | a pattern is accepted as some segments exactly when it starts with a slash and its tokens are those segments written out, each well-formed and no wildcard but the last; everything else terminates |
| `RouterPattern.ParseJoined` | src/router/router_impl.cpp:81-167 | parsing a prefix followed by a pattern is the two parses concatenated if and only if the prefix has no wildcard or the pattern no segments |
| `RouterTable.TableOf` | src/router/router_impl.cpp:231-242 | after any history of registrations and groups, made through any of the routers there are, the nodes are closed under prefixes, keep seven handler slots, and include every router's insert root |
| `RouterTable.InsertIsolated` | src/router/router_impl.cpp:195-242 | an insertion changes one key's handler for one method, adds the nodes of its own path, and renames nothing |
| `RouterTable.TableIsFlat` | src/router/router_impl.cpp:195-242 | after any such history the trie denotes the flat map from name-erased whole paths and methods to the last registered handler |
| `RouterTable.TableNodes` | src/router/router_impl.cpp:195-229 | its nodes are the prefixes of the paths registered or grouped, each with the name and the parameter type the first of them gave it |
| `RouterTable.GroupLaw` | src/router/router_impl.cpp:399-415 | given any earlier registrations, registering through `group(p)` yields the table of registering the joined pattern on the parent |
| `RouterTable.HistoryJoined` | src/router/router_impl.cpp:277-285 | any history, groups and registrations interleaved, builds the table of the one that makes every call on the owning router under its whole path |
| `RouterTrie.Trie.FindStatic` | src/router/router_impl.cpp:199-203 | finds the static child with the literal, or there is none |
| `RouterTrie.Trie.EnsureChild` | src/router/router_impl.cpp:195-229 | keeps the heap a tree with distinct siblings and adds or finds exactly the one child |
| `RouterTrie.Trie.Descend` | src/router/router_impl.cpp:405-407 | creates exactly the nodes of a path |
| `RouterTrie.Trie.Insert` | src/router/router_impl.cpp:231-242 | the in-place insertion keeps the tree and the mask invariant and acts on the denoted table as the specified insertion |
| `RouterTrie.SetBit` | src/router/router_impl.cpp:239-241 | or-ing a method's bit into the mask sets that bit and no other |
| `RouterTrie.TreeTable` | src/router/router_impl.hpp:59-86 | a heap with the tree shape denotes a well-formed table |
| `Router.Router.constructor` | src/router/router_impl.cpp:248-253 | an owning router starts with a root and nothing registered |
| `Router.Router.RegisterRoute` | src/router/router_impl.cpp:277-285 | registration inserts below the router's own insert root; every node stays at its key, so other routers on the trie stay usable |
| `Router.Router.MakeGroup` | src/router/router_impl.cpp:399-415 | a group shares the trie, with the prefix's node as its insert root and no root of its own; every node stays at its key |
| `Router.Router.FindNode` | src/router/router_impl.cpp:323-378 | the loop is the greedy static, parameter, wildcard descent |
| `Router.Router.DispatchRequest` | src/router/router_impl.cpp:291-393 | dispatch on the heap is dispatch on the denoted table |
| `Router.Perform` | src/router/router_impl.cpp:277-415 | one call on one of several routers sharing a trie keeps all of them usable and acts on the history's table |
| `Router.Build` | src/router/router_impl.cpp:231-415 | any sequence of registrations and groups through whichever routers leaves the table of that history on the heap |
| `Router.BuildAndDispatch` | src/router/router_impl.cpp:231-415 | and dispatch on the owning router is then dispatch on that table |
| `Router.BuildAllowHeader` | src/router/router_impl.cpp:60-71 | the header is the comma-separated names of the methods that have a handler |
| `Router.SplitPath` | src/router/router_impl.cpp:307-320 | the segments of a path with their positions |
| `Router.MaskMeansAny` | src/router/router_impl.cpp:385-390 | the mask is zero exactly when no method has a handler |
| `RouterDispatch.WalkExact` | src/router/router_impl.cpp:323-378 | the descent ends at a key if and only if the key is registered, fits the segments and no higher-priority sibling intervenes, with that key's captures |
| `RouterDispatch.CapturesRebuild` | src/router/router_impl.cpp:343-378 | the captures put back into the key give the path's segments, the wildcard's raw tail included |
| `RouterDispatch.SegmentsAreAll` | src/router/router_impl.cpp:307-320 | the segments dispatch looks at are all the non-empty pieces of the path |
| `RouterDispatch.CapturesBind` | src/router/router_impl.cpp:343-383 | a handler's parameters have exactly the names of the key's parameters and wildcard; where a name first occurs it stands for that segment of the path, or for the raw rest of it |
| `RouterDispatch.BoundNames` | src/router/router_impl.cpp:343-383 | those names are the ones the history gave first |
| `RouterDispatch.DispatchExact` | src/router/router_impl.cpp:291-393 | after any history an unshadowed fitting key answers with its last registered handler and the parameters of the path, with 405 when only other methods are registered, and with 404 when none is |
| `RouterDispatch.DispatchFromKey` | src/router/router_impl.cpp:291-393 | after any history every answer but 404 comes from such a key; an invoked handler is the last one registered for it |
| `RouterDispatch.UnknownMethod` | src/router/router_impl.cpp:302-306 | exactly the methods the router does not know are answered with 400 |
| `RouterDispatch.AllowedMethods` | src/router/router_impl.cpp:385-390 | a 405 lists exactly the methods registered for that key, each once, in order |
| `RouterDispatch.AllMethods` | src/router/router_impl.cpp:385-390 | the list of all seven methods as it is written |
| `RouterDispatch.BuiltPathDispatches` | src/router/router_impl.cpp:330-383 | after any history a path built from a registered pattern under its router's prefix, any segment for a parameter and any rest for a wildcard, reaches that pattern's handler with those parameters unless it is shadowed |
| `RouterDispatch.DeadEndIsNotFound` | src/router/router_impl.cpp:333-364 | a static child that leads nowhere is a 404 although a parameter route fits |
| `RouterDispatch.NoBacktracking` | src/router/router_impl.cpp:333-364 | after two calls, a path through `/a` registered or grouped and then `/{x}/c` registered, the latter is not reached from `/a/c` |
| `RouterDispatch.WildcardHidesParent` | src/router/router_impl.cpp:370-373 | whatever the history, a path that fits a key with a wildcard child never ends at that key |
| `LogWriter.LogWriter.EnqueueRecord` | src/log/log_writer.cpp:61-83 | a record is queued, or dropped when filtered, contended or over capacity |
| `LogWriter.LogWriter.IncrementDropped` | src/log/log_writer.cpp:200-205 | for a caller that is not raced, a saturating increment |
| `LogWriter.AloneSaturates` | src/log/log_writer.cpp:61-205 | where nobody races, the machine's steps come to a saturating increment, to a whole enqueue call and to the write of a record |
| `LogWriter.RacingAdds` | src/log/log_writer.cpp:200-205 | callers past the comparison increase the counter if and only if there is room for all of them, and wrap it otherwise |
| `LogWriter.DropCounterCanWrap` | src/log/log_writer.cpp:200-205 | a run with 2^64 drops that ends with the counter at zero |
| `LogWriter.LogWriter.ProcessRecord` | src/log/log_writer.cpp:149-198 | one turn of the worker takes the oldest record, writes it and clears the writing flag |
| `LogWriter.LogWriter.RunToStop` | src/log/log_writer.cpp:149-176 | once stopped and undisturbed the worker processes the queue in order, leaves it empty, and counts as written and as dropped exactly the records that came to that |
| `LogWriter.Conservation` | src/log/log_writer.cpp:61-205 | in every reachable state accepted is processed, in flight and queued, in order; the queue is within capacity; each call counts once; the drop counter and the additions under way make up the drops as long as they fit 64 bits; written never exceeds accepted |
| `LogWriter.CallDecided` | src/log/log_writer.cpp:61-83 | in every reachable state a call is accepted exactly when its level is enabled, it got the mutex and fewer records wait than configured (one for a capacity of zero), and counts as dropped otherwise |
| `LogWriter.WrittenCounted` | src/log/log_writer.cpp:178-198 | over every run `written` grows by the number of records that were written |
| `LogWriter.FlushIsABarrier` | src/log/log_writer.cpp:90-106 | when a flush may return, every record accepted before it was called has been through write_record, in order |
| `LogWriter.FlushExactly` | src/log/log_writer.cpp:90-106 | in every reachable state a flush may return exactly when all accepted records are processed and the worker is done with the last |
| `LogWriter.ExitsDrained` | src/log/log_writer.cpp:157-160 | the worker exits only on a stop and with everything accepted so far processed |
| `LogWriter.StopComesTo` | src/log/log_writer.cpp:53-59 | from every reachable state a requested stop can come to its end, with the queue emptied and every accepted record processed |
| `LogWriter.StatsConsistent` | src/log/log_writer.cpp:108-115 | from a reachable state every snapshot is consistent, whatever runs between its loads, if and only if the worker has exited |
| `LogWriter.StatsOvershoot` | src/log/log_writer.cpp:108-115 | a snapshot overstates what was written by at most what was accepted between its loads |
| `LogWriter.StatsCanRunAhead` | src/log/log_writer.cpp:108-115 | a run in which a snapshot shows more written than accepted |
| `WhenAll.WhenAllState.StoreResult` | include/aevox/async.hpp:277-280 | fills one slot and no other |
| `WhenAll.WhenAllState.CaptureException` | include/aevox/async.hpp:282-288 | keeps the first exception |
| `WhenAll.WhenAllState.MarkOneComplete` | include/aevox/async.hpp:290-293 | counts down and tells the last caller |
| `WhenAll.WhenAllState.TakeResults` | include/aevox/async.hpp:312-316 | collects every slot in task order; needs all of them filled |
| `WhenAll.WhenAllState.AwaitResume` | include/aevox/async.hpp:407-411 | rethrows the first exception or returns the results |
| `WhenAll.AtMostOnce` | include/aevox/async.hpp:340-361 | the caller is posted and resumed at most once, and only when every task is done |
| `WhenAll.ResumedWithTheAnswer` | include/aevox/async.hpp:340-411 | a resumed caller reads only filled slots and gets the first exception thrown in the run, or each task's own result |
| `WhenAll.StuckMeansResumed` | include/aevox/async.hpp:340-411 | a run that can go no further has resumed the caller exactly once |
| `WhenAll.RunsEnd` | include/aevox/async.hpp:340-361 | every run takes at most four steps per task |
| `TopicBus.TopicBus.Subscribe` | src/net/topic_bus.cpp:27-41 | adds the subscriber at the end unless it is there |
| `TopicBus.TopicBus.Unsubscribe` | src/net/topic_bus.cpp:47-56 | removes the subscriber, and the dead, from every topic |
| `TopicBus.TopicBus.Snapshot` | src/net/topic_bus.cpp:73-88 | the live subscribers of a topic in order, and whether any is dead |
| `TopicBus.TopicBus.Publish` | src/net/topic_bus.cpp:62-107 | delivers to the snapshot but the sender, in order, and returns how many; topics change by pruning at most |
| `TopicBus.StepRefines` | src/net/topic_bus.cpp:27-107 | every step acts on a topic's live list as the abstract map does; publishing and pruning do not change it |
| `TopicBus.RunRefines` | src/net/topic_bus.cpp:27-107 | over any interleaving the live list is what the abstract map gives, without repetition |
| `TopicBus.PublishDelivers` | src/net/topic_bus.cpp:73-107 | a publish that has returned delivered once, in order, to exactly the subscribers live when it released the shared lock, except the sender, and returns their number |
| `TopicBus.PublishLinearizes` | src/net/topic_bus.cpp:62-107 | every publish that has returned, also on an unknown topic, has a step within its call at which the topic's live list without the sender is what it delivered, once and in order |
| `TopicBus.SendsToTheLiving` | src/net/topic_bus.cpp:98-104 | the snapshot keeps alive whom it still has to reach |
| `TopicBus.PublishComesTo` | src/net/topic_bus.cpp:62-107 | from every reachable state with the lock free a publish can run to its end, deliver to the live subscribers but the sender and leave no dead entry in its topic |
| `TopicBus.LifeOfASubscriber` | src/net/topic_bus.cpp:27-56 | at any such time a new subscriber can join a topic, last in its list, and leave it or end, and the list is as before |
| `TopicBusLifetimes.EndsUnderTheLock` | src/net/topic_bus.cpp:31-56 | from the lock() of an entry to the release of its temporary, whatever other threads do: the release ends the subscriber if and only if the pointers dropped meanwhile are all there were |
| `TopicBusLifetimes.StuckForever` | src/net/topic_bus.cpp:47-50 | once a release has ended a subscriber there, no step of any run takes or frees the lock again |
| `TopicBusLifetimes.WalkMayStick` | src/net/topic_bus.cpp:27-56 | some run of a call that has just taken the lock ends a given subscriber under it if and only if the call will look at an entry of it, it is alive and it is not the caller's own |
| `TopicBusLifetimes.CallComesTo` | src/net/topic_bus.cpp:27-56 | where nobody lets go of anything a call takes and releases each living entry it looks at, and leaves everything as it was |
| `Sha1.Schedule` | src/net/sha1.hpp:108-127 | the array holds the message schedule of section 6.1.2 of FIPS 180-4 |
| `Sha1.Choose` | src/net/sha1.hpp:134-150 | each round's function and constant are those of sections 4.1.1 and 4.2.1 |
| `Sha1.ChIsOr` | src/net/sha1.hpp:135-137 | the or form of Ch is the exclusive-or form of section 4.1.1 |
| `Sha1.MajIsOr` | src/net/sha1.hpp:143-145 | the same for Maj |
| `Sha1.WordIsOr` | src/net/sha1.hpp:114-118 | or-ing shifted octets is the big-endian word |
| `Sha1.ProcessBlock` | src/net/sha1.hpp:108-166 | a block updates the hash value by the compression function |
| `Sha1.ZerosAreLeast` | src/net/sha1.hpp:175-193 | the padding has the least number of zeros section 5.1.1 asks for |
| `Sha1.LengthIsExact` | src/net/sha1.hpp:97-98 | below 2^61 octets the length field is the true length in bits |
| `Sha1.FillTail` | src/net/sha1.hpp:180-199 | the tail buffer's one or two blocks are the tail, 0x80, zeros and the length |
| `Sha1.PadSplits` | src/net/sha1.hpp:104-199 | full blocks and tail buffer together are the padded message |
| `Sha1.WordRoundTrip` | src/net/sha1.hpp:209-214 | the octets of a digest word give it back |
| `Sha1.WriteDigest` | src/net/sha1.hpp:207-221 | the digest is the five words in network order |
| `Sha1.Compute` | src/net/sha1.hpp:88-222 | for every input the digest is that of padding the whole message and folding the compression function |
| `Sha1Example.Abc` | src/net/sha1.hpp:88-222 | the digest of "abc" is that of the standard's example |
| `Base64.EncodeInto` | src/net/base64.hpp:55-110 | the loop and its tail fill every position of the preallocated buffer with the encoding |
| `Base64.EncodedLength` | src/net/base64.hpp:57-63 | the encoding has 4*ceil(n/3) characters |
| `Base64.DecodeEncode` | src/net/base64.hpp:55-110 | the decoder of RFC 4648 gives back the input |
| `Base64.DecodesExactly` | src/net/base64.hpp:55-110 | the strict decoder accepts exactly the encoder's output, and they are each other's inverse |
| `Base64.EncodeInjective` | src/net/base64.hpp:55-110 | two inputs with one encoding are equal |
| `HttpParser.Parser.Commit` | src/http/http_parser.cpp:86-102 | moves a pending pair to the storage and fails when the count passes the limit |
| `HttpParser.Parser.HeaderField` | src/http/http_parser.cpp:129-144 | the first fragment of a name commits the pair before it |
| `HttpParser.Parser.HeadersComplete` | src/http/http_parser.cpp:156-176 | commits the last pair and publishes the stored headers |
| `HttpParser.Parser.Body` | src/http/http_parser.cpp:178-193 | appends a body fragment unless the total passes the limit |
| `HttpParser.Parser.FeedData` | src/http/http_parser.cpp:243-280 | runs the callbacks up to the first that stops, and maps the outcome to the feed's result |
| `HttpParser.Parser.Reset` | src/http/http_parser.cpp:286-310 | every observable part of the state is that of a new parser, also after an error |
| `HttpParser.ExecuteHeaders` | src/http/http_parser.cpp:86-154 | a run of headers stores the exact pairs, or fails exactly when too many would be committed |
| `HttpParser.ExecuteBody` | src/http/http_parser.cpp:178-193 | body fragments are concatenated, or fail exactly when the total passes the limit |
| `HttpParser.MessageVerdict` | src/http/http_parser.cpp:86-210 | however its names, values and body are cut, a message comes to a verdict that is a function of the message alone |
| `HttpParser.FragmentationIndependent` | src/http/http_parser.cpp:86-280 | the same for every division of the callbacks into feeds: Incomplete until the verdict |
| `HttpParser.ErrorsStick` | src/http/http_parser.cpp:256-258 | until it is reset a failed parser answers every feed with the same error |
| `HttpParser.SyntaxErrorRefused` | src/http/http_parser.cpp:243-280 | a syntax error at any point of a message within the limits, however it is cut into feeds: Incomplete before it, BadRequest for it and for every later feed |
| `HttpParser.BrokenRefuses` | src/http/http_parser.cpp:273-279 | after a syntax error every feed is answered BadRequest until a reset |
| `GrpcStreams.Session.OnDataChunk` | src/plugins/grpc/grpc_http2_session.cpp:274-292 | a chunk is appended, or refused and the stream marked |
| `GrpcStreams.Session.OnFrame` | src/plugins/grpc/grpc_http2_session.cpp:294-307 | the end of a known stream marks it and queues it |
| `GrpcStreams.Session.OnDataRead` | src/plugins/grpc/grpc_http2_session.cpp:309-336 | copies the next piece, and at the end flags it and submits the trailers once |
| `GrpcStreams.Session.AnswerStream` | src/plugins/grpc/grpc_http2_session.cpp:355-416 | the checks in order, the handler and the encoding lead to one response |
| `GrpcStreams.Session.ProcessReadyStreams` | src/plugins/grpc/grpc_http2_session.cpp:338-417 | empties the ready list, answering each ended stream not answered yet |
| `GrpcStreams.PayloadBounded` | src/plugins/grpc/grpc_http2_session.cpp:283-291 | what is buffered never passes the limit plus the envelope |
| `GrpcStreams.OneResponseEach` | src/plugins/grpc/grpc_http2_session.cpp:338-355 | however often it was queued a stream is answered at most once, and every ended one is when the list is empty |
| `GrpcStreams.AnsweredFromTheWholeRequest` | src/plugins/grpc/grpc_http2_session.cpp:274-416 | with too much data a stream is answered with status 8 and never reaches the handler; otherwise with the status or the reply that its method, content type, path, all its data and the handler's result call for, and the handler runs exactly when the first four are right |
| `GrpcStreams.RequestAnswered` | src/plugins/grpc/grpc_http2_session.cpp:274-417 | from every reachable state a new stream whose data come in any pieces and end is answered so, once, by the next pass over the ready list |
| `GrpcStreams.FirstEndedFirst` | src/plugins/grpc/grpc_http2_session.cpp:294-350 | streams are taken up in the order in which they ended |
| `GrpcStreams.ReservedIs` | src/plugins/grpc/grpc_http2_session.cpp:391-400 | the metadata a handler may not set are grpc-status and grpc-message, in any case of letters |
| `GrpcStreams.ReadsYieldTheResponse` | src/plugins/grpc/grpc_http2_session.cpp:309-336 | the pieces read are a prefix of the response, and the trailers are submitted once, exactly when all of it has been read |
| `GrpcStreams.ReadsProgress` | src/plugins/grpc/grpc_http2_session.cpp:318-324 | a read yields as much as it asked for, or all that is left |
| `StaticPath.PercentDecodePath` | src/http/static_files.cpp:175-207 | the single pass computes the decoding, or fails |
| `StaticPath.DecodesEncoding` | src/http/static_files.cpp:175-207 | decoding undoes every encoding of a permitted string, each character escaped or not |
| `StaticPath.DecodesExactly` | src/http/static_files.cpp:175-207 | decoding succeeds with a string exactly on the encodings of it, so it fails exactly on malformed escapes and forbidden characters |
| `StaticPath.SplitValidatedSegments` | src/http/static_files.cpp:209-227 | the non-empty pieces between slashes |
| `StaticPath.IsWithinRoot` | src/http/static_files.cpp:229-246 | holds exactly when the root's components are a prefix of the candidate's |
| `StaticPath.BuildCandidate` | src/http/static_files.cpp:270-281 | the segment loop builds the candidate or refuses a dot segment |
| `StaticPath.CandidateStaysInside` | src/http/static_files.cpp:175-281 | a request is accepted exactly when it is an encoding without dot segments, and the candidate is then the root followed by safe segments, so is_within_root holds |
| `StaticPath.SafePathsAreReachable` | src/http/static_files.cpp:175-281 | every encoding of a safe path leads to exactly its segments under the root |
| `StaticPath.NormalizeUrlPrefix` | src/http/static_files.cpp:104-110 | drops exactly the trailing slashes, and never the first character |
| `StaticPath.PrefixMatchesExactly` | src/http/static_files.cpp:155-173 | a path is under a prefix exactly when it is the prefix or goes on after it with a slash, and stripping leaves what goes on |
| `StaticPath.StripRemovesPrefix` | src/http/static_files.cpp:155-173 | stripping the mount prefix takes away exactly its segments |

## Assumptions of the model

- Atomic operations are sequentially consistent steps, and a stretch under a mutex is one step.
- Each stretch of the send side between two writes is one step, as if the continuation of a write ran on the strand. The header documents this (`src/net/websocket_session.hpp:168`); the stream resumes through another executor (`src/net/asio_tcp_stream.cpp:184`).
- A caller of a send checks `closed_` in one step and posts in another, and so does the winner of `close_sent_` between its claim and its post.
- Locking a shared mutex that the thread holds, which the C++ standard leaves undefined, is a wait that does not end. A session's destructor unsubscribes it (`src/net/websocket_session.cpp:69-76`).
- Tasks posted to the strand may run in any order, which covers the first-in first-out order of a strand.
- The two halves of a drop may lie further apart in the worker than they do in the code, which only adds interleavings.
- A read is any chunk or an error, a write succeeds or fails, and time does not appear.
- llhttp reports non-empty names and at least one fragment of each name and value, makes no callback after an error, and nothing after the end of a message in the same feed.
- nghttp2 begins one request header block per stream, delivers no data after a stream's end, and does not read a response after its end.
- Message handlers, gRPC handlers, decoding, encoding and record formatting are parameters.
- Subscriber, record, result and exception identities are not reused.

## Left out

- Sockets, strands, timers, accept loops, signal handling and thread pools (`src/net/asio_executor.cpp`, `src/net/asio_tcp_stream.cpp`, `App::listen`).
- Coroutine frames, object lifetimes other than those of subscribers, and the validity of string views, including header views into storage that trailers make grow.
- Memory orders weaker than sequential consistency.
- Liveness of `flush` and of shutdown: callers and the worker share one condition variable with `notify_one`.
- Integer widths where no limit is near: `accepted`, `written` and the sizes are unbounded.
- The text of error messages, gRPC status messages and their cleaning, lower-casing of trailer names, request metadata, and the length prefix of gRPC messages.
- Two callers of `wait_for_close` on one session: the slot holds one handle.
- Handler wrapping, parameter conversion and middleware in the router; `extract_param_names` and `extract_param_types`.
- The filesystem, symbolic links, the index file, MIME types and caching in `static_files.cpp`.
- llhttp, nghttp2, toml++ and glaze themselves; configuration checks and JSON.
- The five variables SHA-1's block lambda captures by reference: they are one value passed from block to block, and both block loops share one method.
- Router.Router.DispatchRequest: a handler is an identity, so the response it would compute is not modelled, only which handler runs with which parameters.
