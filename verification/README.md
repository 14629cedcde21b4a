# RTSP image transport: a verified model

The repository carries ROS image topics over RTSP. A publisher encodes images, cuts the encoder's output into NAL
units and hands them to an RTSP server; a subscriber opens an RTSP session, puts the received units back together
and decodes them. This project models the repository's own logic in that chain and proves what it is relied upon
for. FFmpeg, Live555 and rclcpp appear only as arguments that may take any value: which packets a codec hands out,
how a server answers, in which order threads and callbacks take their steps.

| module | models | main results |
|---|---|---|
| `StartCodeScan` | the skip-ahead start-code search | genuine and complete for four-octet codes; equal to the leftmost search exactly when it never stands on a blind spot; the search with one jump shortened is always leftmost |
| `NalSplitter`, `RoundTrip` | cutting a packet into NAL units | the cut is an exact partition; for triple-free units behind any mixture of three- and four-octet codes the outcome is known exactly in every case, and the units come back unchanged if and only if no three-octet code stands behind a zero octet, the last code lies inside the search window, and no code is jumped over, which depends on the unit before it alone |
| `LeftmostCut` | cutting with the repaired search | units come back unchanged if and only if no three-octet code stands behind a zero octet and the last code lies inside the search window |
| `Reader` | a reader of the byte stream format, which sees every code to the end of the octets | for every packet of triple-free units: in what the splitter emits, however many units that left fused, a reader finds exactly the packet's units, zero octets in front of three-octet codes going to the codes; only a lone unit outside the search window is lost |
| `PtsClock`, `StreamEncoder` | time stamps and the packet queue | emitted stamps are the least strictly increasing sequence over the whole three-hundredths of a second elapsed |
| `FrameExtractor` | the receiving sink and its fixed buffer | stream law over any run of deliveries, with its exact condition and the law that holds instead; emissions split back into the units |
| `FrameInjector` | the queue between encoder thread and event loop | no lost wakeup, no lost request and first-in-first-out in every interleaving |
| `StreamServer` | the table of streams | exact fan-out in every interleaving |
| `GraphMonitor` | the shared graph watcher and its detached thread | safety in every interleaving; a round of notifications calls every listener; the exact stuck state, and a run that reaches it |
| `RtspSession` | one client session and its watchdog | selection refines find-first; at most one timer in every reachable state; timeouts exactly at the first repeated count |
| `SubscriberPlugin`, `FrameLag` | reconnection, back-off, the 454 retry, lag handling | single flight, back-off law, one-shot retry in every reachable state; over any run of the frame queue each threshold warns at most once between resets |
| `WatchedSubscriber` | plugin, session and watchdog together | a session exists exactly while the plugin is connected; a stream that falls silent is answered within two timeouts by one reconnection timer with the back-off law's delay, which brings a new session |
| `PublisherPlugin` | lazily built server and encoder | coherence and URL freshness in every reachable state; every URL announced is that of the session started last; which histories leave a server, of which packet size, and which leave none after a failure; every frame sent once, in order |
| `Pipeline` | all stages together | from images to receivers, for all packets of triple-free units and every interleaving: what a reader finds in a receiver's frames is its parameter sets and an unbroken stretch of the units there are to find in the packets, which are all their units if and only if no three-octet code stands behind a zero octet and no packet is a lone unit outside the search window; the frames that are delivered have to fit the receiver's buffer |

Concurrent components are state machines: `Step` takes one atomic step (one lock section or one callback), `Run` a
list of steps, and every run-level lemma quantifies over all lists. Components whose objects the repository updates
in place are also written as classes; each of their methods states its new state as one `Step` or specification
function of its old state, so that the run-level results apply to them, and spells out what that is in its own fields.

## Where the code and the obvious claim differ

The model follows the code. Each point has a lemma that shows it or states exactly when the claim holds.

- A three-octet start code directly behind a non-zero octet can be jumped over (src/stream_encoder.cpp:176-179);
  `FF 00 00 01 65 88` reports nothing. `MissedCode`, `ScanIsLeftmostIff`, `SplitFuses`, `ScanRepaired`.
- The search looks only at positions below `length - 4`, so a three-octet code with fewer than two octets behind it,
  or a four-octet one with none, is not seen, and the last unit stays fused to the one before it
  (src/stream_encoder.cpp:152). `UnseenLastUnit`, `EmptyLastUnit`, `MixedRoundTripIff`.
- Parameter sets that fill the buffer to within three octets leave no room for the next start code, and the first
  unit is glued to the last set (src/frame_extractor.cpp:89). `StreamLawIff`, `GluedStreamLaw`, `RoomCanRunOut`.
- A changed packet size alone does not rebuild the server, because the old configuration is compared with itself
  (src/publisher_plugin.cpp:182). `PacketSizeIgnored`, `PacketSizeFollowsIff`.
- After a failure a changed codec or multicast flag reaches for a server that does not exist
  (src/publisher_plugin.cpp:203); it is a precondition of `UpdateParameters`, and `NullCallHistories` says
  exactly when it threatens. The publisher's failure flag is never cleared. `FailureIsFinal`.
- The levels for lags of one and two seconds are overridden at once by the level for half a second
  (src/subscriber_plugin.cpp:360). `OneReaction`.
- A caller that waits for a leaving graph monitor keeps the lock that the monitor's thread may need
  (src/graph_monitor.cpp:90-91 and :45). `SpinnerEscapesIff`, `DeadlockIsReachable`.

## Model

| member | source | states |
|---|---|---|
| StartCodeScan.Leftmost | src/stream_encoder.cpp:149-199 | independent reference: the first genuine code at or after a position inside the search window, with no code of either length before it |
| StartCodeScan.Scan | src/stream_encoder.cpp:154-197 | whatever the skip-ahead search reports lies at or after the start and is a genuine code of the reported length |
| StartCodeScan.ScanForStartCode | src/stream_encoder.cpp:149-199 | the loop stays in bounds, ends, agrees with `Scan`, reports only genuine codes, and no four-octet code of the window before its result is ever skipped |
| StartCodeScan.NothingElseSkipped | src/stream_encoder.cpp:149-199 | a code passed over is a three-octet one that follows a non-zero octet the search also looked past |
| StartCodeScan.ScanIsLeftmostIff | src/stream_encoder.cpp:168-179 | the search equals the leftmost search if and only if it never comes to stand on a non-zero octet directly before a three-octet code |
| StartCodeScan.ScanIsLeftmostEverywhereIff | src/stream_encoder.cpp:149-199 | data is searched correctly from every starting point if and only if it holds no blind spot |
| StartCodeScan.MissedCode | src/stream_encoder.cpp:168-179 | for `FF 00 00 01 65 88` the search reports nothing although a code stands at position 1 |
| StartCodeScan.ScanRepaired | src/stream_encoder.cpp:149-199 | companion: with the one unsafe jump shortened to a single step the loop is the leftmost search on all data |
| NalSplitter.SplitNALs | src/stream_encoder.cpp:201-216 | earlier output is kept, the units of the packet follow in order with the packet's stamp, and the count is their number |
| NalSplitter.TailPartition | src/stream_encoder.cpp:208-215 | from any reported code on, the packet is the reported codes and emitted units in turn |
| NalSplitter.SplitPartition | src/stream_encoder.cpp:201-216 | from the first reported code on no octet is lost, repeated or moved; nothing comes out exactly when no code is reported; the last unit is never empty |
| RoundTrip.MixedRoundTripIff | src/stream_encoder.cpp:149-216 | triple-free units behind any mixture of three- and four-octet codes come back unchanged if and only if no three-octet code stands behind a zero octet, the last code lies inside the search window, and no three-octet code is jumped over by a search that starts at the unit before it |
| RoundTrip.SplitFuses | src/stream_encoder.cpp:149-216 | what cutting gives for every list of triple-free units and every mixture of codes: a zero octet before a three-octet code goes to the code; exactly the units whose codes are jumped over, and the last one if its code lies outside the window, are fused, code and all, to the unit before them |
| RoundTrip.HitIsLocal | src/stream_encoder.cpp:168-196 | whether a code is jumped over depends on nothing but the unit in front of it and on its being a three-octet one, wherever they stand |
| RoundTrip.UnseenLastUnit | src/stream_encoder.cpp:152-152 | an end-of-stream unit behind a three-octet code comes out fused to the unit before it although nothing is jumped over |
| RoundTrip.RoundTripIff | src/frame_extractor.cpp:37-37 | for every non-empty list of triple-free units behind the extractor's start code, cutting returns exactly that list if and only if the last unit holds an octet |
| RoundTrip.EmptyLastUnit | src/stream_encoder.cpp:152-152 | what comes back instead when the last unit is empty: the final code is swallowed by the unit before it |
| RoundTrip.FusedUnits | src/stream_encoder.cpp:168-179 | a concrete pair of units, the second behind a three-octet code, that comes back as one |
| LeftmostCut.LeftmostRoundTripIff | src/stream_encoder.cpp:149-216 | cut with the repaired search, triple-free units behind any mixture of codes come back unchanged if and only if no three-octet code stands behind a zero octet and the last code lies inside the window |
| Reader.ReadFramable | src/frame_extractor.cpp:37-37 | a reader finds units framed by codes of either length one and all, whatever their lengths, if no three-octet code stands behind a zero octet |
| Reader.ReadIff | src/stream_encoder.cpp:201-216 | triple-free units come back to a reader unchanged if and only if no three-octet code stands behind a zero octet; otherwise that octet is all that is lost |
| Reader.FramedPieces | src/frame_extractor.cpp:85-93 | a reader finds in a frame of fused units, each behind a four-octet code, all the units they consist of |
| Reader.SplitKeepsUnits | src/stream_encoder.cpp:201-216 | for every list of triple-free units: a reader finds in what the splitter emits exactly the units of the packet (nothing of a lone one outside the search window, a zero octet in front of a three-octet code going to the code), and these are the original units exactly in the cases named |
| PtsClock.TicksMeasure | src/stream_encoder.cpp:490-491 | a tick is a whole three-hundredth of a second of elapsed time, counted toward zero for earlier stamps as for later ones |
| PtsClock.MeasureIsUnique | src/stream_encoder.cpp:490-491 | for a list of stamps there is exactly one list of whole three-hundredths, and it is the raw ticks |
| PtsClock.RunIsAdmissible | src/stream_encoder.cpp:490-495 | stamps strictly increase, stay above the previous one and never fall behind the raw ticks |
| PtsClock.RunIsLeast | src/stream_encoder.cpp:490-495 | no other sequence that does so is smaller anywhere |
| PtsClock.PtsOptimal | src/stream_encoder.cpp:447-495 | for any image stamps the emitted values start at 0 and are the pointwise least strictly increasing sequence that never falls behind the whole three-hundredths of a second elapsed since the first stamp |
| PtsClock.PtsUnchangedIff | src/stream_encoder.cpp:492-493 | the correction leaves a run alone if and only if its ticks already strictly increase |
| PtsClock.PtsClosedForm | src/stream_encoder.cpp:490-495 | the k-th value is the maximum over j up to k of the j-th tick plus k - j |
| StreamEncoder.ProducedAppend | src/stream_encoder.cpp:503-515 | the queue's contents grow packet by packet, cut into units for H.264 and H.265 and whole otherwise |
| StreamEncoder.VerdictOrder | src/stream_encoder.cpp:431-523 | which error a call ends with, each of them if and only if the checks before it pass and its own fails |
| StreamEncoder.StreamEncoder.constructor | src/stream_encoder.cpp:228-276 | a new encoder has its configuration, is not initialized and holds no packets |
| StreamEncoder.StreamEncoder.EncodeVideo | src/stream_encoder.cpp:431-524 | order of the error checks, what each leaves behind, which stamps count, and the exact frames queued, also when receiving fails half-way |
| StreamEncoder.StreamEncoder.Stamp | src/stream_encoder.cpp:490-495 | one more value of the stamp sequence is handed out and remembered |
| StreamEncoder.StreamEncoder.Receive | src/stream_encoder.cpp:502-515 | the loop appends exactly the units of all received packets and counts them |
| StreamEncoder.StreamEncoder.SentPtsOptimal | src/stream_encoder.cpp:447-495 | at any moment the values handed to the codec since it was opened are the least admissible ones for the whole three-hundredths of a second elapsed at the images seen |
| StreamEncoder.StreamEncoder.NextPacket | src/stream_encoder.cpp:526-533 | takes the oldest queued frame, or reports that there is none |
| StreamEncoder.Enqueue | src/stream_encoder.cpp:505-514 | one packet's frames go behind the queue and are counted |
| FrameExtractor.DeliverDecides | src/frame_extractor.cpp:85-119 | one delivery in octets: as much of the unit as 131072 octets leave room for, passed on exactly above 48, the start code behind it exactly for H.264 and H.265 where it fits |
| FrameExtractor.Deliver | src/frame_extractor.cpp:100-119 | an emission holds over 48 and at most 131072 octets, the buffer never overflows, and after a delivery at most 52 octets are buffered when nothing was emitted |
| FrameExtractor.Deliveries | src/frame_extractor.cpp:85-119 | the same bounds for every emission of every run |
| FrameExtractor.GroupKeepsAll | src/frame_extractor.cpp:110-116 | gathering units into emissions loses, repeats and reorders nothing |
| FrameExtractor.DeliveriesAreGroups | src/frame_extractor.cpp:85-119 | over any run every emission is a list of framed units and the buffer is framed units and one pending code: the octet machine refines the grouping of units |
| FrameExtractor.StreamLaw | src/frame_extractor.cpp:57-119 | all emissions followed by the buffer are the parameter sets and accepted units, each behind its code, and the pending code |
| FrameExtractor.StreamLawIff | src/frame_extractor.cpp:85-119 | the stream law holds if and only if the parameter sets leave room for one code |
| FrameExtractor.GluedStreamLaw | src/frame_extractor.cpp:89-93 | without that room the first emission is the parameter sets with the first unit glued to the last one; every later unit has its code |
| FrameExtractor.RoomCanRunOut | src/frame_extractor.cpp:67-68 | a single parameter set of 131065 octets is accepted and leaves no room |
| FrameExtractor.PayloadsAreClean | src/frame_extractor.cpp:95-96 | what the buffer accepts of non-empty triple-free units is non-empty and triple-free, also when it is cut short |
| FrameExtractor.EmissionsSplitBack | src/frame_extractor.cpp:85-119 | for clean parameter sets and units, cutting all emissions at their codes gives sets and accepted units back once and in order; the rest is exactly what the buffer holds |
| FrameExtractor.NothingTruncated | src/frame_extractor.cpp:95-116 | nothing is cut short when the first unit fits behind what is buffered and later ones have at most 131020 octets |
| FrameExtractor.RawStreamLaw | src/frame_extractor.cpp:85-119 | for all other codecs the octets pass through untouched |
| FrameExtractor.FrameExtractor.CreateNew | src/frame_extractor.cpp:41-78 | refuses unknown codecs, refuses parameter sets exactly when they overflow the buffer, and otherwise holds them framed in order |
| FrameExtractor.FrameExtractor.Preload | src/frame_extractor.cpp:63-73 | the loop's overflow check fails exactly when all sets together do not fit |
| FrameExtractor.FrameExtractor.Append | src/frame_extractor.cpp:69-72 | one code and one set are written behind the buffered octets, which stay as they are |
| FrameExtractor.FrameExtractor.ContinuePlaying | src/frame_extractor.cpp:85-98 | a code is appended exactly where it fits, and all free space is offered to the source |
| FrameExtractor.FrameExtractor.FillFromSource | src/frame_extractor.cpp:95-96 | the library writes the part of the unit that fits and reports the rest as truncated |
| FrameExtractor.FrameExtractor.DeliverFrame | src/frame_extractor.cpp:100-119 | emits the buffer with its time stamp exactly above 48 octets, keeps it otherwise, and does nothing once the client is gone |
| FrameExtractor.FrameExtractor.OnFrame | src/frame_extractor.cpp:121-126 | delivery and callback together are one step of the run the stream law speaks of |
| FrameInjector.Render | src/frame_injector.cpp:81-93 | a delivery carries the longest prefix that fits; delivered and truncated octets add up to the frame |
| FrameInjector.StepKeepsGood | src/frame_injector.cpp:44-100 | every step keeps "no lost wakeup" and FIFO conservation; after shutdown nothing is taken or accepted |
| FrameInjector.RunKeepsGood | src/frame_injector.cpp:44-100 | so does every interleaving of inject, trigger, request, deliver and shutdown |
| FrameInjector.EveryRunIsGood | src/frame_injector.cpp:44-100 | in every reachable state a waiting consumer with a queued frame has a wakeup pending, and taken followed by queued frames are the accepted ones |
| FrameInjector.NothingAfterShutdown | src/frame_injector.cpp:44-58 | a shutdown at any moment freezes accepted and delivered frames, whatever was under way |
| FrameInjector.WakeupDelivers | src/frame_injector.cpp:60-100 | the pending wakeup, once served, hands over the oldest frame |
| FrameInjector.RequestIsServed | src/frame_injector.cpp:60-95 | in every reachable state a request hands over the oldest queued frame, cut to the size asked for, or leaves the consumer waiting if there is none |
| FrameInjector.RequestAfterShutdownCloses | src/frame_injector.cpp:60-70 | after a shutdown a request closes the consumer's side and delivers nothing |
| FrameInjector.QuiescentMeansDelivered | src/frame_injector.cpp:60-100 | a waiting consumer and an idle event loop imply that everything accepted was delivered |
| FrameInjector.FrameInjector.constructor | src/frame_injector.cpp:31-36 | a new injector is empty and running |
| FrameInjector.FrameInjector.ShutdownSource | src/frame_injector.cpp:44-49 | is the shutdown step |
| FrameInjector.FrameInjector.InjectFrame | src/frame_injector.cpp:51-58 | is the inject step: queued and triggered unless shut down |
| FrameInjector.FrameInjector.DeliverFrame | src/frame_injector.cpp:72-95 | is the deliver step, and what it wrote to the consumer's memory and fields is the recorded delivery |
| FrameInjector.FrameInjector.HandOver | src/frame_injector.cpp:79-94 | the oldest frame leaves the queue and the consumer's memory and fields hold it, cut to the size asked for |
| FrameInjector.FrameInjector.Output | src/frame_injector.cpp:81-93 | the consumer's memory, size, truncation count and presentation time are those of the frame |
| FrameInjector.FrameInjector.DeliverFrameEvent | src/frame_injector.cpp:97-100 | is the trigger step followed by the deliver step |
| FrameInjector.FrameInjector.GetNextFrame | src/frame_injector.cpp:60-70 | a running injector hands over its oldest frame into the memory given, or leaves the consumer waiting on it; after a shutdown the consumer's side is closed |
| StreamServer.StepKeepsGood | src/stream_server.cpp:242-419 | every step keeps the table consistent, each member's accepted frames equal to its share, and members that left shut down and empty |
| StreamServer.RunKeepsGood | src/stream_server.cpp:242-419 | so does every interleaving with the consumers' own steps |
| StreamServer.SendDecides | src/stream_server.cpp:368-375 | in every reachable state a frame goes behind the queue of every entry's injector and raises its trigger, and nothing else changes |
| StreamServer.CreateDecides | src/stream_server.cpp:397-405 | a new source gets an entry exactly if it is registered under a key not in the table |
| StreamServer.EndDecides | src/stream_server.cpp:242-250 | closing ends the stream of the source alone, stopping ends all, the hook also destroys what was made for the source |
| StreamServer.ConsumeDecides | src/frame_injector.cpp:60-100 | the event loop's steps reach the injector they are meant for, and that one alone |
| StreamServer.FanOutExact | src/stream_server.cpp:330-419 | each stream accepts exactly the frames sent between its registration and its close or stop, delivers a prefix of them, and is alive while registered |
| StreamServer.StreamServer.constructor | src/stream_server.cpp:258-269 | a new server has no streams |
| StreamServer.StreamServer.SendFrame | src/stream_server.cpp:368-375 | the loop over the table is the send step: the frame goes behind the queue of every registered injector object, and every other one stays as it is |
| StreamServer.StreamServer.HasActiveStreams | src/stream_server.cpp:362-366 | true exactly when some stream is registered |
| StreamServer.StreamServer.NewStreamSource | src/stream_server.cpp:397-405 | is the registration step; an existing entry is kept and no injector changes |
| StreamServer.StreamServer.CloseStreamSource | src/stream_server.cpp:407-419 | is the close step: the stream's injector takes the shutdown step and leaves, all others stay, and the sink goes with the last stream |
| StreamServer.StreamServer.StopSession | src/stream_server.cpp:330-351 | is the stop step: every registered injector takes the shutdown step; table, URL and sink are cleared and the media session, if any, is deleted |
| StreamServer.StreamServer.Start | src/stream_server.cpp:271-328 | stops first, then the errors in their order; only a multicast session registers a stream; URL, codec, sink, media session and every injector afterwards in each case, also after an error half-way |
| GraphMonitor.ActiveMeans | src/graph_monitor.cpp:62-76 | the set read off the log is exactly the listeners registered at some point and not removed since |
| GraphMonitor.StepKeepsGood | src/graph_monitor.cpp:37-97 | every step of every thread keeps the protocol's invariant |
| GraphMonitor.RunKeepsGood | src/graph_monitor.cpp:37-97 | so does every interleaving |
| GraphMonitor.EveryRunIsSafe | src/graph_monitor.cpp:37-97 | no listener is called after its removal returned until registered again; a monitor told to leave has no listeners; at most one thread lives and it is the shared instance's |
| GraphMonitor.CalledMeans | src/graph_monitor.cpp:46-47 | the set read off the log is exactly the listeners called since the last round began |
| GraphMonitor.ChangeBeginsRound | src/graph_monitor.cpp:43-46 | after a change a thread that gets the lock begins a round with all its listeners to be called |
| GraphMonitor.RoundCallsAll | src/graph_monitor.cpp:45-48 | in every interleaving, when a round ends every listener of the monitor has been called since it began |
| GraphMonitor.InstanceIsRunning | src/graph_monitor.cpp:78-97 | a caller gets a running monitor that holds its listener |
| GraphMonitor.ResetHitsOnlyItself | src/graph_monitor.cpp:50-50 | the leaving thread never clears a successor |
| GraphMonitor.StuckForever | src/graph_monitor.cpp:90-91 | once a caller spins with the lock while the leaving thread waits for it, no step of any thread changes anything again |
| GraphMonitor.SpinnerEscapesIff | src/graph_monitor.cpp:90-91 | a spinning caller can still get its monitor if and only if the leaving thread is not waiting for the lock |
| GraphMonitor.DeadlockIsReachable | src/graph_monitor.cpp:43-45 | five ordinary steps lead there |
| GraphMonitor.SharedMonitor.constructor | src/graph_monitor.cpp:27-28 | at first there is no monitor |
| GraphMonitor.SharedMonitor.Create | src/graph_monitor.cpp:93-96 | makes a running monitor with the caller's listener and releases the lock |
| GraphMonitor.SharedMonitor.GetInstance | src/graph_monitor.cpp:78-97 | is the instance step; a result is the shared, running monitor with the caller's listener, no result means waiting |
| GraphMonitor.SharedMonitor.FinishWait | src/graph_monitor.cpp:90-96 | the wait ends exactly when the leaving thread has cleared the pointer |
| GraphMonitor.SharedMonitor.RemoveListener | src/graph_monitor.cpp:62-76 | is the removal step; only the erasure of the last listener raises the shutdown flag |
| GraphMonitor.SharedMonitor.LoopStep | src/graph_monitor.cpp:37-51 | each atomic section of the event loop, with what it does to the thread, the lock, the shared pointer and the log |
| RtspSession.StepDecides | src/stream_client.cpp:98-370 | every awaited reply, set timer, ended stream with a sink, timeout change and teardown is acted upon, everything else ignored |
| RtspSession.StepKeepsWatch | src/stream_client.cpp:98-370 | every reply, timer, parameter change and teardown keeps the timer invariant |
| RtspSession.RunKeepsWatch | src/stream_client.cpp:98-370 | so does every interleaving |
| RtspSession.AtMostOneTimeoutTask | src/stream_client.cpp:98-370 | in every reachable state of a client the scheduler holds at most one timer, the one the client remembers, and only while the session is active with a positive timeout |
| RtspSession.SetUpDecides | src/stream_client.cpp:251-307 | set-up asks for the first subsession from a position on that can be initiated and has a known codec, gives up with 415 without one, and plays once one is chosen |
| RtspSession.SetUpReplyDecides | src/stream_client.cpp:179-222 | a SETUP reply attaches a sink exactly if status, decoder and extractor are good, reports the subsession on status 0, and set-up goes on behind it |
| RtspSession.WalkRefinesFind | src/stream_client.cpp:251-307 | from any position of the list the callback-driven walk ends as find-first demands |
| RtspSession.SelectionRefinesFindFirst | src/stream_client.cpp:144-307 | for every list: one sink at most, on the first playable subsession; each candidate up to it set up once, in order; PLAY exactly if there is one, else teardown and one failure 415 |
| RtspSession.FirstPlayableExists | src/stream_client.cpp:251-307 | the first playable subsession, or its absence, exists and is unique |
| RtspSession.SumAddsUp | src/stream_client.cpp:347-356 | the count compared is the sum over all subsessions |
| RtspSession.TimeoutAtFirstRepeat | src/stream_client.cpp:339-370 | a timeout is raised exactly at the first tick that finds the previous count, and then the timer stops |
| RtspSession.SilenceIsReported | src/stream_client.cpp:339-370 | a stream silent from some time on is reported within two periods |
| RtspSession.NoFalseAlarm | src/stream_client.cpp:339-370 | no timeout while every interval between ticks brought a packet |
| RtspSession.Live555Client.constructor | src/stream_client.cpp:61-67 | a new client has no session, sink or timer and awaits its DESCRIBE reply |
| RtspSession.Live555Client.SetSessionTimeout | src/stream_client.cpp:98-111 | cancels a pending timer and sets a new one exactly for an active session and a positive timeout |
| RtspSession.Live555Client.TeardownSession | src/stream_client.cpp:113-142 | closes all sinks, sends TEARDOWN for a non-empty session and cancels the timer |
| RtspSession.Live555Client.ContinueAfterDescribe | src/stream_client.cpp:144-177 | failure with the code, 500 or 415 in each case, else set-up from the first subsession |
| RtspSession.Live555Client.ContinueAfterSetup | src/stream_client.cpp:179-222 | attaches a sink exactly when reply, decoder and extractor are good, and goes on in any case |
| RtspSession.Live555Client.ContinueAfterPlay | src/stream_client.cpp:224-249 | active with a timer and reported, or torn down and failed |
| RtspSession.Live555Client.SetupNextSubsession | src/stream_client.cpp:251-307 | skips what cannot be used, asks for the first candidate, ends in PLAY or failure 415 |
| RtspSession.Live555Client.SubsessionAfterPlaying | src/stream_client.cpp:309-337 | the session finishes exactly when its last sink has ended |
| RtspSession.Live555Client.CheckTimeout | src/stream_client.cpp:339-370 | sums the counts of all subsessions and continues or raises the timeout |
| FrameLag.OneReaction | src/subscriber_plugin.cpp:341-374 | at most one warning for a frame, exactly when a threshold is newly reached; the level is never stricter than intra; the remembered lag never falls except to 0 |
| FrameLag.LateFramesWarn | src/subscriber_plugin.cpp:341-374 | in the frames' stamps: a queue spanning two seconds, one second or half a second warns about the longest of these spans when the remembered lag is shorter, and the decoder gets all frames exactly below half a second |
| FrameLag.WarningsEscalate | src/subscriber_plugin.cpp:341-374 | between resets warnings name ever higher thresholds |
| FrameLag.AtMostThree | src/subscriber_plugin.cpp:341-374 | between resets there are at most as many warnings as thresholds above the remembered lag |
| FrameLag.DrainFeedsInOrder | src/subscriber_plugin.cpp:339-382 | every frame is decoded once and in order, only an error leaves frames behind, and a complete drain ends with no lag and full decoding |
| FrameLag.FirstErrorEnds | src/subscriber_plugin.cpp:375-397 | the drain ends with the decoder's first error and not before |
| FrameLag.DrainReactsToLags | src/subscriber_plugin.cpp:339-382 | the drain reacts exactly to the lags of the queue it drains |
| FrameLag.SignsShowWarnings | src/subscriber_plugin.cpp:341-374 | the log the run laws speak of shows exactly the drain's warnings |
| FrameLag.DrainIsTakes | src/subscriber_plugin.cpp:339-382 | an uninterrupted drain is as many turns of the loop as frames it decodes |
| FrameLag.StepKeepsOrder | src/subscriber_plugin.cpp:194-489 | every push, turn of the drain loop, clearing and restart keeps the order of warnings |
| FrameLag.WarningsOverRuns | src/subscriber_plugin.cpp:194-489 | over any run of them a warning about no higher threshold comes only after a reset of the remembered lag, and no stretch without a reset holds more than three warnings |
| SubscriberPlugin.StepKeepsBackoff | src/subscriber_plugin.cpp:190-459 | every callback keeps delay and history on the back-off curve |
| SubscriberPlugin.StepKeepsTimer | src/subscriber_plugin.cpp:142-459 | every callback keeps "pending timer means disconnected" |
| SubscriberPlugin.StepKeepsRetry | src/stream_client.cpp:436-464 | every callback keeps the retry one-shot |
| SubscriberPlugin.RunKeepsAll | src/subscriber_plugin.cpp:190-459 | so does every run |
| SubscriberPlugin.SingleFlight | src/subscriber_plugin.cpp:434-459 | in every reachable state a pending timer implies a disconnected client, and no connect was ever refused |
| SubscriberPlugin.TimerReconnects | src/subscriber_plugin.cpp:454-459 | in every reachable state a pending reconnection timer connects the client again and keeps retry, delays and back-off |
| SubscriberPlugin.BackoffLaw | src/subscriber_plugin.cpp:434-452 | the k-th delay since the last session start, URL or parameter update is min(minwait * 2^k, maxwait), and the delay stays between the two |
| SubscriberPlugin.RetryIsOneShot | src/stream_client.cpp:436-464 | between two swallowed failures there is always a session start or a new URL |
| SubscriberPlugin.FailureIsSwallowedIff | src/stream_client.cpp:436-451 | after any run a failure is swallowed if and only if it is a 454 and none has been swallowed since the last session start or new URL; any other is forwarded and, by policy, answered with a timer of the back-off law's delay |
| SubscriberPlugin.SubscriberPlugin.constructor | src/subscriber_plugin.cpp:135-140 | defaults, no client, no timer; the delay is not set yet |
| SubscriberPlugin.SubscriberPlugin.ConnectClient | src/stream_client.cpp:413-422 | connects, or is refused when connected already |
| SubscriberPlugin.SubscriberPlugin.DisconnectClient | src/stream_client.cpp:424-434 | disconnects and keeps the retry flag |
| SubscriberPlugin.SubscriberPlugin.StartReconnect | src/subscriber_plugin.cpp:434-452 | disconnects, empties the queue, sets one timer with the current delay and doubles the delay up to the maximum |
| SubscriberPlugin.SubscriberPlugin.Renew | src/subscriber_plugin.cpp:193-202 | a URL message resets failure, lag, delay and timer and makes a fresh client |
| SubscriberPlugin.SubscriberPlugin.Fail | src/subscriber_plugin.cpp:216-225 | an exception of a callback's own fails the plugin, clears the queue and reconnects by policy |
| SubscriberPlugin.SubscriberPlugin.InternalCallback | src/subscriber_plugin.cpp:190-226 | is the URL step and a restart of the lag watch; if connecting fails the queue is cleared too |
| SubscriberPlugin.SubscriberPlugin.UpdateParameters | src/subscriber_plugin.cpp:280-329 | is the parameter step; the decoder is there if it was or has been rebuilt, and the queue is cleared exactly when rebuilding fails |
| SubscriberPlugin.SubscriberPlugin.OnSessionStarted | src/subscriber_plugin.cpp:400-404 | retry and delay reset, timer dropped |
| SubscriberPlugin.SubscriberPlugin.OnSubsessionStarted | src/subscriber_plugin.cpp:228-235 | is a restart of the lag watch even if the decoder cannot be built |
| SubscriberPlugin.SubscriberPlugin.OnSessionFailed | src/subscriber_plugin.cpp:415-423 | is the failure step, including the client's retry; the queue is cleared exactly when a reconnection follows |
| SubscriberPlugin.SubscriberPlugin.OnSessionTimeout | src/subscriber_plugin.cpp:406-413 | reconnects from policy 1 on |
| SubscriberPlugin.SubscriberPlugin.OnSessionFinished | src/subscriber_plugin.cpp:425-432 | reconnects only under policy 3 |
| SubscriberPlugin.SubscriberPlugin.CooldownTimerCallback | src/subscriber_plugin.cpp:454-459 | the timer is gone, the queue empty and the client connected |
| SubscriberPlugin.SubscriberPlugin.Stop | src/subscriber_plugin.cpp:142-151 | no timer, no connection, no decoder, no frames |
| SubscriberPlugin.SubscriberPlugin.PushFrame | src/subscriber_plugin.cpp:461-465 | is the push step of the lag watch |
| SubscriberPlugin.SubscriberPlugin.AdjustLevel | src/subscriber_plugin.cpp:341-374 | the branches as coded are the reaction the lag lemmas speak of |
| SubscriberPlugin.SubscriberPlugin.DrainQueue | src/subscriber_plugin.cpp:339-382 | the loop is the drain step of the lag watch, with its warnings and the frames decoded |
| SubscriberPlugin.SubscriberPlugin.ProcessFrame | src/subscriber_plugin.cpp:331-398 | does nothing when failed or without decoder; decoding errors keep the rest of the queue, other errors fail the plugin and reconnect by policy |
| WatchedSubscriber.StepKeepsGood | src/subscriber_plugin.cpp:190-459 | every message, parameter change, reply, tick, failure and timer keeps plugin and session linked |
| WatchedSubscriber.OneTimerAtMost | src/stream_client.cpp:413-502 | in every reachable state a session exists exactly while the plugin is connected and has the configured timeout; a pending reconnection and a session never coexist, so at most one of reconnection timer and watchdog timer is set |
| WatchedSubscriber.TicksEndInReconnection | src/stream_client.cpp:339-370 | ticks of the watchdog change nothing for the plugin until the first that finds no new packet, which closes the session and starts the reconnection |
| WatchedSubscriber.SilenceIsAnswered | src/subscriber_plugin.cpp:406-459 | from any reachable state under watch and policy 1 or above, a stream silent from some time on has its session closed within two timeouts and one reconnection timer pending with the back-off law's delay, which brings a new session awaiting its description with the configured timeout |
| WatchedSubscriber.SteadyStreamIsLeftAlone | src/stream_client.cpp:339-370 | a stream with packets in every interval keeps its session, and the plugin notices nothing |
| WatchedSubscriber.UrlBringsSession | src/subscriber_plugin.cpp:190-215 | a URL brings a new session, whatever was there before |
| WatchedSubscriber.ParametersRearm | src/subscriber_plugin.cpp:302-311 | new parameters arm the watch of an active session anew, or stop it |
| WatchedSubscriber.ShutDownEndsAll | src/subscriber_plugin.cpp:142-151 | the end of the subscription leaves neither session nor reconnection timer |
| WatchedSubscriber.FailedDescribeIsAnswered | src/stream_client.cpp:154-158 | a failed DESCRIBE is answered by a new session for a first 454, else by policy with a reconnection timer |
| WatchedSubscriber.StartIsHeard | src/stream_client.cpp:233-242 | a successful PLAY starts the watch and resets retry, back-off and timer |
| WatchedSubscriber.EndIsHeard | src/stream_client.cpp:309-337 | the end of the only stream ends the session, and under policy 3 a reconnection timer follows |
| WatchedSubscriber.WatchIsReachable | src/stream_client.cpp:224-249 | a URL and three good replies lead to a session under watch |
| PublisherPlugin.UpdateDecides | src/publisher_plugin.cpp:180-217 | in the configurations' own terms: when an update makes a server, starts a session, drops the encoder or gives up, and everything it leaves behind |
| PublisherPlugin.PublishDecides | src/publisher_plugin.cpp:220-281 | what a publication announces, sends, drops and fails on, in every case |
| PublisherPlugin.GraphChangeDecides | src/publisher_plugin.cpp:283-291 | in every reachable state the encoder is gone exactly if it was or nobody subscribes, and nothing else changes |
| PublisherPlugin.StepKeepsCoherent | src/publisher_plugin.cpp:70-291 | every operation keeps server, encoder, URL and configuration in agreement, and after a failure nothing is sent |
| PublisherPlugin.AlwaysCoherent | src/publisher_plugin.cpp:70-291 | so does every run |
| PublisherPlugin.CoherenceLaw | src/publisher_plugin.cpp:150-291 | in every reachable state an encoder has a server, codec, bitrate, frame rate, hardware flag and port are the configured ones, the size hint is the server's size minus 24, and the last announced URL is the server's or an update is pending |
| PublisherPlugin.UrlLaw | src/publisher_plugin.cpp:198-232 | over any run the server's URL is the address of the session started last, and every URL ever announced was the address of the session started last when it was announced |
| PublisherPlugin.FailureIsFinal | src/publisher_plugin.cpp:225-280 | after a failure nothing is sent or announced whatever follows |
| PublisherPlugin.StepSends | src/publisher_plugin.cpp:225-273 | an operation adds to the frames sent exactly what the encoder produced in it, and only a publication that reaches the encoder without failing adds any |
| PublisherPlugin.FailedIff | src/publisher_plugin.cpp:210-280 | the failure flag is up if and only if some update or publication of the history failed |
| PublisherPlugin.ServerIff | src/publisher_plugin.cpp:70-218 | there is a server if and only if some update built one and no failed update or shutdown has lost it since; its packet size is that update's |
| PublisherPlugin.PacketSizeFollowsIff | src/publisher_plugin.cpp:181-199 | in every reachable state the server's packet size is that of the update that built it, hence the configured one if and only if the configuration asks for the same size |
| PublisherPlugin.PacketSizeIgnored | src/publisher_plugin.cpp:182-182 | a concrete change of the packet size that leaves the server as it was |
| PublisherPlugin.NullCallHistories | src/publisher_plugin.cpp:200-204 | an update reaches for a missing server if and only if an update or publication of the history failed, no built server is left, the port is unchanged and the session parameters change |
| PublisherPlugin.NullCallIsReachable | src/publisher_plugin.cpp:200-204 | two such histories: a failed update; a failed publication followed by a shutdown |
| PublisherPlugin.PublisherPlugin.constructor | src/publisher_plugin.cpp:63-68 | defaults, no server, no encoder |
| PublisherPlugin.PublisherPlugin.ChangeLevel | src/publisher_plugin.cpp:180-189 | the summed level tells server, session and codec changes apart |
| PublisherPlugin.PublisherPlugin.GiveUp | src/publisher_plugin.cpp:210-217 | a failed update leaves neither server nor encoder |
| PublisherPlugin.PublisherPlugin.ExpectedMeans | src/stream_encoder.cpp:431-523 | the frames expected of an image are the units of its packets with its stamp, exactly if no step of encoding fails |
| PublisherPlugin.PublisherPlugin.UpdateParameters | src/publisher_plugin.cpp:150-218 | is the update step and keeps coherence in every case |
| PublisherPlugin.PublisherPlugin.PublishImage | src/publisher_plugin.cpp:220-281 | is the publish step for the frames the encoder really produces, and leaves the encoder's queue empty |
| PublisherPlugin.PublisherPlugin.StopEncoding | src/publisher_plugin.cpp:234-255 | an encoder without streams is dropped and the URL announced once more |
| PublisherPlugin.PublisherPlugin.Encode | src/publisher_plugin.cpp:256-280 | a missing encoder is built from the configuration; an error drops it and fails the publisher |
| PublisherPlugin.PublisherPlugin.EncodeAndSend | src/publisher_plugin.cpp:269-273 | every frame produced for the image is sent once and in order, none when encoding fails |
| PublisherPlugin.PublisherPlugin.SendQueued | src/publisher_plugin.cpp:271-272 | the loop sends the queue in order and empties it |
| PublisherPlugin.PublisherPlugin.OnGraphChange | src/publisher_plugin.cpp:283-291 | drops the encoder exactly when nobody subscribes |
| PublisherPlugin.PublisherPlugin.Stop | src/publisher_plugin.cpp:70-78 | neither server nor encoder remains |
| Pipeline.PacketsBecomeUnitsIff | src/stream_encoder.cpp:503-508 | for packets of triple-free units behind any mixture of codes the encoder queues exactly their units if and only if every packet meets the conditions of `MixedRoundTripIff`, and never more frames than units |
| Pipeline.LongCodesAreReadable | src/stream_encoder.cpp:503-508 | packets whose codes behind the first have four octets and whose last code lies inside the window always meet them |
| Pipeline.ProducedKeepsUnits | src/stream_encoder.cpp:503-508 | whether the splitter cuts rightly or not, a reader finds in what the encoder queues exactly the units there are to find in the packets; these are all of them if and only if no three-octet code stands behind a zero octet and no packet is a lone unit outside the search window |
| Pipeline.SentIsProduced | src/publisher_plugin.cpp:256-273 | over any run of the publisher the frames sent are those the encoder makes of the packets of the images sent, in order |
| Pipeline.StretchOf | src/stream_server.cpp:368-375 | what a registered stream delivered is an unbroken stretch of what was sent, beginning where it joined |
| Pipeline.StampSurvives | src/frame_injector.cpp:90-92 | for every time of a 32-bit seconds clock, the stamp rebuilt at src/frame_extractor.cpp:111 is the frame's, cut to microseconds, if the presentation time is handed over unchanged |
| Pipeline.EndToEnd | src/frame_extractor.cpp:54-119 | in every interleaving, for packets the splitter cuts rightly into non-empty units, the frames a receiver emits, cut by the splitter, and what its buffer holds are its parameter sets and an unbroken stretch of the codec's units from the moment it joined, if of the frames delivered the first fits behind the parameter sets and later ones have at most 131020 octets |
| Pipeline.EndToEndForReaders | src/frame_extractor.cpp:54-119 | the same for a reader and every list of packets of triple-free units, whether the splitter cuts rightly or not: parameter sets and an unbroken stretch of the units there are to find |
| Pipeline.ImagesToReaders | src/publisher_plugin.cpp:256-273 | the same from the images on: for any run of the publisher, any interleaving at the server and any stream, a reader finds the parameter sets and an unbroken stretch of the units of the images sent |

## Left out

- FFmpeg (opening codecs, pixel conversion, hardware contexts, the decoder's frames): its answers are the parameters `CodecReply` and `DecodeOutcome`.
- Live555 (sockets, SDP, RTP, RTCP, its scheduler): its callbacks are actions; `getNextFrame` clears the truncation count and `afterGetting` ends the wait, the next request being a later step.
- Pipeline.EndToEnd: the transport is taken to carry NAL units whole and in order, and the consumer to leave room for each; the library's framers and RTP are not part of this model.
- Pipeline.StampSurvives: RTP carries a clock of its own between the two conversions, which is not part of this model.
- RoundTrip.MixedRoundTripIff: a packet of fewer than four octets (a lone empty unit) counts as one in which nothing is found, while the code's `length - 4` wraps around there.
- Parameter declaration, codec names, logging, multicast addresses, sockets for the host override, the two executables and the codec tables: plumbing and finite lookups.
- StartCodeScan.ScanForStartCode: packets shorter than four octets are excluded, because the unsigned `length - 4` wraps around there; sizes are otherwise unbounded integers.
- StreamEncoder.StreamEncoder.constructor: the choice among the codec library's encoders is not modelled; whether one can be made is the parameter `encoderOk` of the publisher.
- StreamEncoder.StreamEncoder.Stamp: elapsed time is exact in whole nanoseconds, so the rounding of the floating-point product `300 * seconds` is not captured.
- FrameExtractor.FrameExtractor.DeliverFrame: presentation times are unbounded integers; that rclcpp refuses negative seconds is not modelled.
- StreamServer.StreamServer.constructor: that no RTSP server may be available is the parameter `createOk` of the publisher.
- StreamServer.StreamServer.SendFrame: states each injector object's whole step, while the server's own invariant follows objects only in accepted frames and shutdown flag, since the event loop changes the rest on its own; those steps are in the value model and the injector class.
- StreamServer.StreamServer.CloseStreamSource: a source is destroyed only through the session hook, which is an action of the value model.
- StreamServer.StreamServer.Start: sink and media session are flags; sockets, addresses and RTCP are not modelled.
- StreamServer.StreamServer.StopSession: deleting the library's session is counted; what the library does then arrives as hook actions.
- GraphMonitor.SharedMonitor.LoopStep: monitors are values, so object lifetime is not captured; nor are `addListener`, which nothing calls, and liveness beyond the exact stuck condition.
- RtspSession.Live555Client.ContinueAfterSetup: replies that arrive after a teardown are dropped, since the library withdraws them or the source would touch freed objects; subsessions are values of a list.
- RtspSession.Live555Client.CheckTimeout: runs whose owning stream client is gone are not modelled; neither are they in the other callbacks.
- SubscriberPlugin.SubscriberPlugin.InternalCallback: the stream client is a value with two flags.
- SubscriberPlugin.SubscriberPlugin.DrainQueue: runs without interruption; frames that arrive between its turns are covered by the `Take` steps of `FrameLag`, and the images the decoder returns are not modelled.
- SubscriberPlugin.SubscriberPlugin.ProcessFrame: nor are the images handed to the callback.
- SubscriberPlugin.SubscriberPlugin.UpdateParameters: the session timeout it passes on to the client is stated in `WatchedSubscriber` (`Reminded`, `OneTimerAtMost`).
- PublisherPlugin.PublisherPlugin.UpdateParameters: the server is its codec, port, packet size and URL, and the update that would reach for a missing server is excluded by a precondition.
- PublisherPlugin.PublisherPlugin.PublishImage: whether streams are active and whether a message can be published are parameters.
- Data races below the granularity of a lock section or a callback.
