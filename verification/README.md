# Verified model of PaintingCPS

PaintingCPS streams images from clients to a matching server over the MobilityFirst network. This project models
the parts of it where something can go wrong between components, and proves what they guarantee together.

* **Message distributor** (`Codec`, `Endpoints`, `MsgDistributor`, `JavaDistributor`, `Multiplexer`, `Guarantees`,
  `EarlyDrops`, `EndlessRuns`, `Handshake`, `Delivery`, `Wire`, `WirePipes`). Two endpoints run many numbered sockets
  over one channel in each direction. `Endpoints` has the effect of every atomic step on one endpoint; the two classes
  carry out these steps on their fields, with the loops and buffers of the source; `Multiplexer` composes two
  endpoints, their channels and any number of threads into a transition system; `Guarantees` proves what holds over
  all runs; `Handshake` and `Delivery` prove what happens eventually, in connect and on open sockets; and `Wire`
  replaces the frames in the channels by the bytes that the senders' code builds and the receivers' code decodes, C++
  or Java, and shows that every such run is the run of `Multiplexer` with the same steps; `WirePipes` says what that
  means for the payloads that the programs send and receive.
* **Image session** (`Session`, `Transfer`, `EndToEnd`). The two block senders, the receive loop of the server, the
  exact condition under which they stay in step, the threads that share a socket under `sendLock`, and the session
  on top of the multiplexer.
* **Job pipeline** (`Pipeline`, `Metrics`). Users' transmit and result threads, the global matching permits and the
  load counters.
* **Matcher** (`ImgMatch`). The descriptor counts and the vote, on the results of the nearest-neighbour search.
* **Other formats** (`TcpReceive`, `Packager`). The TCP receive loop and the single-message image format.

`Bytes` has the decimal numerals and the library scanners that all hand-written formats use.

## What the model takes as given

* A channel delivers every message once and in order; the code has no sequence numbers and relies on that.
* One `mfsend` is one append. `listen` is one step, and so is `recv` from the moment its semaphore lets it through
  (status check and pop). `connect` is three steps (send; wake and pop; register) and `accept` is three (wake; choose
  the id and reply, under `id_lock`; register), so that frames can arrive between a reply and a registration.
* A semaphore outlives its map entry, because a blocked receiver keeps the pointer; hence semaphores are numbered.
* `recv` copies the first min(length, size) bytes. The C++ code copies `size` bytes and says in a comment that this
  is to be fixed; the Java code clips.
* A precondition on a decoded message (`DecodeCpp(...) != Undefined`) excludes only messages on which the C++ code
  follows a null pointer, leaves its buffer or overflows an int, or the Java code throws. No message that the system
  itself builds is of that kind (`Wire.EveryWireRunRefines`). Ids are below 10^9, which is exactly as far as the
  divisor loops stay within 32 bits (`Bytes.NineDigits`).
* The buffers of control frames and the receive buffer start with arbitrary contents.

## What was found

* The reply of `accept` can overtake its registration: a message is lost exactly while the id has been sent and not
  registered (`AcceptorDropsEarlyIff`, `ConnectorDropsEarlyIff`), and two runs of the model of accept as it stands
  lose one (`SplitAcceptLosesFrame`, `SpeakingFirstLosesFrame`). If `accept` replied and registered in one step, and
  the accepting program spoke only where it has been spoken to, as `serverThread` does, nothing would be lost.
* A Java endpoint can only connect: it does not recognise `create`, and throws on Java's own `accepted` and `close`
  (`JavaCannotReadItself`).
* The Java sender and the server agree exactly on sizes that are 0 or not a multiple of 4096; the C++ sender and
  the server exactly on non-empty images (`SessionRoundTripIff`).
* The descriptor loop tests an assignment, so a skipped image number rewrites the table (`UnchangedIffNoneSkipped`).
  The shipped table skips number 18, so its counts are not those of the table (`CountsAreTrueIff`). The table is
  stored before the loop and the counts after it, so they may not even fit: an image at the end of the table can
  have no count, exactly when too few entries follow a gap to make up for it (`StoredTableInRangeIff`).
* close posts once, so with more receivers blocked on a socket than it has queued messages and one, some never
  wake (`AllWaitersWakeIff`, `SecondReceiverNeverWakes`). The programs have one receiver at
  a time for each socket.

## Model

| member | source | states |
|---|---|---|
| Bytes.NineDigits | server/MsgDistributor.cpp:127-132 | the divisor loop's final divisor fits 32 bits exactly for numbers of at most nine digits |
| Bytes.DigitsLength | server/MsgDistributor.cpp:305-310 | comparing with powers of ten is comparing printed lengths |
| Bytes.DigitsValue | server/MsgDistributor.cpp:313 | the digits printed for a number stand for it, with no leading zero |
| Bytes.StrtolReads | server/MsgDistributor.cpp:116-154 | strtol on any text: blanks, a sign or none, the value of the digits, whatever follows |
| Bytes.StrtokIff | server/MsgDistributor.cpp:107-153 | strtok finds a token exactly when it is the next one: delimiters before it, none inside, one or a NUL behind it |
| Bytes.ParseUnsigned | jclient/MsgDistributor.java:108-139 | parseInt on any text without a sign: the value, or an exception for anything but digits |
| Bytes.ParseSigned | jclient/MsgDistributor.java:108-139 | the same behind a sign, with at least one digit |
| Codec.IdLength | server/MsgDistributor.cpp:305-310 | the divisor loop terminates with the printed length of the id, within 32 bits, also for negative ids |
| Codec.BuildSock | server/MsgDistributor.cpp:305-318 | the buffer that send fills is "sock,", the digits of the id, a comma and the payload |
| Codec.BuildSockJava | jclient/MsgDistributor.java:274-294 | Java's copy loops build the same bytes |
| Codec.CreateSpelled | server/MsgDistributor.cpp:177-180 | the create frames of both sides byte by byte |
| Codec.CppFramesSpelled | server/MsgDistributor.cpp:254-259 | the accepted and close frames of C++ byte by byte, with what the buffer held behind them |
| Codec.JavaFramesSpelled | jclient/MsgDistributor.java:227-236 | those of Java, with zeros behind them |
| Codec.ReadFrame | server/MsgDistributor.cpp:107-157 | listen's in-place tokenising computes the decoding function, malformed lengths and long ids included |
| Codec.FirstTokenDecides | server/MsgDistributor.cpp:107-157 | on any message with a first token: create exactly for that word, unknown exactly for none of the four |
| Codec.SecondTokenIsId | server/MsgDistributor.cpp:113-156 | on any message with two tokens: the second is the id, and a payload lies where the printed length of the id puts it |
| Codec.TokensMissing | server/MsgDistributor.cpp:107-154 | without a token nothing is decoded |
| Codec.ReadFrameJava | jclient/MsgDistributor.java:100-146 | Java's splitting, parsing and copying compute its decoding function |
| Codec.JavaDecodes | jclient/MsgDistributor.java:100-146 | on any message with a comma: the text before it decides, the text up to the next one is the id, and the payload lies where its length puts it |
| Codec.JavaDecodesWord | jclient/MsgDistributor.java:100-146 | on any message without a comma only create is understood |
| Codec.CopyContent | jclient/MsgDistributor.java:127-131 | the copy loop takes exactly the payload behind the id |
| Codec.CppSockRoundTrip | server/MsgDistributor.cpp:120-136 | listen recovers id and payload from every data frame, with any payload bytes and any bytes behind the message |
| Codec.CppControlRoundTrip | server/MsgDistributor.cpp:114-156 | accepted and close frames, with or without closing comma and whatever pads them, decode to their id |
| Codec.CppCreateRoundTrip | server/MsgDistributor.cpp:109-112 | a create frame with any padding is recognised |
| Codec.JavaAgreesOnSock | jclient/MsgDistributor.java:112-137 | split and parseInt recover from a data frame what strtok and strtol do |
| Codec.JavaAgreesOnControl | jclient/MsgDistributor.java:107-141 | the same for accepted and close frames of the C++ side |
| Codec.CppReadsJava | jclient/MsgDistributor.java:164-169 | Java's create, accepted and close frames mean the same to C++ |
| Codec.JavaCannotReadItself | jclient/MsgDistributor.java:100-146 | Java takes no create for one and throws on its own accepted and close frames |
| Endpoints.NextFree | server/MsgDistributor.cpp:247-251 | the skip loop terminates with the first number that is not live |
| Endpoints.RegisterConsistent | server/MsgDistributor.cpp:210-223 | registration keeps the maps in agreement, opens an empty mailbox, and touches no other socket |
| Endpoints.OnFrameConsistent | server/MsgDistributor.cpp:109-157 | every frame keeps the maps in agreement and semaphores equal to queue lengths, and touches only its own socket |
| Endpoints.LateFrameIgnored | server/MsgDistributor.cpp:138-142 | a data or close frame changes nothing exactly when its id is not live |
| Endpoints.CloseSocketConsistent | server/MsgDistributor.cpp:389-408 | close posts once more than there are queued messages, is idempotent, and touches no other socket |
| Endpoints.WakeConsistent | server/MsgDistributor.cpp:352-373 | a woken receiver never pops an empty queue, pops exactly when the socket is live, and otherwise erases only a closed status |
| Endpoints.TakeConnectionConsistent | server/MsgDistributor.cpp:197-206 | a woken connect never pops an empty queue |
| Distributor.MsgDistributor.constructor | server/MsgDistributor.cpp:42-83 | a new distributor has no sockets, no permits and nothing sent |
| Distributor.MsgDistributor.Listen | server/MsgDistributor.cpp:86-165 | the new state is that of the decoded frame; unknown messages and data for dead sockets answer -1 |
| Distributor.MsgDistributor.Store | server/MsgDistributor.cpp:138-149 | a data frame is queued at its socket and posted, or refused |
| Distributor.MsgDistributor.ConnectRequest | server/MsgDistributor.cpp:178-192 | connect sends one create frame |
| Distributor.MsgDistributor.ConnectWake | server/MsgDistributor.cpp:197-206 | connect takes the oldest accepted id and one permit |
| Distributor.MsgDistributor.RegisterConnection | server/MsgDistributor.cpp:209-223 | the id gets a new semaphore, an empty queue and status 1 |
| Distributor.MsgDistributor.AcceptReply | server/MsgDistributor.cpp:245-269 | accept issues the least number above the counter that is not live, and replies with it |
| Distributor.MsgDistributor.Send | server/MsgDistributor.cpp:290-331 | send appends the frame of a live socket and returns its length, and refuses a dead one |
| Distributor.MsgDistributor.RecvBegin | server/MsgDistributor.cpp:335-352 | exactly a socket with status 1 has a semaphore to wait on, its own, with a permit for each queued message |
| Distributor.MsgDistributor.RecvWake | server/MsgDistributor.cpp:352-379 | the first min(length, size) bytes of the oldest message go into the buffer, byte by byte, and its rest stays; or -1 and no bytes after a close |
| Distributor.MsgDistributor.CloseLocal | server/MsgDistributor.cpp:382-408 | the socket leaves the maps with status 0 and one extra post; a dead socket answers -1 |
| Distributor.MsgDistributor.Close | server/MsgDistributor.cpp:382-429 | an active close of a live socket also sends one close frame, a passive or repeated one none |
| JavaSide.JavaDistributor.Listen | jclient/MsgDistributor.java:83-154 | as in C++, with Java's decoder; a data frame for a dead socket is refused before its length matters |
| JavaSide.JavaDistributor.Store | jclient/MsgDistributor.java:114-136 | a payload is queued at its live socket and posted, or refused |
| JavaSide.JavaDistributor.CopyOut | jclient/MsgDistributor.java:341-344 | the first min(length, size) bytes go into the buffer, whose rest stays |
| JavaSide.JavaDistributor.RecvWake | jclient/MsgDistributor.java:312-351 | the same bytes go into the buffer; the answer is -1 only on the first wake after a close |
| JavaSide.JavaDistributor.Close | jclient/MsgDistributor.java:353-404 | as in C++, with Java's close frame |
| JavaSide.JavaCloseInjective | jclient/MsgDistributor.java:379-384 | different ids have different close frames |
| JavaSide.JavaDistributor.End | jclient/MsgDistributor.java:407-416 | no socket is left live and the peer has been sent exactly one close frame for each that was, and nothing else |
| JavaSide.EachToldOnce | jclient/MsgDistributor.java:407-416 | these frames are as many as the ids, each id has its own, and each frame an id |
| JavaSide.FramesDiffer | jclient/MsgDistributor.java:407-416 | no two of those frames are the same |
| Multiplexer.DeliverInv | server/MsgDistributor.cpp:311-318 | sending extends one pipe at its end and keeps every pipe intact |
| Multiplexer.ListenInv | server/MsgDistributor.cpp:86-165 | listening moves the oldest frame of a channel to where it belongs in its pipe |
| Multiplexer.CloseInv | server/MsgDistributor.cpp:389-408 | close discards one mailbox and keeps every pipe intact |
| Multiplexer.RegisterInv | server/MsgDistributor.cpp:269-284 | registering an id for the first time keeps every pipe intact |
| Multiplexer.WakeInv | server/MsgDistributor.cpp:352-378 | receiving moves the oldest queued message to those received |
| Multiplexer.ConnectRegisterInv | server/MsgDistributor.cpp:209-225 | the id that connect returns was never returned by connect before |
| Multiplexer.AcceptReplyInv | server/MsgDistributor.cpp:245-267 | the new id is above all issued before and joins the ids on their way to a connect |
| Multiplexer.StepInv | server/MsgDistributor.cpp:86-429 | every step of every thread keeps pipes, mailboxes, ids and handshake tokens in order |
| Guarantees.Run | server/MsgDistributor.cpp:86-429 | every run keeps the invariant |
| Guarantees.FifoPipes | server/MsgDistributor.cpp:120-150 | for every id and direction, in every reachable state: sent = dropped early + received + queued or discarded + in flight |
| Guarantees.Mailboxes | server/MsgDistributor.cpp:349-373 | in every reachable state live ids, queues and statuses agree and a receiver can pass exactly when a message is there |
| Guarantees.CloseWakesReceiver | server/MsgDistributor.cpp:399-407 | a close by either side lets a blocked receiver through, which then gets no message |
| Guarantees.WaitersAfterClose | server/MsgDistributor.cpp:349-407 | in any run after a close, at most one receiver more gets through than messages were discarded, none with a message, and one can go on exactly while fewer have |
| Guarantees.AllWaitersWakeIff | server/MsgDistributor.cpp:349-407 | n blocked receivers can all get through after a close if and only if n is at most the queue length and one |
| Guarantees.Rendezvous | server/MsgDistributor.cpp:168-287 | waiting connects equal creates, permits, woken accepts and ids under way; connect returns the ids of accept, in order, each once |
| Guarantees.FreshIds | server/MsgDistributor.cpp:245-251 | an id that accept issues is not live and was never issued before |
| Guarantees.LateFramesAreHarmless | server/MsgDistributor.cpp:138-142 | a closed id stays closed through any run and late frames for it change nothing |
| Guarantees.AcceptorDropsEarlyIff | server/MsgDistributor.cpp:256-284 | a frame is lost before registration at the acceptor exactly while accept has replied with its id and not registered it |
| Guarantees.ConnectorDropsEarlyIff | server/MsgDistributor.cpp:113-119 | the same at the connector, exactly while the id is on its way to a connect |
| Guarantees.DisciplinedPipesLoseNothing | server/server-OpenCV.cpp:789-792 | with an atomic reply and a server that speaks second, what is received is a prefix of what is sent, in both directions |
| EarlyDrops.SplitAcceptLosesFrame | server/MsgDistributor.cpp:259-280 | a reachable state in which the acceptor has lost the first message of a socket |
| EarlyDrops.SpeakingFirstLosesFrame | server/MsgDistributor.cpp:197-219 | a reachable state in which the connector has lost the first message of a socket |
| EarlyDrops.SecondReceiverNeverWakes | server/MsgDistributor.cpp:349-407 | a reachable state in which a close leaves one of two blocked receivers waiting in every further run |
| HandshakeProgress.NextStep | server/MsgDistributor.cpp:179-223 | while a connect is under way some handshake step is enabled |
| HandshakeProgress.HandshakeDescends | server/MsgDistributor.cpp:168-287 | every handshake step lowers the rank |
| HandshakeProgress.HandshakeAloneIsBounded | server/MsgDistributor.cpp:168-287 | with no other steps in between, handshakes end within rank steps, and then every call of connect has returned an id |
| HandshakeProgress.NoStepSetsBack | server/MsgDistributor.cpp:86-429 | no step of any thread, traffic and further calls included, sets the foremost connect back, and the step it waits for brings it nearer its end |
| HandshakeProgress.EveryConnectCompletes | server/MsgDistributor.cpp:168-287 | in every fair run, with any traffic and any further calls, as many connects return as have been called at any moment, with ids that accept issued |
| HandshakeProgress.SomeScheduleCompletes | server/MsgDistributor.cpp:237-284 | from every state some schedule completes all connects |
| Delivery.StepMoves | server/MsgDistributor.cpp:86-429 | no step of any thread sets the oldest message that a live socket lacks back, and the listen or recv it waits for brings it on |
| Delivery.EverythingArrives | server/MsgDistributor.cpp:120-150 | in every endless run in which listen and recv are served, all that was sent on a socket that stays open at the receiver is eventually received, in order, but for what was dropped early |
| Wire.BuiltIsRead | jclient/MsgDistributor.java:83-154 | every frame either side builds is decoded by its receiver as meant, whatever the memory held |
| Wire.StepRefines | server/MsgDistributor.cpp:86-429 | each byte-level step is defined and is the same step of the multiplexer |
| Wire.SameChoices | server/MsgDistributor.cpp:86-429 | the byte-level system can make exactly the multiplexer's steps whose ids and messages fit |
| Wire.SendFits | server/MsgDistributor.cpp:86-106 | a message fits when its id has nine digits, its frame 50000 bytes, and in C++ it is not empty |
| Wire.EveryWireRunRefines | server/MsgDistributor.cpp:86-429 | each byte-level run, with a C++ or Java connector, is defined throughout, and the multiplexer run of the very same steps ends in the state it represents |
| WirePipes.RunRecords | server/MsgDistributor.cpp:290-379 | the payloads given to send, handed out by recv and dropped early in a byte-level run are those that the multiplexer's histories record for the same steps |
| WirePipes.BytesArriveInOrder | server/MsgDistributor.cpp:290-379 | in each byte-level run, for each id and direction, recv hands out exactly the payloads given to the peer's send, in order, after those dropped early; the others are queued once the channel is empty |
| Session.ReadBlock | client/client-OpenCV.cpp:461-472 | a read into the cleared buffer leaves up to 4096 bytes of the file from its position on, and zeros |
| Session.SendFile | client/client-OpenCV.cpp:453-472 | the C++ loop sends ceil(n/4096) messages of 4096 bytes, byte for byte those of the file and zeros behind its end |
| Session.SendArray | jclient/JClient.java:226-243 | the Java loop sends floor(n/4096) messages of 4096 bytes and one of n mod 4096, byte for byte those of the array |
| Session.BlockCounts | jclient/JClient.java:226-243 | C++ sends ceil(n/4096) data messages, Java floor(n/4096)+1 |
| Session.ReceiveImage | server/server-OpenCV.cpp:559-593 | the receive loop takes max(1, ceil(n/4096)) messages and leaves byte i % 4096 of message i / 4096 at place i, or zero where that is too short |
| Session.HeaderRoundTrip | server/server-OpenCV.cpp:535-551 | the server reads back the name and size that the header was built from |
| Session.HeaderSpelled | client/client-OpenCV.cpp:427-441 | the header message byte by byte: name, comma, digits of the size, NUL, and what the buffer held |
| Session.HeaderIsTwoTokens | server/server-OpenCV.cpp:546-551 | of any message the server takes the first token for the name and the second for the size |
| Session.ImageRoundTrip | server/server-OpenCV.cpp:531-594 | one image in step is rebuilt from exactly its own messages |
| Session.JavaBlocksFeed | jclient/JClient.java:226-243 | a Java image always arrives, and leaves one empty message over when its size is a non-zero multiple of 4096 |
| Session.JavaWholeBlocksBreakTheServer | server/server-OpenCV.cpp:546-550 | that message is taken for a header without name and size |
| Session.SentAgainstNeeded | client/client-OpenCV.cpp:461-472 | messages sent and messages taken agree exactly when every image is in step |
| Session.SessionRoundTripIff | server/server-OpenCV.cpp:531-594 | a session is rebuilt exactly, nothing left over or missing, if and only if every image is in step |
| Transfer.StepInv | client/client-OpenCV.cpp:422-516 | every step of the threads that share a socket keeps the server bound for the images in lock order |
| Transfer.SentInLockOrder | client/client-OpenCV.cpp:422-516 | at every moment the threads have sent the first messages of the session of their images in lock order, and all when the lock is free |
| Transfer.DeliveredInLockOrder | client/client-OpenCV.cpp:422-516 | at every moment of a run the server has rebuilt the first of the images whose Lock steps the run has, in that order, and all when the channel is empty |
| Transfer.Progress | client/client-OpenCV.cpp:422-476 | the lock holder, the replies and the server never deadlock, and every step brings the end nearer |
| Transfer.TransferEnds | client/client-OpenCV.cpp:422-476 | until another thread takes the lock, any run has at most as many steps as the measure says, and when none is enabled the lock is free and all images are rebuilt in lock order |
| EndToEnd.SessionOverMultiplexer | server/server-OpenCV.cpp:531-593 | in every reachable state in which the socket lost nothing before its registration, the server has rebuilt the first images of the session in order, and all once it has read all |
| EndToEnd.SessionUnderDiscipline | server/server-OpenCV.cpp:531-593 | under the discipline the same holds on every socket |
| EndToEnd.ThreadsOverMultiplexer | client/client-OpenCV.cpp:422-516 | the same for what any number of C++ threads under sendLock send, in any run, with the images in lock order |
| EndToEnd.SessionOverTheWire | jclient/JClient.java:212-243 | the same for the bytes in the channels, with the frames that either connector's code builds |
| Pipeline.ActUserInv | server/server-OpenCV.cpp:256-302 | each thread's step keeps queue, semaphore, permits and counters of its user in balance |
| Pipeline.StepInv | server/server-OpenCV.cpp:722-737 | the same for any number of users together |
| Pipeline.EveryImageDispatchedOnce | server/server-OpenCV.cpp:256-302 | the images of the run's Submit steps are dispatched once each in that order, no empty queue is popped, teardown only after the final post and the last of them |
| Pipeline.CountersCountSteps | server/server-OpenCV.cpp:182-187 | in any run the counters count its submissions and completions, and the permits its takes and releases |
| Pipeline.Conservation | server/server-OpenCV.cpp:279-287 | permits are conserved, submitted - finished counts the images under way, the load is a fraction |
| Pipeline.EveryJobCompletes | server/server-OpenCV.cpp:256-302 | under every schedule, while users log in and images arrive, the steps of the result side are bounded by the work brought in, and when it rests all images are dispatched and disconnected users torn down |
| LoadMetrics.LoadIsFractionIff | server/Metrics.cpp:33-42 | the load is 0 when nothing was submitted and else the share of 100 under way; between 0 and 1 exactly in the first case or when no more finished than were submitted |
| LoadMetrics.Metrics.SubmitRequest | server/Metrics.cpp:21-23 | one more request submitted, none finished |
| LoadMetrics.Metrics.FinishRequest | server/Metrics.cpp:25-27 | one more request finished, none submitted |
| LoadMetrics.Metrics.GetMetrics | server/Metrics.cpp:33-42 | the branches compute the load, a fraction exactly when nothing was submitted or ongoing is not negative |
| Matching.CountDescriptors | server/ImgMatch.cpp:105-125 | the loop rewrites the table as specified and leaves for each image its multiplicity there; the counts sum to the table length and are those stored |
| Matching.RewrittenAt | server/ImgMatch.cpp:105-125 | entry by entry: one equal to the one written before stays, any other becomes the number after that |
| Matching.RewrittenCounts | server/ImgMatch.cpp:105-125 | a rewritten table uses no image number above its last, and its counts cover it |
| Matching.UnchangedIffNoneSkipped | server/ImgMatch.cpp:76-78 | a nondecreasing positive table survives the loop exactly when no image number is skipped |
| Matching.StoredTableInRangeIff | server/ImgMatch.cpp:85-130 | every entry of the table as stored has a stored count if and only if, for each number x below the largest, at least as many entries are beyond x as there are numbers from x to the largest |
| Matching.EveryQueryHasCountIff | server/ImgMatch.cpp:271-335 | no search result makes the look-up of the winner's count fail, exactly under that condition on the table |
| Matching.CountsAreTrueIff | server/ImgMatch.cpp:85-130 | the stored counts are those of the stored table if and only if no image number is skipped |
| Matching.SkippedAtTheEnd | server/ImgMatch.cpp:85-130 | the table 1, 3 fails that condition: it is stored with two counts, so a win of image 3 finds none |
| Matching.SkippedNumberIsRebooked | storm-kafka/src/jvm/storm/winlab/cps/indexImgTable:8078-8079 | a table that jumps over one number books the next image's first descriptor on the missing one |
| Matching.CastVote | server/ImgMatch.cpp:276-290 | the scan keeps the tally of the votes; frequencies sum to them |
| Matching.TallyMeans | server/ImgMatch.cpp:276-290 | a tally has one entry per image in first-vote order, with the multiplicity of the image in the votes |
| Matching.VotesOfRows | server/ImgMatch.cpp:271-276 | the votes are those of exactly the rows with dist0 < 0.8 dist1, in the order of the rows |
| Matching.VotesPerImage | server/ImgMatch.cpp:271-290 | an image has as many votes as such rows are nearest to one of its descriptors |
| Matching.Select | server/ImgMatch.cpp:303-327 | maximum and selection find the image with most votes, of equals the one first voted for latest |
| Matching.WinnerIsUnique | server/ImgMatch.cpp:324-327 | there is only one such image |
| Matching.WinnerIff | server/ImgMatch.cpp:303-327 | the winner in terms of the votes alone: no image has more, and of those with as many its first vote comes last |
| Matching.MatchImg | server/ImgMatch.cpp:271-335 | the answer is 0 when nothing voted or 1000 times the votes are below 15 times the count of the winner, and the winner otherwise; only the winner needs a count |
| TcpReceive.ReceiveFile | server/server-OpenCV.cpp:485-517 | however a file is cut into chunks, the array holds that file, is never overrun, and the loop stops with its last chunk |
| Packager.SendImage | server/MFPackager.cpp:42-45 | the message is the digits of the size, a comma and a NUL as far as they fit ten bytes, and then the image |
| Packager.RecvImage | server/MFPackager.cpp:58-73 | the size is the number in the first token, and the bytes from ten places on are copied |
| Packager.CommaSurvivesIff | server/MFPackager.cpp:43-45 | the header keeps its comma exactly for sizes of at most nine digits, or by coincidence |
| Packager.ImageRoundTrip | server/MFPackager.cpp:42-73 | recvImage returns the size and bytes given to sendImage, for sizes below 10^9 |

## Left out

- Codec.BuildSock: requires a non-empty payload, because the NUL that sprintf appends has no room otherwise; the
  callers in the C++ programs send none that is empty.
- Wire.EveryWireRunRefines: for runs in which accept has issued fewer than 10^9 ids and messages fit the
  50000-byte receive buffer; mfsockid is otherwise unbounded here.
- Distributor.MsgDistributor.Send: requires a non-empty payload, as Codec.BuildSock does.
- Distributor.MsgDistributor.RecvWake: describes the clipped copy; the C++ code copies `size` bytes, and so reads past
  a shorter message, which its own comment says is to be fixed.
- HandshakeProgress.EveryConnectCompletes: for one side that only connects and one that only accepts, as the
  programs do; with both on both sides, C++ connect holds id_lock against its own accept. It counts the connects
  that return; which of several waiting threads a semaphore lets through is not modelled.
- Symmetric use, where each side both connects and accepts; and accept on the Java side, which no create reaches.
- Failing sends and receives, the `stop` flag (never set) and use before `init`.
- Races within a step (unlocked map reads, counters incremented by several threads) and the lifetime of deleted
  queues and semaphores.
- A disconnect in the middle of an image, after which server_transmit does not return in orbit mode.
- A disconnect before the first image, where server_transmit posts a null semaphore.
- Login (`user_map`) and the wait of the transmit thread for the result thread's semaphore.
- The Storm and Kafka branches of the server, and the Storm copies of the matcher, which repeat its vote with 2%.
- OpenCV, SURF and FLANN: neighbours and distances are inputs; distances and the factors 0.8 and 0.015 are exact
  reals instead of floats.
- JClient.sendImage and getResult: the hand-over between one caller and one thread by two semaphores.
- mfapi, sockets, files, timing, printing, the GUI, the Android applications, the AES demo and configuration.
- The text decoding of Java strings: tokens are compared as bytes, which agrees on the ASCII head of every frame.
