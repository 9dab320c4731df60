# yammer's data path, verified

yammer carries any number of byte streams over one channel between two peers. This project models the parts of it
that have to agree with each other, and proves that they do:

* **The multiplexer.** Two plexers share a byte channel each way (`PlexerProtocol`, `PlexerWire`). The downstream
  queue and the upstream queue have one thread each, and a step is what a thread does between two points where the
  users, the other thread or the peer may run. `PlexerInvariant` and `PlexerTheorems` prove for every schedule that
  the wire parses into frames in one way, that no byte is lost, doubled, reordered or delivered to the wrong stream,
  and that ids never clash; and, with pipes and a connection that hold only so much, where the threads come to rest
  with all delivered and where they do not. `PlexerHistories` goes from calls to calls: what one end's reads have got
  are the first bytes that the other end's writes have put in. The upstream thread's wait for the user's callbacks, which may themselves
  read and write, is part of all that; `PlexerCallbacks` is what such a wait comes to, and `PlexerAnnouncements` that a
  stream is announced once. `PlexerClosing` and
  `PlexerClose` follow a stream from its close request to the peer, over whole runs. `PlexerObject` is the object with
  its fields, each entry point proved to be the steps it stands for.
* **What runs on a stream.** The message layer with its store-raw fallback (`Compression`, `Streams`), the forward
  protocol with its writer and reader loops (`Forward`), when its reader stays inside its buffers (`ForwardBuffers`),
  the codec switch when a stream is opened (`StreamOpen`), and all of them with the multiplexer underneath
  (`EndToEnd`). LZ4 is any pair of functions that is lossless on the sizes a message can have.
* **Connection setup.** `ConnectionParty` is either end as a program counter that writes a message, reads one or
  stops. `ConnectionSetup` proves that if one party is ready to write exactly when the other is ready to read, then
  every run over real channels, with any delay and any short reads and writes, is the lockstep run delayed.
  `ConnectionScript` proves that for the server's script and the client's loop, through to the plexers' hellos.
  `ConnectionPlay` and `ConnectionSteps` play one party's program against a string of bytes; `ConnectionLanguage` says
  which strings make it succeed; `ConnectionObject` is the object and its methods, proved to do on every input what the
  play does. The two ends' plays, fed to each other, come to the outcome of the channel runs.
* **Dispatch.** Queue threads, the counting semaphore and the stack as a step relation (`DispatchQueue`), the queue
  object and its service loop over those steps (`DispatchWorker`), where a queue comes to rest when its own procs
  may dispatch to it (`DispatchRest`), sources and their servicing semaphore
  (`DispatchSources`), and the ordered timer list (`Timers`).
* **Containers and ownership.** The linked-list dictionary (`Dictionaries`), the array kept in one by renumbering its
  keys (`ArrayLists`), and retain counts with the cascade of frees that a last release sets off (`Ownership`).
* **Two self-contained cores.** TXT records printed and parsed (`TxtRecord`, `TxtLoops`; RFC 6763, sections 6.1, 6.3
  and 6.4), and RC4 with rejection sampling (`Arc4`, `Uniform`).

Bytes are integers below 256 and C structs are their fixed-length little-endian encodings (`Bytes`). Files, pipes and
the pass-through security provider are byte queues whose reads and writes may be short (`Pipes`). Threads, locks and
semaphores are program counters and counters in step relations; a step that is not enabled leaves a run as it was, so
a run is any sequence of steps. An abort is a false result or a state of its own.

## Where the code does less than it means to

Each of these is proved, with the exact condition under which the code does what was meant.

* A close marker is noticed only if it is read alone. When the downstream thread takes up a close, the peer gets all
  the data and one close exactly when what is then in the pipe is a whole number of 16384-byte chunks; otherwise it
  gets the marker as data and both ends keep the stream (`PlexerClose.CloseArrivesIffPendingIsWholeChunks`). A forward
  that closes its stream when done is still read exactly, with at most the marker left over
  (`EndToEnd.ClosedForwardIsExact`, `EndToEnd.ClosedForwardArrives`).
* A close read by an end without a closing function never takes the stream off that end's table
  (`PlexerClose.CloseArrivesIffPendingIsWholeChunks`).
* The assertion against closing twice reads a flag that is set later, so two quick closes pass it and leave two
  markers, which an otherwise empty pipe gives up as two bytes of data (`PlexerClose.TwoQuickClosesLeaveTwoMarkers`).
* The marker is written by the thread that empties the pipe, so a close on a full pipe stops that thread for every
  stream (`PlexerClose.MarkerIntoAFullPipeStalls`).
* One thread writes up for all streams, and it waits for the user's callbacks. While no stream is closed, the plexers
  rest with everything delivered exactly when that thread neither stands at the full pipe of a stream nobody reads, nor
  waits for a callback with more on the wire (`PlexerTheorems.RestMeansAllDeliveredUnlessStalled`). A callback that has
  not returned at rest waits for bytes or for room (`PlexerCallbacks.RestingCallback`); bytes never come, since only the
  thread that waits for it could bring them (`PlexerCallbacks.CallbackWaitsOn`). The repository's chat
  program is such a run: its callback for new streams reads a byte that the peer sends after the opening
  (`PlexerCallbacks.CallbackReadingOnStandsStill`; misc/chat/main.c:181-195).
* A proc that waits for the queue it runs on never returns. A user queue rests with everything done exactly when no
  proc on it does that, and a queue of several threads unless all of them do
  (`DispatchRest.UserQueueRestsIffNoOwnSync`, `DispatchRest.RestMeansDone`). The plexer's stop and its interruption
  join the queue on which the user's callbacks run.
* A forward's reader accepts chunk commands up to 65535 for a buffer of 16384, and the LZ4 layer reads a raw frame
  into the caller's buffer whatever was asked for. A plain stream's reader leaves its buffer exactly on an unbounded
  forward with a chunk command over 16384 and more than 16384 bytes behind it (`ForwardBuffers.PlainReaderSpillsIff`),
  which no part of a forward contains (`ForwardBuffers.ScriptsStayInside`).
* A forward that breaks off inside its data, and not at a command, reads as a success to a caller that expects no
  length, or just as much as has come (`Forward.ForwardToFile`).
* The opener of a stream reports success whatever it is told, because its flag is never cleared, and the two ends are
  left with different codecs exactly when LZ4 is asked of a peer of another version (`StreamOpen.Open`).
* The threshold of `arc4random_uniform` is 2^31, not 2^32, modulo the bound: the results are even exactly for powers
  of two, and above 2^31 some results never come (`Uniform.EvenIffPowerOfTwo`, `Uniform.LargeBoundsMissResults`).
* A timer that ties is moved on by a nanosecond without looking whether that ties again; the order of the list
  survives exactly when it does not (`Timers.InsertKeepsStrictOrder`).
* An array insertion lets a negative index through, and exactly then the keys stop being indices
  (`ArrayLists.InsertKeepsIndicesIffNotNegative`).
* A sample length that is refused reads as a success to the caller (`ConnectionObject.Connection.DoSample`).
* Outside user queues nothing makes a destroyer wait: a freed source is free of everyone exactly when no wrapper of
  it happens to be under way (`DispatchSources.FreedSourceIsUntouchedIff`,
  `DispatchSources.SharedQueueSourceCanBeFreedUnderItsHandler`).

## Model

| member | source | states |
|---|---|---|
| PlexerTheorems.RunKeeps | src/YMPlexer.c:316-374 | After any schedule of creating, writing, reading, closing, both service threads of both ends, a few bytes at a time, callbacks that read and write, and interruptions, the whole protocol invariant holds |
| PlexerTheorems.BytesAreConserved | src/YMPlexer.c:548-716 | For every stream nobody has closed or interrupted, in every reachable state: the wire parses, and what was written is what was delivered, then what the reader holds, then the payloads in flight for that id, then what the writer holds, then what is in the pipe |
| PlexerTheorems.DeliveryIsPrefix | src/YMPlexer.c:641-716 | Whatever the interleaving and the chunk sizes, the peer has a prefix of what was written |
| PlexerTheorems.SettledMeansDelivered | src/YMPlexer.c:548-716 | Once nothing of a stream is under way, the peer has all of it |
| PlexerHistories.RunServes | src/YMStream.c:200-212 | After any schedule, closes and interruptions included, on every stream in a table or gone from it: what has been written up is what its user has read and then what is left to read, in order |
| PlexerHistories.HistoriesAreTheCalls | src/YMStream.c:132-225 | On a stream nobody has closed, its histories are the calls: every byte written in, by users and callbacks, in order, and every byte that a read has got |
| PlexerHistories.ReadsGetWhatWasWritten | src/YMPlexer.c:548-716 | On an open stream, under every schedule: the bytes that the reads at one end have got, in order, are the first of the bytes that the writes at the other end have put in |
| PlexerHistories.RestMeansReadable | src/YMPlexer.c:690-716 | At rest, with no thread stalled or held up by a callback, what has been read of an open stream and what is left to read are all that has been written |
| PlexerHistories.CallsMoveWhatTheyAsk | src/YMStream.c:132-183 | A callback's read goes on until it has got as many bytes as it asked for, and its write until it has put in all that it was given, in order |
| PlexerAnnouncements.AnnouncedOnce | src/YMPlexer.c:710-746 | With the function for new streams set whenever the thread writes up: in any run a stream that the peer opened and nobody closed has been announced exactly once, or not yet while its first frame is coming, and an own stream never |
| PlexerTheorems.RestMeansDelivered | src/YMPlexer.c:548-716 | With pipes and a connection of any capacity, once the service threads of both plexers can go no further every open stream has been delivered whole, unless one of the two threads that carry it stands at a full pipe or the upstream one waits for a callback with more on the wire |
| PlexerTheorems.RestMeansAllDeliveredUnlessStalled | src/YMPlexer.c:690-716 | While no stream has been closed: at rest every stream of a side has been delivered whole if and only if the peer's upstream thread neither stands at the full pipe of a stream whose user is not reading, nor waits for a callback with more on the wire |
| PlexerCallbacks.RestingCallback | src/YMPlexer.c:842-864 | When all the service threads are at rest, a callback that has not returned is reading a stream that has nothing for it, or writing one whose pipe is full |
| PlexerCallbacks.CallbackWaitsForItsOwnThread | src/YMPlexer.c:842-851 | No step of either end, whatever the users and the other threads do, brings a reading callback a byte, ends the thread's wait for it or takes anything off the wire before that thread, while the stream it reads is in the table |
| PlexerCallbacks.CallbackWaitsOn | src/YMPlexer.c:842-851 | Nor does any further run: as long as the stream stays in the table the thread waits on, with nothing come up and nothing taken off the wire |
| PlexerCallbacks.CallbackReadingOnStandsStill | misc/chat/main.c:181-195 | The chat's run, for any first frame, answer and later byte: everything is at rest with that byte on the wire, nothing closed, both ends up and no pipe full, and the server never has it |
| PlexerTheorems.LastIDIsDrawn | src/YMPlexer.c:316-345 | After any schedule, closes, interruptions and wrap-arounds included, a side that was asked for n streams has its last id at the n-th id drawn |
| PlexerTheorems.RunDraws | src/YMPlexer.c:316-345 | And up to 2^63 creations no stream counts as a side's own with an id later than its last |
| PlexerTheorems.NthID | src/YMPlexer.c:316-345 | The n-th id drawn is 2(n-1), plus one for the odd side, modulo 2^64: the wrap-around test is what makes the first draw right and no addition overflows |
| PlexerTheorems.DrawsAreDistinct | src/YMPlexer.c:316-345 | Up to 2^63 draws a side, two draws give the same id if and only if they are the same draw of the same side |
| PlexerTheorems.CalmRunInvariant | src/YMPlexer.c:718-746 | While no close is taken up and nobody interrupts, after any schedule the protocol invariant holds with no stream counted as closed, and both ends are up |
| PlexerTheorems.CalmRunsStayUp | src/YMPlexer.c:718-746 | In such runs neither end is ever interrupted, an entry of own parity is local and every other one remote, and a remote entry is local to the peer |
| PlexerInvariant.CreateKeeps | src/YMPlexer.c:316-345 | Drawing an id and entering it in the table keeps both directions' books, unless the ids have run out |
| PlexerInvariant.StartMarkingKeeps | src/YMPlexer.c:347-356 | A close request that the downstream thread takes up keeps the books of every other stream |
| PlexerInvariant.SendHeaderKeeps | src/YMPlexer.c:548-640 | A header put on the wire with its payload still to come leaves the wire parsing to whole frames once the payload is counted in |
| PlexerInvariant.SendPayloadKeeps | src/YMPlexer.c:548-640 | However few bytes of a payload go out at a time, the books and the reading of the wire stay as they are |
| PlexerInvariant.ReadPayloadKeeps | src/YMPlexer.c:690-716 | However few bytes of a payload come off the wire at a time, the books stay as they are |
| PlexerInvariant.ReadHeaderKeeps | src/YMPlexer.c:641-746 | Taking a header off the wire keeps the books, and is never refused for a stream nobody has closed |
| PlexerInvariant.ReturnKeeps | src/YMPlexer.c:879-903 | A callback that returns, and for a close takes the stream off the table, keeps the books of every other stream |
| PlexerInvariant.WriteUpKeeps | src/YMPlexer.c:690-716 | Writing some of a payload up keeps the books of every stream: what was arriving on its stream is now delivered; that it is there to read is `PlexerHistories.RunServes` |
| PlexerWire.HeaderRoundTrip | src/YMPlexer.c:106-109 | A header's command and id are read back, whatever follows it |
| PlexerWire.HeaderLayout | src/YMPlexer.c:75-109 | The sixteen bytes of a header: the length or minus 2 in four, four of padding, the id in eight, low bytes first |
| PlexerWire.ParseSerialize | src/YMPlexer.c:548-716 | Any sequence of frames put on the wire parses back to just those frames |
| PlexerWire.ParseSnoc | src/YMPlexer.c:548-640 | One more frame at the end of a wire that parses is one more frame parsed |
| PlexerProtocol.DownstreamSendsOneFrame | src/YMPlexer.c:548-640 | One visit to a stream sends the bytes read as one data frame, or a close frame if the user has closed and the marker was all that was read |
| PlexerProtocol.UpstreamTakesOneFrame | src/YMPlexer.c:641-716 | One visit to a wire with nothing more to come hangs up on a short or bad frame or an id that should have been its own, and else notes a close or gives the payload to its stream, made on demand, and stops at the callback there may be |
| PlexerClosing.CloserStep | src/YMPlexer.c:548-640 | From the close request on, every step of the closing end keeps the account of what the peer has seen, what is on the way, what the thread holds and what full reads will make of the pipe |
| PlexerClosing.ReceiverStep | src/YMPlexer.c:641-716 | And so does every step of the receiving end, its callback for the close included |
| PlexerClosing.NothingAfterTheEnd | src/YMPlexer.c:641-690 | Once the peer has read the close, nothing of the stream is on its way any more |
| PlexerClose.ClosedStreamIsPrefix | src/YMConnection.c:930-939 | Over any run that takes up the close of an open stream, with no later writes to it and no traffic back: under every interleaving with other streams the peer has a prefix of what was written and then at most the marker, and of what was written alone if the pipe held a whole number of chunks |
| PlexerClose.CloseArrivesIffPendingIsWholeChunks | src/YMPlexer.c:347-356 | At rest after such a run, with neither thread at a full pipe or held up by a callback: if the pipe held a multiple of 16384 bytes the peer has all data and has read exactly one close, the closing end's table has let the stream go, and the peer's has if and only if it has a closing function that has returned; otherwise the peer has the data and the marker, has read no close, and both tables keep the stream |
| PlexerClose.OneByteLosesTheClose | src/YMPlexer.c:562-635 | A run with one byte in front of the marker: the peer gets both bytes, both ends keep the stream, and no thread has anything left to do |
| PlexerClose.OneByteRunClosesAndDrains | src/YMPlexer.c:347-374 | That run is one of those the two theorems above speak of: it takes up one close of an open stream and reads its pipe in full |
| PlexerClose.TwoQuickClosesLeaveTwoMarkers | src/YMPlexer.c:347-374 | A second close passes the assertion until the first request has run; two markers are then in the pipe, and in an otherwise empty one they are read together, as data |
| PlexerClose.MarkerIntoAFullPipeStalls | src/YMPlexer.c:347-356 | Once the downstream thread stands at a full pipe with the marker, no step of either end within the capacities moves it on or puts a byte on that wire, as long as the stream is in the table |
| PlexerObject.Plexer.CreateStream | src/YMPlexer.c:316-345 | The object's fields change as the protocol's creation step says; the id is new to the table, or there is none and the plexer is interrupted |
| PlexerObject.Plexer.CloseStream | src/YMPlexer.c:358-374 | A close of a stream whose close request has run fails the assertion; any other by the originator queues a request |
| PlexerObject.Plexer.RunCloseRequest | src/YMPlexer.c:347-356 | The queued request sets the flag and leaves the marker in the pipe, or does nothing for a stream that has gone |
| PlexerObject.Plexer.ServiceDownstream | src/YMPlexer.c:548-640 | One call is the chunk, header and payload steps (or the close step) of the protocol, for whatever number of bytes the pipe gave |
| PlexerObject.Plexer.ServiceUpstream | src/YMPlexer.c:641-716 | One call, up to the callback it may have to wait for, is the header, payload and delivery steps of the protocol on the bytes the peer has sent |
| PlexerObject.Plexer.CallbackReturns | src/YMPlexer.c:879-903 | The callback's return is the protocol's step, and after a close the stream is off the table |
| PlexerObject.Plexer.SetStreamClosingFunc | src/YMPlexer.c:271-279 | Setting or clearing the function changes that and nothing else |
| PlexerObject.Plexer.HangUp | src/YMPlexer.c:795-841 | An interruption clears the table and stops both threads |
| EndToEnd.ForwardedExactly | src/YMStream.c:246-400 | For any number of streams and any schedule: where the calls at one end have written part of an opening and a forward, plain or LZ4, bounded or not, the bytes that the reads at the other end have got are understood as a prefix of the file and never as anything wrong, and as the file with nothing left over exactly when all that is sent has been read |
| EndToEnd.ForwardArrives | src/YMStream.c:246-400 | And what has been read and is left to read is all of it once the writer is done and the service threads are at rest, none at a full pipe or waiting for a callback with more on the wire |
| EndToEnd.ClosedForwardIsExact | src/YMConnection.c:930-939 | A forward whose stream is closed once all is written, wherever in the pipe that finds it: at every moment what the acceptor has read gives it a prefix of the file and nothing wrong, and the file, with nothing or the marker alone left over, exactly when it has read all that was sent |
| EndToEnd.ClosedForwardArrives | src/YMConnection.c:930-939 | At rest it has the whole file, and the marker is left over exactly when the pipe did not hold a multiple of 16384 bytes |
| EndToEnd.OpenAndForward | src/YMConnection.c:783-800 | Announcing a stream and forwarding a file on it writes just the bytes that the theorems speak of |
| EndToEnd.AcceptAndForward | src/YMConnection.c:826-874 | Accepting a stream and writing it to a file does just what the theorems say of the bytes that came, and succeeds exactly when the forward is whole or ends in its data |
| EndToEnd.PrefixIsUnderstood | src/YMConnection.c:826-874 | What has arrived of an opening and a forward, cut anywhere, gives the acceptor a prefix of the file, and the whole of it gives the file |
| EndToEnd.SetupStartsThePlexers | src/YMConnection.c:643-655 | A setup that succeeds leaves the two plexers with just the parities and last ids from which the protocol's runs start |
| Compression.DecodeEncode | src/YMCompression.c:393-516 | One read that asks for the length of one write gives back its bytes and takes exactly its frame, whatever follows |
| Compression.PayloadFitsItsSizeField | src/YMCompression.c:462-516 | A frame's payload is never longer than the message, so its 16-bit size field loses nothing |
| Compression.FrameLayout | src/YMCompression.c:479-516 | What one LZ4 write becomes: 4 bytes and the shorter of the packed and the raw message, marked 1 if and only if the packed one is shorter, with its length low byte first, and behind them the one or the other |
| Compression.ReadsExactlyOneFrame | src/YMCompression.c:393-460 | On any bytes, a read comes to a message if and only if the pipe begins with a frame whose body is that message, or unpacks to it |
| Compression.ReadWaitsIff | src/YMCompression.c:393-460 | On any bytes, a read waits for more if and only if the header or the body it announces has not all come, and no raw body has filled the caller's buffer |
| Compression.HeaderRoundTrip | src/YMCompression.c:385-389 | The size in a frame header is read back |
| Compression.DecodeCutShort | src/YMCompression.c:393-460 | A read that meets part of a frame waits, with nothing but a prefix of the message in its buffer |
| Compression.EncodeAllAppend | src/YMCompression.c:462-516 | Messages written one after the other are the concatenation of their frames |
| Compression.LZ4Write | src/YMCompression.c:462-516 | The write puts exactly one frame on the pipe, of 4 bytes and the shorter of the packed and the raw message, marked and chosen accordingly; it fails for an empty or over-long message or a compressor that fails |
| Compression.LZ4Read | src/YMCompression.c:393-460 | The read does what the frame decoder says of the bytes on the pipe, including the short and the fatal ones and those that overrun the caller's buffer |
| Streams.Stream.WriteDown | src/YMStream.c:158-181 | A write appends one message under the current codec, and its length is logged |
| Streams.Stream.ReadUp | src/YMStream.c:133-156 | A read takes one message of the length asked for under the current codec, and the length is logged |
| Pipes.ReadFull | src/YMUtilities.c:240-270 | However short the reads, the bytes asked for come in order, or all there are and end of file; asking for none aborts |
| Pipes.WriteFull | src/YMUtilities.c:272-305 | However short the writes, the whole buffer goes out in order |
| Forward.BoundedRoundTrip | src/YMStream.c:280-377 | The bounded reader gives back the file, asks for exactly the chunk lengths written, and leaves what follows alone |
| Forward.UnboundedRoundTrip | src/YMStream.c:305-389 | The unbounded reader does so too, and stops at the end command; file sizes that are multiples of the buffer are no exception |
| Forward.ForwardRoundTrip | src/YMStream.c:246-400 | The two loops are in lockstep: the reader asks for the lengths the writer wrote, in order, gives back the bytes, takes all that was produced and stops |
| Forward.ForwardCutShort | src/YMStream.c:305-377 | On any proper prefix of a forward the reader waits, with a prefix of the file written and a prefix of the lengths asked for |
| Forward.ScriptLayout | src/YMStream.c:246-389 | The messages of a forward one by one, in bytes: its kind, the length or each chunk's length, the chunks of 16384 bytes and a shorter last one, the end command if no length was announced, and how many there are |
| Forward.EveryCutIsInAMessage | src/YMStream.c:246-400 | However the bytes of a forward are cut, they are whole messages and part of the next |
| Forward.DecodePrefix | src/YMCompression.c:393-460 | Of a message and its successors cut anywhere, the reader sees the message whole or nothing of it |
| Forward.ForwardFromFile | src/YMStream.c:246-400 | The writer's loop sends exactly the script of the file, or of its first n bytes, and fails if and only if the bound is zero or beyond the file |
| Forward.CopyToFile | src/YMStream.c:273-399 | The reader's loop writes to the file just what the reader function says of the bytes on the stream, well formed or not, up to the first byte past the end of its buffer |
| Forward.ForwardToFile | src/YMStream.c:273-400 | On a stream that holds a whole forward it succeeds if and only if no length was expected or the length of the file was; on one that is cut, if and only if the cut is in the data and the length expected is that of what has come: whole chunks of 16384 and, on a plain stream, the part of the next |
| ForwardBuffers.PlainReaderSpillsIff | src/YMStream.c:305-331 | On any bytes at all the reader of a plain stream leaves its buffer if and only if they begin with the unbounded command, then chunks of 1 to 16384 bytes behind their commands, then a command of 16385 to 65535 with more than 16384 bytes behind it |
| ForwardBuffers.ReaderStaysInsideIff | src/YMStream.c:255-331 | With either codec the reader leaves a buffer if and only if one of the reads it makes is sent more than fits |
| ForwardBuffers.ModestPeersStayInside | src/YMStream.c:305-331 | A peer that keeps chunk commands to 16384 and raw frames to the room of the read that meets them cannot make the reader leave its buffers, whatever else it sends |
| ForwardBuffers.ScriptsStayInside | src/YMStream.c:305-389 | No part of what the writer writes makes the reader leave its buffers |
| ForwardBuffers.OversizedChunkSpills | src/YMStream.c:316-327 | Any chunk of 16385 to 65535 bytes, announced as such, does |
| Forward.ReadAnnouncement | src/YMStream.c:274-293 | The opening command, and the length if it announces one |
| StreamOpen.InitRoundTrip | src/YMConnection.c:783-874 | Version and compression type of an announcement are read back |
| StreamOpen.InitLayout | src/YMConnection.c:787-800 | The announcement is the version and then the type, two bytes each, the low one first |
| StreamOpen.SendInit | src/YMConnection.c:783-800 | The announcement goes out under the old codec, byte by byte as it should, and both directions are switched after it |
| StreamOpen.Accept | src/YMConnection.c:826-874 | The acceptor switches both directions only for a version and type it supports, and answers after the switch |
| StreamOpen.AwaitResponse | src/YMConnection.c:800-824 | The opener understands the answer if there is one, and reports success in any case |
| StreamOpen.Open | src/YMConnection.c:783-874 | In numbers: the acceptor is content if and only if the version is 1 and the type 0 or 400; the opener is told 1, or 3 for another type, or 2 for another version, or understands nothing if it had asked for LZ4 of another version; which codec each end is left with; and the two agree both ways if and only if the version is 1 or LZ4 was not asked for |
| ConnectionParty.CommandRoundTrip | src/YMConnection.c:51-54 | Command and argument of a command message are read back |
| ConnectionParty.InitializerRoundTrip | src/YMPlexer.c:58-62 | Version and parity of the plexer's initializer are read back |
| ConnectionParty.PrefixRoundTrip | src/YMConnection.c:285-300 | A prefix is 72 bytes: four for the family, 1, 2 or minus 1 with the low byte first, and then the interface as it is |
| ConnectionSetup.RunIsDelayedLockstep | src/YMConnection.c:448-641 | If the parties are complementary at every moment of the lockstep run, then in every run over channels each party is at some moment of it, and the channel to the later one holds just the bytes written in between |
| ConnectionSetup.StuckOnlyAtTheEnd | src/YMConnection.c:448-641 | No deadlock: a run that can go no further is at the end of the lockstep run with both channels empty |
| ConnectionSetup.RunsAreBounded | src/YMConnection.c:448-641 | The moves of a run that have an effect number the bytes the two parties have moved, at most twice those of the lockstep run |
| ConnectionScript.ServerMessage | src/YMConnection.c:518-545 | A message from server to client in lockstep leaves each party where its program goes after it |
| ConnectionScript.ClientMessage | src/YMConnection.c:576-583 | A message from client to server likewise |
| ConnectionScript.SecurityStage | src/YMConnection.c:497-602 | The request for security is granted exactly for the two kinds there are, and both parties go on to the first command |
| ConnectionScript.CommandStage | src/YMConnection.c:539-573 | Each of the server's three commands sends both parties into the same exchange |
| ConnectionScript.ServerTellsStage | src/YMConnection.c:302-349 | In the first round the server's prefix and address reach the client, which fails exactly on an unknown family |
| ConnectionScript.ClientTellsStage | src/YMConnection.c:302-349 | In the second round the client's reach the server |
| ConnectionScript.SampleStage | src/YMConnection.c:389-446 | Half the length goes from server to client and then half from client to server |
| ConnectionScript.HelloStage | src/YMPlexer.c:449-532 | The hellos leave the master with even and the slave with odd ids, and both done |
| ConnectionScript.SetupOutcome | src/YMConnection.c:285-655 | Every run that can go no further has empty channels, and both parties are through if and only if the security is known and both addresses are IP; then each has the other's family, its 68 bytes of interface and its address as they were, has sampled half each way and has its parity. Otherwise exactly one of them has failed, and which one is said |
| ConnectionScript.PlaysOutcome | src/YMConnection.c:448-655 | There is exactly one pair of byte strings such that each end, run on its own on what it reads, writes what the other reads, and so run the two ends come to that same outcome. Where the setup succeeds the two strings are written out byte by byte |
| ConnectionScript.SetupEnds | src/YMConnection.c:448-655 | For any two parties there is one bound on the moves of all their runs |
| ConnectionScript.ChannelsAreEmptyBetweenCommands | src/YMConnection.c:539-572 | In any run, whenever the server is about to give its second or third command nothing is on the way and the client is waiting to read |
| ConnectionLanguage.ServerFinishesIff | src/YMConnection.c:448-573 | On any bytes at all the server's setup succeeds if and only if they begin with a request for security 0 or 1, a prefix of 72 bytes with an IP family and an address to it, 8388608 bytes, the slave's hello and a version of at most 1 |
| ConnectionLanguage.ClientFinishesIff | src/YMConnection.c:575-640 | And the client's if and only if they begin with an okay, then exchanges and samples of any length in any order, then an init command, the master's hello and an initializer of version at most 1 |
| ConnectionObject.SampleOneWay | src/YMConnection.c:411-433 | Whatever the sizes of the single reads and writes, exactly half the length moves one way, or all there is to read |
| ConnectionObject.Connection.DoSample | src/YMConnection.c:389-446 | Half the length goes out and half comes in, in the order of this end's role, or the play ends here out of bytes; a length that is no multiple of 2^14 moves nothing and still returns what the caller takes for success |
| ConnectionObject.Connection.DoIFExchange | src/YMConnection.c:285-357 | The two rounds take the play on. If they succeed, the 72 bytes of prefix and the 6 or 18 of address that the object keeps are those that came, the prefix begins with 1 or 2 accordingly, and what has gone out is this end's family, interface and address. The exchange fails only where the play ends, on an unknown family or out of bytes |
| ConnectionObject.Connection.AcceptSecurity | src/YMConnection.c:497-531 | The server takes a request for one of the two kinds of security and says so, and fails only where the play ends, on any other request or out of bytes |
| ConnectionObject.Connection.RunScript | src/YMConnection.c:539-572 | The server's loop gives the three commands and takes its part in the exchange and the sample, or stops where the play ends |
| ConnectionObject.Connection.AskSecurity | src/YMConnection.c:575-602 | The client asks for its security and goes on on an okay; on any other answer, or none, the play ends here |
| ConnectionObject.Connection.ObeyCommands | src/YMConnection.c:604-640 | The client's loop obeys any commands in any order until an init command, and fails only where the play ends, on an unknown one or out of bytes |
| ConnectionObject.Connection.StartAsMaster | src/YMPlexer.c:449-488 | The master's hello, with even ids, ends well on the slave's hello and a version it knows, and otherwise where the play ends |
| ConnectionObject.Connection.StartAsSlave | src/YMPlexer.c:490-532 | The slave takes the other parity, and answers a version it does not know before it fails; it fails only where the play ends |
| ConnectionObject.Connection.InitCommon | src/YMConnection.c:448-655 | One end's whole setup, on whatever bytes the peer has sent: it succeeds on exactly the inputs of the two rows above; in any case it writes what its program's play writes, the object's fields are what the play has learnt, and after a success the play's rest is what is left to read |
| DispatchQueue.RunKeepsCover | src/YMDispatch.c:668-700 | For any number of threads and callers: before exit the stack is as long as the semaphore's value, the woken threads and the callers about to signal together; after it the stack still covers every thread past the exit check; no thread has popped an empty stack |
| DispatchQueue.NeverPopsEmpty | src/YMDispatch.c:683-700 | A thread past the exit check always finds a record |
| DispatchQueue.NoLostWakeup | src/YMDispatch.c:255-278 | While the queue is not exiting, work on the stack whose callers have signalled has a token or a woken thread coming for it |
| DispatchRest.RestMeansDone | src/YMDispatch.c:255-278 | A queue that has threads and is not being shut down comes to rest with every record ever enqueued run, finalised and freed and every sync caller back, if and only if not every one of its threads is in a proc that waits for a sync dispatch to this queue |
| DispatchRest.UserQueueRestsIffNoOwnSync | src/YMDispatchUtils.c:36-45 | A user queue does so if and only if no proc on it has made a sync dispatch, or a join, to it |
| DispatchQueue.RunKeepsOrder | src/YMDispatch.c:255-278 | The stack is always the records not yet popped, oldest first, and every other record is in one thread's hands or done with |
| DispatchQueue.ExactlyOnce | src/YMDispatch.c:692-720 | A record is run, finalised and freed at most once each; a sync record is freed by its waiter on return and an async one by its worker, after it was run and finalised, and when no thread holds it |
| DispatchQueue.ExecutedIsPrefixOfEnqueued | src/YMDispatch.c:668-735 | On a user queue the procs that have begun are the first ones enqueued, in that order |
| DispatchQueue.OneAtATime | src/YMDispatch.c:668-735 | On a user queue at most one record is in a worker's hands |
| DispatchQueue.SyncIsABarrier | src/YMDispatchUtils.c:36-45 | When a sync dispatch on a user queue has returned, every record enqueued before it has been run and finalised |
| DispatchQueue.ExitWaitsForThreads | src/YMDispatch.c:438-449 | In any run a queue's exit has ended only once every thread it had when the exit began has left its loop |
| DispatchQueue.ExitSignalIsNotLost | src/YMDispatch.c:438-449 | In any run, while the exit waits for a thread, its signal is still there to be taken, or a thread that took one is on its way out or has said so |
| DispatchWorker.Queue.Dispatch | src/YMDispatch.c:255-278 | The entry point is the append and signal steps, and numbers the records in order |
| DispatchWorker.Queue.ServiceOne | src/YMDispatch.c:668-735 | One turn of the loop is the seven steps of one worker |
| DispatchWorker.Queue.ServiceLoop | src/YMDispatch.c:668-735 | The lone thread of a user queue runs all that is stacked, in order, before its wait would block |
| DispatchWorker.ServicedState | src/YMDispatch.c:692-720 | What seven steps in a row leave: the head record run, finalised unless it is a source, freed unless it is sync, and signalled if it is |
| DispatchSources.RunKeepsToken | src/YMDispatch.c:815-908 | In every run there is one token for each source: in the semaphore, with the loop's test, with a wrapper, or kept by the destroyer |
| DispatchSources.HandlerIsExclusive | src/YMDispatch.c:736-750 | A source never has two wrappers under way, so its handler never overlaps itself, on a queue of any number of threads |
| DispatchSources.PastWaitIsStable | src/YMDispatch.c:451-489 | A user-queue source past its destroyer's wait stays untouched in every later state |
| DispatchSources.DestroyedSourceStaysQuiet | src/YMDispatch.c:451-489 | From then on no handler of it is queued or running, and no step of the loop or a wrapper that would touch it is ever enabled |
| DispatchSources.FreedSourceIsUntouchedIff | src/YMDispatch.c:476-489 | In any run nobody touches a user queue's source once it is past its destroyer's wait; for any other queue's that is so only while no wrapper of it is under way, and nothing there waits for one |
| DispatchSources.SharedQueueSourceCanBeFreedUnderItsHandler | src/YMDispatch.c:476-489 | A run that frees a source of a shared queue while its handler runs |
| DispatchSources.SourceTable.ServiceReady | src/YMDispatch.c:868-908 | One pass hands over exactly the listed, ready sources whose semaphore is free |
| Timers.Normalize | src/YMUtilities.c:198-223 | The nanoseconds end up below a second and not negative, and the total time is the same, for any input |
| Timers.CompareIsByTotal | src/YMUtilities.c:130-144 | On normal times the comparison is that of total nanoseconds, and equality is identity |
| Timers.InsertMembers | src/YMDispatch.c:508-531 | Insertion adds the new timer, a nanosecond later if its time was taken, and nothing else |
| Timers.InsertKeepsStrictOrder | src/YMDispatch.c:508-531 | The list stays strictly increasing if and only if it is not the case that both the time and the next nanosecond are already queued |
| Timers.CleanRunIsOrdered | src/YMDispatch.c:491-603 | Over all runs of insertions without such a collision and alarms, the list is strictly increasing |
| Timers.AlarmTakesTheEarliest | src/YMDispatch.c:588-603 | In such runs an alarm takes off the one timer that is due first |
| Timers.NoDispatchIsLost | src/YMDispatch.c:491-603 | In any run, collisions or not, each dispatch added is queued or has fired, once |
| Timers.FourTimersBreakTheOrder | src/YMDispatch.c:508-531 | Three timers for one moment and one for the next nanosecond leave the list out of order |
| Timers.TimerList.After | src/YMDispatch.c:491-531 | The insertion loop's list is the insertion function's, at the normalised sum of now and the delay |
| Dictionaries.AddIsMapUpdate | src/YMDictionary.c:84-109 | Adding an absent key is the map update, and keeps the keys distinct |
| Dictionaries.RemoveIsMapRemoval | src/YMDictionary.c:162-194 | Removing a present key is the map removal, and keeps the keys distinct |
| Dictionaries.Dictionary.Find | src/YMDictionary.c:141-160 | The walk finds the first item with the key and the node before it |
| Dictionaries.Dictionary.Add | src/YMDictionary.c:84-109 | A new key's item is put in front of the chain; a key already there is refused and nothing changes |
| Dictionaries.Dictionary.Remove | src/YMDictionary.c:162-194 | The first item with the key is unlinked and its value returned; a missing key is refused and nothing changes |
| Dictionaries.Dictionary.Contains | src/YMDictionary.c:111-117 | True if and only if an item holds the key |
| Dictionaries.Dictionary.GetItem | src/YMDictionary.c:132-139 | The value of the first item with the key, or NULL |
| Dictionaries.Dictionary.GetKey | src/YMDictionary.c:119-130 | A draw below the count picks the key at that place of the list |
| Dictionaries.Dictionary.ShiftKeys | src/YMDictionary.c:293-308 | Every key from the base on is moved by one, in place, with values and order as they were |
| ArrayLists.RepresentsOne | src/YMArray.c:18-25 | A list of items with the keys 0 to count-1 stands for one sequence only |
| ArrayLists.InsertRepresents | src/YMArray.c:55-63 | Renumbering and adding is insertion into the sequence, and the key is free when it is added |
| ArrayLists.TakeOutRepresents | src/YMArray.c:114-120 | Taking the item of an index out leaves every other index once |
| ArrayLists.RemoveRepresents | src/YMArray.c:114-120 | Renumbering after that closes the gap: it is removal from the sequence |
| ArrayLists.ReplaceRepresents | src/YMArray.c:65-70 | Filling the gap instead is replacement |
| ArrayLists.InsertKeepsIndicesIffNotNegative | src/YMArray.c:55-63 | For an index the check lets through, the keys are again 0 to count-1 if and only if the index is not negative |
| ArrayLists.SameValues | src/YMArray.c:133-145 | The list holds the objects of the sequence, each as often |
| ArrayLists.Array.Add | src/YMArray.c:49-53 | The value goes to the end of the sequence; the key is always free |
| ArrayLists.Array.Insert | src/YMArray.c:55-63 | Insertion at any index from 0 to count, a refusal above, and broken keys below |
| ArrayLists.Array.Replace | src/YMArray.c:65-70 | The element is replaced; an index outside aborts |
| ArrayLists.Array.Find | src/YMArray.c:72-86 | Some index of the value, or -1 if and only if it has none |
| ArrayLists.Array.Get | src/YMArray.c:102-106 | The element, or NULL outside the array |
| ArrayLists.Array.Remove | src/YMArray.c:114-120 | The element is removed and those behind it move up; an index outside aborts |
| ArrayLists.Array.RemoveObject | src/YMArray.c:122-131 | One occurrence of the value is removed; a value that is not there aborts |
| ArrayLists.Array.RemoveAll | src/YMArray.c:133-145 | The array is emptied in an order of chance and every object is handed back as often as it was there |
| Ownership.PathsAreLive | src/YMBase.c:100-148 | With the counts in order, whatever can be reached from a handle is live |
| Ownership.GarbageIsHeldByGarbage | src/YMDictionary.c:67-82 | A live object that cannot be reached is held by another such object |
| Ownership.LiveIsReachable | src/YMBase.c:100-148 | Without cycles an object is live if and only if it can be reached from a handle |
| Ownership.CycleLeaks | src/YMBase.c:100-148 | With a cycle it is not: two objects that hold each other stay live without a handle |
| Ownership.LastReleaseAccounted | src/YMBase.c:122-143 | When the last hold goes, what the object's slots held is owed, and the holds in all are one fewer |
| Ownership.MovedAccounted | src/YMDictionary.c:84-109 | Moving holds between a container's slots and the outside keeps every count right |
| Ownership.ReleaseFreesTheUnreachable | src/YMBase.c:122-148 | Without cycles a release frees exactly the live objects that can no longer be reached |
| Ownership.ReleaseLeavesWhatSupportsItself | src/YMBase.c:122-148 | In any heap, cycles or not, what is live after a release is exactly the objects of the live groups in which each is held from outside or by another of the group |
| Ownership.Heap.Alloc | src/YMBase.c:81-98 | A new object with one hold, its creator's handle |
| Ownership.Heap.Retain | src/YMBase.c:100-110 | One more handle, one more on the count |
| Ownership.Heap.Drop | src/YMBase.c:122-148 | One release with its whole cascade: it ends, every count is right again, only frees have happened, each object is freed once, no group of live objects that holds itself up loses a member, and the result says whether this one is gone |
| Ownership.Heap.DropAll | src/YMDictionary.c:67-82 | A container's slots are released one after the other, with the counts right throughout |
| Ownership.Heap.Release | src/YMBase.c:122-148 | A handle is given up, and after the cascade the counts of all that is left are right; what it frees is determined by the two lemmas above |
| Ownership.Heap.Store | src/YMDictionary.c:102-106 | A container's slot gains the object and the object one on its count |
| Ownership.Heap.Adopt | src/YMArray.c:36-42 | A container takes over its creator's handle without a retain |
| Ownership.Heap.Remove | src/YMDictionary.c:162-194 | An item is taken out and released; the object handed back may be gone |
| TxtRecord.ParsePrint | src/YMmDNS.c:165-286 | A list that prints parses back to itself if and only if no key has a '=' or a NUL in it |
| TxtRecord.PrintParse | src/YMmDNS.c:165-286 | A blob that parses prints back to itself |
| TxtRecord.ParsesIffStrings | src/YMmDNS.c:165-224 | A blob of more than one byte parses if and only if it is a run of strings each with a '=' and no NUL before it |
| TxtRecord.ParseOutcomes | src/YMmDNS.c:165-224 | On any bytes: at most one byte gives no pairs; otherwise the result is null if and only if, behind strings that are well formed, one has a NUL before the next '=', and the parser goes astray if and only if one has no '=' or is cut short |
| TxtRecord.PrintIsStrings | src/YMmDNS.c:272-283 | A printed list is its strings key=value, each behind its length |
| TxtRecord.ParseOneRecord | src/YMmDNS.c:185-205 | One printed pair is read back whatever follows, or comes back with a shorter key or not at all if its key is not clean |
| TxtLoops.Measure | src/YMmDNS.c:242-265 | The first pass accepts exactly the lists whose pairs and total fit, and gives their size |
| TxtLoops.Fill | src/YMmDNS.c:272-283 | The second pass fills a blob of that size to its last byte with the printed pairs |
| TxtLoops.TxtBlobCreate | src/YMmDNS.c:240-286 | The printer gives the strings key=value, each behind its length, for a non-empty list whose pairs have at most 254 bytes and whose blob at most 65535, and otherwise null; with the out-length it leaves in each case |
| TxtLoops.Append | src/YMmDNS.c:180-209 | The list doubles when it is full, keeps what it has, and the new pair's place is in bounds |
| TxtLoops.TxtKeyPairsCreate | src/YMmDNS.c:165-224 | The parser's loop does what the parser function says of every blob, and gives null for at most one byte |
| Arc4.FirstStirIsTheKeySchedule | src/arc4random.c:57-81 | Stirring a fresh generator leaves the permutation of the textbook key schedule, for every key, with i and j at 255 and not at 0 |
| Arc4.StirIsTheSchedule | src/arc4random.c:67-81 | Stirring a generator in any state is the same schedule from that state, at the place it had come to, and leaves i and j at the place before |
| Arc4.StepsGiveKeystream | src/arc4random.c:151-162 | From any state, the bytes that any number of steps give are those of the textbook's generation loop, in order |
| Arc4.StepIsInvertible | src/arc4random.c:151-162 | Every state has exactly one state that steps to it |
| Arc4.RunKeepsPermutation | src/arc4random.c:57-162 | After any run of resets, stirrings and bytes given, the table holds each byte value once |
| Arc4.Generator.Reset | src/arc4random.c:57-65 | The loop leaves the identity and both indices at 0 |
| Arc4.Generator.AddRandomData | src/arc4random.c:67-81 | The in-place loop is the stirring function, for any non-empty key |
| Arc4.Generator.GetByte | src/arc4random.c:151-162 | The byte given is the next of the textbook's stream, and the state is the next one |
| Arc4.Generator.Fill | src/arc4random.c:195-204 | A buffer is filled from its end with the next bytes of that stream |
| Arc4.Generator.GetWord | src/arc4random.c:164-172 | The next four bytes of that stream, the first the most significant, make the word |
| Uniform.DrawBelow | src/arc4random.c:216-240 | The result is the first word not below the threshold, modulo the bound, and below it; bounds under 2 give 0 without drawing |
| Uniform.CountIsQuotient | src/arc4random.c:206-215 | How many words below n leave a given remainder |
| Uniform.NearlyEven | src/arc4random.c:224-239 | With the threshold as written, no two results differ by more than one accepted word; for words of any width, the code's being 32 bits |
| Uniform.EvenIffDivides | src/arc4random.c:224-239 | They are all equal if and only if the bound divides half the number of words, which is 2^31 |
| Uniform.EvenIffPowerOfTwo | src/arc4random.c:206-239 | For 32-bit words that is exactly the powers of two up to 2^31 |
| Uniform.IntendedThresholdIsEven | src/arc4random.c:206-215 | With the threshold the comment describes they would be equal for every bound |
| Uniform.LargeBoundsMissResults | src/arc4random.c:224-239 | For a bound above half the number of words, 2^31, the results from 2^32 less the bound up to 2^31 never come |

## Left out

- TLS, RSA and X509: a security provider is the pass-through one. The bytes a TLS provider exchanges during setup are not part of the setup's runs.
- Sockets, `getsockname`, `select`, signals and `timer_create`: a ready set, a clock reading, the local interface and a random draw are parameters or any value that fits. Which timer a signal is for is not modelled, as the code does not look either.
- Closing sockets and a peer that goes away: a failed read or write ends a party or a thread; in the setup a party that has failed only stops. A read on a socket that is at its end makes the sample loop spin for ever in the code, where the model's `DoSample` gives up.
- A command of the setup and a read or write of the pass-through provider are one system call each in the code, which fails unless all the bytes move; the model moves them in any number of steps and leaves that failure out.
- Data that the peer sends on a stream while it is being closed, data written behind the marker, and the teardown of sources by an interruption: the code promises nothing there. The conservation theorems speak of streams whose close has not been taken up, and the closing theorems of streams that nobody writes after that.
- PlexerObject.Plexer.HangUp: does not close the provider or hang up the streams' up pipes, and does not join the event delivery queue; what such a join can do is `DispatchRest.UserQueueRestsIffNoOwnSync`.
- The capacities of pipes and connection are parameters of the theorems about rest; every other theorem about runs holds of any run, within capacities or not. A write within them is made of any number of steps, except that a header goes out whole.
- Callbacks: one of them waits for one read or one write at a time, and what else it may wait for (another thread, a queue) is left out. The callback for an interruption is left out too. A close read on a stream takes effect on a callback's reads once the bytes before it are read, as an end of file.
- A user that reads a stream to its end after the close has been read: the model's user reads what there is. The end of file is modelled for callbacks. A header with command 0 or -1 hangs up in the model where the code aborts.
- `__YMDispatchQueueExitSync` waits for its threads while it holds the queue's lock, so a queue's exit may never finish; what is proved about a queue that is exiting is safety only.
- The growth of the global queue: a thread may be added at any time, and the rule that decides when is left out. The main queue's loop that comes back to its caller is left out too.
- malloc failure, struct padding values, big-endian hosts, and the byte counters kept for performance figures.
- The 64-bit limit on the number of items in a dictionary.
- Dictionary keys that are yammer strings: keys are compared as values, which is what the string comparison comes to.
- Releasing an object that is already freed, and retaining through a dangling pointer: the heap's methods ask for a handle or a live object, as reading freed memory means nothing.
- YMConnection's teardown, YMSession, the mDNS browser and service, peers, addresses, tasks, strings, YMSocket, YMNumber and logging: plumbing that adds only easy members.
- Classes and concurrency: an object of this project is used by one caller at a time; what threads may do between the steps of its entry points is in the step relations, on values.
- ConnectionObject.Connection.DoSample: the sample's value, a rate in floating point, is a parameter. A read or write that fails in the middle of a sample also reads as a success to the caller in the code; the model says so of a refused length only.
- ConnectionObject.Connection.InitCommon: the pipe holds all that the peer will have sent by the end, so waiting for bytes and running out of them look the same; how two ends run against each other is `ConnectionScript.SetupOutcome`, and `ConnectionScript.PlaysOutcome` ties the two together.
- What a process does after a read has gone past the end of its buffer: the model stops there.
- Dispatches that a finaliser makes, or that reach a queue by way of another queue's proc, count as coming from outside.
- Timers.TimerList.After: the delay comes as seconds and nanoseconds, not as a floating-point number of seconds.
- Uniform.DrawBelow: the words are a finite sequence and there may be no result, because nothing bounds how often a word is rejected.
- TxtRecord.ParsesIffStrings: where the code would read past the string or the blob it was given, the model stops with an outcome of its own and says nothing of what would be read.
- Arc4.Generator.GetWord: when the generator is stirred again, and with what, is left to the caller.
- Arc4.Generator.Fill: the same; the buffer is filled without stirring in between.
