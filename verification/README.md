# A verified model of iocp-http-runtime

A Dafny model of the protocol engines of a C++ HTTP server runtime, with proofs of what they are for.

* **HTTP/2.** `HpackInteger`, `Huffman`, `HuffmanTable`, `HuffmanReading`, `Hpack`, `HpackWire`, `HpackTables` and
  `HpackCodecObject` are header compression (RFC 7541). `Frames` is the frame header. `Outbound`, `OutboundRuns`,
  `OutboundHeaders`, `OutboundWire` and `OutboundObject` are the flow-controlled response scheduler (sections 5.2 and
  6.9 of RFC 9113). `H2Inbound`, `H2Lifecycle`, `H2Payloads`, `H2Requests`, `H2Replies`, `H2Answers`,
  `H2SessionObject`, `H2Recovery` and `H2Pipeline` are the receiving session, and `H2Connection` puts session and
  scheduler together. `Bootstrap` chooses the protocol of a connection, and
  `BootstrapServer` is that choice as the server sets it up.
* **HTTP/1.1.** `Text`, `HttpText`, `HttpParser`, `HttpSplit`, `HttpSession`, `HttpSessionSplit`, `HttpOrder`, `HttpObjects`
  are the resumable parser and the session over it; `HttpFields`, `HttpGrammar` and `HttpConversation` say what they make
  of any octets, from single lines to whole connections; `HttpPrint`, `HttpRoundTrip`, `HttpPipeline` write requests (RFC 9112) and read
  them back; `HttpTrailer`, `HttpChunk` and `HttpChunkInputs` show where the parser depends on how its input arrives
  and what it makes of chunk sizes and chunk ends.
* **Transport and execution.** `SendQueue`, `Connection`, `ConnectionObject`; `Executors`, `ExecutorRuns`,
  `ExecutorObjects`; `Ring`.

Each stateful component appears twice: as functions from state to state, about which the theorems over whole runs
are proved, and as a class whose methods have the loops and field updates of the source and are proved to compute
those functions. Everything a component does to the outside (frames sent, requests dispatched, socket calls) is a
list of events or a history; answers from outside (executor, scheduler, socket) are inputs. Beside the
machines stand references that have none of their state: representations in the octets of RFC 7541 (`HpackWire`),
answers told from the frames taken so far (`H2Replies`), messages read line by line (`HttpGrammar`); the machines are
proved to do exactly what these say. A section under a mutex
is one step, and steps interleave freely. Numbers are unbounded, with 32-bit and 64-bit wrap-around, truncation and
overflow guards written out where the source has them.

Behaviour found in the code and kept as it is:

* Octet 220 has a Huffman row one digit short, so header text is carried if and only if it avoids that octet
  (`HuffmanTable.TextSurvivesIff`).
* Only the last of several table sizes is signalled, so the two HPACK tables may differ, though decoding stays
  right. Exactly when they differ, and a run in which they do: `HpackTables.TablesMeetIff`,
  `HpackTables.TablesAfterSizesIff`, `HpackTables.TablesMayDiffer`; decoding: `Hpack.Synchrony`.
* The decoder refuses the never-indexed literal form of section 6.2.3 of RFC 7541 (`HpackWire.DecodedIff`), reads
  integers modulo 2^32 (`HpackWire.NumberRead`), and does not look at the padding of packed strings
  (`HuffmanReading.DecodeIff`).
* Frame headers carry stream identifiers faithfully only below 65536 (`Frames.HeaderRoundTripIff`).
* A window update for a stream that has no response yet erases the stream (`OutboundRuns.WaitingStreamKeptIff`,
  `OutboundRuns.EarlyWindowUpdateLosesStream`).
* A chunk trailer line beyond the header limit completes the request, at an octet that depends on how the input
  was cut (`HttpSplit.SplitIndependentIff`, `HttpSessionSplit.SessionSplitIndependentIff`,
  `HttpTrailer.OutcomeDependsOnTheSplit`).
* A chunk size near 2^64 wraps the offset sum, and the copy then throws. Exactly when: `HttpChunk.ParseThrowsIff`,
  `HttpChunk.WrappingIff`; an input: `HttpChunkInputs.ParseCanThrow`.
* The two octets after a chunk are skipped unread (`HttpChunk.ChunkEndNeverMatters`), so endings other than CRLF are
  accepted (`HttpChunkInputs.AnyEndingAccepted`, `HttpChunkInputs.SloppyEndingAccepted`).
* The documentation asks that a serial executor be stopped before its pool. With draining stops the order does not
  matter (`ExecutorRuns.DrainStopsRunEverything`). A pool stop that cancels may discard the scheduled drain of a
  serial executor, which then never stops if tasks are pending: exactly when (`ExecutorRuns.PoolStopStrandsIff`,
  `ExecutorRuns.StopFailsIff`), for how long (`ExecutorRuns.LostDrainStrands`), and a run
  (`ExecutorRuns.CancelledPoolStrands`).

`dafny verify dfyconfig.toml` checks the whole project.

## Model

| member | source | states |
|---|---|---|
| HpackInteger.IntegerRoundTrip | src/protocol/http2/http2_hpack.cpp:456-497 | every value below 2^32 with every prefix of 4 to 7 bits is read back from anywhere in a buffer, using exactly the octets written, at most six, whatever follows; no overflow guard trips |
| HpackInteger.ContinuationRoundTrip | src/protocol/http2/http2_hpack.cpp:767-794 | the seven-bit groups of a value are summed back to it without leaving 32 bits |
| HpackInteger.WriteInteger | src/protocol/http2/http2_hpack.cpp:767-794 | the writing loop produces the octets of EncodeInt |
| HpackInteger.WriteContinuation | src/protocol/http2/http2_hpack.cpp:780-794 | its inner loop produces the continuation groups |
| HpackInteger.ReadInteger | src/protocol/http2/http2_hpack.cpp:456-497 | the reading loop returns what ReadInt specifies, errors included |
| Huffman.RoundTrip | src/protocol/http2/http2_hpack.cpp:106-195 | for any table clear on the symbols used and safe against one-padding, the decoder returns every text from its encoding |
| Huffman.RoundTripIff | src/protocol/http2/http2_hpack.cpp:106-195 | a text survives coding if and only if it avoids the one row whose word starts with another word |
| Huffman.MisreadText | src/protocol/http2/http2_hpack.cpp:155-195 | a text containing that row is decoded to something else |
| Huffman.EncodeText | src/protocol/http2/http2_hpack.cpp:106-136 | the 64-bit accumulator loop packs exactly the code words followed by ones |
| Huffman.EmitOctets | src/protocol/http2/http2_hpack.cpp:119-126 | moving whole octets out of the accumulator neither loses nor changes a bit |
| Huffman.LastOctet | src/protocol/http2/http2_hpack.cpp:128-134 | the last octet holds the remaining bits followed by ones |
| Huffman.BuildTree | src/protocol/http2/http2_hpack.cpp:291-313 | the node vector is the trie of the table: a node for every prefix of a word, labelled with the last row that owns it |
| Huffman.AddSymbol | src/protocol/http2/http2_hpack.cpp:293-312 | adding a row keeps the vector the trie of the rows added so far |
| Huffman.DecodeText | src/protocol/http2/http2_hpack.cpp:155-195 | walking the trie bit by bit returns what the reference decoder over code words returns |
| Huffman.DecodeOctet | src/protocol/http2/http2_hpack.cpp:167-191 | the same for one octet, from any place in the trie |
| Huffman.UnpackPack | src/protocol/http2/http2_hpack.cpp:118-134 | packing bits into octets and unpacking gives the bits and fewer than eight ones |
| HuffmanTable.TextSurvivesIff | src/protocol/http2/http2_hpack.cpp:21-104 | with the 257 rows as listed, decoding an encoded text returns it if and only if it does not contain octet 220, whose row (lines 91 and 276) is one hexadecimal digit short |
| HuffmanTable.ListedIsClear | src/protocol/http2/http2_hpack.cpp:21-104 | no word of the listed table starts with another, but for the row of 220 |
| HuffmanTable.MisprintIsMisread | src/protocol/http2/http2_hpack.cpp:91 | the row of 220 starts with the word of another octet |
| HuffmanTable.TablePadSafe | src/protocol/http2/http2_hpack.cpp:206-289 | no word is a run of at most seven ones, so padding is never read as a symbol |
| HuffmanTable.TableFits | src/protocol/http2/http2_hpack.cpp:21-104 | every word fits its width and the accumulator |
| Hpack.Synchrony | src/protocol/http2/http2_hpack.cpp:549-765 | for every interleaving of table size changes and header lists, an equally configured decoder reading the blocks in order returns exactly the lists sent |
| Hpack.BlockSynced | src/protocol/http2/http2_hpack.cpp:549-752 | one block: the decoder returns the encoded list and both ends stay in step, the encoder table a prefix of the decoder table |
| Hpack.FieldRoundTrip | src/protocol/http2/http2_hpack.cpp:644-752 | one field, indexed or literal, is read back and does the same to both tables |
| Hpack.AddSynced | src/protocol/http2/http2_hpack.cpp:424-454 | adding an entry on both sides keeps the prefix relation, evictions included |
| Hpack.EvictedPrefix | src/protocol/http2/http2_hpack.cpp:443-454 | evicting keeps a prefix a prefix |
| Hpack.UpdateSynced | src/protocol/http2/http2_hpack.cpp:754-765 | reading the pending size update brings the limits together |
| Hpack.ResizeSynced | src/protocol/http2/http2_hpack.cpp:754-765 | changing the table size keeps both ends in step |
| HpackTables.TablesMeetIff | src/protocol/http2/http2_hpack.cpp:754-765 | for any two ends in step: after the next block the encoder and decoder tables are equal if and only if they were equal once the signalled size was applied, or the fields added push the surplus out |
| HpackTables.TablesAfterSizesIff | src/protocol/http2/http2_hpack.cpp:754-765 | from equal tables, several size changes and a block leave them equal if and only if what the last size keeps also fits the smallest, or the block pushes the surplus out; only the last size is signalled |
| HpackTables.FieldsMeetIff | src/protocol/http2/http2_hpack.cpp:424-454 | the same condition for the fields of one block |
| HpackTables.TablesMayDiffer | src/protocol/http2/http2_hpack.cpp:754-765 | from a fresh pair: send a field, set size 0, set size 4096, send again; the encoder table is empty and the decoder table still holds the field |
| HpackCodecObject.TableSynchrony | src/protocol/http2/http2_hpack.cpp:549-765 | synchrony with the listed Huffman table, for header text without octet 220 |
| HpackCodecObject.SendableIff | src/protocol/http2/http2_hpack.cpp:508-547 | header text is carried by the codec if and only if it lacks octet 220 |
| HpackWire.AnyBlockDecoded | src/protocol/http2/http2_hpack.cpp:549-642 | for any peer encoder: a block written in representations of section 6 of RFC 7541 (indexed, literal with and without indexing, name by index or spelled out, strings raw or packed, integers in any number of groups up to five, table size updates) decodes to exactly the fields it stands for and leaves the table it describes; only the indexing form adds an entry, and only a list beyond the limit is refused |
| HpackWire.DecodedIff | src/protocol/http2/http2_hpack.cpp:549-642 | a block is decoded exactly if it is written so and its list is within the limit; every other octet string, the never-indexed form among them, is refused |
| HpackWire.EncoderWrites | src/protocol/http2/http2_hpack.cpp:644-752 | what the encoder emits is such a block, and at a peer in step it stands for the list that was given |
| HpackWire.FieldWritten | src/protocol/http2/http2_hpack.cpp:660-749 | a known field goes as the lowest index that names it, any other as a stored literal whose name is the lowest index that has it or is spelled out |
| HpackWire.RepresentationRead | src/protocol/http2/http2_hpack.cpp:559-632 | one representation is read as what it stands for |
| HpackWire.RepresentationFound | src/protocol/http2/http2_hpack.cpp:559-632 | whatever the decoder accepts is one of these representations and stands for what it returned |
| HpackWire.LiteralRead | src/protocol/http2/http2_hpack.cpp:508-547 | a string is returned as it stands, or unpacked if its first bit says so |
| HpackWire.NumberRead | src/protocol/http2/http2_hpack.cpp:456-497 | an integer of section 5.1 of RFC 7541, in as few groups as possible or not, is read modulo 2^32 |
| HpackWire.NumberFound | src/protocol/http2/http2_hpack.cpp:456-497 | whatever is read as an integer was written so |
| HpackWire.EncodeWrites | src/protocol/http2/http2_hpack.cpp:767-794 | the integer writer writes the value it is given |
| HpackWire.EvictedFits | src/protocol/http2/http2_hpack.cpp:443-454 | eviction keeps the newest entries, as many as fit at 32 octets more than name and value each |
| HpackWire.IndexLowest | src/protocol/http2/http2_hpack.cpp:662-726 | the search returns the lowest index that addresses a match, and nothing only if there is none |
| HuffmanReading.DecodeIff | src/protocol/http2/http2_hpack.cpp:155-195 | for any octets: they decode to a text exactly if they are its code words followed by an unfinished one, or to the empty text if the end-of-string word falls in the last octet; all others are refused |
| HpackCodecObject.HpackCodec.constructor | src/protocol/http2/http2_hpack.cpp:392-398 | a fresh codec: empty table at its maximum size |
| HpackCodecObject.HpackCodec.Evict | src/protocol/http2/http2_hpack.cpp:443-454 | the eviction loop keeps the newest entries that fit, and the stored size is their sum |
| HpackCodecObject.HpackCodec.AddEntry | src/protocol/http2/http2_hpack.cpp:424-441 | AddDynamicEntry: an oversized entry empties the table |
| HpackCodecObject.HpackCodec.SetSize | src/protocol/http2/http2_hpack.cpp:754-765 | refused above the maximum and then nothing changes; otherwise resized and pending |
| HpackCodecObject.HpackCodec.FindEntry | src/protocol/http2/http2_hpack.cpp:662-688 | the search loop finds the first matching entry |
| HpackCodecObject.HpackCodec.IndexOf | src/protocol/http2/http2_hpack.cpp:662-726 | static entries before dynamic ones |
| HpackCodecObject.HpackCodec.WriteText | src/protocol/http2/http2_hpack.cpp:796-819 | EncodeString appends a length and the Huffman octets |
| HpackCodecObject.HpackCodec.WriteName | src/protocol/http2/http2_hpack.cpp:702-743 | the name by index or spelled out |
| HpackCodecObject.HpackCodec.WriteField | src/protocol/http2/http2_hpack.cpp:660-749 | one header field, and its effect on the table |
| HpackCodecObject.HpackCodec.Encode | src/protocol/http2/http2_hpack.cpp:644-752 | the encoding loop emits EncodeBlock, a pending size first |
| HpackCodecObject.HpackCodec.LookupEntry | src/protocol/http2/http2_hpack.cpp:400-422 | an index names a static or dynamic entry, or is refused |
| HpackCodecObject.HpackCodec.ReadString | src/protocol/http2/http2_hpack.cpp:508-547 | DecodeString: the octets as they stand, or unpacked, or an error, as LiteralRead tells for every peer |
| HpackCodecObject.HpackCodec.ReadLiteralField | src/protocol/http2/http2_hpack.cpp:580-594 | a literal representation |
| HpackCodecObject.HpackCodec.ReadOne | src/protocol/http2/http2_hpack.cpp:559-632 | one representation by its top bits, table size updates included |
| HpackCodecObject.HpackCodec.Decode | src/protocol/http2/http2_hpack.cpp:549-642 | the decoding loop returns DecodeBlock: the list, or failure with what earlier fields did to the table |
| Frames.HeaderRoundTripIff | src/protocol/http2/http2_frames.cpp:39-109 | decoding inverts encoding exactly for lengths below 2^24 and identifiers below 65536 |
| Frames.DecodedIdIff | src/protocol/http2/http2_frames.cpp:58-69 | the identifier read is the one on the wire (section 4.1 of RFC 9113) exactly when that is below 65536 |
| Frames.DecodedHeaderIs | src/protocol/http2/http2_frames.cpp:39-75 | every header: length, type and flags are read as they stand in the octets of section 4.1 of RFC 9113, and of the identifier the upper 15 and the lower 16 bits are laid over each other |
| Frames.EncodedHeaderIs | src/protocol/http2/http2_frames.cpp:77-109 | the header written has 24 bits of length, type, flags, a clear bit and 31 of the identifier |
| Frames.IncrementRoundTrip | src/protocol/http2/http2_frames.cpp:242-257 | a window increment below 2^31 is read back |
| OutboundRuns.EveryReachableStateIsGood | src/protocol/http2/http2_outbound.cpp:62-342 | credit, delivery and the absence of stalls hold after every run of operations |
| OutboundRuns.AdvanceKeeps | src/protocol/http2/http2_outbound.cpp:62-342 | every operation preserves them |
| OutboundRuns.NoLostWakeup | src/protocol/http2/http2_outbound.cpp:92-219 | in every reachable state a submitted response with unsent body has no stream credit or finds no connection credit |
| OutboundRuns.CreditConserved | src/protocol/http2/http2_outbound.cpp:129-219 | connection window plus DATA octets sent is 65535 plus increments accepted, within 0 and 2^31-1; each stream window plus its offset is the initial window in force plus its increments |
| OutboundRuns.ResponsesDelivered | src/protocol/http2/http2_outbound.cpp:92-127 | the frames of an accepted response are its header block, then a prefix of its body, END_STREAM on the last frame only and nothing after it |
| OutboundRuns.PeerReadsHeaders | src/protocol/http2/http2_outbound.cpp:221-278 | a peer that reassembles header blocks from the frames and decompresses them gets the header lists of all accepted responses, in order |
| OutboundHeaders.PeerReadsResponses | src/protocol/http2/http2_outbound.cpp:221-278 | a peer that reassembles and decompresses the header blocks gets, for every accepted response in order, the decimal status and then exactly the headers that may be forwarded |
| OutboundHeaders.ListDescribes | src/protocol/http2/http2_outbound.cpp:227-239 | the list is :status with the decimal status, then, in order and with their values, exactly the headers whose lower-cased name is not empty, does not begin with a colon and is none of connection, keep-alive, proxy-connection, transfer-encoding and upgrade |
| OutboundHeaders.ForwardedPicks | src/protocol/http2/http2_outbound.cpp:230-239 | the headers kept are given by an increasing index map onto exactly those places |
| OutboundHeaders.OrdinaryHeadersStay | src/protocol/http2/http2_outbound.cpp:230-239 | a list of ordinary lower-case headers goes out unchanged |
| OutboundHeaders.ForwardableIff | src/protocol/http2/http2_outbound.cpp:235-237 | which names are forwarded, in octets |
| OutboundRuns.FramesWithinLimit | src/protocol/http2/http2_outbound.cpp:221-323 | no frame exceeds the frame size in force when it is sent |
| OutboundRuns.RefusedChangesNothing | src/protocol/http2/http2_outbound.cpp:129-219 | a refused operation, a refused SETTINGS among them, changes no window and sends nothing |
| OutboundRuns.RefusedIff | src/protocol/http2/http2_outbound.cpp:92-219 | exactly which operations are refused: a response without a stream waiting for it, settings out of range or taking a window past 2^31-1, an increment of zero, past that limit or for no stream, and all of them once closed |
| OutboundRuns.CloseEnds | src/protocol/http2/http2_outbound.cpp:85-90 | after Close nothing is ever sent and there are no streams, whatever is asked |
| OutboundRuns.WaitingStreamKeptIff | src/protocol/http2/http2_outbound.cpp:195-219 | a stream opened and not yet answered survives an accepted operation if and only if that operation is not a window update for it |
| OutboundRuns.EarlyWindowUpdateLosesStream | src/protocol/http2/http2_outbound.cpp:210-215 | a window update before the response erases the stream, so the response is refused |
| Outbound.FlushCredit | src/protocol/http2/http2_outbound.cpp:280-323 | one flush sends what it advances over, charges both windows for it and stops only for want of body or credit |
| Outbound.FlushShape | src/protocol/http2/http2_outbound.cpp:280-323 | its frames are non-empty, within the frame size, and END_STREAM is on the last exactly if the body is finished |
| Outbound.FlushFull | src/protocol/http2/http2_outbound.cpp:289-318 | all its frames but the last are as large as the peer allows |
| Outbound.HeaderFacts | src/protocol/http2/http2_outbound.cpp:242-277 | header fragments concatenate to the block; END_HEADERS and END_STREAM are on the last only |
| Outbound.HeaderFull | src/protocol/http2/http2_outbound.cpp:242-277 | all header fragments but the last are as large as the peer allows |
| Outbound.SettingsTaken | src/protocol/http2/http2_outbound.cpp:129-175 | accepted settings are those in force afterwards, and the table size, within the maximum of the encoder, is announced with the next block |
| OutboundWire.BlocksContiguous | src/protocol/http2/http2_outbound.cpp:221-278 | on the wire of every run, HEADERS without END_HEADERS is followed directly by CONTINUATION frames of the same stream until END_HEADERS, with no frame of any stream in between (section 4.3 of RFC 9113) |
| OutboundWire.StepContiguous | src/protocol/http2/http2_outbound.cpp:92-219 | so are the frames of each single operation |
| H2Connection.SessionDrivesScheduler | src/protocol/http2/http2_stream.cpp:110-135 | both halves together: whatever a peer sends and whenever responses are submitted, the session opens a stream at the scheduler at most once, so credit, delivery, absence of stalls and contiguous header blocks hold in every state the pair reaches |
| H2Connection.IncreasingIsAllowed | src/protocol/http2/http2_outbound.cpp:62-76 | a scheduler told to open ever higher streams is used as its theorems assume |
| H2Connection.DrivenOpens | src/protocol/http2/http2_stream.cpp:546-556 | the streams opened at the scheduler are those the session opened, in order |
| H2Connection.CreditFromFrames | src/protocol/http2/http2_stream.cpp:895-939 | the send windows of the pair in terms of the frames of the peer: connection window plus DATA octets sent is 65535 plus the increments of all WINDOW_UPDATE frames taken for it, less those the scheduler refused; the same for each stream, its initial window and its own frames |
| H2Connection.ConnectionCreditExact | src/protocol/http2/http2_stream.cpp:920-925 | with the answers of the scheduler itself, as long as the session has not ended the connection nothing granted to it was refused, so its window plus what was sent is 65535 plus the increments taken |
| H2Connection.DrivenRaises | src/protocol/http2/http2_stream.cpp:920-936 | the increments that reach the scheduler are those the session passed on, stream by stream |
| OutboundObject.H2OutboundScheduler.Create | src/protocol/http2/http2_outbound.cpp:40-60 | nothing is made exactly for an initial window above 2^31-1 or a frame size outside 16384 to 16777215; otherwise a fresh scheduler |
| OutboundObject.H2OutboundScheduler.Adopt | src/protocol/http2/http2_outbound.cpp:160-172 | windows moved, limits and table size replaced, nothing sent yet |
| OutboundObject.H2OutboundScheduler.OpenStream | src/protocol/http2/http2_outbound.cpp:62-76 | a new stream with the initial window, an existing one untouched |
| OutboundObject.H2OutboundScheduler.CloseOne | src/protocol/http2/http2_outbound.cpp:78-83 | the stream is gone |
| OutboundObject.H2OutboundScheduler.CloseAll | src/protocol/http2/http2_outbound.cpp:85-90 | closed for good |
| OutboundObject.H2OutboundScheduler.SubmitResponse | src/protocol/http2/http2_outbound.cpp:92-127 | Step of Submit: headers framed, body flushed, the stream dropped when done |
| OutboundObject.H2OutboundScheduler.ApplyPeerSettings | src/protocol/http2/http2_outbound.cpp:129-175 | Step of Settings: all windows move or none |
| OutboundObject.H2OutboundScheduler.WindowsFit | src/protocol/http2/http2_outbound.cpp:152-159 | the checking loop: no window would pass 2^31-1 |
| OutboundObject.H2OutboundScheduler.MoveWindows | src/protocol/http2/http2_outbound.cpp:160-164 | the moving loop shifts every window |
| OutboundObject.H2OutboundScheduler.UpdateConnectionWindow | src/protocol/http2/http2_outbound.cpp:177-193 | the fields after the call, whatever it returns and everything sent are exactly those of Step of UpdateConnection, about which the run theorems are proved |
| OutboundObject.H2OutboundScheduler.UpdateStreamWindow | src/protocol/http2/http2_outbound.cpp:195-219 | the fields after the call, whatever it returns and everything sent are exactly those of Step of UpdateStream, about which the run theorems are proved |
| OutboundObject.H2OutboundScheduler.BuildHeaders | src/protocol/http2/http2_outbound.cpp:227-239 | the list that ListDescribes tells: status first, then the headers that may be forwarded, names lowered |
| OutboundObject.H2OutboundScheduler.FrameBlock | src/protocol/http2/http2_outbound.cpp:241-277 | the framing loop |
| OutboundObject.H2OutboundScheduler.FlushStream | src/protocol/http2/http2_outbound.cpp:280-323 | the flush loop |
| OutboundObject.H2OutboundScheduler.FlushAndErase | src/protocol/http2/http2_outbound.cpp:331-336 | one turn of the flush-all loop |
| OutboundObject.H2OutboundScheduler.FlushEvery | src/protocol/http2/http2_outbound.cpp:325-342 | the flush-all loop |
| H2Inbound.SplitIndependence | src/protocol/http2/http2_stream.cpp:161-250 | any two cuttings of one stream that do not overflow the buffer make the session handle the same frames, dispatch the same requests and end in the same state, up to the first result that is not Ready |
| H2Inbound.FeedAllIsDrain | src/protocol/http2/http2_stream.cpp:161-250 | feeding in pieces does what draining the whole stream does |
| H2Inbound.DrainResumes | src/protocol/http2/http2_stream.cpp:178-243 | draining in two instalments is draining at once |
| H2Inbound.TurnStable | src/protocol/http2/http2_stream.cpp:285-418 | later octets do not change a turn already decided |
| H2Inbound.Charge | src/protocol/http2/http2_stream.cpp:49-62 | a charged window is the old one minus the charge plus the increment sent, and stays between half and all of its initial size |
| H2Inbound.SettingsReadIff | src/protocol/http2/http2_stream.cpp:446-489 | a SETTINGS frame is refused exactly when one of its settings is out of range; otherwise the last setting of each name counts and names that do not occur keep their value |
| H2Answers.EveryLifeIsConversation | src/protocol/http2/http2_stream.cpp:161-250 | whatever octets come in whatever pieces, and whatever executor and scheduler answer: the session says exactly what the frames it took prescribe, frame by frame, and nothing else; it takes none after a GOAWAY of the peer, and ends the connection with its own, naming the highest stream opened and the reason |
| H2Replies.HandleIs | src/protocol/http2/http2_stream.cpp:361-418 | what each frame is answered with, told from the frames before it alone: SETTINGS, WINDOW_UPDATE, PING, RST_STREAM, GOAWAY, PRIORITY and unknown types, header blocks and DATA, errors included |
| H2Replies.FrameKnows | src/protocol/http2/http2_stream.cpp:361-418 | the tables, buffers, windows and decoder of the session are functions of the frames taken |
| H2Replies.HeadersIs | src/protocol/http2/http2_stream.cpp:535-604 | a header frame opens its stream exactly if its identifier is odd, higher than all before and one of few enough, and then answers for its block |
| H2Replies.DataIs | src/protocol/http2/http2_stream.cpp:745-871 | a DATA frame is refused, closes its stream, or is accepted and topped up, as credit and body limit tell |
| H2Answers.FrameTells | src/protocol/http2/http2_stream.cpp:318-359 | the octets at hand wait, or end the connection for a payload beyond the limit, or are one frame, whose status is reported |
| H2Answers.PrefaceTells | src/protocol/http2/http2_stream.cpp:285-316 | the preface is waited for while it may still come and refused once it cannot |
| H2Answers.PrefaceSpelled | src/protocol/http2/http2_frames.h:70-76 | the 24 octets of the preface of section 3.4 of RFC 9113 |
| H2Answers.FeedTells | src/protocol/http2/http2_stream.cpp:161-177 | a closed session takes nothing, and a piece beyond the buffer ends the connection with ENHANCE_YOUR_CALM |
| H2Answers.WindowUpdatesTold | src/protocol/http2/http2_stream.cpp:895-939 | over every life the credit the scheduler is told of, for each stream and for the connection, is exactly the increments of the well-formed and timely WINDOW_UPDATE frames taken for it |
| H2Answers.ReplyCredit | src/protocol/http2/http2_stream.cpp:895-939 | credit is passed on directly after such a frame and nowhere else |
| H2Answers.LifeApproved | src/protocol/http2/http2_stream.cpp:920-925 | while the connection lasts every increment for it was accepted |
| H2Requests.AssembleIff | src/protocol/http2/http2_stream.cpp:634-713 | a header list is malformed exactly if a name is empty, unknown with a colon or has a capital, a pseudo header follows another header, or method or path occur twice; it is a request exactly if besides it has a path and one of seven methods; and the request is told by the list |
| H2Requests.TakenIff | src/protocol/http2/http2_stream.cpp:639-690 | one header is taken exactly if the list stays well formed |
| H2Lifecycle.LifeIsGood | src/protocol/http2/http2_stream.cpp:161-250 | the invariant of identifiers, credit, dispatch and frame order holds after any feeding whatever |
| H2Lifecycle.HandleKeeps | src/protocol/http2/http2_stream.cpp:318-418 | every frame keeps it |
| H2Lifecycle.StreamsOpenInOrder | src/protocol/http2/http2_stream.cpp:511-558 | in every reachable state the streams opened are odd and strictly increasing (section 5.1.1 of RFC 9113), never more open than allowed, and only frames the open header block admits were handled, but for a last one that closed the connection |
| H2Payloads.DispatchedOnceWithWholeBody | src/protocol/http2/http2_stream.cpp:1028-1071 | in every life each identifier is dispatched at most once; before the dispatch its stream had been opened and frames with END_HEADERS and END_STREAM had been taken for it; and its body is the unpadded payloads of all DATA frames of its stream taken before, in order |
| H2Payloads.ReceiveCredit | src/protocol/http2/http2_stream.cpp:786-862 | in every reachable state each receive window is its initial size plus increments sent minus the payload lengths of the DATA frames taken, padding included (for the connection, of those accepted, each directly before its acceptance), between half its initial size and all of it; an open stream holds exactly the payloads of its frames |
| H2Payloads.LifeLedger | src/protocol/http2/http2_stream.cpp:161-250 | that account holds after any feeding whatever |
| H2Payloads.HandleEffect | src/protocol/http2/http2_stream.cpp:318-418 | every frame adds to bodies and credit exactly what it carries |
| H2Lifecycle.FlowCheckIff | src/protocol/http2/http2_stream.cpp:786-802 | in every reachable state a well-padded DATA frame on a stream awaiting data ends the connection exactly when it exceeds the credit of stream or connection, is refused alone exactly when it fits but the body grows too long, and is accepted otherwise |
| H2Lifecycle.DispatchedOnce | src/protocol/http2/http2_stream.cpp:1028-1071 | each identifier is dispatched at most once, its stream opened and its header block and stream ended before that, with exactly the octets accepted for it before and ever |
| H2Lifecycle.AcceptedCredit | src/protocol/http2/http2_stream.cpp:786-862 | the windows in terms of what was accepted |
| H2Lifecycle.FrameOrder | src/protocol/http2/http2_stream.cpp:361-376 | a frame the open header block does not admit is a protocol error; any other leaves the block open or closed as its flags say |
| H2Lifecycle.DataKeeps | src/protocol/http2/http2_stream.cpp:745-871 | DATA keeps the invariant |
| H2Lifecycle.HeadersKeeps | src/protocol/http2/http2_stream.cpp:535-556 | HEADERS keeps the invariant |
| H2Lifecycle.ContinuationKeeps | src/protocol/http2/http2_stream.cpp:523-534 | CONTINUATION keeps the invariant |
| H2Lifecycle.DispatchKeeps | src/protocol/http2/http2_stream.cpp:1028-1071 | a dispatch keeps the invariant |
| H2Recovery.FramesRecovered | src/protocol/http2/http2_stream.cpp:318-418 | preface and serialised frames, cut in any way, are handled as exactly those frames in order, up to the first that stops the session |
| H2Recovery.DrainHandlesAll | src/protocol/http2/http2_stream.cpp:318-350 | the octets of frames are taken apart into those frames |
| H2Recovery.ShortStreamFits | src/protocol/http2/http2_stream.cpp:175-178 | a stream no longer than the buffer never overflows it |
| H2Pipeline.RequestsArrive | src/protocol/http2/http2_stream.cpp:161-250 | end to end: canonical requests compressed by one encoder, blocks cut into HEADERS and CONTINUATION, bodies into DATA, padded and prioritised or not, as many interleaved as streams are allowed, every piece within the credit then outstanding, some taken back, with other frames in between, octets cut in any way: exactly the requests that were ended are dispatched, in the order of their ends, each with its own head and whole body |
| H2Pipeline.ActServed | src/protocol/http2/http2_stream.cpp:318-418 | one act of such a client (a head, a piece of a body, RST_STREAM, or another frame) while other requests are under way |
| H2Pipeline.BeginServed | src/protocol/http2/http2_stream.cpp:511-743 | a head opens its stream, or is dispatched at once if it ends it |
| H2Pipeline.PieceServed | src/protocol/http2/http2_stream.cpp:745-871 | a piece of any size within both windows is charged with its padding, stored without it, and completes the request if it is the last |
| H2Pipeline.CancelServed | src/protocol/http2/http2_stream.cpp:873-893 | RST_STREAM takes a request back and touches no other |
| H2Pipeline.AsideTaken | src/protocol/http2/http2_stream.cpp:420-509 | SETTINGS and WINDOW_UPDATE that the scheduler accepts, PING, PRIORITY and unknown types leave streams, windows and decoder as they are |
| H2Pipeline.RequestRead | src/protocol/http2/http2_stream.cpp:634-713 | pseudo headers become method, target, path, query and Host, other headers stay in order |
| H2Pipeline.BlockTaken | src/protocol/http2/http2_stream.cpp:558-622 | a block in fragments, with or without priority fields and padding, is as good as the block at once |
| H2SessionObject.AssembleRequest | src/protocol/http2/http2_stream.cpp:634-713 | the loop over decoded headers builds what Assemble says |
| H2SessionObject.ReadAll | src/protocol/http2/http2_stream.cpp:446-489 | the loop over settings reads what ReadSettings says, settings 3 and 6 and the values before a refused one included |
| H2SessionObject.H2Session.constructor | src/protocol/http2/http2_stream.cpp:110-159 | a fresh session |
| H2SessionObject.H2Session.CloseStream | src/protocol/http2/http2_stream.cpp:1017-1026 | the stream is gone and the scheduler told |
| H2SessionObject.H2Session.FailConnection | src/protocol/http2/http2_stream.cpp:1106-1126 | GOAWAY if open, everything dropped, closed |
| H2SessionObject.H2Session.DispatchRequest | src/protocol/http2/http2_stream.cpp:1028-1071 | the fields after the call, whatever it returns and everything sent are exactly those of Dispatch, about which the run theorems are proved |
| H2SessionObject.H2Session.HandleSettingsFrame | src/protocol/http2/http2_stream.cpp:420-509 | the fields after the call, whatever it returns and everything sent are exactly those of HandleSettings, about which the run theorems are proved |
| H2SessionObject.H2Session.FinishBlock | src/protocol/http2/http2_stream.cpp:628-743 | the fields after the call, whatever it returns and everything sent are exactly those of FinishHeaders, about which the run theorems are proved |
| H2SessionObject.H2Session.AppendFragment | src/protocol/http2/http2_stream.cpp:602-626 | the fields after the call, whatever it returns and everything sent are exactly those of AddFragment, about which the run theorems are proved |
| H2SessionObject.H2Session.HandleHeadersFrame | src/protocol/http2/http2_stream.cpp:535-604 | the fields after the call, whatever it returns and everything sent are exactly those of HandleHeaders, about which the run theorems are proved |
| H2SessionObject.H2Session.HandleContinuationFrame | src/protocol/http2/http2_stream.cpp:523-534 | the fields after the call, whatever it returns and everything sent are exactly those of HandleContinuation, about which the run theorems are proved |
| H2SessionObject.H2Session.TopUp | src/protocol/http2/http2_stream.cpp:826-862 | a window below half is restored and the increment sent |
| H2SessionObject.H2Session.AcceptData | src/protocol/http2/http2_stream.cpp:804-871 | the fields after the call, whatever it returns and everything sent are exactly those of TakeData, about which the run theorems are proved |
| H2SessionObject.H2Session.HandleDataFrame | src/protocol/http2/http2_stream.cpp:745-802 | the fields after the call, whatever it returns and everything sent are exactly those of HandleData, about which the run theorems are proved |
| H2SessionObject.H2Session.HandleWindowUpdateFrame | src/protocol/http2/http2_stream.cpp:895-939 | the fields after the call, its status and the credit passed on are those of HandleWindowUpdate, which WindowUpdatesTold and HandleIs tell from the frames |
| H2SessionObject.H2Session.HandleOtherFrame | src/protocol/http2/http2_stream.cpp:873-982 | the fields after the call, whatever it returns and everything sent are exactly those of HandleOther, about which the run theorems are proved |
| H2SessionObject.H2Session.HandleFrame | src/protocol/http2/http2_stream.cpp:361-418 | the fields after the call, whatever it returns and everything sent are exactly those of Handle, about which the run theorems are proved |
| H2SessionObject.H2Session.ConsumePreface | src/protocol/http2/http2_stream.cpp:285-316 | the comparing loop decides as soon as an octet differs |
| H2SessionObject.H2Session.ConsumeFrame | src/protocol/http2/http2_stream.cpp:318-418 | one frame off the buffer, or waiting, or refusal |
| H2SessionObject.H2Session.TakeTurn | src/protocol/http2/http2_stream.cpp:178-243 | one turn of the loop |
| H2SessionObject.H2Session.FeedBytes | src/protocol/http2/http2_stream.cpp:161-250 | the feed loop does what Feed says, and the result has its status, the number of requests accepted during it and the octets still buffered |
| H2SessionObject.H2Session.EmitDispatch | src/protocol/http2/http2_stream.cpp:1058-1064 | a dispatch is recorded and counted exactly if accepted |
| Bootstrap.ChoosesByPreface | src/protocol/preface_protocol_bootstrap.cpp:30-96 | for every stream and cutting: a session is chosen once the stream is no proper prefix of the preface, the matching one exactly if it starts with the preface, and it has been given exactly the stream while Ready |
| Bootstrap.FeedBootKeeps | src/protocol/preface_protocol_bootstrap.cpp:30-65 | each feed keeps that |
| Bootstrap.SelectKeeps | src/protocol/preface_protocol_bootstrap.cpp:67-96 | so does the selection |
| Bootstrap.BootstrappedH2 | src/protocol/preface_protocol_bootstrap.cpp:30-96 | a client stream reaches a fresh HTTP/2 session whole and makes it do what one parse of the stream does |
| Bootstrap.CountsAddUp | src/protocol/preface_protocol_bootstrap.cpp:67-96 | for any two sessions and any pieces, the dispatch counts the bootstrap reports add up to those the chosen session reported over all it was fed, those of the hand-over included |
| Bootstrap.FeedReports | src/protocol/preface_protocol_bootstrap.cpp:30-96 | so does one feed |
| Bootstrap.FeedTells | src/protocol/preface_protocol_bootstrap.cpp:30-96 | what a feed reports: status and held octets of the chosen session as it then is, or the octets held back here; a session just chosen gets the rest of the piece only if there is any and it is still ready |
| Bootstrap.H2Told | src/protocol/http2/http2_stream.cpp:1058-1064 | the counts an HTTP/2 session reports add up to the requests its executor accepted |
| BootstrapServer.ServerCountsAddUp | apps/http_server/http_server.cpp:368-373 | with HTTP/2 behind the preface and HTTP/1.1 as fallback, the counts the server is told add up to the requests accepted from the session that was chosen |
| BootstrapServer.Http1Told | src/protocol/http/http_session.cpp:163-186 | the counts an HTTP/1.1 session reports add up to the requests its executor accepted |
| BootstrapServer.BootstrappedHttp1 | src/protocol/preface_protocol_bootstrap.cpp:30-96 | a stream that is not HTTP/2, cut in any way, makes the HTTP/1.1 session do what one drain of the whole stream does, also when it stops on the octets held back |
| Bootstrap.PrefaceProtocolBootstrap.constructor | src/protocol/preface_protocol_bootstrap.cpp:9-28 | nothing held, nothing chosen |
| Bootstrap.PrefaceProtocolBootstrap.FeedSession | src/protocol/preface_protocol_bootstrap.cpp:33-36 | the session gets the piece |
| Bootstrap.PrefaceProtocolBootstrap.SelectAndFeed | src/protocol/preface_protocol_bootstrap.cpp:67-96 | the held octets first, the rest only if still Ready; then the counts are added |
| Bootstrap.PrefaceProtocolBootstrap.Feed | src/protocol/preface_protocol_bootstrap.cpp:30-65 | the octet loop does what FeedBoot says, result included; while nothing is chosen the octets held are the buffered ones |
| HttpText.ParseDecimalSize | src/protocol/http/http_request_parser.cpp:108-135 | accepts exactly non-empty runs of digits whose value is below 2^64, with that value |
| HttpText.ParseHexSize | src/protocol/http/http_request_parser.cpp:137-174 | the same for hexadecimal digits |
| HttpText.DecimalRoundTrip | src/protocol/http/http_request_parser.cpp:108-135 | decimal digits of a number are read back |
| HttpText.HexRoundTrip | src/protocol/http/http_request_parser.cpp:137-174 | hexadecimal digits of a number are read back |
| HttpText.HexDigitIff | src/protocol/http/http_request_parser.cpp:155-170 | the digits are 0 to 9, a to f and A to F |
| HttpFields.TrimIs | src/protocol/http/http_request_parser.cpp:68-82 | trimming takes off exactly the blanks and tabs around a core that neither begins nor ends with one |
| HttpFields.HasTokenIff | src/protocol/http/http_request_parser.cpp:84-106 | a list contains a token exactly if one of its comma-separated members, trimmed and in any case, is it |
| HttpFields.TokenIff | src/protocol/http/http_request_parser.cpp:25-53 | which octets make a token |
| HttpFields.HeaderLineIff | src/protocol/http/http_request_parser.cpp:591-627 | a header line is read exactly if a token, a colon and a value without control characters make it up; the name is then the token with each octet 65 to 90 raised by 32 and the value is trimmed |
| HttpFields.FieldRead | src/protocol/http/http_request_parser.cpp:591-627 | so is every name in any case, with any blanks around the value |
| HttpFields.RequestLineIff | src/protocol/http/http_request_parser.cpp:524-589 | a request line is malformed exactly if it is not a token, a space, a target, a space and a version without further spaces |
| HttpFields.PartsRead | src/protocol/http/http_request_parser.cpp:524-589 | of such a line the version is judged first, then the target; path and query are what stands before and after the first question mark |
| HttpFields.FinalizeIff | src/protocol/http/http_request_parser.cpp:629-708 | which header lists are refused and with which error, in terms of the headers of each name, and what the others add up to |
| Text.LowercaseIs | src/protocol/http/http_request_parser.cpp:55-66 | lower case is octet by octet |
| HttpGrammar.ParseReadsMessage | src/protocol/http/http_request_parser.cpp:202-442 | for every input: the resumable parser answers what a reader without saved offsets makes of the first message, line by line, with every limit and error in its place; after 100 Continue it answers for the body |
| HttpGrammar.HeadersRead | src/protocol/http/http_request_parser.cpp:252-343 | the head, header by header |
| HttpGrammar.ChunksRead | src/protocol/http/http_request_parser.cpp:359-415 | the chunks |
| HttpGrammar.TrailerRead | src/protocol/http/http_request_parser.cpp:417-441 | the trailer |
| HttpGrammar.FixedRead | src/protocol/http/http_request_parser.cpp:345-357 | a body of given length |
| HttpGrammar.ScanCuts | src/protocol/http/http_request_parser.cpp:466-522 | a line ends at CR LF within its limit, waits, is too long, or is spoilt by a lone CR or LF |
| HttpParser.StepKeeps | src/protocol/http/http_request_parser.cpp:220-441 | every turn keeps line start <= scan offset <= input size, gets further or ends, and changes only the scan offset when it waits |
| HttpParser.Loop | src/protocol/http/http_request_parser.cpp:220-441 | the loop ends, and a completed request used up at least one octet |
| HttpSplit.SplitIndependentIff | src/protocol/http/http_request_parser.cpp:202-442 | a request parsed in two instalments gives the outcome of one parse, for every cut, if and only if that parse meets no trailer line beyond the header limit |
| HttpSplit.ParseResumes | src/protocol/http/http_request_parser.cpp:202-442 | a parse that waited, resumed with more input, is the parse of all of it (same outcome, same saved state), absent such a trailer |
| HttpSplit.ParseStable | src/protocol/http/http_request_parser.cpp:202-442 | an outcome other than Incomplete does not change with more input |
| HttpSplit.CutShows | src/protocol/http/http_request_parser.cpp:417-435 | with such a trailer, cutting one octet into it moves the consumed count by one |
| HttpSplit.LineResumes | src/protocol/http/http_request_parser.cpp:466-522 | a line is read on from the saved offset |
| HttpSplit.LineStable | src/protocol/http/http_request_parser.cpp:466-522 | a line once decided stays so |
| HttpTrailer.OutcomeDependsOnTheSplit | src/protocol/http/http_request_parser.cpp:417-435 | a concrete request whose outcome depends on the cut |
| HttpTrailer.LongTrailerMet | src/protocol/http/http_request_parser.cpp:417-435 | every canonical chunked request followed by an over-long trailer line is one |
| HttpChunk.ParseThrowsIff | src/protocol/http/http_request_parser.cpp:387-415 | for every input and all limits, one parse lets an exception out if and only if it comes to a chunk whose wrapped sums pass both checks while the copy range does not |
| HttpChunk.WrappingIff | src/protocol/http/http_request_parser.cpp:389-404 | for body limits below 2^63-2 such a chunk is one where the body so far plus the declared size reach 2^64 and the wrapped end lies within the input |
| HttpChunk.StepThrowsIff | src/protocol/http/http_request_parser.cpp:220-441 | a turn throws exactly there, and the body collected stays within its limit and behind the input read |
| HttpChunk.ChunkEndNeverMatters | src/protocol/http/http_request_parser.cpp:387-415 | two inputs that differ only in the two octets after a chunk that a parse reaches have the same outcome and consumed count, whatever those octets are |
| HttpChunkInputs.WrappingSizeOutcome | src/protocol/http/http_request_parser.cpp:359-415 | any canonical chunked opening followed by a size line whose chunk end wraps: the parse waits, throws or refuses the body, depending only on the octets that follow and the body so far |
| HttpChunkInputs.ParseCanThrow | src/protocol/http/http_request_parser.cpp:387-415 | a canonical head, a chunk of one octet, the size line ffffffffffffffff and one more octet: the parse throws |
| HttpChunkInputs.AnyEndingAccepted | src/protocol/http/http_request_parser.cpp:405-412 | any canonical chunked request is read as it was meant whatever two octets end its chunks, where section 7.1 of RFC 9112 allows CRLF only |
| HttpChunkInputs.SloppyEndingAccepted | src/protocol/http/http_request_parser.cpp:405-412 | a request whose chunk ends in XX is completed, all octets used |
| HttpPrint.RequestLineRead | src/protocol/http/http_request_parser.cpp:524-589 | a canonical request line is parsed into method, target, path and query |
| HttpPrint.HeaderLineRead | src/protocol/http/http_request_parser.cpp:591-627 | a header line with a name in any case is parsed into its lower-cased name and its value |
| HttpPrint.FinalizeRead | src/protocol/http/http_request_parser.cpp:629-708 | the headers of a canonical message give its length, chunking, keep-alive and expectation |
| HttpRoundTrip.RequestRoundTrip | src/protocol/http/http_request_parser.cpp:202-442 | a written request, header names in any case, followed by anything is parsed into its meaning, names lowered, and exactly its octets are consumed, after 100 Continue if asked for |
| HttpRoundTrip.ChunksTaken | src/protocol/http/http_request_parser.cpp:359-440 | any partition into non-empty chunks is joined to the body |
| HttpRoundTrip.HeadersTaken | src/protocol/http/http_request_parser.cpp:252-343 | header lines within the limits are collected in order |
| HttpSession.SplitIndependence | src/protocol/http/http_session.cpp:65-194 | any two cuttings of a stream within the buffer give the same dispatches with the same numbers, the same responses and the same session |
| HttpSessionSplit.SessionSplitIndependentIff | src/protocol/http/http_session.cpp:65-194 | a stream the buffer can hold gives, however it is cut, the same dispatches with the same numbers, the same responses, the same session and the same octets used up, if and only if no request on the way has a trailer line beyond the header limit |
| HttpSessionSplit.CutSession | src/protocol/http/http_request_parser.cpp:417-435 | with such a trailer anywhere in the stream some cut can be told from outside |
| HttpSessionSplit.RestDiffers | src/protocol/http/http_session.cpp:104-194 | octets, and the same octets without the first, are never drained alike |
| HttpSessionSplit.LoopLocal | src/protocol/http/http_request_parser.cpp:220-441 | a parse needs no octet beyond those it uses |
| HttpSession.FeedAllIsDrain | src/protocol/http/http_session.cpp:65-194 | feeding in pieces does what draining the whole stream does |
| HttpSession.DrainResumes | src/protocol/http/http_session.cpp:104-194 | draining in two instalments is draining at once |
| HttpSession.Drain | src/protocol/http/http_session.cpp:104-194 | the loop ends: each turn uses octets or the one 100 Continue of a request |
| HttpSession.StoppedForGood | src/protocol/http/http_session.cpp:78-87 | a stopped session does nothing more |
| HttpOrder.EveryLifeIsOrderly | src/protocol/http/http_session.cpp:65-194 | for any input: requests are numbered consecutively, never more than the limit, and nothing follows the event that stopped the session |
| HttpOrder.ShortStreamFits | src/protocol/http/http_session.cpp:89-102 | a stream no longer than the buffer never overflows it |
| HttpConversation.EveryLifeConverses | src/protocol/http/http_session.cpp:65-194 | a fresh connection fed in any pieces does exactly what the messages in its stream call for: each request dispatched with its number and whether it is the last, 100 Continue where asked for, and for a message that cannot be read the response with the code of its error |
| HttpConversation.DrainConverses | src/protocol/http/http_session.cpp:104-194 | the same for a stream at once, and the octets left unread |
| HttpConversation.OutcomeHandled | src/protocol/http/http_session.cpp:107-193 | what each outcome of the parser leads to, and the status reported |
| HttpConversation.FeedRefusesIff | src/protocol/http/http_session.cpp:78-102 | a piece beyond the buffer is answered with 413, a stopped session takes nothing |
| HttpPipeline.PipelineRoundTrip | src/protocol/http/http_session.cpp:65-194 | any canonical requests written one after another, header names in any case, with Content-Length or any chunks, cut in any way, are dispatched exactly, in order, numbered 1, 2, 3 and so on |
| HttpPipeline.DrainServed | src/protocol/http/http_session.cpp:104-194 | the same for the stream at once, and nothing else happens |
| HttpObjects.FinalizeHeaders | src/protocol/http/http_request_parser.cpp:629-708 | the loop over headers computes Finalize |
| HttpObjects.HttpRequestParser.constructor | src/protocol/http/http_request_parser.cpp:189-200 | a fresh parser |
| HttpObjects.HttpRequestParser.Reset | src/protocol/http/http_request_parser.cpp:444-459 | as fresh |
| HttpObjects.HttpRequestParser.Refuse | src/protocol/http/http_request_parser.cpp:735-745 | Fail: the error is kept |
| HttpObjects.HttpRequestParser.ReadLine | src/protocol/http/http_request_parser.cpp:466-522 | the scanning loop computes ScanLine and saves its offsets |
| HttpObjects.HttpRequestParser.TakeRequestLine | src/protocol/http/http_request_parser.cpp:223-250 | the fields after the call, whatever it returns and everything sent are exactly those of LineStep, about which the run theorems are proved |
| HttpObjects.HttpRequestParser.FinishRequest | src/protocol/http/http_request_parser.cpp:710-733 | the request with its body out of the input, the octets used, and a fresh parser |
| HttpObjects.HttpRequestParser.TakeBlank | src/protocol/http/http_request_parser.cpp:283-326 | the fields after the call, whatever it returns and everything sent are exactly those of BlankStep, about which the run theorems are proved |
| HttpObjects.HttpRequestParser.TakeHeader | src/protocol/http/http_request_parser.cpp:252-343 | the fields after the call and its answer are those of HeaderStep, which HeaderLineIff and ParseReadsMessage tell from the octets |
| HttpObjects.HttpRequestParser.TakeBody | src/protocol/http/http_request_parser.cpp:345-357 | the fields after the call, whatever it returns and everything sent are exactly those of BodyStep, about which the run theorems are proved |
| HttpObjects.HttpRequestParser.TakeChunkHead | src/protocol/http/http_request_parser.cpp:359-385 | the fields after the call, whatever it returns and everything sent are exactly those of ChunkHeadStep, about which the run theorems are proved |
| HttpObjects.HttpRequestParser.TakeChunkBody | src/protocol/http/http_request_parser.cpp:387-415 | ChunkBodyStep, wrap-around of the sums included |
| HttpObjects.HttpRequestParser.TakeTrailer | src/protocol/http/http_request_parser.cpp:417-435 | the fields after the call, whatever it returns and everything sent are exactly those of TrailerStep, about which the run theorems are proved |
| HttpObjects.HttpRequestParser.TakeStep | src/protocol/http/http_request_parser.cpp:220-441 | one turn |
| HttpObjects.HttpRequestParser.ParseInput | src/protocol/http/http_request_parser.cpp:202-442 | the loop computes Parse |
| HttpObjects.HttpSessionObject.constructor | src/protocol/http/http_session.cpp:25-63 | a fresh session |
| HttpObjects.HttpSessionObject.PostError | src/protocol/http/http_session.cpp:227-249 | the error response and its status |
| HttpObjects.HttpSessionObject.DeliverRequest | src/protocol/http/http_session.cpp:159-192 | Deliver: counted, numbered, dispatched, perhaps the last |
| HttpObjects.HttpSessionObject.TakeTurn | src/protocol/http/http_session.cpp:107-193 | one turn, and whether it dispatched an accepted request |
| HttpObjects.HttpSessionObject.DrainBuffer | src/protocol/http/http_session.cpp:104-194 | the loop computes Drain and counts the requests accepted |
| HttpObjects.HttpSessionObject.Feed | src/protocol/http/http_session.cpp:65-194 | Feed: status, requests accepted during it and octets still buffered |
| SendQueue.GatherIsPrefix | src/transport/send_queue.cpp:122-166 | a gather is a prefix of the queued octets within both limits, non-empty when it can be, and stops only at the end of the queue or at a limit |
| SendQueue.GatherIsFront | src/transport/send_queue.cpp:122-166 | exactly: the first octets of the first segments, up to either limit |
| SendQueue.DropDrops | src/transport/send_queue.cpp:168-220 | consuming k octets leaves exactly the rest, with only the first segment partly sent |
| SendQueue.SegmentsCarryAll | src/transport/send_queue.cpp:75-104 | leaving out empty buffers loses no octet |
| SendQueue.SendQueue.constructor | src/transport/send_queue.cpp:15-26 | empty |
| SendQueue.SendQueue.Measure | src/transport/send_queue.cpp:42-73 | the admission loop: refused exactly for a null buffer or an exceeded limit |
| SendQueue.SendQueue.TryPushBatch | src/transport/send_queue.cpp:42-104 | the whole batch is appended or nothing changes |
| SendQueue.SendQueue.Admit | src/transport/send_queue.cpp:84-99 | one more batch |
| SendQueue.SendQueue.Gather | src/transport/send_queue.cpp:122-166 | the nested loops compute Slices of the pending segments |
| SendQueue.SendQueue.GatherBatch | src/transport/send_queue.cpp:142-158 | the inner loop |
| SendQueue.SendQueue.Consume | src/transport/send_queue.cpp:168-220 | drops exactly k octets across segments and batches; invalid exactly for 0 or more than queued; item completed exactly at a segment end |
| SendQueue.SendQueue.TakeFront | src/transport/send_queue.cpp:183-207 | one turn of that loop |
| SendQueue.SendQueue.Clear | src/transport/send_queue.cpp:222-227 | empty again |
| SendQueue.BuildSegments | src/transport/send_queue.cpp:84-96 | the batch-building loop |
| Connection.SendPath | src/transport/tcp_connection.cpp:308-428 | over every interleaving: while Active a send is in flight exactly when octets wait; until Closed, sent octets followed by queued ones are the admitted ones; the sent ones are always a prefix |
| Connection.CloseDrain | src/transport/tcp_connection.cpp:430-467 | over every interleaving: outstanding is the receive plus the send in flight, Closing means one is in flight, Closed means none, removal is triggered exactly once, on Closed |
| Connection.FirstReasonKept | src/transport/tcp_connection.cpp:790-823 | the state only moves on and the first close reason is kept |
| Connection.ProtocolCloseIsComplete | src/transport/tcp_connection.cpp:692-730 | a protocol close begun by a send completion happens only with every admitted octet sent |
| Connection.ClosingEnds | src/transport/tcp_connection.cpp:809-823 | once the completions in flight have come the connection is Closed |
| Connection.SendAnswerTells | src/transport/tcp_connection.cpp:308-428 | what a sender learns: for a non-empty batch, Accepted exactly when its octets follow all admitted before and the connection stays Active, Closed exactly when nothing changed, and the two failures exactly when an Active connection closes for that reason; an empty batch is always Accepted |
| Connection.SendAnswerIff | src/transport/tcp_connection.cpp:308-428 | when each answer is given: Closed once closing has begun or was asked for, the overflow exactly beyond one of the limits, the failure exactly when the socket refuses the send it starts; an empty batch does nothing but perhaps begin the close |
| Connection.ReceivePath | src/transport/tcp_connection.cpp:521-637 | over every interleaving of a started connection the handler is given exactly the octets that arrived while it was open, once each and in order, and while it is open a receive is in flight or octets are being handed on |
| Connection.ReceiveStep | src/transport/tcp_connection.cpp:521-637 | what each step does to the receive path |
| Connection.ReceiveTells | src/transport/tcp_connection.cpp:521-590 | why a receive completion closes an open connection: an error or too many octets, the end of the octets of the peer, or not at all |
| Connection.StartTells | src/transport/tcp_connection.cpp:430-467 | a receive is posted exactly if the socket takes it and none is in flight; otherwise the connection closes for a receive error |
| Connection.SentTells | src/transport/tcp_connection.cpp:659-762 | why a send completion closes an open connection, and what it counts as sent |
| Connection.PostPosts | src/transport/tcp_connection.cpp:469-519 | a send carries the first octets of the first segments, as many as one send may, and is posted exactly if the socket takes it |
| Connection.CloseTells | src/transport/tcp_connection.cpp:790-807 | a close begins with its reason, once |
| Connection.StepKeeps | src/transport/tcp_connection.cpp:235-823 | every locked section keeps the invariant |
| Connection.ConsumeKeeps | src/transport/tcp_connection.cpp:692-712 | the octets a completion reports are the first that waited |
| Connection.SendKeeps | src/transport/tcp_connection.cpp:308-428 | admission keeps the invariant, refused posts included |
| ConnectionObject.TcpConnection.constructor | src/transport/tcp_connection.cpp:146-226 | a fresh connection |
| ConnectionObject.TcpConnection.BeginCloseLocked | src/transport/tcp_connection.cpp:790-807 | the fields after the call, whatever it returns and everything sent are exactly those of BeginClose, about which the run theorems are proved |
| ConnectionObject.TcpConnection.MoveToClosedIfDrainedLocked | src/transport/tcp_connection.cpp:809-823 | the fields after the call, whatever it returns and everything sent are exactly those of Settle, about which the run theorems are proved |
| ConnectionObject.TcpConnection.CloseLocked | src/transport/tcp_connection.cpp:764-788 | closing begun, and completed at once if nothing is in flight |
| ConnectionObject.TcpConnection.PostReceiveLocked | src/transport/tcp_connection.cpp:430-467 | the fields after the call, whatever it returns and everything sent are exactly those of PostReceive, about which the run theorems are proved |
| ConnectionObject.TcpConnection.PostSendLocked | src/transport/tcp_connection.cpp:469-519 | the fields after the call, whatever it returns and everything sent are exactly those of PostSend, about which the run theorems are proved |
| ConnectionObject.TcpConnection.BeginFirstReceive | src/transport/tcp_connection.cpp:235-280 | Step of Start; true exactly when an Active connection had no receive in flight and the socket took it, else the connection closes |
| ConnectionObject.TcpConnection.SendBatch | src/transport/tcp_connection.cpp:308-428 | Step of Send, answered with SendAnswer |
| ConnectionObject.TcpConnection.PushLocked | src/transport/tcp_connection.cpp:364-371 | the queue grows by the batch or stays |
| ConnectionObject.TcpConnection.OnReceiveComplete | src/transport/tcp_connection.cpp:521-590 | the fields after the call, those in flight and what the handler was given among them, are those of Step of ReceiveDone, which ReceivePath and ReceiveTells tell from the completions |
| ConnectionObject.TcpConnection.PostNextReceive | src/transport/tcp_connection.cpp:602-637 | the fields after the call, whatever it returns and everything sent are exactly those of Step of NextReceive, about which the run theorems are proved |
| ConnectionObject.TcpConnection.OnSendComplete | src/transport/tcp_connection.cpp:659-762 | the fields after the call, whatever it returns and everything sent are exactly those of Step of SendDone, about which the run theorems are proved |
| ConnectionObject.TcpConnection.ConsumeLocked | src/transport/tcp_connection.cpp:692-700 | the queue loses the octets or stays |
| ConnectionObject.TcpConnection.BeginCloseFor | src/transport/tcp_connection.cpp:764-788 | the fields after the call, whatever it returns and everything sent are exactly those of Step of Close, about which the run theorems are proved |
| ExecutorRuns.SerialGuarantee | src/execution/serial_executor.cpp:46-132 | under every interleaving: at most one drain active, pending tasks have one scheduled, tasks begun are a prefix of those accepted with at most one running, accepted = pending + running + completed + cancelled, for serial executor and pool |
| ExecutorRuns.DrainStopsRunEverything | src/execution/serial_executor.cpp:100-132 | with draining stops, in any order, a stopped executor has run every accepted task once, in order |
| ExecutorRuns.StopCompletes | src/execution/serial_executor.cpp:155-224 | after a draining stop, when no worker can move any more, the executor has stopped and every accepted task has run |
| ExecutorRuns.StopFailsIff | src/execution/serial_executor.cpp:100-224 | exactly when a stop fails: after any posts, stops and work from a fresh start, once no worker can move, a serial executor told to stop has not stopped if and only if some pool stop cancelled while its drain was queued with tasks behind it and no serial cancel came after |
| ExecutorRuns.RunStrandedIff | src/execution/thread_pool_executor.cpp:89-122 | over every run the executor is stranded exactly by such a pool stop |
| ExecutorRuns.PoolStopStrandsIff | src/execution/thread_pool_executor.cpp:89-122 | the guard of the failing call: a pool stop strands the executor exactly when it cancels, the drain is queued and tasks are pending |
| ExecutorRuns.DrainQueuedIff | src/execution/serial_executor.cpp:74-98 | while tasks are pending the drain is still queued exactly when no worker is inside it |
| ExecutorRuns.RestHaltedIff | src/execution/serial_executor.cpp:155-224 | at rest, a stopping executor has stopped exactly if no drain was discarded or no task is left |
| ExecutorRuns.LostDrainStrands | src/execution/serial_executor.cpp:155-224 | once its drain is discarded with tasks pending, they never run and the executor never stops unless told to cancel them |
| ExecutorRuns.CancelledPoolStrands | src/execution/thread_pool_executor.cpp:89-122 | posting one task and cancelling the pool before a worker moves leads there |
| ExecutorRuns.WorkIsFinite | src/execution/thread_pool_executor.cpp:202-269 | workers left to themselves take boundedly many steps |
| ExecutorRuns.Progress | src/execution/thread_pool_executor.cpp:202-269 | while serial work remains and no drain was thrown away, some worker can move |
| ExecutorRuns.StepKeeps | src/execution/serial_executor.cpp:46-224 | every step keeps the invariant |
| ExecutorRuns.PostAnswerIff | src/execution/serial_executor.cpp:46-98 | when each answer is given: taken exactly while the executor runs, has room, and its drain is scheduled or the pool takes it; what is not taken changes nothing, except that a stopped pool stops the executor |
| ExecutorRuns.SubmitAnswerIff | src/execution/thread_pool_executor.cpp:178-200 | the pool takes a job exactly while it runs and has room |
| ExecutorRuns.StopTells | src/execution/serial_executor.cpp:100-132 | once a stop asks to cancel, or has asked, nothing is pending; a draining stop takes nothing away |
| ExecutorRuns.PoolStopTells | src/execution/thread_pool_executor.cpp:89-122 | the same for the pool |
| ExecutorObjects.ThreadPoolContext.constructor | src/execution/thread_pool_executor.cpp:43-81 | all workers live |
| ExecutorObjects.ThreadPoolContext.Submit | src/execution/thread_pool_executor.cpp:178-200 | the fields after the call, whatever it returns and everything sent are exactly those of Submit, about which the run theorems are proved |
| ExecutorObjects.ThreadPoolContext.Stop | src/execution/thread_pool_executor.cpp:89-122 | the fields after the call, whatever it returns and everything sent are exactly those of StopPool, about which the run theorems are proved |
| ExecutorObjects.ThreadPoolContext.TakeOrLeave | src/execution/thread_pool_executor.cpp:208-240 | the next job, or the worker returns |
| ExecutorObjects.ThreadPoolContext.JobDone | src/execution/thread_pool_executor.cpp:262-267 | the fields after the call, whatever it returns and everything sent are exactly those of FinishJob, about which the run theorems are proved |
| ExecutorObjects.SerialExecutor.constructor | src/execution/serial_executor.cpp:26-44 | fresh |
| ExecutorObjects.SerialExecutor.PostTask | src/execution/serial_executor.cpp:46-98 | Post: queued, and taken back if the pool refuses the drain |
| ExecutorObjects.SerialExecutor.MoveToStoppedIfDrained | src/execution/serial_executor.cpp:214-224 | the fields after the call, whatever it returns and everything sent are exactly those of Settle, about which the run theorems are proved |
| ExecutorObjects.SerialExecutor.Stop | src/execution/serial_executor.cpp:100-132 | the fields after the call, whatever it returns and everything sent are exactly those of StopSerial, about which the run theorems are proved |
| ExecutorObjects.SerialExecutor.Next | src/execution/serial_executor.cpp:160-178 | the fields after the call, whatever it returns and everything sent are exactly those of TakeTask, about which the run theorems are proved |
| ExecutorObjects.SerialExecutor.TaskDone | src/execution/serial_executor.cpp:182-189 | the fields after the call, whatever it returns and everything sent are exactly those of FinishTask, about which the run theorems are proved |
| Ring.OctetAtAgrees | src/buffer/buffer_sequence.h:62-75 | At over one or two spans agrees with the logical sequence and throws exactly beyond its end |
| Ring.CopyTo | src/buffer/buffer_sequence.h:78-112 | the copying loop writes exactly the range asked for, and refuses exactly a range beyond the sequence |
| Ring.RingReceiveBuffer.constructor | src/buffer/ring_receive_buffer.cpp:10-26 | empty |
| Ring.RingReceiveBuffer.ReadableSequence | src/buffer/ring_receive_buffer.cpp:28-43 | at most two non-empty spans that spell the contents |
| Ring.RingReceiveBuffer.Grow | src/buffer/ring_receive_buffer.cpp:195-203 | the contents survive the move |
| Ring.RingReceiveBuffer.NextCapacity | src/buffer/ring_receive_buffer.cpp:76-88 | the doubling loop ends with the first doubling that suffices, or the maximum where doubling would exceed it |
| Ring.RingReceiveBuffer.EnsureWritable | src/buffer/ring_receive_buffer.cpp:64-91 | room exactly when the maximum allows it, by doubling and only if needed; a refusal changes nothing |
| Ring.RingReceiveBuffer.CopyIn | src/buffer/ring_receive_buffer.cpp:45-62 | octets copied into the free spans extend the contents across the wrap |
| Ring.RingReceiveBuffer.Append | src/buffer/ring_receive_buffer.cpp:123-134 | concatenates, or refuses and changes nothing |
| Ring.RingReceiveBuffer.Consume | src/buffer/ring_receive_buffer.cpp:103-121 | drops exactly a prefix across the wrap |

## Left out

- Sockets, completion ports, OVERLAPPED ownership and socket options: only their completions are modelled.
- Exceptions from allocation and thread creation, and what happens to a connection when one is thrown between two locked sections.
- TimerService, idle and parser timeouts (off by default).
- TcpListener, TcpConnector, ConnectionRegistry, IocpExecutor, ManualExecutor, InlineExecutor: smaller machines of the same kind. Re-entry of a drain from inside Post, which only an inline executor causes, is therefore not modelled.
- HttpRouter, response encoding, templates, JSON, multipart, web application, SQLite, configuration, logging.
- The length-prefixed sample protocol and the linear receive buffer: easier versions of what is here.
- The contents of the static HPACK table: any table of at most 65536 entries will do.
- The payloads of SETTINGS, GOAWAY, RST_STREAM and PING frames that the session writes are events, not octets.
- The HTTP method as an enumeration: the method text is kept.
- HttpObjects.HttpSessionObject.TakeTurn: an exception out of the parser ends the modelled session; the source leaves the session as it is, but the connection that fed it then closes (src/transport/tcp_connection.cpp:639-657) and feeds it no more.
- H2Pipeline.RequestsArrive: the executor accepts every request and the client sends no GOAWAY; refusals and other frames are the subject of the lifecycle theorems.
- Frames are handed to the sender after the scheduler's lock is released, so the wire order of two concurrent operations is not fixed by the code; the outbound theorems take operations as serialised.
- The receive buffers of the two sessions are plain sequences; that the ring is one is proved separately in `Ring`.
- SendQueue.SendQueue.TryPushBatch: that buffers are shared and not copied is not modelled; buffers are values.
- Ring.RingReceiveBuffer.ReadableSequence: spans are values read at the call, not views that later writes would change.
- HttpConversation.EveryLifeConverses: for streams without a trailer line beyond the header limit; with one, what a connection does depends on how the stream is cut (HttpSessionSplit.SessionSplitIndependentIff).
- H2Connection.ConnectionCreditExact: for the connection only; of a stream the source lets increments for streams it no longer has, and those past 2^31-1, go unanswered, so H2Connection.CreditFromFrames counts them as refused.
