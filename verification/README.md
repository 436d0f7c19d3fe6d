# Verified model of a streaming server

The server cuts live MPEG transport streams into segments and publishes them as HLS playlists, talks to
browsers over WebSockets, admits and counts stream clients, starts and stops programs, and keeps users,
sessions and address filters. This project models those state machines in Dafny and proves what they keep
over every run. `dafny verify dfyconfig.toml` checks all of it.

Most components come as a pair. A specification module holds the state as a value, one function for each event,
and `Run`, the state after any sequence of events; the theorems are about every run. A second module holds the
code in its own form, objects with fields that the methods update, and proves each method equal to the event it
stands for.

| files | what they hold |
|---|---|
| `Text` | printed numbers, splitting, printing loops; used by several components |
| `Hls`, `HlsProperties`, `HlsSharedCounter`, `HlsServer` | segmenter, segment ring, resource table, playlists |
| `Frames`, `Receiving`, `Sending`, `WebSocket` | WebSocket frames, incremental parser, send queue |
| `AddrRange`, `AddrRangeList` | address ranges: builder and matcher |
| `Accounting`, `Admission`, `AccountingServer` | client counters, limits |
| `Lifecycle` | program states and their reconciliation |
| `Users`, `Sessions`, `SessionServer` | user table, session list and their text forms; who is logged in |
| `Escaping` | HTML and URL escapers |

What the surroundings do is an event or a parameter: buffers and idle callbacks in any interleaving (idle
callbacks in the order they were added, the adapter a byte queue), channel reads of any size, channel writes
that succeed or fail as a whole, the sinks' client signals, the clock, the hash table's iteration order.
History fields (`received`, `stored`, `cachedFor`, `calls`, `sent`, `sources`, `held`) record what happened; no step
reads them.

## What the proofs found

Where a property does not hold of the code in general, the code is modelled as it is and the exact condition is
proved.

- All streams of a program share `n_hls_chunks`. A playlist lists the segments it announces exactly while the
  shared counter is within the ring (`WindowExact`), and a cached playlist is current exactly if it is marked
  stale or the window has not moved (`CacheExact`). With one HLS stream both always hold (`CacheAgrees`,
  `SlidingWindow`); `StalePlaylist` and `WrongSegments` are runs with two streams where they fail.
- A new sink for a stream replaces its adapter, so exactly the bytes still in it are lost (`NewSinkLoses`), and
  the next segment begins with the new sink's first buffer, random access point or not (`StoredShape`).
- A configured initialization vector leaves the key line of a rendered playlist without a line end, so that the
  caching tag has no line of its own (`AllowCacheOnOwnLine`). Nothing in the repository assigns
  `is_encrypted`, `have_iv`, `key_uri` or `init_vector`; only a program that embeds the server can reach this.
- The parser subtracts 8 for both extended payload lengths, where section 5.2 of RFC 6455 has headers of 4 and
  10 bytes. `ParserAgreesExactly` says on which byte counts it still agrees with the standard, and
  `DeliveredInOrder` says, for frames of every length and any reads, after which of them it goes beyond the
  bytes it has. For payloads under 126 bytes all is as the standard wants (`ShortFramesDelivered`); a frame
  that arrives whole and alone is delivered exactly if its length is not in the 16-bit form (`LoneFrame`).
- A bare bracketed IPv6 address gets a 32-bit prefix: it covers exactly the addresses that share its first four
  bytes (`BareCovers`), decides as that one address should for exactly the clients that are it or differ within
  those (`BareMeansItself`), and as `[::1]` alone lets every IPv4 client in (`LoopbackAdmitsAll`).
- A descriptor of 65536 or more is refused by the table but counted (`LargeDescriptor`); changing a stream's
  bitrate keeps the books exactly if nobody is connected to the stream (`BitrateChange`).
- Admission looks at counters without the requests under way, so `p` of them exceed the limits by up to `p - 1`
  clients and as many times the largest bitrate (`AdmissionBound`), and really can (`AdmissionBoundReached`).
- The property max-rate is documented as unlimited at 0 (gss-server.c:343-345), but at 0 every request is refused
  and no client is ever counted (`ZeroRefusesAll`).
- Nothing in the repository gives back the reference that a session lookup hands out (gss_session_unref is called by
  gss_session_invalidate only). The references held are exactly the lookups that found a session
  (`HeldAreHandedOut`), and a session that left the list with one out is never freed (`NeverFreed`).
- Switching programs off at run time reconciles nothing (`DisablingPrograms`); a stopping program stays
  stopping until other code sets its state (`StoppingStays`).
- User tables survive storing exactly if no name has a space or a colon (`RoundTripExactly`), permanent sessions
  exactly if no id has a space and there is not just an empty one (`StoreBack`).

## Model

| member | source | states |
|---|---|---|
| Hls.Reachable | gst-streaming-server/gss-hls-server.c:51-313 | after every interleaving of probes, idle callbacks, playlist requests, new streams, new sinks and unrelated resources: ring, table, names, byte flow and both playlists are consistent for every stream |
| Hls.StepKeeps | gst-streaming-server/gss-hls-server.c:51-313 | each single event keeps that invariant |
| Hls.NumberedInjective | gst-streaming-server/gss-hls-server.c:250-253 | segment names of different streams or numbers differ, at any number of digits |
| Hls.AddStreamTouches | gst-streaming-server/gss-hls-server.c:51-128 | a joining stream changes no other stream, and every segment and playlist name of the others leads where it did |
| Hls.IdleTouches | gst-streaming-server/gss-hls-server.c:235-269 | storing a chunk takes exactly one name out of the table, its own stream's segment twenty back if there is one, points exactly the new name at its slot, and changes no other stream |
| HlsProperties.Conservation | gst-streaming-server/gss-hls-server.c:139-269 | evicted segments, ring in index order, queued chunks and adapter together are exactly the bytes received, but for what the adapters of replaced sinks still held; the chunks depend on the buffers alone, not on the interleaving |
| HlsProperties.NewSinkLoses | gst-streaming-server/gss-stream.c:555-574 | a new sink loses exactly what the adapter holds at that moment |
| HlsProperties.CutShape | gst-streaming-server/gss-hls-server.c:173-193 | every chunk has at least 18800 bytes, and each after a sink's first, like the remainder, begins at a received buffer that passes the random access test |
| HlsProperties.CutTaken | gst-streaming-server/gss-hls-server.c:173-193 | a chunk ends before every such buffer that comes after enough bytes |
| HlsProperties.RandomAccessFields | gst-streaming-server/gss-hls-server.c:173 | the test is: adaptation field present and random access indicator set |
| HlsProperties.StoredShape | gst-streaming-server/gss-hls-server.c:235-262 | every stored segment has at least 18800 bytes and begins with a received buffer that passes the test, or, if it is the first that a sink made, with that sink's first buffer |
| HlsProperties.FetchSegment | gst-streaming-server/gss-server.c:627-657 | slot i%20 holds segment i and the table leads from its name to that slot for the newest twenty, no other segment name of the stream is in the table, and a request gets exactly that segment or nothing |
| HlsProperties.PlayerPath | gst-streaming-server/gss-hls-server.c:365-406 | the program's playlist, each stream's, and each segment are found under the names the level above gives |
| HlsProperties.WindowExact | gst-streaming-server/gss-hls-server.c:278-313 | with several streams, the listed slots are the announced segments if and only if n_chunks - 20 <= sequence number |
| HlsProperties.SlidingWindow | gst-streaming-server/gss-hls-server.c:235-313 | over any run with one HLS stream the sequence number never decreases and grows by exactly the entries dropped; old entries and new segments make the new list; number and URI stay together |
| HlsProperties.StaysFetchable | gst-streaming-server/gss-hls-server.c:240-248 | a listed segment can be fetched for fifteen further segments |
| HlsProperties.AvailableLongEnough | gst-streaming-server/gss-hls-server.c:240-254 | a dropped segment is available for its own duration plus its last playlist's (section 6.2.2 of RFC 8216) |
| HlsProperties.CacheExact | gst-streaming-server/gss-hls-server.c:380-393 | the served playlist equals a fresh rendering if and only if it is stale, missing, or the window has not moved since |
| HlsProperties.RequestSettles | gst-streaming-server/gss-hls-server.c:379-393 | a request leaves its answer in the cache and nothing stale, and the next one changes nothing |
| HlsProperties.CacheAgrees | gst-streaming-server/gss-hls-server.c:256-267 | with one HLS stream the served playlists always equal fresh renderings |
| HlsProperties.VariantAgrees | gst-streaming-server/gss-hls-server.c:265-267 | the stored program playlist equals a fresh rendering over all streams, however many |
| HlsProperties.PlaylistReads | gst-streaming-server/gss-hls-server.c:272-326 | cut into lines, a playlist is the header with the sequence number and then duration and URI of the consecutive segments from that number on |
| HlsProperties.VariantReads | gst-streaming-server/gss-hls-server.c:328-363 | cut into lines, the program's playlist describes exactly the streams with a bitrate and a segment, in order |
| HlsProperties.AllowCacheOnOwnLine | gst-streaming-server/gss-hls-server.c:285-302 | in the lines of a rendered playlist the caching tag has one of its own if and only if no initialization vector is configured |
| HlsProperties.NameExamples | gst-streaming-server/gss-hls-server.c:119-121 | a 640x360 stream of 600 kbit/s, its playlist and its segment number 7 under their literal names |
| HlsProperties.IvReads | gst-streaming-server/gss-hls-server.c:288-291 | the initialization vector is four words of eight hexadecimal digits, each with its value, in order |
| HlsSharedCounter.StalePlaylist | gst-streaming-server/gss-hls-server.c:256-263 | a reachable run with two streams in which a stale playlist is served |
| HlsSharedCounter.WrongSegments | gst-streaming-server/gss-hls-server.c:263-313 | a reachable run with two streams in which a playlist lists other segments than it announces |
| HlsServer.GssProgram.SinkProbe | gst-streaming-server/gss-hls-server.c:156-197 | the probe's whole effect on adapter, queue and nothing else |
| HlsServer.GssProgram.AddHlsChunkCallback | gst-streaming-server/gss-hls-server.c:139-153 | the oldest queued chunk goes to its stream |
| HlsServer.GssProgram.AddHlsChunk | gst-streaming-server/gss-hls-server.c:235-269 | ring slot, table, counters, stale mark and program playlist after storing a chunk; other streams untouched |
| HlsServer.GssStream.StoreSegment | gst-streaming-server/gss-hls-server.c:248-262 | the slot, the counter and the stale mark of the stream itself |
| HlsServer.GssProgram.UpdateIndex | gst-streaming-server/gss-hls-server.c:319-325 | the cache becomes the fresh rendering and the stale mark goes |
| HlsServer.GssProgram.RenderIndex | gst-streaming-server/gss-hls-server.c:272-317 | the appended text is the playlist of the present state |
| HlsServer.GssProgram.AppendEntries | gst-streaming-server/gss-hls-server.c:305-313 | the loop appends exactly the entries from the announced number up to the newest |
| HlsServer.GssProgram.UpdateVariant | gst-streaming-server/gss-hls-server.c:328-363 | the loop renders the program playlist over all streams |
| HlsServer.GssProgram.HandleStreamM3u8 | gst-streaming-server/gss-hls-server.c:379-393 | a request renders only a missing or stale playlist and returns the cache |
| HlsServer.GssProgram.AddHlsStream | gst-streaming-server/gss-hls-server.c:51-128 | a stream and its names are added, the program's name with the first |
| HlsServer.GssProgram.AddHlsAgain | gst-streaming-server/gss-hls-server.c:117-127 | for a stream segmented before: an empty adapter, its playlist's name and the program's playlist once more, all else untouched |
| Frames.DecodeEncode | gst-streaming-server/gss-websocket.c:558-609 | a decoder after section 5.2 of RFC 6455 recovers FIN, opcode, masking, payload and size of every written frame, masked or not, of every length |
| Frames.XorAt | gst-streaming-server/gss-websocket.c:234-237 | bit by bit, an unmasked octet is set exactly where the received one and octet i % 4 of the mask differ |
| Frames.BigEndianWeighs | gst-streaming-server/gss-websocket.c:203-215 | the first octet of a length weighs most |
| Frames.LengthForms | gst-streaming-server/gss-websocket.c:572-584 | the three length forms octet by octet, up to 125, up to 65535, and beyond |
| Frames.HelloUnmasked | gst-streaming-server/gss-websocket.c:558-609 | the first example of section 5.7 of RFC 6455, written, read and parsed |
| Frames.ShortestForm | gst-streaming-server/gss-websocket.c:572-584 | no frame with that payload length is shorter |
| Frames.ParserAgreesExactly | gst-streaming-server/gss-websocket.c:188-227 | on a masked frame the parser decides as the standard does if and only if the byte count is outside the window of the wrong subtraction |
| Frames.UnmaskedFrames | gst-streaming-server/gss-websocket.c:217-258 | a complete frame without a mask is skipped exactly; an incomplete one makes the parser consume more than there is |
| Frames.DeliverIsStandard | gst-streaming-server/gss-websocket.c:224-242 | what the parser delivers, with any length form, is what the standard reads |
| Frames.ParseExtends | gst-streaming-server/gss-websocket.c:179-259 | a verdict other than waiting does not change when more bytes arrive |
| Receiving.DrainSplits | gst-streaming-server/gss-websocket.c:301-302 | draining in two goes is draining at once |
| Receiving.UnmaskedEnds | gst-streaming-server/gss-websocket.c:217-222 | a complete frame without a mask loses the connection, whatever follows; messages behind it are still delivered |
| Receiving.DeliveredInOrder | gst-streaming-server/gss-websocket.c:179-259 | for masked frames of every length and any reads: the parser goes beyond its bytes if and only if after some read their number falls into a gap of the frame then in front; until then it delivers a prefix of the payloads in order, as many as the byte count says, and keeps exactly the unconsumed bytes |
| Receiving.ShortFramesDelivered | gst-streaming-server/gss-websocket.c:179-317 | for payloads under 126 bytes and any reads: never out of bounds, every complete frame delivered at once, at the end all payloads and nothing kept |
| Receiving.LoneFrame | gst-streaming-server/gss-websocket.c:203-227 | a complete frame that arrives alone is delivered if and only if its length is not in the 16-bit form |
| Receiving.FirstFrame | gst-streaming-server/gss-websocket.c:188-227 | how many bytes there are from the start of a masked frame decides whether it is waited for, delivered or overrun |
| Receiving.BufferBounded | gst-streaming-server/gss-websocket.c:278-307 | as long as the parser stays within its bytes, the buffer keeps its first size or is at most twice the largest payload and 11 bytes, whatever the reads |
| Receiving.RoomToRead | gst-streaming-server/gss-websocket.c:278-287 | the buffer always has room for a read and doubles only if it is full |
| Receiving.ShortNeverGrow | gst-streaming-server/gss-websocket.c:278-307 | with payloads under 126 bytes it never grows |
| WebSocketClient.GssWebsocket.TryParseFragment | gst-streaming-server/gss-websocket.c:179-259 | pointer, count, signal and connection after one call, for each verdict |
| WebSocketClient.GssWebsocket.ReadHeader | gst-streaming-server/gss-websocket.c:188-215 | the header size, payload size and remaining count that the code computes lead to the parser's verdict, for all three length forms |
| WebSocketClient.GssWebsocket.Decoded | gst-streaming-server/gss-websocket.c:229-238 | the loop returns the payload with the mask taken off byte by byte |
| WebSocketClient.GssWebsocket.DrainBuffer | gst-streaming-server/gss-websocket.c:301-302 | the loop ends, having delivered every message it can, in order, and keeps the rest |
| WebSocketClient.GssWebsocket.IoCallback | gst-streaming-server/gss-websocket.c:261-317 | after any read the buffer holds exactly the unconsumed bytes from its start, within its size, and what is lost or delivered is what draining says |
| WebSocketClient.GssWebsocket.ReceiveAll | gst-streaming-server/gss-websocket.c:261-317 | a whole conversation of reads that fit the growing buffer delivers, keeps and loses exactly what the run theorems say of those reads |
| WebSocketClient.GssWebsocket.Grow | gst-streaming-server/gss-websocket.c:278-287 | doubling keeps the unconsumed bytes |
| WebSocketClient.GssWebsocket.Compact | gst-streaming-server/gss-websocket.c:304-307 | moving them to the front keeps them too |
| Sending.MessagesInOrder | gst-streaming-server/gss-websocket.c:319-349 | in every run the wire holds the frames of the first messages handed over, in order, across the switch from queueing to writing, and at most a lone header when the connection broke; nothing is missing while it lives; loss is signalled at most once |
| Sending.NothingAfterLoss | gst-streaming-server/gss-websocket.c:127-157 | nothing is written or signalled after the loss |
| Sending.QueuedUntilReady | gst-streaming-server/gss-websocket.c:638-649 | in every run before the headers are written nothing is sent and everything is queued |
| Sending.HeadersFlush | gst-streaming-server/gss-websocket.c:319-349 | after any run, writing the headers leaves the channel ready, nothing waiting and every message on the wire, or the connection lost |
| Sending.SuccessDelivers | gst-streaming-server/gss-websocket.c:319-349 | in every run in which writes succeed and nobody disconnects no connection is lost, and with the headers written all messages are on the wire |
| Sending.FailureLoses | gst-streaming-server/gss-websocket.c:586-609 | a failed write of header or body loses the connection and signals it once |
| Sending.DisconnectLoses | gst-streaming-server/gss-websocket.c:127-164 | after any run a disconnect has lost the connection, closed the channel, signalled once and written nothing |
| Sending.PeerReads | gst-streaming-server/gss-websocket.c:558-614 | in every run, also one that lost its connection, a standard peer reads a prefix of the messages handed over, each as one final text frame; exactly those sent and nothing more while the connection lives, and at most the next one's header after it broke |
| Sending.SingleOnce | gst-streaming-server/gss-websocket.c:630-635 | a client with a single response gets the first message only |
| Sending.Reachable | gst-streaming-server/gss-websocket.c:616-649 | the invariant of all three kinds of client |
| WebSocketClient.GssWebsocket.WriteFragment | gst-streaming-server/gss-websocket.c:558-614 | header and body are written, or the connection is lost before or between them |
| WebSocketClient.GssWebsocket.Transmit | gst-streaming-server/gss-websocket.c:616-649 | for each kind of client what is written, queued or dropped |
| WebSocketClient.GssWebsocket.WroteHeaders | gst-streaming-server/gss-websocket.c:319-349 | the loop sends and removes what was pending, oldest first |
| WebSocketClient.GssWebsocket.ConnectionLost | gst-streaming-server/gss-websocket.c:127-157 | the loss is signalled by the first call only and closes the channel |
| AddrRangeLists.MatchRange | gst-streaming-server/gss-session.c:950-972 | the byte loop with a partial byte returns true if and only if the mask is at most 128 and the first max(0, mask) bits are equal |
| AddrRange.PartialStep | gst-streaming-server/gss-session.c:961-967 | the masked comparison of one byte is a comparison of its top bits |
| AddrRange.BuiltAccepts | gst-streaming-server/gss-session.c:827-941 | for every token list and both flags: accepted if and only if a token covers the address, or none was usable and the default is all, or it is local and that is allowed |
| AddrRange.Ipv4Accepted | gst-streaming-server/gss-session.c:978-1001 | for every token list, an IPv4 client is accepted exactly when a network of at most 32 bits matches its top bits (one of negative bits always does), a plain address is its own, "all" or the default applies, an IPv6 token takes it in, or it is in 127/8 and that is allowed |
| AddrRange.TokenMeaning | gst-streaming-server/gss-session.c:844-915 | what each token covers, for every 128-bit peer: IPv4 networks and addresses mapped ones only, IPv6 networks the addresses with the same bits |
| AddrRange.SegmentCovers | gst-streaming-server/gss-session.c:850-857 | the token "segment" covers exactly fe80::/64 |
| AddrRange.LocalCovers | gst-streaming-server/gss-session.c:927-939 | the local host range is exactly the mapped 127.0.0.0/8, without ::1 |
| AddrRange.AllAlone | gst-streaming-server/gss-session.c:845-849 | "all" leaves one range that covers everything, wherever it stands |
| AddrRange.BareCovers | gst-streaming-server/gss-session.c:905-910 | a bare bracketed IPv6 address covers exactly the addresses with its first four bytes |
| AddrRange.BareMeansItself | gst-streaming-server/gss-session.c:905-910 | a list of one decides as that address alone should if and only if the client is it or differs within the first four bytes |
| AddrRange.LoopbackAdmitsAll | gst-streaming-server/gss-session.c:905-910 | the token [::1] alone lets every IPv4 client in |
| AddrRange.MappedPrefix | gst-streaming-server/gss-session.c:871-880 | 96 + n bits of mapped addresses are n bits of IPv4 addresses |
| AddrRangeLists.AddrRangeList.StoreMapped | gst-streaming-server/gss-session.c:871-880 | every byte of the slot is defined by the in-place moves, whatever it held |
| AddrRangeLists.AddrRangeList.StoreTokens | gst-streaming-server/gss-session.c:844-915 | the loop stays within the allocation and yields the tokens' ranges |
| AddrRangeLists.NewFromString | gst-streaming-server/gss-session.c:827-941 | the built list, also after the reallocation with undefined contents |
| AddrRangeLists.AddrRangeList.CheckIn6 | gst-streaming-server/gss-session.c:943-976 | true if and only if some range of the list covers the address |
| AddrRangeLists.AddrRangeList.CheckAddress | gst-streaming-server/gss-session.c:978-1011 | IPv4 peers are mapped, others without an address refused |
| Accounting.BooksBalance | gst-streaming-server/gss-stream.c:367-474 | in every run, with bitrates changing while nobody is connected, the server's counters equal the sums over programs, over streams and over connected descriptors without a callback, and so do a program's and a stream's |
| Accounting.StepBooks | gst-streaming-server/gss-stream.c:367-474 | each event keeps the sums |
| Accounting.NeverNegative | gst-streaming-server/gss-metrics.c:54-59 | no counter is ever negative |
| Admissions.MaximaAreExact | gst-streaming-server/gss-metrics.c:43-52 | at all levels the maxima are the running maxima |
| Admissions.AdmittedExactly | gst-streaming-server/gss-stream.c:398-436 | nothing but a request lets a client wait, exactly if its program streams and neither limit is reached; refused requests change nothing |
| Admissions.Answers | gst-streaming-server/gss-stream.c:404-420 | no content exactly without streaming, service unavailable exactly for a limit while streaming |
| Admissions.StoppedGainsNone | gst-streaming-server/gss-stream.c:404-407 | over every run in which it is not set streaming, a program without awaited requests gains no client |
| Admissions.ComesAndGoes | gst-streaming-server/gss-stream.c:367-474 | a client that comes and goes leaves the counters of every level as before and its descriptor free |
| Admissions.CallbackCountsNothing | gst-streaming-server/gss-stream.c:367-396 | a descriptor added with a callback comes and goes without moving any counter |
| Admissions.TurnedAway | gst-streaming-server/gss-stream.c:457-463 | without a sink the client is not counted and no longer awaited |
| Admissions.AdmissionBound | gst-streaming-server/gss-stream.c:399-474 | for all limits, with at most p requests awaiting headers: n_clients <= max_connections - 1 + p and, unless a bitrate changes under a waiting request, bitrate < max_rate * 8000 + (p - 1) * bmax; p * bmax in any case; nothing at all if a limit is zero |
| Admissions.ZeroRefusesAll | gst-streaming-server/gss-stream.c:410-420 | a limit of zero refuses every request: in every run nobody waits and nobody is counted |
| Admissions.AdmissionBoundReached | gst-streaming-server/gss-stream.c:410-420 | for positive limits and all bitrates and p, as long as the descriptors fit the table: whenever one more client still fits, p requests before the first headers are all counted; the bound on clients is reached if that one would fill the limit, the bound on bitrates if that one comes within one of it at the largest bitrate |
| Admissions.LargeDescriptor | gst-streaming-server/gss-stream.c:438-474 | the sums survive the headers if and only if the descriptor fits the table or there is no sink |
| Accounting.BitrateChange | gst-streaming-server/gss-stream.c:189-190 | a bitrate change keeps the sums at all levels if and only if it is none or nobody is connected to the stream |
| AccountingServer.GssMetrics.Add | gst-streaming-server/gss-metrics.c:43-52 | counter and rate grow, and both maxima are taken after growing |
| AccountingServer.GssMetrics.Remove | gst-streaming-server/gss-metrics.c:54-59 | counter and rate shrink, maxima stay |
| AccountingServer.GssServer.StreamResource | gst-streaming-server/gss-stream.c:398-436 | each of the three answers exactly when streaming and the counters of that moment say so; a client waits exactly if admitted, and no counter moves |
| AccountingServer.GssServer.AddDescriptor | gst-streaming-server/gss-stream.c:438-448 | the table entry is set, or nothing happens for a descriptor too large |
| AccountingServer.GssServer.MsgWroteHeaders | gst-streaming-server/gss-stream.c:450-474 | all three levels grow with the table entry, or nothing counts when there is no sink |
| AccountingServer.GssServer.SetBitrate | gst-streaming-server/gss-stream.c:189-190 | the rate changes and no counter does |
| AccountingServer.GssServer.ClientRemoved | gst-streaming-server/gss-stream.c:367-380 | all three levels shrink by the stream's bitrate, unless a callback is set |
| AccountingServer.GssServer.ClientFdRemoved | gst-streaming-server/gss-stream.c:382-396 | the table entry is free again and no counter moves |
| Lifecycle.Reconciled | gst-streaming-server/gss-program.c:306-416 | with enable_programs fixed, in every reachable state a mismatch of state and flag has exactly one reconciliation outstanding, and there is never more than one |
| Lifecycle.SetStateExact | gst-streaming-server/gss-program.c:324-337 | after any run a state change takes effect and asks for a reconciliation exactly if one is needed and none outstanding |
| Lifecycle.IdleSettles | gst-streaming-server/gss-program.c:306-322 | running it starts what should run, stops what should not, leaves anything else alone, and nothing outstanding |
| Lifecycle.EnabledTakesEffect | gst-streaming-server/gss-program.c:339-349 | after any run, a program just disabled is stopped or stopping, one just enabled neither stopped nor unknown |
| Lifecycle.EnabledTable | gst-streaming-server/gss-program.c:339-349 | setting the flag to what it is changes nothing, otherwise it starts or stops |
| Lifecycle.StartTable | gst-streaming-server/gss-program.c:390-405 | what a start does in each of the five states |
| Lifecycle.StopTable | gst-streaming-server/gss-program.c:351-361 | what a stop does in each of the five states |
| Lifecycle.RunningStays | gst-streaming-server/gss-program.c:390-405 | an enabled program that runs or is starting is not started over, through every run of starts, ticks, reconciliations and enabling |
| Lifecycle.StoppedStays | gst-streaming-server/gss-program.c:351-405 | a disabled stopped program stays so through every run without state changes and enabling |
| Lifecycle.StoppingStays | gst-streaming-server/gss-program.c:351-416 | no start, stop, flag, timer or reconciliation leads out of stopping |
| Lifecycle.RestartAfterDelay | gst-streaming-server/gss-server.c:1138-1143 | the timer starts an enabled stopped program with exactly its last tick |
| Lifecycle.TickExact | gst-streaming-server/gss-server.c:1138-1143 | any delay but zero counts down by one, and only reaching zero starts |
| Lifecycle.DisablingPrograms | gst-streaming-server/gss-server.c:613-617 | the invariant survives exactly if the program was not running by right or a reconciliation is pending |
| Lifecycle.GssProgram.DoSetState | gst-streaming-server/gss-program.c:324-337 | state, and one idle source if there is a mismatch and none yet |
| Lifecycle.GssProgram.DoSetEnabled | gst-streaming-server/gss-program.c:339-349 | a change of the flag starts or stops, no change does nothing |
| Lifecycle.GssProgram.DoStart | gst-streaming-server/gss-program.c:390-405 | a start takes effect from stopped or unknown only, and only if program and server allow it |
| Lifecycle.GssProgram.DoStop | gst-streaming-server/gss-program.c:351-361 | a stop takes effect in every state but stopped and stopping |
| Lifecycle.GssProgram.IdleStateEnable | gst-streaming-server/gss-program.c:306-322 | the callback clears its mark, then starts or stops by state and flag; equal to the reconciliation event of every run theorem |
| Lifecycle.GssServer.PeriodicTimer | gst-streaming-server/gss-server.c:1129-1148 | every program of the list gets exactly one tick, none is skipped or visited twice |
| Users.RoundTripExactly | gst-streaming-server/gss-user.c:263-307 | printed in any order and parsed, a user table comes back if and only if no name has a space or a colon; the empty one too |
| Users.PrintedUsersRead | gst-streaming-server/gss-user.c:263-307 | parsing over an existing table enters every user and keeps the others |
| Users.StoredExample | gst-streaming-server/gss-user.c:288-307 | the literal text of a table of two, groups in at least four hexadecimal digits |
| Users.NumberReads | gst-streaming-server/gss-user.c:277 | how strtoul reads base 16: white space, sign, prefix, digits as far as they go; too large values clamped, a minus taken from 2^64 |
| Users.ZeroRead | gst-streaming-server/gss-user.c:277 | a prefix without a digit behind it is a zero of one character |
| Users.PieceEnters | gst-streaming-server/gss-user.c:269-283 | a piece with a number behind its first colon enters the part before with the number's low 32 bits; what follows is ignored |
| Users.PieceSkipped | gst-streaming-server/gss-user.c:269-283 | a piece without a colon, or without a number behind it, enters nobody |
| Users.LaterCounts | gst-streaming-server/gss-user.c:241-254 | of two pieces for one name the later counts |
| Users.ParsedNamesClean | gst-streaming-server/gss-user.c:269-283 | no parsed name has a space or a colon |
| Users.GssUser.ParseUsersString | gst-streaming-server/gss-user.c:263-286 | the table after the loop is the old one with every well-formed piece entered in order |
| Users.GssUser.GetString | gst-streaming-server/gss-user.c:288-307 | the text of the whole table in iteration order, also when the table is empty |
| Users.GssUser.SetUsers | gst-streaming-server/gss-user.c:142-145 | the stored string replaces the table |
| Sessions.StoreBack | gst-streaming-server/gss-user.c:332-386 | storing the printed permanent ids back reverses them, and keeps their multiset, each if and only if they are printable, and always leaves the other sessions as they were |
| Sessions.SetPermanentExact | gst-streaming-server/gss-user.c:332-352 | the permanent sessions become those of the string, last first; all earlier ones are dismissed, the others stay in order |
| Sessions.StoreBackTwice | gst-streaming-server/gss-user.c:332-386 | twice restores the order |
| Sessions.LookupExact | gst-streaming-server/gss-session.c:174-194 | the first valid session with the id is found, or there is none; all invalid ones before it are gone and nothing else changed |
| Sessions.ReferencesBalance | gst-streaming-server/gss-session.c:174-255 | in every run of logins, lookups, logouts, removals and permanent sessions: a listed session is valid and its count is one more than the references handed out and not given back, of one that left it is just those; so none is freed that is listed or held, and all others are |
| Sessions.HeldAreHandedOut | gst-streaming-server/gss-session.c:174-255 | over all sessions, as many references are held as successful lookups did not get back |
| Sessions.NeverFreed | gst-streaming-server/gss-session.c:246-255 | a session that left the list while a reference was out stays allocated in every run in which nobody gives that back |
| Sessions.FoundIsMade | gst-streaming-server/gss-session.c:153-194 | in every run a lookup finds only a valid session with that id that a login of the run made within the timeout, or that was set up as permanent |
| Sessions.LoginStays | gst-streaming-server/gss-session.c:153-235 | a login is found until the timeout through every run that neither logs it out nor removes it |
| Sessions.PermanentStays | gst-streaming-server/gss-session.c:153-160 | a permanent session is found at any time, through logouts too, until it is removed or the permanent sessions are set anew |
| Sessions.AdministratorsArePermanent | gst-streaming-server/gss-user.c:374-386 | in every run the administrators among the sessions are exactly the permanent ones |
| Sessions.UseKeeps | gst-streaming-server/gss-session.c:750-757 | using a session, or logging out with a permanent one, ends nothing; the one found, and only it, has a reference more |
| Sessions.LogoutEnds | gst-streaming-server/gss-session.c:742-757 | with distinct ids, after a logout from a session that is not permanent the id is found no more in any run that does not make it anew |
| Sessions.RemovalEnds | gst-streaming-server/gss-server.c:974-977 | with distinct ids, neither is it after a removal, permanent or not |
| SessionServer.SessionList.Walk | gst-streaming-server/gss-session.c:180-193 | the walk with sessions leaving the list under it: list, marks and counts of those kept and those gone are what the lookup's specification says |
| SessionServer.SessionList.Lookup | gst-streaming-server/gss-session.c:174-194 | the session found gains a reference, those thrown out lose one, no other changes |
| SessionServer.SessionList.LookupAndEnd | gst-streaming-server/gss-server.c:965-977 | a logout that spares permanent sessions, or a removal, of what a lookup has just found |
| SessionServer.SessionList.Unref | gst-streaming-server/gss-session.c:246-255 | one count goes down by one, wherever its session is |
| SessionServer.SessionList.InvalidateAt | gst-streaming-server/gss-session.c:742-748 | exactly one session is marked, leaves the list and loses one reference; a walk can go on at the same position |
| SessionServer.SessionList.New | gst-streaming-server/gss-session.c:217-237 | the new session is in front with one reference, all others keep their place |
| SessionServer.SessionList.DropPermanent | gst-streaming-server/gss-user.c:339-345 | the walk removes the permanent sessions and keeps the others in order |
| SessionServer.SessionList.SetPermanentSessions | gst-streaming-server/gss-user.c:332-352 | afterwards the list is the new permanent sessions, last id first, and then the old others in order; the old permanent ones are dismissed |
| SessionServer.SessionList.GetPermanentSessions | gst-streaming-server/gss-user.c:354-372 | each permanent id with a space after it, in list order, the last space cut off; nothing for an empty list |
| SessionServer.SessionList.AddPermanentSession | gst-streaming-server/gss-user.c:374-386 | a permanent administrator session in front |
| Escaping.RoundTrip | gst-streaming-server/gss-html.c:324-442 | decoding gives back the input, for all strings of bytes and all three escapers |
| Escaping.Injective | gst-streaming-server/gss-html.c:324-442 | different inputs, different outputs |
| Escaping.ExactSize | gst-streaming-server/gss-html.c:335-342 | the count pass allocates exactly what the fill pass writes |
| Escaping.Unchanged | gst-streaming-server/gss-html.c:324-498 | unchanged if and only if there is nothing to escape: no markup character, only letters, digits and bytes from 128 up, or only letters and digits; sane strings always are |
| Escaping.AlnumCodes | gst-streaming-server/gss-html.c:336-337 | letters and digits are those of ASCII |
| Escaping.EscapeForm | gst-streaming-server/gss-html.c:347-356 | an escape letter by letter; its two digits are the character in base 16, upper half first |
| Escaping.Examples | gst-streaming-server/gss-html.c:324-442 | one literal output of each escaper |
| Escaping.OutputHarmless | gst-streaming-server/gss-html.c:343-358 | no output holds markup, quotes or slashes as an entity, or anything but letters, digits, bytes from 128 up and the escape's own characters otherwise |
| Escaping.MarksBeginEscapes | gst-streaming-server/gss-html.c:343-358 | every ampersand, or percent sign, of an output begins a whole escape |
| Escaping.Sanitize | gst-streaming-server/gss-html.c:324-442 | the fill pass ends on the last byte of the allocation, with the encoding before it and the terminator in it |
| Escaping.CountEscapes | gst-streaming-server/gss-html.c:335-340 | the first pass finds exactly the characters the second will escape |
| Escaping.Put | gst-streaming-server/gss-html.c:345-357 | one character or escape at the pointer, and the pointer moved past it |
| Escaping.IsSane | gst-streaming-server/gss-html.c:444-498 | true if and only if every character is a letter or digit |

## Left out

- WebSocketClient.GssWebsocket.IoCallback: excludes reads on which the parser counts bytes it has not received (`OutOfBounds`), because the code has no defined behaviour from there on; `DeliveredInOrder` and `UnmaskedFrames` say exactly when that is.
- WebSocketClient.GssWebsocket.TryParseFragment: the same exclusion.
- WebSocketClient.GssWebsocket.WroteHeaders: retries after a partial channel write are not modelled; a write is all or error.
- Hls.Reachable: chunk numbers are unbounded, not 32-bit; streams are not removed, a stream's parameters and the base URL do not change, and HLS streams of a program have different names.
- Accounting.BooksBalance: programs and streams are fixed during a run, a bitrate changes only while nobody is connected to its stream (`BitrateChange` shows that this is needed), counters and max_rate * 8000 do not overflow, and every sink signals client-removed and then client-fd-removed once for each descriptor it holds.
- AddrRange.BuiltAccepts: tokens are what inet_pton and strtol make of the text; their lexing is not modelled, nor overflow of 96 + bits.
- SessionServer.SessionList.New: the random id is a parameter; the authorization callback is not modelled.
- Sessions.LogoutEnds: requires distinct ids, because a second session with the same id would be found next; ids come from a random generator.
- Users.RoundTripExactly: requested groups are not part of the text form and are not modelled.
- Lifecycle.Reconciled: the class's start and stop functions and the pipelines they handle are external events; the streams' resources are not renewed on start.
- SHA-1 and header checks of the WebSocket handshake, response pausing and body completion: library calls.
- HTML pages, configuration files, property tables, login flows, password hashing: text output and foreign libraries.
- The stream list and its parser: ids longer than nine characters or with spaces do not survive it, so no general round trip holds.
- The H.264 level table: finite, settled by reading.
- Random bytes, host names, interfaces, sockets, RTSP, launchers, vendored scripts: system input and output.
