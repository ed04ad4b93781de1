# VoxHF in Dafny

VoxHF is a local proxy between a flight-radio client and its network. Most of it
is state machines driven by sockets, timers, DNS answers and promises in any
order, and a few byte codecs that must work for any chunking of a stream. This
project models those parts and proves what they are for.

`dafny verify dfyconfig.toml` checks everything.

## How it is built

Code that changes state step by step is a class or a method with a loop. Its
contract ties the new state to a function of the old one, or keeps a `Valid()`
that states the invariant of the subsystem. The functions then carry the
theorems: what every chunking, every run, or every order of events gives, and
what each means byte by byte or case by case, apart from how it is computed.
Sockets, encoder processes, timers, DNS and promises are events that a caller
raises in any order; the clock never goes back and timers are not early.

| file | part of VoxHF |
|---|---|
| `Bytes.dfy`, `Options.dfy`, `Text.dfy`, `Selections.dfy` | little- and big-endian fields, optional values, trimming, letter case and words, filtered sequences |
| `OggCrc.dfy`, `OggReader.dfy`, `OggStream.dfy`, `OggWriter.dfy` | Ogg pages and their checksum (sections 5 and 6 of RFC 3533), wrapping and unwrapping Speex packets |
| `MessagePack.dfy`, `PilotFrames.dfy` | the MessagePack subset ("Formats" section of the MessagePack specification) and the length-prefixed frames around it |
| `FsdRecords.dfy`, `FsdStream.dfy`, `FsdProxy.dfy`, `FsdLifecycle.dfy` | the incoming FSD stream, rewriting VOICE replies while an endpoint is still opening, and the session counter |
| `VoiceProxy.dfy`, `WebTx.dfy`, `VoiceRouting.dfy`, `VoiceHosts.dfy`, `VoiceRouter.dfy` | TS2 voice: DNS and UDP flows, browser transmission, who owns it, and local endpoints |
| `DisconnectAlert.dfy` | the retry chain of the disconnect push alert |
| `DependencyClosure.dfy` | which lockfile entries a release takes along |
| `RateLimits.dfy` | the sliding and the fixed window |
| `Weather.dfy` | matching weather replies to requests, and the reports on show |
| `Drafts.dfy` | the message composer of the web page |

## What is proved, in short

- **Voice ownership.** One joint invariant (`VoiceRouter.VoiceRouter.Valid`) of
  router, UDP flows and browser transmission is kept by every event: Web TX has
  a session exactly when the router has learned session bytes, the session is
  the owning flow's, on the socket that flow uses now. So every browser datagram
  leaves on the owner's live socket to that socket's own server, and one
  transmission never uses two sockets or two headers.
- **FSD stream.** Under every chunking and every outcome and timing of endpoint
  promises, what has been written to the core socket is the in-order rewrite of
  a prefix of the complete records. With synchronous endpoints output and the
  moment of the 64 KiB close depend on the bytes alone.
- **Codecs.** Round trips under every chunking for Ogg/Speex and for MessagePack
  frames; the table-driven checksum is the polynomial division bit by bit.
- **Control.** At most 60 alert attempts per disconnect, at least 30 seconds
  apart, inside the window; ended chains stay silent.
- **Closure.** The worklist returns the least closed set of lockfile entries.

## What is not true of the code

Seven properties one would expect fail. For each there is a lemma with an input
that breaks it, and the exact condition under which it holds.

- *A late close leaves the newer FSD session alone.* `close` sets the counter
  back to 0 (`proxy/fsd-proxy.js:219`), so numbers are used again. It holds if
  and only if no open pair carries the number of the next session
  (`FsdLifecycle.FreeIdIsExact`). It is not enough that the pair which reset the
  counter has fully closed: a pair superseded earlier and still open breaks it
  too (`FsdLifecycle.SupersededPairEndsNewSession`), and one pair can report two
  confirmations (`FsdLifecycle.OnePairReportsTwice`).
- *Chunks do not matter to the MessagePack frame reader.* A bad length drops the
  whole buffer (`proxy/pilot-core.js:224-227`); a cut changes the outcome exactly
  when a bad length came before it and the bytes after it mean something to a
  fresh reader (`PilotFrames.CutMatters`). An input is four zero bytes in front
  of the frame of nil (`PilotFrames.BadLengthHidesTheNextFrame`).
- *Every packet fits an Ogg page.* The segment count is one byte
  (`proxy/ogg-speex.js:82`); a page is well formed if and only if its packet has
  at most 65024 bytes (`OggWriter.PageIsWellFormed`). With 65025 bytes the count
  is 0 (`OggWriter.OversizedPacketHasNoPage`).
- *Chunks do not matter to the Ogg reader.* They do not for streams of whole
  pages. With other bytes between pages the reader drops a buffer of 27 bytes or
  more without a capture pattern (`proxy/ogg-speex.js:107-109`). For any bytes, a
  cut is harmless exactly when nothing was dropped there, or what follows is
  scanned behind the dropped bytes as it is alone (`OggStream.CutMatters`); a cut
  through the pattern itself then loses the page
  (`OggStream.CutThroughCaptureLosesAPage`).
- *Setup packets never rewind the sequence number.* A setup packet that the
  router passes on does exactly when it comes on another flow than the owner's,
  or the session's header does not begin like a derived one
  (`VoiceRouting.PassedSetupRewinds`). Login, setup, a native packet with another
  subtype and the setup again is an input: number 0 comes twice
  (`VoiceRouting.SetupAfterNativeRewinds`).
- *A delivery that ends after its chain cannot touch a later one.* The failure
  branch skips the generation check (`proxy.js:372-385`). A late failure ends a
  later chain exactly when that chain has less than thirty seconds left
  (`DisconnectAlert.LateDeliveryIsHarmlessUnless`). A run with punctual timers
  reaches such a state with a retry still to come
  (`DisconnectAlert.LateFailureEndsLaterChain`). A failure here is a rejection of
  the whole delivery: `proxy/push-notifications.js:149-199` turns refused or
  timed out messages into a result with nothing sent, and rejects only when a
  payload cannot be made or the list of subscriptions cannot be stored.
- *The fixed window admits its maximum per interval.* A connection begins with an
  open window and no messages (`proxy/local-web-server.js:68`). The most any
  message sequence gets through in an interval is `RateLimits.Peak`, and it is
  reached: twice the maximum when the interval begins inside the connection's own
  window, one less behind it, the maximum when it begins with the connection or
  right behind its window (`RateLimits.PeakIsExact`). From any state of the
  limiter, at most the maximum is admitted by every sequence exactly when the
  open window has closed before the interval begins or is used up
  (`RateLimits.OffsetDecides`).

## Model

| member | source | states |
|---|---|---|
| OggCrc.TableStepIsDivision | proxy/ogg-speex.js:5-19 | one table look-up equals dividing by the generator 0x04c11db7 for eight message bits, most significant first |
| OggCrc.FeedBitsIsShift | proxy/ogg-speex.js:5-13 | feeding n bits is exclusive or into the top bits followed by n plain shifts |
| OggCrc.ShiftOfXor | proxy/ogg-speex.js:8-9 | the register shift is linear over exclusive or |
| OggCrc.BuildTable | proxy/ogg-speex.js:5-13 | the 256 table entries are the eight-fold shifts of their index in the top byte |
| OggCrc.OggCrc | proxy/ogg-speex.js:15-21 | the loop over the table computes the bit-serial checksum with zero initial value of every byte sequence |
| OggCrc.ChecksumOfOne | proxy/ogg-speex.js:9 | the checksum of the byte 1 is the generator 0x04c11db7 |
| OggReader.OggPacketReader.Push | proxy/ogg-speex.js:101-139 | one chunk takes exactly the complete pages off the buffer and hands out the packets they complete |
| OggReader.OggPacketReader.TakeSegments | proxy/ogg-speex.js:127-137 | lacing values cut the page data into packets; a value of 255 leaves the packet open for the next page; the first two packets and empty ones are not handed on |
| OggReader.ScanSkips | proxy/ogg-speex.js:108-110 | bytes in front of the capture pattern change nothing |
| OggStream.PushChunks | proxy/ogg-speex.js:101-139 | pushing chunks one after the other is the fold of single pushes |
| OggStream.ScanTakesPage | proxy/ogg-speex.js:113-137 | a buffer that begins with a complete page loses exactly that page |
| OggStream.ScanKeepsBeginning | proxy/ogg-speex.js:111-121 | a buffer with only part of a page stays as it is |
| OggStream.ScanInTwoParts | proxy/ogg-speex.js:101-139 | scanning early and again after more bytes is scanning once |
| OggStream.ChunksDoNotMatter | proxy/ogg-speex.js:101-139 | on any beginning of a stream of whole pages every chunking gives the same state and packets |
| OggStream.ScanWholePages | proxy/ogg-speex.js:127-137 | page boundaries do not matter: packets may begin on one page and end on another |
| OggStream.SegmentsArePackets | proxy/ogg-speex.js:127-137 | the reader's cutting yields the packets that the lacing values of the whole stream define |
| OggStream.HeardIsAudio | proxy/ogg-speex.js:134-135 | what is passed on is the non-empty packets after the first two |
| OggReader.NonEmptyIsExact | proxy/ogg-speex.js:135 | of the packets exactly the non-empty ones are kept, each once, in order |
| OggStream.ReaderEmitsThePackets | proxy/ogg-speex.js:101-139 | for every stream of whole pages with any lacing and every chunking the reader emits exactly the non-empty packets after the first two, in order, and keeps nothing back |
| OggStream.ScanBehind | proxy/ogg-speex.js:101-139 | on any bytes, what comes later is scanned behind what an earlier pass kept, and behind what it dropped if all had come at once |
| OggStream.CutMatters | proxy/ogg-speex.js:107-111 | on any bytes, a cut is harmless exactly when nothing was dropped there or what follows is scanned behind the dropped bytes as it is alone |
| OggStream.NothingCut | proxy/ogg-speex.js:107-111 | that is so when no pattern begins in the dropped bytes and 27 bytes follow |
| OggStream.ChunksOfAnything | proxy/ogg-speex.js:101-139 | any bytes in any chunks with which no pass but the last drops anything give the same state and packets as at once |
| OggStream.ReaderPassesStretches | proxy/ogg-speex.js:101-139 | pages with other bytes between them, in such chunks: the reader emits the packets of the pages |
| OggStream.CutThroughCapture | proxy/ogg-speex.js:107-111 | with other bytes in front of a page, cutting inside the page is harmless exactly unless the cut goes through the capture pattern while the reader holds at least 27 bytes |
| OggStream.CutThroughCaptureLosesAPage | proxy/ogg-speex.js:107-109 | 27 zero bytes, a page, and a cut in the middle of its pattern: the page is lost |
| OggWriter.Lacing | proxy/ogg-speex.js:72-74 | the lacing values of a packet sum up to its length and form exactly one complete packet |
| OggWriter.PageFields | proxy/ogg-speex.js:76-86 | every field of a page at its offset: pattern, version, flags, 64-bit granule, serial, page number, checksum, segment count, lacing values, packet |
| OggWriter.IdentificationFields | proxy/ogg-speex.js:39-51 | every field of the identification packet at its offset, sample rate at 36 and frames per packet at 64 |
| OggWriter.CommentFields | proxy/ogg-speex.js:53-57 | the vendor with its length, and no comments |
| OggWriter.FrameLastsTwentyMilliseconds | proxy/ogg-speex.js:33 | the frame sizes of the three modes are 20 milliseconds of samples |
| OggWriter.OggSpeexWriter.Page | proxy/ogg-speex.js:69-87 | the bytes of a page, field by field, with the checksum stored last; one page number is used |
| OggWriter.OggSpeexWriter.Headers | proxy/ogg-speex.js:36-60 | two pages: identification with the first-page flag, then the comment |
| OggWriter.OggSpeexWriter.Frame | proxy/ogg-speex.js:62-67 | one page whose granule has advanced by the samples of the packet |
| OggWriter.PageIsWellFormed | proxy/ogg-speex.js:69-87 | count byte and lacing agree if and only if the packet has at most 65024 bytes; bytes 22..25 hold the checksum of the page with these bytes zero |
| OggWriter.OversizedPacketHasNoPage | proxy/ogg-speex.js:69-87 | 65025 bytes: 256 lacing values, a count byte of 0, and a reader that sees a page without segments |
| OggWriter.PagesCarryPackets | proxy/ogg-speex.js:69-87 | pages with one packet each carry exactly the packets they were given |
| OggWriter.RoundTrip | proxy/ogg-speex.js:36-139 | headers and frames for packets of at most 65024 bytes, cut into any chunks, come back as those packets; only empty ones are lost |
| OggWriter.WriteStream | proxy/ogg-speex.js:36-67 | a whole transmission written by the writer comes back from a reader for every chunking; pages are numbered from 0 and granules add up |
| MessagePack.EncodeAccepts | proxy/pilot-core.js:36-76 | encoding succeeds exactly for the supported values, at every depth |
| MessagePack.RoundTrip | proxy/pilot-core.js:36-213 | decoding at any offset undoes encoding, whatever follows, and stops right after the encoding |
| MessagePack.RoundTripAll | proxy/pilot-core.js:198-201 | the same for the items of an array |
| MessagePack.WholeRoundTrip | proxy/pilot-core.js:121-213 | decodeMessagePack gives back every supported value |
| MessagePack.DecodeIsLocal | proxy/pilot-core.js:128-208 | for every format, signed and wide numbers, floats and maps included, what is decoded and where it ends depends on the bytes of the value alone, not on its place or surroundings |
| MessagePack.TruncatedThrows | proxy/pilot-core.js:124-126 | a value that is cut short anywhere throws |
| MessagePack.SignedNumbers | proxy/pilot-core.js:132-170 | the signed formats: marker and two's complement of the number, most significant byte first, decode to the number; -32 to -1 are their own marker |
| MessagePack.PlainValues | proxy/pilot-core.js:131-159 | numbers without a sign, nil and the truth values, byte by byte |
| MessagePack.FloatValues | proxy/pilot-core.js:141-148 | the bytes that a floating point number is read from |
| MessagePack.StringValues | proxy/pilot-core.js:133-196 | a string is the announced number of bytes, or throws when they are not there |
| MessagePack.ArrayValues | proxy/pilot-core.js:134-201 | an array is the announced number of values standing in a row, up to 256; more throw |
| MessagePack.MapValues | proxy/pilot-core.js:135-208 | a map is the announced number of keys and values in turn, up to 256; more throw |
| MessagePack.EncodedItemsStandInARow | proxy/pilot-core.js:70-73 | encoded items written one after the other stand in such a row |
| MessagePack.OtherMarkersThrow | proxy/pilot-core.js:186-187 | the markers without a format throw |
| MessagePack.EncodedSizes | proxy/pilot-core.js:41-72 | values are written in the shortest of their formats |
| MessagePack.Decode | proxy/pilot-core.js:128-189 | on any bytes decoding ends, moves forward and never passes the end of the buffer |
| MessagePack.DecodeItems | proxy/pilot-core.js:198-208 | as many items as announced, inside the buffer |
| MessagePack.Decoder.ReadValue | proxy/pilot-core.js:128-189 | the moving offset reads what the specification reads, or throws where it throws |
| MessagePack.Decoder.ReadArray | proxy/pilot-core.js:198-201 | arrays of more than 256 items throw, others read their items in order |
| MessagePack.Decoder.ReadMap | proxy/pilot-core.js:203-208 | the same for maps, keys before values |
| MessagePack.DecodeMessagePack | proxy/pilot-core.js:121-213 | one value that fills the buffer; trailing bytes throw |
| PilotFrames.FrameReader.Push | proxy/pilot-core.js:215-240 | one chunk takes the complete frames in order, skips bodies that do not decode, drops everything at a bad length, and holds a proper prefix of one frame |
| PilotFrames.TakeInTwoParts | proxy/pilot-core.js:215-240 | taking early and again later is taking once unless a bad length came first; then one pass drops the rest |
| PilotFrames.CutMatters | proxy/pilot-core.js:222-228 | a cut changes the outcome exactly when a bad length came before it and what follows means something to a fresh reader |
| PilotFrames.BadLengthHidesTheNextFrame | proxy/pilot-core.js:222-228 | four zero bytes and the frame of nil: observed in two chunks, not in one |
| PilotFrames.ChunksDoNotMatter | proxy/pilot-core.js:215-240 | streams without a bad length give the same messages for every chunking |
| PilotFrames.PushChunks | proxy/pilot-core.js:215-240 | pushing chunks one after the other is the fold of single pushes |
| PilotFrames.ReaderEmitsTheMessages | proxy/pilot-core.js:215-240 | frames with bodies of 1 byte to 1 MiB, in any chunks: exactly the decodable messages, in order, nothing held back |
| PilotFrames.ReaderHoldsPartOfOneFrame | proxy/pilot-core.js:215-240 | while such a stream arrives the messages so far are a prefix of all and at most part of one frame is held |
| PilotFrames.MakeFrameRoundTrip | proxy/pilot-core.js:78-83 | a frame holds its length and a body that decodes to type and payload |
| PilotFrames.FrameBytes | proxy/pilot-core.js:78-83 | the bytes of a frame: length of the rest, least significant byte first, then an array of type and payload |
| PilotFrames.MessagesRoundTrip | proxy/pilot-core.js:78-240 | what makeMessagePackFrame writes the reader gives back, message by message, for every chunking |
| FsdRecords.RecordsLoseNothing | proxy/fsd-proxy.js:81-119 | the complete records and the unfinished rest together are the bytes received |
| FsdRecords.RecordsInFront | proxy/fsd-proxy.js:84-92 | splitting is unique: records in front of a rest are the first records of the whole |
| FsdRecords.AcceptedIsAll | proxy/fsd-proxy.js:85-117 | without an overlong line all records are accepted and the rest is at most 64 KiB |
| FsdRecords.BoundOfAppend | proxy/fsd-proxy.js:85-117 | whether a line is too long, and what is accepted before it, does not depend on when the bytes are looked at |
| FsdRecords.BoundIsExact | proxy/fsd-proxy.js:85-117 | the bound is broken exactly when some record has more than 65536 bytes in front of its line feed, or the rest has |
| FsdRecords.AcceptedIsExact | proxy/fsd-proxy.js:84-117 | the records accepted are those in front of the first that is too long |
| FsdRecords.VoiceReplyText | proxy/fsd-proxy.js:200 | the text in front of the host, byte by byte, and the bytes that end a host |
| FsdRecords.VoiceReplyIsFound | proxy/fsd-proxy.js:200 | every text of the form `$CR…:…:VOICE:…:host/…` is recognised, and the span is exactly its host |
| FsdRecords.VoiceHostIsReply | proxy/fsd-proxy.js:200-201 | whatever is recognised has that form |
| FsdRecords.RewriteReplacesTheHost | proxy/fsd-proxy.js:192-205 | rewriting replaces the host and nothing else; the result is again one record and a VOICE reply with the new host |
| FsdStream.DrainTakesRecords | proxy/fsd-proxy.js:84-92 | a pass takes the first records of what is pending, whole and in order |
| FsdStream.DrainTreatsEach | proxy/fsd-proxy.js:86-115 | each record taken gets its own outcome, and only the last may be awaited |
| FsdStream.TreatAsksForTheHost | proxy/fsd-proxy.js:198-204 | for every VOICE reply the endpoint is asked for exactly its host, under the record's number, and the answer decides: an address is sent, a promise awaited, a refusal withheld; any other record asks nothing |
| FsdStream.WrittenStandsFor | proxy/fsd-proxy.js:203-204 | what is written for a record: the reply with its host replaced by the address, nothing without one, any other record byte for byte |
| FsdStream.DrainAsksForTheHosts | proxy/fsd-proxy.js:84-116 | the same for every record of a pass |
| FsdStream.DrainWaitsOrGivesUp | proxy/fsd-proxy.js:93-101 | a pass waits with at most 1 MiB behind the record and gives up with more |
| FsdStream.DrainKeepsTheRest | proxy/fsd-proxy.js:92-119 | what is not taken stays pending, byte for byte, within the bounds |
| FsdStream.DrainIsExhaustive | proxy/fsd-proxy.js:84-119 | a pass that ends idle or at an overlong line has taken every record it may |
| FsdStream.ChunksDoNotMatter | proxy/fsd-proxy.js:64-126 | with synchronous endpoints the records treated, their outcomes and the 64 KiB close depend on the bytes alone |
| FsdProxy.FsdSession.TakeRecord | proxy/fsd-proxy.js:86-115 | one record: its line is handed on unless blank, the endpoint is asked for exactly its host, and what stands for it is written, withheld or awaited as the answer says |
| FsdProxy.FsdSession.DrainRecords | proxy/fsd-proxy.js:79-120 | a pass of the loop is the specified pass; superseded or destroyed sessions do nothing |
| FsdProxy.FsdSession.RemoteData | proxy/fsd-proxy.js:64-77 | every chunk keeps the session invariant: output is the in-order rewrite of a prefix of the records, pending bytes are bounded, the remote is paused exactly while an endpoint is awaited |
| FsdProxy.FsdSession.EndpointDone | proxy/fsd-proxy.js:102-112 | the awaited record is settled once and draining goes on; a session that was superseded or destroyed writes nothing |
| FsdProxy.FsdSession.RejectOversizedLine | proxy/fsd-proxy.js:122-126 | pending bytes are dropped and the pair is closed |
| FsdProxy.FsdSession.SocketClosed | proxy/fsd-proxy.js:128-129 | either close event destroys both sockets and counts only for the active session |
| FsdProxy.FsdSession.CoreSocketRelays | proxy/fsd-proxy.js:64-126 | at every moment the core socket holds, record by record, what stands for a prefix of the stream: each reply with the address given for its own host |
| FsdProxy.LinesAreNotBlank | proxy/fsd-proxy.js:87-88 | exactly the lines that are not blank are handed on, each once, in order |
| FsdProxy.FsdProxy.Accept | proxy/fsd-proxy.js:38-57 | a new pair takes the next session number and starts empty |
| FsdProxy.FsdProxy.RemoteConnected | proxy/fsd-proxy.js:47-53 | only the active session is confirmed; a superseded remote socket is destroyed |
| FsdProxy.FsdProxy.Close | proxy/fsd-proxy.js:207-225 | both sockets are destroyed; the active session is reset and reported with whether it was confirmed |
| FsdProxy.ReceiveChunks | proxy/fsd-proxy.js:64-126 | a live session with synchronous endpoints writes the same bytes and closes at the same point for every chunking |
| FsdProxy.OtherTrafficIsUnchanged | proxy/fsd-proxy.js:64-126 | without VOICE replies the bytes written are a prefix of the bytes received |
| FsdProxy.FollowsPass | proxy/fsd-proxy.js:84-116 | a pass continues the prefix of records without gap or repetition |
| FsdProxy.SettleLast | proxy/fsd-proxy.js:102-103 | settling the awaited record appends exactly its rewrite |
| FsdLifecycle.ReportsAnswerConfirmations | proxy/fsd-proxy.js:207-225 | in every run each report that says wasConnected answers one confirmation, of a pair with the number that was closed; none is answered twice, and they are answered in order |
| FsdLifecycle.OnePairReportsTwice | proxy/fsd-proxy.js:207-225 | a run in which the closes of one pair report its own confirmation and that of the next session |
| FsdLifecycle.SessionBegins | proxy/fsd-proxy.js:39-53 | accepting begins an unconfirmed session with the next number; its remote socket confirms it |
| FsdLifecycle.CloseTellsWhetherConnected | proxy/fsd-proxy.js:47-224 | a session with a free number reports wasConnected exactly when its remote socket had connected, whatever events of earlier pairs came between |
| FsdLifecycle.StaleEventsAreHarmless | proxy/fsd-proxy.js:213-216 | in a run whose session numbers are free when taken, events of superseded pairs change nothing, each pair reaches onClose at most once, and a report answers the confirmation of the pair that closed |
| FsdLifecycle.FreeIdIsExact | proxy/fsd-proxy.js:39-219 | after an accept an older pair can end the new session if and only if it still carries the same number |
| FsdLifecycle.DrainedRunsAreCareful | proxy/fsd-proxy.js:39-219 | numbers are free whenever every socket had closed before the counter restarts |
| FsdLifecycle.LateSecondCloseEndsNewSession | proxy/fsd-proxy.js:207-225 | the run in which the second close of a pair ends the next session |
| FsdLifecycle.SupersededPairEndsNewSession | proxy/fsd-proxy.js:207-225 | the run in which a superseded pair does, though the pair that reset the counter has fully closed |
| VoiceProxy.VoiceProxy.SetServer | proxy/ts2-voice-proxy.js:87-96 | the name is trimmed; another server drops the address; every call with a name asks DNS again |
| VoiceProxy.VoiceProxy.DnsAnswer | proxy/ts2-voice-proxy.js:80-84 | an answer counts only for the latest request, so the address always came from a request for the current server |
| VoiceProxy.VoiceProxy.OpenFlow | proxy/ts2-voice-proxy.js:102-317 | a source port keeps its socket and its target; a new one gets both, to the resolved address if there is one and else to the name of the server |
| VoiceProxy.VoiceProxy.CleanupUdpClient | proxy/ts2-voice-proxy.js:281-292 | socket and target go together, and only for the socket the flow uses now |
| VoiceProxy.VoiceProxy.Forward | proxy/ts2-voice-proxy.js:344-348 | a datagram goes to the target its socket was created for |
| WebTx.VoiceDatagram | proxy/web-tx.js:202-208 | header, sequence number, codec byte and packet at their offsets, and 0xff in every byte behind them up to 325 in fixed mode |
| WebTx.WebTx.CacheTxSession | proxy/web-tx.js:35-54 | what a native packet teaches; transmissions survive only if flow and header stay |
| WebTx.WebTx.DeriveTxSessionFromSetup | proxy/web-tx.js:56-89 | what a setup packet teaches |
| WebTx.WebTx.ReplaceTxSession | proxy/web-tx.js:91-113 | one transmission never spans two sessions; ready is reported only from not ready |
| WebTx.WebTx.InvalidateTxSession | proxy/web-tx.js:128-144 | the session and every network transmission end, for the named flow or for all; not ready is reported once |
| WebTx.WebTx.Start | proxy/web-tx.js:286-362 | a transmission starts only with a session, replaces the browser's earlier one, and lights its lamp |
| WebTx.WebTx.Stop | proxy/web-tx.js:364-384 | the transmission ends, its lamp call is made, and it is entered as stopped, which Valid makes silent |
| WebTx.WebTx.QueuePacket | proxy/web-tx.js:228-235 | the queue is the tail of what was encoded, at most 24, with a timer set |
| WebTx.WebTx.EncoderOutput | proxy/web-tx.js:314-339 | the newest 24 packets are queued; output of an encoder that no longer owns the browser changes nothing |
| WebTx.WebTx.EncoderExit | proxy/web-tx.js:344-350 | an encoder's end stops only its own transmission |
| WebTx.WebTx.SendPacket | proxy/web-tx.js:194-226 | one datagram: the session's header, the next number modulo 2^32, 5, at most 308 bytes of the packet, then 0xff to 325 bytes in fixed mode or nothing; a refused one still uses its number |
| WebTx.WebTx.TimerFired | proxy/web-tx.js:237-253 | a timer of a transmission that stopped sends nothing; otherwise the datagram carries the oldest queued packet, field by field, and the timer stays exactly while packets are queued |
| WebTx.WebTx.Run | proxy/web-tx.js:35-384 | in every run of packets, resets, presses, releases, encoder output, exits and timers: who has stopped stays stopped and sends nothing more, who was live has stopped or still is, and the k-th attempt after a seed has number seed + k modulo 2^32, each used once and in order |
| WebTx.LearnedByReseeding | proxy/web-tx.js:35-89 | exactly the packets that reseed change the session, a native one to its own number, a setup packet to the one before 0 |
| WebTx.SetupClasses | proxy/web-tx.js:115-122 | the three packets that set a session up, by class and subtype |
| WebTx.ReseedingPackets | proxy/web-tx.js:39-89 | exactly native voice, and setup packets with session bytes that are not all zero and not known already, reseed |
| WebTx.StopKeeps | proxy/web-tx.js:364-384 | stopping keeps lamp balance, pacing, order and silence of stopped transmissions |
| WebTx.StartKeeps | proxy/web-tx.js:302-353 | starting keeps them |
| WebTx.PushKeeps | proxy/web-tx.js:228-235 | queueing, with the oldest packets dropped, keeps them |
| WebTx.DequeueKeeps | proxy/web-tx.js:241-251 | taking a packet off the queue keeps them |
| WebTx.LampsAfterStop | proxy/web-tx.js:371 | lamp-on minus lamp-off calls of a radio equal its live transmissions, after a stop |
| WebTx.LampsAfterStart | proxy/web-tx.js:353 | the same after a start |
| VoiceRouting.OwnershipRules | proxy/ts2-voice-router.js:58-90 | only a login on a route makes it the owner; session bytes change only by login or by the first non-zero setup on the owning flow; a packet is passed on only with equal session bytes on the owner |
| VoiceRouting.RouteExactly | proxy/ts2-voice-router.js:58-90 | the whole effect of a packet, by class, subtype, session bytes and flow: when it takes over, when it is passed on, and that it changes nothing otherwise |
| VoiceRouting.BytesAreLearnedOnce | proxy/ts2-voice-router.js:62-89 | between logins and resets, whatever arrives on whatever route, the owner stays and the bytes are written at most once, by a setup packet on the flow that logged in |
| VoiceRouting.UnlearnedMeansLoginFlow | proxy/ts2-voice-router.js:77-88 | while nothing is learned the owner is the flow that logged in |
| VoiceRouting.PassedSetupRewinds | proxy/ts2-voice-router.js:84-89 | with router and Web TX coupled, a setup packet that is passed on rewinds exactly when it comes on another flow than the owner's or the session's header does not begin like a derived one |
| VoiceRouting.SetupAfterNativeRewinds | proxy/ts2-voice-router.js:58-90 | login, setup, native packet with another subtype, setup: the numbers begin at 0 twice |
| VoiceRouting.RouteKeepsCoupling | proxy/ts2-voice-router.js:58-90 | any packet on any flow of any route keeps router, UDP flows and Web TX coupled |
| VoiceRouting.PacketKeepsSockets | proxy/ts2-voice-router.js:58-90 | after any packet each live transmission still uses the one socket of the session |
| VoiceHosts.ScopedTextIsUnique | proxy/ts2-voice-router.js:59 | the text address/flow names one flow of one endpoint |
| VoiceHosts.HostInAnyCase | proxy/ts2-voice-router.js:31 | a host name in any letter case with white space around it is that host |
| VoiceHosts.SupportedHostForm | proxy/ts2-voice-router.js:34 | exactly the names "ts-", digits, ".", letters, digits or hyphens, ".ivao.aero" are supported |
| VoiceHosts.AddressOfHash | proxy/ts2-voice-router.js:44-45 | the address is 127.x.y.z with x from 64 to 127 and z from 1 to 254, taken from the hash |
| VoiceHosts.AddressesCollide | proxy/ts2-voice-router.js:45-46 | two hosts share an address exactly when their hashes agree in these three numbers |
| VoiceRouter.VoiceRouter.FullExactly | proxy/ts2-voice-router.js:40-48 | there is no place exactly when 32 hosts have one or a known host's hash gives the same address |
| VoiceRouter.Endpoint.Listening | proxy/ts2-voice-router.js:119-125 | the promise resolves only at the second listen callback and only without an earlier failure |
| VoiceRouter.Endpoint.MarkFailed | proxy/ts2-voice-router.js:104-117 | the first failure is final; it rejects only a promise that is still open |
| VoiceRouter.VoiceRouter.GetEndpoint | proxy/ts2-voice-router.js:30-50 | the name is trimmed and lower-cased; unsupported hosts, a closed router, failed routes, a 33rd host and an address collision are rejected; otherwise host and address are fixed and injective |
| VoiceRouter.VoiceRouter.EndpointListening | proxy/ts2-voice-router.js:119-131 | a listen callback keeps the joint invariant and resolves at most once |
| VoiceRouter.VoiceRouter.EndpointFailed | proxy/ts2-voice-router.js:103-127 | a failed route never comes back, loses its flows, and is the owner no more |
| VoiceRouter.VoiceRouter.ClearActive | proxy/ts2-voice-router.js:21-28 | no owner, no session, no network transmission |
| VoiceRouter.VoiceRouter.TakePacket | proxy/ts2-voice-router.js:58-90 | the callback does to router and Web TX what the routing rules say |
| VoiceRouter.VoiceRouter.OnClientPacket | proxy/ts2-voice-router.js:58-90 | and keeps the joint invariant |
| VoiceRouter.VoiceRouter.UdpMessage | proxy/ts2-voice-proxy.js:304-349 | a datagram opens its flow if needed, goes through the routing rules, and is forwarded on its own socket to its own target |
| VoiceRouter.VoiceRouter.OnClientClose | proxy/ts2-voice-router.js:91-95 | only the close of the owning flow ends the ownership |
| VoiceRouter.VoiceRouter.FlowClosed | proxy/ts2-voice-proxy.js:281-292 | a late close of a replaced socket changes nothing |
| VoiceRouter.VoiceRouter.ResetUdpClients | proxy/ts2-voice-router.js:142-145 | no owner, no session, no flows |
| VoiceRouter.VoiceRouter.Close | proxy/ts2-voice-router.js:146-153 | every open promise is settled; no owner and no flows stay |
| VoiceRouter.VoiceRouter.DnsAnswer | proxy/ts2-voice-proxy.js:80-84 | late DNS answers keep the joint invariant and the targets of open flows |
| VoiceRouter.VoiceRouter.PacingTimer | proxy/web-tx.js:237-253 | every browser datagram leaves on the socket that the owning flow uses now, to that flow's target, with the learned session bytes, to the active server |
| VoiceRouter.VoiceRouter.PushToTalk | proxy/web-tx.js:286-300 | a network transmission can start exactly when the router has learned session bytes |
| VoiceRouter.VoiceRouter.FirstTransmission | proxy/ts2-voice-router.js:58-90 | login, session setup, push-to-talk, encoder output and pacing timer end with exactly one datagram on the socket of the flow that logged in |
| VoiceRouter.VoiceRouter.Release | proxy/web-tx.js:364-384 | releasing push-to-talk keeps the joint invariant |
| VoiceRouter.VoiceRouter.EncoderEnded | proxy/web-tx.js:344-350 | late encoder exits keep it and end only the transmission that owns the encoder |
| VoiceRouter.VoiceRouter.EncoderData | proxy/web-tx.js:334-339 | encoder output keeps it; only the transmission that owns the encoder queues the newest packets |
| DisconnectAlert.StepKeeps | proxy.js:313-385 | every event keeps one live chain, its dates and the spacing of attempts |
| DisconnectAlert.EveryRunIsSpaced | proxy.js:313-385 | in every run one disconnect makes at most 60 attempts, the first after at least ten seconds, the others at least thirty seconds apart, none after thirty minutes |
| DisconnectAlert.AttemptsAreCurrent | proxy.js:344-358 | an attempt is made only for the current generation |
| DisconnectAlert.EndedChainsAreSilent | proxy.js:335-385 | after a success, a cancel or a reconnect the old chain attempts nothing, even with deliveries under way |
| DisconnectAlert.TimesOfTheAttempts | proxy.js:356-358 | the attempts counted for a chain are exactly those made for its generation |
| DisconnectAlert.EndsExactly | proxy.js:264-385 | exactly which events end the current chain |
| DisconnectAlert.DeliveryEndsOrRetries | proxy.js:358-384 | a delivery of the current chain ends it when it sent something, no subscription is left, a connection is up, or the next attempt would come too late; otherwise one retry waits for thirty seconds later |
| DisconnectAlert.WhatEndsAndBegins | proxy.js:264-342 | a connection, a receipt for the current flight and a suppressed or unsubscribed disconnect leave no chain; any other disconnect starts one, ten seconds later |
| DisconnectAlert.TimerAttemptsOrEnds | proxy.js:344-358 | a current timer attempts a push unless a connection is up or the window has closed; an old one does nothing |
| DisconnectAlert.EndedForGood | proxy.js:335-385 | in every run a chain that such an event has ended attempts nothing any more |
| DisconnectAlert.SuccessIsTheLastAttempt | proxy.js:360-363 | in every run nothing is attempted for a chain after a delivery of it that sent something |
| DisconnectAlert.LateDeliveryIsHarmlessUnless | proxy.js:359-385 | when exactly the late end of an old delivery spares a later chain |
| DisconnectAlert.LateFailureEndsLaterChain | proxy.js:372-385 | a run from the start, with punctual timers, after which the failure of a hanging delivery cancels the retry of a later chain |
| DisconnectAlert.DisconnectAlerts.ScheduleIvaoDisconnectAlert | proxy.js:313-333 | ends the earlier chain; without subscriptions, or when suppressed, starts none |
| DisconnectAlert.DisconnectAlerts.CancelIvaoDisconnectAlert | proxy.js:335-342 | the generation moves on and the remembered timer is cleared |
| DisconnectAlert.DisconnectAlerts.DeliverIvaoDisconnectAlert | proxy.js:344-358 | old generations do nothing; reconnect or the end of the window ends the chain |
| DisconnectAlert.DisconnectAlerts.DeliveryEnds | proxy.js:359-385 | success, no subscriptions or a reconnect end the chain; otherwise one retry in thirty seconds if the window allows |
| DisconnectAlert.DisconnectAlerts.HandleIvaoConnected | proxy.js:264-300 | a connection ends the alert and arms a flight id that was never used |
| DisconnectAlert.DisconnectAlerts.HandleAgentWatchdogFired | proxy.js:308-311 | only a receipt for the current flight cancels |
| DisconnectAlert.LateReceiptsDoNotMatter | proxy.js:308-311 | in every run, receipts for another flight than the current one, wherever they come in, change nothing: without them the run ends in the same state |
| DisconnectAlert.FlightsOnlyGrow | proxy.js:294-311 | so receipts for a flight before the current one never matter again |
| DependencyClosure.LastMarker | scripts/prepare-release.js:211 | the last place at which `node_modules/` begins, or none |
| DependencyClosure.EnclosingOfPath | scripts/prepare-release.js:211-212 | stepping outwards drops exactly the last level of a nested path |
| DependencyClosure.ResolveLockedPackage | scripts/prepare-release.js:206-216 | the shrinking loop ends and finds what the resolution rule says |
| DependencyClosure.ResolveIsNearest | scripts/prepare-release.js:206-216 | the nearest enclosing entry wins, from the package's own directory outwards, below the top or below a workspace directory |
| DependencyClosure.ResolveAtTheTop | scripts/prepare-release.js:213-216 | at the top the package itself, and only if it is not there the first shortest entry elsewhere |
| DependencyClosure.InstalledPath | scripts/prepare-release.js:209-213 | where a package is installed, at the top and inside another |
| DependencyClosure.EndsWithMeans | scripts/prepare-release.js:216 | the keys that end in the fallback's suffix |
| DependencyClosure.WhatAPackageBrings | scripts/prepare-release.js:193-200 | dependencies, optional dependencies and peers that are not optional, wherever they resolve to, and no more |
| DependencyClosure.ShortestEndingIsFirstShortest | scripts/prepare-release.js:215-216 | the fallback is the first in file order among the shortest entries with that ending |
| DependencyClosure.Requests | scripts/prepare-release.js:193-200 | a selected package asks for its dependencies, optional dependencies, and resolvable peers that are not optional, and nothing else |
| DependencyClosure.DependencyClosure | scripts/prepare-release.js:184-204 | the worklist ends with the least set that holds the resolved roots and is closed under what its packages ask for |
| DependencyClosure.ClosureIsReachability | scripts/prepare-release.js:184-204 | a package is selected exactly when a chain from a root reaches it |
| RateLimits.CommandLimiter.AllowCommand | proxy/remote-agent.js:251-268 | accepts exactly when fewer than the maximum were accepted in the closed window ending now; other types are untouched |
| RateLimits.AcceptedStaysLimited | proxy/remote-agent.js:258-268 | so no window of that length, wherever it begins, ever holds more than the maximum, nor does the log |
| RateLimits.RefusedStaysLimited | proxy/remote-agent.js:258-263 | a refusal only forgets what is too old |
| RateLimits.WithinIsExact | proxy/remote-agent.js:257-258 | what counts for a window: exactly the times in the closed interval, each as often, in order |
| RateLimits.MessageLimiter.constructor | proxy/local-web-server.js:64-68 | a connection begins with an open window and no messages |
| RateLimits.MessageLimiter.AllowLocalWsMessage | proxy/local-web-server.js:123-132 | the counter in place lets through exactly the admitted messages |
| RateLimits.AtMostTwice | proxy/local-web-server.js:68-132 | no interval of the window's length admits more than twice the maximum |
| RateLimits.PeakIsExact | proxy/local-web-server.js:68-132 | for every rule, connection and interval the most that any message sequence gets through, reached by one; and exactly which intervals can hold more than the maximum |
| RateLimits.BurstReachesThePeak | proxy/local-web-server.js:68-132 | the message times that reach it |
| RateLimits.OffsetDecides | proxy/local-web-server.js:123-132 | from any state, every message sequence keeps an interval to the maximum exactly when the open window has closed before the interval begins or is used up |
| Weather.ReplyAnswersTheOldest | proxy/fsd-proxy.js:361-381 | a reply answers the first manual and the first panel request of its list and is hidden exactly when only a panel request waited |
| Weather.OldestIsFirst | proxy/fsd-proxy.js:362-363 | the first request is the oldest |
| Weather.OnlyTheSurplusIsHidden | proxy/fsd-proxy.js:356-382 | of any number of replies, while no request expires, only those beyond the manual requests that still meet a panel request stay out of the chat, in whatever order they were asked for |
| Weather.AirportIsFirstBehindKeywords | proxy/fsd-proxy.js:399-408 | a reply is for an airport exactly when that is the first word behind the report's optional keywords, in any letter case |
| Weather.KeywordTexts | proxy/fsd-proxy.js:402-405 | the keywords, in any letter case |
| Weather.SenderNamesTheKind | proxy/fsd-proxy.js:390-397 | a message is a reply exactly when its sender is TAF or METAR, which names its kind, and an airport can be read |
| Weather.YoungRequestsStay | proxy/fsd-proxy.js:411-413 | a cleanup keeps exactly the requests at most 120000 ms old, each once, in order |
| Weather.QueuesOfYoungRequests | proxy/fsd-proxy.js:358-363 | and the two queues hold exactly their own of them |
| Weather.HandledAnswersOldest | proxy/fsd-proxy.js:356-388 | among those requests the reply answers the oldest typed one and the oldest of the panel, the panel gets the report for the latter, and the message is hidden exactly when only the panel waited |
| Weather.WeatherMatcher.RequestThenReply | proxy/fsd-proxy.js:344-388 | one panel request and one reply: within two minutes the panel gets the report and the message is hidden, later neither happens |
| Weather.Bounded | proxy/fsd-proxy.js:353 | the newest eight requests stay, in order |
| Weather.HandedByRole | proxy/fsd-proxy.js:384-388 | a request that names a slot is for that slot, any other for the airport's place in the plan |
| Weather.PlaceInThePlan | proxy/app-state.js:175-181 | departure and destination, the departure first |
| Weather.NamedAirportsReplace | proxy/app-state.js:366-372 | a named airport replaces the one before, any other stays |
| Weather.WeatherMatcher.RememberPendingWeatherRequest | proxy/fsd-proxy.js:344-354 | expired requests go, the new one is last, the newest eight stay |
| Weather.WeatherMatcher.CleanupPendingWeatherRequests | proxy/fsd-proxy.js:410-420 | exactly the requests of the last two minutes stay; empty lists go |
| Weather.WeatherMatcher.AnswerPending | proxy/fsd-proxy.js:360-381 | the answered requests leave their list, the other lists stay |
| Weather.WeatherMatcher.HandleWeatherReply | proxy/fsd-proxy.js:356-388 | the whole effect of a message on pending requests, slots and chat |
| Weather.AppState.UpdateFlightPlanStatus | proxy/app-state.js:121-145 | a filed plan keeps airports it does not name; any change empties both slots, no change keeps every report |
| Weather.AppState.UpdateWeather | proxy/app-state.js:147-173 | a report is stored exactly when its airport is the one of the slot |
| Weather.AppState.OnShowIsCurrent | proxy/app-state.js:121-173 | what a slot shows was delivered for the plan's airport since that plan took effect |
| Weather.ShownReportIsLatest | proxy/app-state.js:147-164 | and no later one was |
| Weather.AppState.RoleForWeatherIcao | proxy/app-state.js:175-181 | the airport's place in the plan; the departure wins |
| Drafts.Composer.SyncComposerDraft | webapp/app.js:2869-2890 | moving to another agent or recipient changes nobody's text |
| Drafts.Composer.SubmitMessage | webapp/app.js:2892-2921 | only the text in view is sent, trimmed; an accepted submission empties only that recipient's composer even if its command opened another; any other changes no text |
| Drafts.KeysMeet | webapp/app.js:2874-2879 | when two contexts share a draft |
| Drafts.DraftSurvives | webapp/app.js:2869-2921 | through any session a text survives unless it is typed over or sent |
| Drafts.Play | webapp/app.js:2869-2921 | the composer shows the reference after every sequence of events |

## Left out

- Sockets, encoder processes, DNS, timers and the clock themselves: they appear as events and parameters.
- Text encoding: strings are byte or character sequences; UTF-8 decoding, lone surrogates, and white space and letter case outside ASCII are not modelled.
- Speex audio, PCM, the browser's microphone processing and the received-voice decoder.
- Outgoing FSD traffic: chunks go through unchanged, so record-level statements are about the incoming direction only.
- FsdProxy.FsdSession.TakeRecord: what handleFsdLine does with a line beyond marking the connection, and the local chat echoes written between records, are not modelled; the blank-line test is a parameter.
- FsdProxy.FsdSession.EndpointDone: the answers of getVoiceEndpoint are an arbitrary function of request number and host, and a promise that never settles is one for which the event does not come.
- OggWriter.OggSpeexWriter.Page: page numbers up to 2^32 - 1 and granules below 2^63, where the field stores of the source do not throw.
- OggStream.CutThroughCapture: that a page is lost is stated for one page behind one stretch and one cut; for any bytes the condition is the one of OggStream.CutMatters.
- MessagePack.Decoder.ReadMap: keys stay values in the order read; a repeated key does not replace the earlier one.
- MessagePack.DecodeMessagePack: floating point values stay images of their bytes, map keys are not turned into strings and a repeated key does not replace the earlier one, and the call stack is unbounded.
- WebTx.WebTx.Start: the monitor's own decoder and the messages to the browser are not modelled.
- VoiceRouter.VoiceRouter.GetEndpoint: SHA-256 is an arbitrary function of the host.
- VoiceProxy.VoiceProxy.DnsAnswer: the TCP passthrough and replies from the server to the local client are not modelled.
- DisconnectAlert.DisconnectAlerts.HandleIvaoConnected: a flight id is assumed never to be drawn twice.
- DisconnectAlert.DisconnectAlerts.ScheduleIvaoDisconnectAlert: the suppression reason is a parameter; the telemetry counters behind it are easy and not modelled.
- DependencyClosure.DependencyClosure: the result is a set; sorting it for output is not modelled.
- Weather.WeatherMatcher.HandleWeatherReply: a display timestamp is the clock reading.
- Drafts.Composer.SubmitMessage: running the command or sending the message is an outcome given to it; choosing the recipient is not modelled.
- The relay, accounts, settings, page rendering, installer, updater, backups and log bounds: input and output, or easy.
